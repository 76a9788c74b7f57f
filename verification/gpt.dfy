/** Reading a GUID partition table: parseGPT of internal/image/gpt.go (UEFI
    Specification 2.10 sections 5.3.2 and 5.3.3). The code computes in 64-bit integers;
    here that is proved to be exact. */
module Gpt {
  import opened Maybe

  type Byte = b: int | 0 <= b < 256

  const MAX_INT64: int := 0x7fff_ffff_ffff_ffff

  newtype Int64 = n: int | -0x8000_0000_0000_0000 <= n < 0x8000_0000_0000_0000
  newtype UInt64 = n: int | 0 <= n < 0x1_0000_0000_0000_0000

  /** An entry as it is used: its number, type and own GUID as stored, position and
      length in sectors, attributes and name as stored. */
  datatype Partition = Partition(index: int, typeGuid: seq<Byte>, uuid: seq<Byte>, start: int, sectors: int, attrs: int, name: seq<Byte>)

  // ----- the format, in unbounded integers

  /** A little-endian integer. */
  function Little(s: seq<Byte>): (n: nat) {
    if s == [] then 0 else s[0] + 256 * Little(s[1..])
  }

  function Power256(n: nat): nat {
    if n == 0 then 1 else 256 * Power256(n - 1)
  }

  lemma {:induction false} LittleBelow(s: seq<Byte>)
    ensures Little(s) < Power256(|s|)
  {
    if s != [] {
      LittleBelow(s[1..]);
    }
  }

  /** ReadAt: fails unless all n bytes are there. */
  function ReadAt(data: seq<Byte>, offset: nat, n: nat): Option<seq<Byte>> {
    if offset + n <= |data| then Some(data[offset..offset + n]) else None
  }

  const SIGNATURE: seq<Byte> := [0x45, 0x46, 0x49, 0x20, 0x50, 0x41, 0x52, 0x54]

  /** The header with its CRC field zeroed. */
  function Unsealed(h: seq<Byte>): seq<Byte>
    requires |h| >= 92
  {
    h[..16] + [0, 0, 0, 0] + h[20..]
  }

  predicate HeaderOk(h: seq<Byte>, lba: int, lastLBA: int, ss: int, crc: seq<Byte> -> int)
    requires 512 <= ss == |h|
  {
    && h[..8] == SIGNATURE
    && 92 <= Little(h[12..16]) <= ss
    && crc(Unsealed(h[..Little(h[12..16])])) == Little(h[16..20])
    && Little(h[24..32]) == lba
    && Little(h[40..48]) <= Little(h[48..56]) <= lastLBA
    && Little(h[84..88]) == 128
    && 0 < Little(h[80..84]) <= 1024
    && Little(h[72..80]) <= lastLBA
    && Little(h[72..80]) <= MAX_INT64 / ss
  }

  function Entry(entries: seq<Byte>, i: nat): (e: seq<Byte>)
    requires 128 * (i + 1) <= |entries|
    ensures |e| == 128
  {
    entries[128 * i..128 * (i + 1)]
  }

  predicate AllZero(s: seq<Byte>) {
    forall i :: 0 <= i < |s| ==> s[i] == 0
  }

  /** The entry is in use and lies inside the usable range. */
  predicate Usable(e: seq<Byte>, first: int, last: int)
    requires |e| == 128
  {
    && !AllZero(e[..16])
    && first <= Little(e[32..40]) <= Little(e[40..48]) <= last
  }

  function PartitionOf(e: seq<Byte>, i: nat): Partition
    requires |e| == 128
  {
    var first, last := Little(e[32..40]), Little(e[40..48]);
    Partition(i + 1, e[..16], e[16..32], first, last - first + 1, Little(e[48..56]), e[56..128])
  }

  /** The usable ones of the first n entries, in order. */
  function Partitions(entries: seq<Byte>, n: nat, first: int, last: int): seq<Partition>
    requires 128 * n <= |entries|
  {
    if n == 0 then []
    else
      var e := Entry(entries, n - 1);
      Partitions(entries, n - 1, first, last) + if Usable(e, first, last) then [PartitionOf(e, n - 1)] else []
  }

  function ParsedAt(data: seq<Byte>, lba: nat, lastLBA: nat, ss: nat, crc: seq<Byte> -> int): Option<seq<Partition>>
    requires ss >= 512
  {
    var h := ReadAt(data, lba * ss, ss);
    if h.None? || !HeaderOk(h.value, lba, lastLBA, ss, crc) then None
    else
      var count := Little(h.value[80..84]);
      var entries := ReadAt(data, Little(h.value[72..80]) * ss, count * 128);
      if entries.None? || crc(entries.value) != Little(h.value[88..92]) then None
      else Some(Partitions(entries.value, count, Little(h.value[40..48]), Little(h.value[48..56])))
  }

  predicate SectorSizeOk(ss: int) {
    ss in {512, 1024, 2048, 4096}
  }

  /** The specification of parseGPT: the primary header, or else the one at the end. */
  function Parsed(data: seq<Byte>, size: int, ss: int, crc: seq<Byte> -> int): Option<seq<Partition>> {
    if !SectorSizeOk(ss) || size / ss < 3 then None
    else
      var last := size / ss - 1;
      var primary := ParsedAt(data, 1, last, ss, crc);
      if primary.Some? then primary else ParsedAt(data, last, last, ss, crc)
  }

  // ----- what the partitions satisfy

  /** In the range, numbered upwards from 1 to n at most. */
  predicate InRange(ps: seq<Partition>, n: int, first: int, last: int) {
    && (forall k :: 0 <= k < |ps| ==> 1 <= ps[k].index <= n && first <= ps[k].start && ps[k].sectors >= 1 && ps[k].start + ps[k].sectors - 1 <= last)
    && (forall j, k :: 0 <= j < k < |ps| ==> ps[j].index < ps[k].index)
  }

  lemma {:induction false} PartitionsInRange(entries: seq<Byte>, n: nat, first: int, last: int)
    requires 128 * n <= |entries|
    ensures InRange(Partitions(entries, n, first, last), n, first, last)
  {
    if n > 0 {
      PartitionsInRange(entries, n - 1, first, last);
      var e := Entry(entries, n - 1);
      var before := Partitions(entries, n - 1, first, last);
      if Usable(e, first, last) {
        OneInRange(e, n - 1, first, last);
        OneMore(before, PartitionOf(e, n - 1), n, first, last);
      } else {
        assert Partitions(entries, n, first, last) == before;
      }
    }
  }

  lemma OneMore(before: seq<Partition>, p: Partition, n: int, first: int, last: int)
    requires InRange(before, n - 1, first, last)
    requires 1 <= p.index == n && first <= p.start && p.sectors >= 1 && p.start + p.sectors - 1 <= last
    ensures InRange(before + [p], n, first, last)
  {
  }

  lemma OneInRange(e: seq<Byte>, i: nat, first: int, last: int)
    requires |e| == 128 && Usable(e, first, last)
    ensures var p := PartitionOf(e, i);
            p.index == i + 1 && first <= p.start && p.sectors >= 1 && p.start + p.sectors - 1 <= last
  {
  }

  /** A sector number up to n times the sector size does not overflow. */
  lemma {:induction false} ProductFits(lba: nat, n: nat, ss: nat)
    requires lba <= n
    ensures lba * ss <= n * ss
    decreases n
  {
    if lba < n {
      ProductFits(lba, n - 1, ss);
      assert n * ss == (n - 1) * ss + ss;
    }
  }

  /** n whole sectors of a size that has at least n of them fit. */
  lemma Fits(n: nat, size: int, ss: int)
    requires ss > 0 && n <= size / ss
    ensures n * ss <= size
  {
    ProductFits(n, size / ss, ss);
    assert size == size / ss * ss + size % ss;
  }

  ghost predicate InImage(ps: seq<Partition>, size: int, ss: int) {
    && (forall k :: 0 <= k < |ps| ==> 0 <= ps[k].start && ps[k].sectors >= 1 && (ps[k].start + ps[k].sectors) * ss <= size)
    && (forall j, k :: 0 <= j < k < |ps| ==> ps[j].index < ps[k].index)
  }

  /** For every image, size and sector size, from either header: partitions lie inside
      the image and their numbers increase. */
  lemma PartitionsInImage(data: seq<Byte>, size: int, ss: int, crc: seq<Byte> -> int)
    requires Parsed(data, size, ss, crc).Some?
    ensures InImage(Parsed(data, size, ss, crc).value, size, ss)
  {
    var last := size / ss - 1;
    var lba := if ParsedAt(data, 1, last, ss, crc).Some? then 1 else last;
    Fits(size / ss, size, ss);
    HeaderInImage(data, lba, size / ss, size, ss, crc);
  }

  lemma HeaderInImage(data: seq<Byte>, lba: nat, sectors: nat, size: int, ss: int, crc: seq<Byte> -> int)
    requires ss >= 512 && sectors >= 1 && sectors * ss <= size && ParsedAt(data, lba, sectors - 1, ss, crc).Some?
    ensures InImage(ParsedAt(data, lba, sectors - 1, ss, crc).value, size, ss)
  {
    hide Partitions, Little;
    var h := ReadAt(data, lba * ss, ss).value;
    var count, first, last := Little(h[80..84]), Little(h[40..48]), Little(h[48..56]);
    var entries := ReadAt(data, Little(h[72..80]) * ss, count * 128).value;
    PartitionsInRange(entries, count, first, last);
    RangeInImage(Partitions(entries, count, first, last), count, first, last, sectors, size, ss);
  }

  lemma RangeInImage(ps: seq<Partition>, n: int, first: nat, last: int, sectors: nat, size: int, ss: nat)
    requires InRange(ps, n, first, last) && last < sectors && sectors * ss <= size
    ensures InImage(ps, size, ss)
  {
    forall k | 0 <= k < |ps|
      ensures (ps[k].start + ps[k].sectors) * ss <= size
    {
      ProductFits(ps[k].start + ps[k].sectors, sectors, ss);
    }
  }

  // ----- the code, in 64-bit integers

  lemma FieldBelow(s: seq<Byte>)
    ensures |s| == 4 ==> Little(s) < 0x1_0000_0000
    ensures |s| == 8 ==> Little(s) < 0x1_0000_0000_0000_0000
  {
    LittleBelow(s);
    assert Power256(4) == 0x1_0000_0000 && Power256(8) == 0x1_0000_0000_0000_0000 by {
      assert Power256(2) == 65536 && Power256(3) == 16777216;
      assert Power256(4) == 256 * Power256(3) && Power256(5) == 256 * Power256(4) && Power256(6) == 256 * Power256(5);
      assert Power256(7) == 256 * Power256(6) && Power256(8) == 256 * Power256(7);
    }
  }

  method Field64(s: seq<Byte>) returns (n: UInt64)
    requires |s| == 8
    ensures n as int == Little(s)
  {
    FieldBelow(s);
    n := Little(s) as UInt64;
  }

  method Field32(s: seq<Byte>) returns (n: UInt64)
    requires |s| == 4
    ensures n as int == Little(s) && n < 0x1_0000_0000
  {
    FieldBelow(s);
    n := Little(s) as UInt64;
  }

  method ReadEntries(entries: seq<Byte>, count: UInt64, firstUsable: UInt64, lastUsable: UInt64, ghost lastLBA: int) returns (parts: seq<Partition>)
    requires count <= 1024 && |entries| == count as int * 128
    requires lastUsable as int <= lastLBA < MAX_INT64
    ensures parts == Partitions(entries, count as int, firstUsable as int, lastUsable as int)
  {
    hide Little, Partitions;
    parts := [];
    NoPartitions(entries, firstUsable as int, lastUsable as int);
    for i := 0 to count
      invariant parts == Partitions(entries, i as int, firstUsable as int, lastUsable as int)
    {
      var e := Entry(entries, i as int);
      MorePartitions(entries, i as int, firstUsable as int, lastUsable as int);
      var first := Field64(e[32..40]);
      var last := Field64(e[40..48]);
      if AllZero(e[..16]) || first > last || first < firstUsable || last > lastUsable {
        continue;
      }
      var sectors: UInt64 := last - first + 1;
      parts := parts + [Partition(i as int + 1, e[..16], e[16..32], first as int, sectors as int, Little(e[48..56]), e[56..128])];
    }
  }

  lemma NoPartitions(entries: seq<Byte>, first: int, last: int)
    ensures Partitions(entries, 0, first, last) == []
  {
  }

  lemma MorePartitions(entries: seq<Byte>, n: nat, first: int, last: int)
    requires 128 * (n + 1) <= |entries|
    ensures Partitions(entries, n + 1, first, last)
            == Partitions(entries, n, first, last) + if Usable(Entry(entries, n), first, last) then [PartitionOf(Entry(entries, n), n)] else []
  {
  }

  method ParseGPTAt(data: seq<Byte>, lba: UInt64, lastLBA: UInt64, ss: Int64, crc: seq<Byte> -> int) returns (r: Option<seq<Partition>>)
    requires SectorSizeOk(ss as int) && lba <= lastLBA && (lastLBA as int + 1) * ss as int <= MAX_INT64
    ensures r == ParsedAt(data, lba as int, lastLBA as int, ss as int, crc)
  {
    hide Little, Partitions, Entry;
    ProductFits(lba as int, lastLBA as int + 1, ss as int);
    ProductFits(lastLBA as int, lastLBA as int + 1, ss as int);
    Positive(lastLBA as int + 1, ss as int);
    var offset: Int64 := lba as Int64 * ss;
    var read := ReadAt(data, offset as int, ss as int);
    if read.None? {
      return None;
    }
    var hdr := read.value;
    var ok, entryLBA, count, first, last := CheckHeader(hdr, lba, lastLBA, ss, crc);
    if !ok {
      return None;
    }
    ProductFits(entryLBA as int, MAX_INT64 / ss as int, ss as int);
    Fits(MAX_INT64 / ss as int, MAX_INT64, ss as int);
    var at: Int64 := entryLBA as Int64 * ss;
    var entries := ReadAt(data, at as int, count as int * 128);
    if entries.None? || crc(entries.value) != Little(hdr[88..92]) {
      return None;
    }
    var parts := ReadEntries(entries.value, count, first, last, lastLBA as int);
    r := Some(parts);
  }

  lemma Positive(n: nat, ss: nat)
    requires ss >= 1
    ensures n <= n * ss
  {
    ProductFits(1, ss, n);
    assert n * ss == ss * n;
  }

  method CheckHeader(hdr: seq<Byte>, lba: UInt64, lastLBA: UInt64, ss: Int64, crc: seq<Byte> -> int)
    returns (ok: bool, entryLBA: UInt64, count: UInt64, firstUsable: UInt64, lastUsable: UInt64)
    requires SectorSizeOk(ss as int) && |hdr| == ss as int && lastLBA as int < MAX_INT64
    ensures ok <==> HeaderOk(hdr, lba as int, lastLBA as int, ss as int, crc)
    ensures ok ==> entryLBA as int == Little(hdr[72..80]) && count as int == Little(hdr[80..84])
    ensures ok ==> firstUsable as int == Little(hdr[40..48]) && lastUsable as int == Little(hdr[48..56])
    ensures ok ==> lastUsable <= lastLBA && entryLBA <= lastLBA && entryLBA as int <= MAX_INT64 / ss as int && count <= 1024
  {
    hide Little;
    ok, entryLBA, count, firstUsable, lastUsable := false, 0, 0, 0, 0;
    if hdr[..8] != SIGNATURE {
      return;
    }
    var hsz := Field32(hdr[12..16]);
    if hsz < 92 || hsz as int > ss as int {
      return;
    }
    var stored := Field32(hdr[16..20]);
    if crc(Unsealed(hdr[..hsz as int])) != stored as int {
      return;
    }
    var my := Field64(hdr[24..32]);
    if my != lba {
      return;
    }
    firstUsable := Field64(hdr[40..48]);
    lastUsable := Field64(hdr[48..56]);
    if firstUsable > lastUsable || lastUsable > lastLBA {
      return;
    }
    entryLBA := Field64(hdr[72..80]);
    count := Field32(hdr[80..84]);
    var entrySize := Field32(hdr[84..88]);
    if entrySize != 128 {
      return;
    }
    if count == 0 || count > 1024 {
      return;
    }
    if entryLBA > lastLBA || entryLBA as int > MAX_INT64 / ss as int {
      return;
    }
    ok := true;
  }

  /** parseGPT: the 64-bit code computes what the format says, without overflow. */
  method ParseGPT(data: seq<Byte>, size: Int64, ss: Int64, crc: seq<Byte> -> int) returns (r: Option<seq<Partition>>)
    ensures r == Parsed(data, size as int, ss as int, crc)
  {
    if !(ss == 512 || ss == 1024 || ss == 2048 || ss == 4096) {
      return None;
    }
    var sectors: Int64 := size / ss;
    if sectors < 3 {
      return None;
    }
    Fits(sectors as int, size as int, ss as int);
    var lastLBA := (sectors - 1) as UInt64;
    assert lastLBA as int + 1 == sectors as int;
    hide ParsedAt;
    r := ParseGPTAt(data, 1, lastLBA, ss, crc);
    if r.Some? {
      return;
    }
    r := ParseGPTAt(data, lastLBA, lastLBA, ss, crc);
  }
}
