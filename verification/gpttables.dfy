/** Tables written by the format of the UEFI Specification 2.10 sections 5.3.2 (header)
    and 5.3.3 (entries) read back: which octets mean what in internal/image/gpt.go. */
module GptTables {
  import opened Maybe
  import opened Gpt

  /** n in k octets, least significant first. */
  function Octets(n: nat, k: nat): (s: seq<Byte>)
    ensures |s| == k
  {
    if k == 0 then [] else [n % 256] + Octets(n / 256, k - 1)
  }

  lemma {:induction false} OctetsRead(n: nat, k: nat)
    requires n < Power256(k)
    ensures Little(Octets(n, k)) == n
    decreases k
  {
    if k > 0 {
      OctetsRead(n / 256, k - 1);
      assert Octets(n, k)[1..] == Octets(n / 256, k - 1);
    }
  }

  lemma Widths()
    ensures Power256(4) == 0x1_0000_0000 && Power256(8) == 0x1_0000_0000_0000_0000
  {
    assert Power256(1) == 0x100 && Power256(2) == 0x1_0000 && Power256(3) == 0x100_0000;
    assert Power256(4) == 256 * Power256(3) && Power256(5) == 256 * Power256(4) && Power256(6) == 256 * Power256(5);
    assert Power256(7) == 256 * Power256(6) && Power256(8) == 256 * Power256(7);
  }

  // ----- fields one after the other

  function Flat(parts: seq<seq<Byte>>): seq<Byte> {
    if parts == [] then [] else Flat(parts[..|parts| - 1]) + parts[|parts| - 1]
  }

  function Offset(parts: seq<seq<Byte>>, i: nat): nat
    requires i <= |parts|
  {
    if i == 0 then 0 else Offset(parts, i - 1) + |parts[i - 1]|
  }

  lemma {:induction false} OffsetPrefix(parts: seq<seq<Byte>>, n: nat, i: nat)
    requires i <= n <= |parts|
    ensures Offset(parts[..n], i) == Offset(parts, i)
  {
    if i > 0 {
      OffsetPrefix(parts, n, i - 1);
    }
  }

  /** The part i stands at its offset. */
  lemma {:induction false} PartAt(parts: seq<seq<Byte>>, i: nat)
    requires i < |parts|
    ensures |Flat(parts)| == Offset(parts, |parts|)
    ensures Offset(parts, i) + |parts[i]| <= |Flat(parts)|
    ensures Flat(parts)[Offset(parts, i)..Offset(parts, i) + |parts[i]|] == parts[i]
    decreases |parts|
  {
    var n := |parts| - 1;
    var init := parts[..n];
    OffsetPrefix(parts, n, n);
    OffsetPrefix(parts, n, i);
    if i < n {
      PartAt(init, i);
      assert init[i] == parts[i];
    } else {
      FlatSize(init);
    }
  }

  lemma {:induction false} FlatSize(parts: seq<seq<Byte>>)
    ensures |Flat(parts)| == Offset(parts, |parts|)
    decreases |parts|
  {
    if parts != [] {
      var n := |parts| - 1;
      FlatSize(parts[..n]);
      OffsetPrefix(parts, n, n);
    }
  }

  /** Another part of the same size changes the octets of that part only. */
  lemma {:induction false} PartChanged(parts: seq<seq<Byte>>, i: nat, x: seq<Byte>)
    requires i < |parts| && |x| == |parts[i]|
    ensures Offset(parts, i) + |x| <= |Flat(parts)|
    ensures Flat(parts[i := x]) == Flat(parts)[..Offset(parts, i)] + x + Flat(parts)[Offset(parts, i) + |x|..]
    decreases |parts|
  {
    var n := |parts| - 1;
    var init, changed := parts[..n], parts[i := x];
    PartAt(parts, i);
    OffsetPrefix(parts, n, i);
    if i < n {
      PartChanged(init, i, x);
      assert changed[..n] == init[i := x] && changed[n] == parts[n];
      var f := Flat(init);
      assert Flat(parts) == f + parts[n];
      assert Flat(parts)[Offset(parts, i) + |x|..] == f[Offset(parts, i) + |x|..] + parts[n];
    } else {
      FlatSize(init);
      assert changed[..n] == init;
    }
  }

  // ----- entries

  /** An entry of the table; one with type GUID zero is not used. */
  datatype Slot = Slot(typeGuid: seq<Byte>, uuid: seq<Byte>, first: nat, last: nat, attrs: nat, name: seq<Byte>)

  ghost predicate SlotOk(s: Slot) {
    && |s.typeGuid| == 16 && |s.uuid| == 16 && |s.name| == 72
    && s.first < 0x1_0000_0000_0000_0000 && s.last < 0x1_0000_0000_0000_0000 && s.attrs < 0x1_0000_0000_0000_0000
  }

  function SlotParts(s: Slot): seq<seq<Byte>> {
    [s.typeGuid, s.uuid, Octets(s.first, 8), Octets(s.last, 8), Octets(s.attrs, 8), s.name]
  }

  function SlotOctets(s: Slot): seq<Byte> {
    Flat(SlotParts(s))
  }

  /** An entry reads back: type and own GUID, position, attributes and name. */
  lemma SlotReads(s: Slot, i: nat)
    requires SlotOk(s)
    ensures var e := SlotOctets(s);
            && |e| == 128
            && PartitionOf(e, i) == Partition(i + 1, s.typeGuid, s.uuid, s.first, s.last - s.first + 1, s.attrs, s.name)
            && forall lo, hi :: Usable(e, lo, hi) <==> !AllZero(s.typeGuid) && lo <= s.first <= s.last <= hi
  {
    var parts := SlotParts(s);
    hide Flat, Little, Octets, AllZero;
    assert Offset(parts, 1) == 16 && Offset(parts, 2) == 32 && Offset(parts, 3) == 40;
    assert Offset(parts, 4) == 48 && Offset(parts, 5) == 56 && Offset(parts, 6) == 128;
    PartAt(parts, 0);
    PartAt(parts, 1);
    PartAt(parts, 2);
    PartAt(parts, 3);
    PartAt(parts, 4);
    PartAt(parts, 5);
    Widths();
    OctetsRead(s.first, 8);
    OctetsRead(s.last, 8);
    OctetsRead(s.attrs, 8);
    hide Offset, Power256, SlotParts;
    assert Flat(parts)[..16] == Flat(parts)[0..16];
  }

  // ----- the header

  datatype Head = Head(
    revision: seq<Byte>, crc: nat, lba: nat, other: nat, first: nat, last: nat, disk: seq<Byte>, entries: nat, count: nat, entriesCrc: nat,
    rest: seq<Byte>)

  ghost predicate HeadOk(h: Head) {
    && |h.revision| == 4 && |h.disk| == 16
    && h.crc < 0x1_0000_0000 && h.entriesCrc < 0x1_0000_0000 && h.count < 0x1_0000_0000
    && h.lba < 0x1_0000_0000_0000_0000 && h.other < 0x1_0000_0000_0000_0000 && h.entries < 0x1_0000_0000_0000_0000
    && h.first < 0x1_0000_0000_0000_0000 && h.last < 0x1_0000_0000_0000_0000
  }

  /** The fields of a header of 92 octets, and what follows it in its sector. */
  function HeadParts(h: Head): seq<seq<Byte>> {
    [SIGNATURE, h.revision, Octets(92, 4), Octets(h.crc, 4), [0, 0, 0, 0],
     Octets(h.lba, 8), Octets(h.other, 8), Octets(h.first, 8), Octets(h.last, 8), h.disk,
     Octets(h.entries, 8), Octets(h.count, 4), Octets(128, 4), Octets(h.entriesCrc, 4), h.rest]
  }

  function HeadOctets(h: Head): seq<Byte> {
    Flat(HeadParts(h))
  }

  /** The sizes of the header's fields. */
  ghost predicate HeadSizes(p: seq<seq<Byte>>) {
    && |p| == 15
    && |p[0]| == 8 && |p[1]| == 4 && |p[2]| == 4 && |p[3]| == 4 && |p[4]| == 4
    && |p[5]| == 8 && |p[6]| == 8 && |p[7]| == 8 && |p[8]| == 8 && |p[9]| == 16
    && |p[10]| == 8 && |p[11]| == 4 && |p[12]| == 4 && |p[13]| == 4
  }

  lemma HeadOffsets(p: seq<seq<Byte>>)
    requires HeadSizes(p)
    ensures Offset(p, 0) == 0 && Offset(p, 1) == 8 && Offset(p, 2) == 12 && Offset(p, 3) == 16 && Offset(p, 4) == 20
    ensures Offset(p, 5) == 24 && Offset(p, 6) == 32 && Offset(p, 7) == 40 && Offset(p, 8) == 48 && Offset(p, 9) == 56
    ensures Offset(p, 10) == 72 && Offset(p, 11) == 80 && Offset(p, 12) == 84 && Offset(p, 13) == 88 && Offset(p, 14) == 92
    ensures |Flat(p)| == 92 + |p[14]|
  {
    hide Flat;
    assert Offset(p, 1) == 8;
    assert Offset(p, 2) == 12;
    assert Offset(p, 3) == 16;
    assert Offset(p, 4) == 20;
    assert Offset(p, 5) == 24;
    assert Offset(p, 6) == 32;
    assert Offset(p, 7) == 40;
    assert Offset(p, 8) == 48;
    assert Offset(p, 9) == 56;
    assert Offset(p, 10) == 72;
    assert Offset(p, 11) == 80;
    assert Offset(p, 12) == 84;
    assert Offset(p, 13) == 88;
    assert Offset(p, 14) == 92;
    FlatSize(p);
  }

  /** A number among the parts. */
  lemma NumberAt(p: seq<seq<Byte>>, i: nat, lo: nat, n: nat, k: nat)
    requires i < |p| && Offset(p, i) == lo && p[i] == Octets(n, k) && n < Power256(k)
    ensures lo + k <= |Flat(p)| && Little(Flat(p)[lo..lo + k]) == n
  {
    hide Flat, Offset, Little, Power256;
    PartAt(p, i);
    OctetsRead(n, k);
  }

  /** Each field stands where the format puts it. */
  lemma HeadReads(h: Head)
    requires HeadOk(h)
    ensures var s := HeadOctets(h);
            && |s| == 92 + |h.rest|
            && s[..8] == SIGNATURE && Little(s[12..16]) == 92 && Little(s[16..20]) == h.crc
            && Little(s[24..32]) == h.lba && Little(s[40..48]) == h.first && Little(s[48..56]) == h.last
            && Little(s[72..80]) == h.entries && Little(s[80..84]) == h.count && Little(s[84..88]) == 128 && Little(s[88..92]) == h.entriesCrc
  {
    hide Flat, Little, Octets, Offset, Power256;
    var p := HeadParts(h);
    HeadOffsets(p);
    Widths();
    PartAt(p, 0);
    assert Flat(p)[..8] == Flat(p)[0..8];
    NumberAt(p, 2, 12, 92, 4);
    NumberAt(p, 3, 16, h.crc, 4);
    NumberAt(p, 5, 24, h.lba, 8);
    NumberAt(p, 7, 40, h.first, 8);
    NumberAt(p, 8, 48, h.last, 8);
    NumberAt(p, 10, 72, h.entries, 8);
    NumberAt(p, 11, 80, h.count, 4);
    NumberAt(p, 12, 84, 128, 4);
    NumberAt(p, 13, 88, h.entriesCrc, 4);
  }

  /** The octets the CRC is taken of: the header with zero in place of its CRC. */
  lemma HeadUnsealed(h: Head)
    requires HeadOk(h)
    ensures |HeadOctets(h)| >= 92 && |HeadOctets(h.(crc := 0))| >= 92
    ensures Unsealed(HeadOctets(h)[..92]) == HeadOctets(h.(crc := 0))[..92]
  {
    hide Flat, Offset, Octets, Unsealed;
    var p, zero: seq<Byte> := HeadParts(h), [0, 0, 0, 0];
    ZeroOctets();
    assert HeadParts(h.(crc := 0)) == p[3 := zero];
    HeadOffsets(p);
    HeadOffsets(p[3 := zero]);
    PartChanged(p, 3, zero);
    Zeroed(Flat(p), Flat(p[3 := zero]));
  }

  lemma Zeroed(s: seq<Byte>, t: seq<Byte>)
    requires |s| >= 92 && t == s[..16] + [0, 0, 0, 0] + s[20..]
    ensures Unsealed(s[..92]) == t[..92]
  {
  }

  lemma ZeroOctets()
    ensures Octets(0, 4) == [0, 0, 0, 0]
  {
    assert Octets(0, 1) == [0] && Octets(0, 2) == [0, 0] && Octets(0, 3) == [0, 0, 0];
  }

  // ----- the table

  function SlotsOctets(slots: seq<Slot>): seq<Byte> {
    if slots == [] then [] else SlotsOctets(slots[..|slots| - 1]) + SlotOctets(slots[|slots| - 1])
  }

  /** The partitions of the first n entries: those in use within the usable range, each
      numbered by its place. */
  function Listed(slots: seq<Slot>, n: nat, first: int, last: int): seq<Partition>
    requires n <= |slots|
  {
    if n == 0 then []
    else
      var s := slots[n - 1];
      Listed(slots, n - 1, first, last) +
      if !AllZero(s.typeGuid) && first <= s.first <= s.last <= last then
        [Partition(n, s.typeGuid, s.uuid, s.first, s.last - s.first + 1, s.attrs, s.name)]
      else []
  }

  lemma {:induction false} SlotsSize(slots: seq<Slot>)
    requires forall s :: s in slots ==> SlotOk(s)
    ensures |SlotsOctets(slots)| == 128 * |slots|
    decreases |slots|
  {
    if slots != [] {
      SlotsSize(slots[..|slots| - 1]);
      SlotReads(slots[|slots| - 1], 0);
    }
  }

  lemma {:induction false} SlotAt(slots: seq<Slot>, i: nat)
    requires i < |slots| && forall s :: s in slots ==> SlotOk(s)
    ensures 128 * (i + 1) <= |SlotsOctets(slots)| && Entry(SlotsOctets(slots), i) == SlotOctets(slots[i])
    decreases |slots|
  {
    hide SlotOctets;
    SlotsSize(slots);
    var n := |slots| - 1;
    var init := slots[..n];
    SlotsSize(init);
    SlotReads(slots[n], 0);
    if i < n {
      SlotAt(init, i);
      assert init[i] == slots[i];
    }
  }

  lemma {:induction false} SlotsRead(slots: seq<Slot>, n: nat, first: int, last: int)
    requires n <= |slots| && forall s :: s in slots ==> SlotOk(s)
    ensures |SlotsOctets(slots)| == 128 * |slots|
    ensures Partitions(SlotsOctets(slots), n, first, last) == Listed(slots, n, first, last)
  {
    hide SlotOctets, SlotsOctets, Entry, AllZero, PartitionOf, Usable, Little, SlotOk;
    SlotsSize(slots);
    if n > 0 {
      SlotsRead(slots, n - 1, first, last);
      SlotAt(slots, n - 1);
      SlotReads(slots[n - 1], n - 1);
    }
  }

  lemma HeadAccepted(h: Head, lastLBA: nat, ss: nat, crc: seq<Byte> -> int)
    requires ss >= 512 && HeadOk(h) && |h.rest| == ss - 92 && h.first <= h.last <= lastLBA && 0 < h.count <= 1024
    requires h.entries <= lastLBA && h.entries <= MAX_INT64 / ss
    requires |HeadOctets(h.(crc := 0))| >= 92 && h.crc == crc(HeadOctets(h.(crc := 0))[..92])
    ensures |HeadOctets(h)| == ss && HeaderOk(HeadOctets(h), h.lba, lastLBA, ss, crc)
  {
    hide HeadOctets, Unsealed, Little;
    HeadReads(h);
    HeadUnsealed(h);
  }

  /** A table written by the format, with the CRCs right, reads back as the partitions it
      lists, whatever else is in the image. */
  lemma TableReads(data: seq<Byte>, lba: nat, lastLBA: nat, ss: nat, h: Head, slots: seq<Slot>, crc: seq<Byte> -> int)
    requires ss >= 512 && HeadOk(h) && |h.rest| == ss - 92 && forall s :: s in slots ==> SlotOk(s)
    requires ReadAt(data, lba * ss, ss) == Some(HeadOctets(h))
    requires ReadAt(data, h.entries * ss, |slots| * 128) == Some(SlotsOctets(slots))
    requires h.lba == lba && h.first <= h.last <= lastLBA && h.count == |slots| && 0 < |slots| <= 1024
    requires h.entries <= lastLBA && h.entries <= MAX_INT64 / ss
    requires |HeadOctets(h.(crc := 0))| >= 92 && h.crc == crc(HeadOctets(h.(crc := 0))[..92]) && h.entriesCrc == crc(SlotsOctets(slots))
    ensures ParsedAt(data, lba, lastLBA, ss, crc) == Some(Listed(slots, |slots|, h.first, h.last))
  {
    hide HeadOctets, SlotsOctets, Partitions, Listed, Unsealed, ReadAt, Little, HeaderOk;
    HeadReads(h);
    HeadAccepted(h, lastLBA, ss, crc);
    SlotsRead(slots, |slots|, h.first, h.last);
  }
}
