/** Objects encoded by the rules of ITU-T X.690 sections 8.1.2 to 8.1.5, and what the
    header reader and the depth check of internal/image/signature.go make of them. */
module BerObjects {
  import opened Ber

  // ----- headers

  type Class = c: int | 0 <= c < 4

  /** The first identifier octet: the class in bits 8 and 7, bit 6 for a constructed
      encoding, and a tag number, or 31 for one that follows. */
  function FirstOctet(cls: Class, constructed: bool, low: int): Byte
    requires 0 <= low < 32
  {
    cls * 64 + (if constructed then 32 else 0) + low
  }

  /** Identifier octets: of the subsequent ones all but the last have bit 8 set. */
  ghost predicate IsIdentifier(s: seq<Byte>, constructed: bool) {
    && s != []
    && exists cls: Class, low: int {:trigger FirstOctet(cls, constructed, low)} ::
         && 0 <= low < 32 && s[0] == FirstOctet(cls, constructed, low)
         && (if low < 31 then |s| == 1
             else |s| > 1 && s[|s| - 1] < 0x80 && forall k :: 1 <= k < |s| - 1 ==> s[k] >= 0x80)
  }

  /** Length octets of a definite length: the short form, or the long form with one to
      four octets, the first not zero, for a value of less than 32 bits. */
  ghost predicate IsLength(s: seq<Byte>, length: nat) {
    || (|s| == 1 && s[0] < 0x80 && length == s[0])
    || (2 <= |s| <= 5 && s[0] == 0x80 + |s| - 1 && s[1] != 0 && (|s| == 5 ==> s[1] < 0x80) && length == BigEndian(s[1..]))
  }

  /** The octets from offset to h.start are identifier and length octets that say what h
      says; the identifier octets end at a. */
  ghost predicate IsHeader(data: seq<Byte>, offset: nat, a: nat, h: Header) {
    && h.Header? && offset < a < h.start <= h.end <= |data|
    && IsIdentifier(data[offset..a], h.constructed)
    && (if h.indefinite then data[a..h.start] == [0x80] && h.constructed && h.end == h.start
        else IsLength(data[a..h.start], h.end - h.start))
  }

  lemma FirstOctetBits(cls: Class, constructed: bool, low: int)
    requires 0 <= low < 32
    ensures FirstOctet(cls, constructed, low) % 0x20 == low
    ensures (FirstOctet(cls, constructed, low) / 0x20) % 2 == (if constructed then 1 else 0)
  {
  }

  lemma OctetSplits(b: Byte)
    ensures b == FirstOctet(b / 0x40, (b / 0x20) % 2 == 1, b % 0x20)
  {
  }

  lemma {:induction false} TagEndIs(data: seq<Byte>, i: nat, e: nat)
    requires i < e <= |data| && data[e - 1] < 0x80 && forall k :: i <= k < e - 1 ==> data[k] >= 0x80
    ensures TagEnd(data, i) == e
    decreases e - i
  {
    if i + 1 < e {
      TagEndIs(data, i + 1, e);
    }
  }

  lemma {:induction false} TagEndHas(data: seq<Byte>, i: nat)
    requires i < |data| && TagEnd(data, i) < |data|
    ensures var e := TagEnd(data, i);
            data[e - 1] < 0x80 && forall k :: i <= k < e - 1 ==> data[k] >= 0x80
    decreases |data| - i
  {
    if data[i] >= 0x80 {
      TagEndHas(data, i + 1);
    }
  }

  /** Where the identifier octets end. */
  function IdentifierEnd(data: seq<Byte>, offset: nat): nat
    requires offset + 1 < |data|
  {
    if data[offset] % 0x20 == 0x1f then TagEnd(data, offset + 1) else offset + 1
  }

  lemma IdentifierIs(data: seq<Byte>, offset: nat, a: nat, constructed: bool)
    requires offset < a < |data|
    ensures IsIdentifier(data[offset..a], constructed) <==> IdentifierEnd(data, offset) == a && constructed == ((data[offset] / 0x20) % 2 == 1)
  {
    var s, b := data[offset..a], data[offset];
    OctetSplits(b);
    if IsIdentifier(s, constructed) {
      var cls: Class, low: int :| 0 <= low < 32 && s[0] == FirstOctet(cls, constructed, low)
        && (if low < 31 then |s| == 1
            else |s| > 1 && s[|s| - 1] < 0x80 && forall k :: 1 <= k < |s| - 1 ==> s[k] >= 0x80);
      FirstOctetBits(cls, constructed, low);
      hide FirstOctet;
      if low == 31 {
        assert data[a - 1] == s[|s| - 1];
        forall k | offset + 1 <= k < a - 1
          ensures data[k] >= 0x80
        {
          assert data[k] == s[k - offset];
        }
        TagEndIs(data, offset + 1, a);
      }
    }
    if IdentifierEnd(data, offset) == a && constructed == ((b / 0x20) % 2 == 1) {
      if b % 0x20 == 31 {
        TagEndHas(data, offset + 1);
        assert s[|s| - 1] == data[a - 1];
      }
      var cls: Class := b / 0x40;
      assert s[0] == FirstOctet(cls, constructed, b % 0x20);
    }
  }

  /** The length octets from a to h.start say what h says. */
  ghost predicate IsContent(data: seq<Byte>, a: nat, h: Header) {
    && h.Header? && a < h.start <= h.end <= |data|
    && (if h.indefinite then data[a..h.start] == [0x80] && h.constructed && h.end == h.start
        else IsLength(data[a..h.start], h.end - h.start))
  }

  lemma LengthIs(data: seq<Byte>, constructed: bool, a: nat, h: Header)
    requires a < |data| && h.Header? && h.constructed == constructed
    ensures LengthAt(data, constructed, a) == h <==> IsContent(data, a, h)
  {
    hide BigEndian;
    var l, o := data[a], a + 1;
    if a < h.start <= |data| {
      assert data[a..h.start][0] == l && data[a..h.start][1..] == data[o..h.start];
      assert h.start > o ==> data[a..h.start][1] == data[o];
    }
  }

  lemma LengthKeeps(data: seq<Byte>, constructed: bool, a: nat)
    requires a < |data|
    ensures var h := LengthAt(data, constructed, a); h.Header? ==> h.constructed == constructed
  {
  }

  /** The reader accepts exactly what the encoding rules describe, and reads what it says. */
  lemma HeaderIs(data: seq<Byte>, offset: nat, h: Header)
    ensures (h.Header? && HeaderAt(data, offset) == h) <==> exists a: nat :: IsHeader(data, offset, a, h)
  {
    hide IsIdentifier, IsLength, LengthAt;
    if h.Header? && HeaderAt(data, offset) == h {
      var a := IdentifierEnd(data, offset);
      LengthKeeps(data, (data[offset] / 0x20) % 2 == 1, a);
      IdentifierIs(data, offset, a, h.constructed);
      LengthIs(data, h.constructed, a, h);
      assert IsHeader(data, offset, a, h);
    }
    if a: nat :| IsHeader(data, offset, a, h) {
      IdentifierIs(data, offset, a, h.constructed);
      LengthIs(data, h.constructed, a, h);
    }
  }

  // ----- encoding

  /** A number in base 128, bit 8 set in all octets but the last. */
  function Base128(n: nat): (s: seq<Byte>)
    ensures |s| > 0 && s[|s| - 1] < 0x80 && forall k :: 0 <= k < |s| - 1 ==> s[k] >= 0x80
  {
    More(n / 128) + [n % 128]
  }

  function More(n: nat): (s: seq<Byte>)
    ensures forall k :: 0 <= k < |s| ==> s[k] >= 0x80
  {
    if n == 0 then [] else More(n / 128) + [0x80 + n % 128]
  }

  function Identify(cls: Class, constructed: bool, tag: nat): (s: seq<Byte>)
    ensures |s| > 0
  {
    if tag < 31 then [FirstOctet(cls, constructed, tag)] else [FirstOctet(cls, constructed, 31)] + Base128(tag)
  }

  lemma Identified(cls: Class, constructed: bool, tag: nat)
    ensures IsIdentifier(Identify(cls, constructed, tag), constructed)
  {
    var s, low := Identify(cls, constructed, tag), if tag < 31 then tag else 31;
    hide FirstOctet, Base128;
    assert s[0] == FirstOctet(cls, constructed, low);
  }

  /** A length in as few octets as possible, most significant first. */
  function Octets(n: nat): (s: seq<Byte>)
    ensures BigEndian(s) == n && (n > 0 ==> s != [] && s[0] != 0)
  {
    if n == 0 then [] else
      var s := Octets(n / 256) + [n % 256];
      assert s[..|s| - 1] == Octets(n / 256);
      s
  }

  function LengthOctets(length: nat): (s: seq<Byte>)
    requires length < 0x8000_0000
    ensures IsLength(s, length)
  {
    if length < 0x80 then [length]
    else
      OctetsShort(length);
      var s := Octets(length);
      assert ([0x80 + |s|] + s)[1..] == s;
      [0x80 + |s|] + s
  }

  lemma OctetsStep(n: nat)
    requires n > 0
    ensures |Octets(n)| == |Octets(n / 256)| + 1 && (n / 256 == 0 ==> Octets(n) == [n])
    ensures n / 256 > 0 ==> Octets(n)[0] == Octets(n / 256)[0]
  {
  }

  lemma OctetsShort(n: nat)
    requires 0x80 <= n < 0x8000_0000
    ensures 1 <= |Octets(n)| <= 4 && (|Octets(n)| == 4 ==> Octets(n)[0] < 0x80)
  {
    hide Octets;
    var a := n / 256;
    var b := a / 256;
    var c := b / 256;
    assert c < 0x80;
    assert Octets(0) == [] by {
      OctetsNone();
    }
    OctetsStep(n);
    if a > 0 {
      OctetsStep(a);
      if b > 0 {
        OctetsStep(b);
        if c > 0 {
          OctetsStep(c);
        }
      }
    }
  }

  lemma OctetsNone()
    ensures Octets(0) == []
  {
  }

  /** s stands in the data at offset. */
  predicate Holds(data: seq<Byte>, offset: nat, s: seq<Byte>) {
    offset + |s| <= |data| && data[offset..offset + |s|] == s
  }

  /** Every definite length of less than 32 bits reads back, whatever class and tag. */
  lemma DefiniteReads(data: seq<Byte>, offset: nat, cls: Class, constructed: bool, tag: nat, length: nat)
    requires length < 0x8000_0000
    requires var s := Identify(cls, constructed, tag) + LengthOctets(length);
             Holds(data, offset, s) && offset + |s| + length <= |data|
    ensures var start := offset + |Identify(cls, constructed, tag) + LengthOctets(length)|;
            HeaderAt(data, offset) == Header(constructed, false, start, start + length)
  {
    hide Identify, LengthOctets, HeaderAt, IsIdentifier, IsLength;
    var i, l := Identify(cls, constructed, tag), LengthOctets(length);
    var a, start := offset + |i|, offset + |i + l|;
    Identified(cls, constructed, tag);
    assert data[offset..start] == i + l;
    assert data[offset..a] == data[offset..start][..|i|] == i;
    assert data[a..start] == data[offset..start][|i|..] == l;
    assert IsLength(l, length);
    assert |l| > 0 by {
      LengthSize(length);
    }
    HeaderIs(data, offset, Header(constructed, false, start, start + length));
    assert IsHeader(data, offset, a, Header(constructed, false, start, start + length));
  }

  lemma LengthSize(length: nat)
    requires length < 0x8000_0000
    ensures |LengthOctets(length)| > 0
  {
  }

  /** The indefinite form reads back for constructed encodings, and no header says so for
      a primitive one. */
  lemma IndefiniteReads(data: seq<Byte>, offset: nat, cls: Class, constructed: bool, tag: nat)
    requires Holds(data, offset, Identify(cls, constructed, tag) + [0x80])
    ensures var start := offset + |Identify(cls, constructed, tag)| + 1;
            HeaderAt(data, offset) == if constructed then Header(true, true, start, start) else Malformed
  {
    hide Identify, HeaderAt, IsIdentifier, IsLength;
    var i := Identify(cls, constructed, tag);
    var a := offset + |i|;
    Identified(cls, constructed, tag);
    var start := a + 1;
    assert data[offset..start] == i + [0x80];
    assert data[offset..a] == data[offset..start][..|i|] == i;
    assert data[a..start] == data[offset..start][|i|..] == [0x80];
    if constructed {
      HeaderIs(data, offset, Header(true, true, start, start));
      assert IsHeader(data, offset, a, Header(true, true, start, start));
    } else {
      NoHeader(data, offset, a);
    }
  }

  lemma NoHeader(data: seq<Byte>, offset: nat, a: nat)
    requires offset < a < |data| && IsIdentifier(data[offset..a], false) && data[a] == 0x80
    ensures HeaderAt(data, offset) == Malformed
  {
    IdentifierIs(data, offset, a, false);
  }

  // ----- objects

  /** An object with its class and tag number: primitive, or constructed in the definite
      or the indefinite form. */
  datatype Object =
    | Primitive(cls: Class, tag: nat, content: seq<Byte>)
    | Definite(cls: Class, tag: nat, children: Forest)
    | Indefinite(cls: Class, tag: nat, children: Forest)

  datatype Forest = Leaf | Grove(first: Object, rest: Forest)

  /** How deep constructed objects nest. */
  function Depth(o: Object): nat {
    match o
    case Primitive(_, _, _) => 0
    case Definite(_, _, f) => 1 + DepthAll(f)
    case Indefinite(_, _, f) => 1 + DepthAll(f)
  }

  function DepthAll(f: Forest): nat {
    match f
    case Leaf => 0
    case Grove(o, rest) => if Depth(o) < DepthAll(rest) then DepthAll(rest) else Depth(o)
  }

  const END_OF_CONTENTS: seq<Byte> := [0, 0]

  function Encode(o: Object): (s: seq<Byte>)
    requires Encodable(o)
    ensures |s| >= 2
    decreases o, 2
  {
    match o
    case Primitive(c, t, content) => Identify(c, false, t) + LengthOctets(|content|) + content
    case Definite(c, t, f) => Identify(c, true, t) + LengthOctets(|EncodeAll(f)|) + EncodeAll(f)
    case Indefinite(c, t, f) => Identify(c, true, t) + [0x80] + EncodeAll(f) + END_OF_CONTENTS
  }

  function EncodeAll(f: Forest): seq<Byte>
    requires AllEncodable(f)
    decreases f, 2
  {
    match f
    case Leaf => []
    case Grove(o, rest) => Encode(o) + EncodeAll(rest)
  }

  /** Definite lengths fit 31 bits. An object of the indefinite form has a child, and no
      later one that looks like the end of the contents. */
  predicate Encodable(o: Object)
    decreases o, 1
  {
    match o
    case Primitive(_, _, content) => |content| < 0x8000_0000
    case Definite(_, _, f) => AllEncodable(f) && |EncodeAll(f)| < 0x8000_0000
    case Indefinite(_, _, f) => AllEncodable(f) && f.Grove? && NoEnd(f.rest)
  }

  predicate AllEncodable(f: Forest)
    decreases f, 1
  {
    f.Grove? ==> Encodable(f.first) && AllEncodable(f.rest)
  }

  predicate NoEnd(f: Forest) {
    f.Grove? ==> f.first != Primitive(0, 0, []) && NoEnd(f.rest)
  }

  /** Only an empty primitive object of class 0 and tag 0 begins like the end of the
      contents. */
  lemma LooksLikeEnd(o: Object)
    requires Encodable(o)
    ensures o != Primitive(0, 0, []) ==> Encode(o)[..2] != END_OF_CONTENTS
  {
    hide EncodeAll, BigEndian;
    var constructed := !o.Primitive?;
    var first := Encode(o)[0];
    assert first == Identify(o.cls, constructed, o.tag)[0];
    if o.Primitive? && o.cls == 0 && o.tag == 0 {
      assert Encode(o)[1] == LengthOctets(|o.content|)[0];
    }
  }

  lemma HeldParts(data: seq<Byte>, offset: nat, a: seq<Byte>, b: seq<Byte>)
    requires Holds(data, offset, a + b)
    ensures Holds(data, offset, a) && Holds(data, offset + |a|, b)
  {
    var s := data[offset..offset + |a + b|];
    assert data[offset..offset + |a|] == s[..|a|] == a;
    assert data[offset + |a|..offset + |a| + |b|] == s[|a|..] == b;
  }

  /** A reading that succeeds exactly when the nesting fits the depth. */
  predicate Reads(r: Reading, fits: bool, end: nat) {
    if fits then r.Done? && r.end == end else r.Fail?
  }

  lemma {:induction false} ReadsObject(data: seq<Byte>, offset: nat, o: Object, depth: nat)
    requires Encodable(o) && Holds(data, offset, Encode(o))
    ensures Reads(ReadObject(data, offset, depth), Depth(o) <= depth, offset + |Encode(o)|)
    decreases o, 1
  {
    hide Identify, LengthOctets, HeaderAt, Holds, EncodeAll, DepthAll;
    match o
    case Primitive(c, t, content) =>
      var l := Identify(c, false, t) + LengthOctets(|content|);
      HeldParts(data, offset, l, content);
      HeldFits(data, offset + |l|, content);
      DefiniteReads(data, offset, c, false, t, |content|);
    case Definite(c, t, f) =>
      var l := Identify(c, true, t) + LengthOctets(|EncodeAll(f)|);
      HeldParts(data, offset, l, EncodeAll(f));
      HeldFits(data, offset + |l|, EncodeAll(f));
      DefiniteReads(data, offset, c, true, t, |EncodeAll(f)|);
      if depth > 0 {
        ReadsAll(data, offset + |l|, f, depth - 1);
      }
    case Indefinite(c, t, f) =>
      var l := Identify(c, true, t) + [0x80];
      assert Encode(o) == l + (EncodeAll(f) + END_OF_CONTENTS);
      HeldParts(data, offset, l, EncodeAll(f) + END_OF_CONTENTS);
      IndefiniteReads(data, offset, c, true, t);
      if depth > 0 {
        ReadsToEnd(data, offset + |l|, f, depth - 1);
      }
  }

  lemma HeldFits(data: seq<Byte>, offset: nat, s: seq<Byte>)
    requires Holds(data, offset, s)
    ensures offset + |s| <= |data|
  {
  }

  lemma {:induction false} ReadsAll(data: seq<Byte>, offset: nat, f: Forest, depth: nat)
    requires AllEncodable(f) && Holds(data, offset, EncodeAll(f)) && offset + |EncodeAll(f)| <= |data|
    ensures var end := offset + |EncodeAll(f)|; Reads(ReadDefinite(data, offset, end, depth), DepthAll(f) <= depth, end)
    decreases f, 1
  {
    hide Encode, ReadObject, Holds;
    if f.Grove? {
      HeldParts(data, offset, Encode(f.first), EncodeAll(f.rest));
      ReadsObject(data, offset, f.first, depth);
      ReadsAll(data, offset + |Encode(f.first)|, f.rest, depth);
    }
  }

  lemma {:induction false} ReadsToEnd(data: seq<Byte>, offset: nat, f: Forest, depth: nat)
    requires AllEncodable(f) && f.Grove? && NoEnd(f.rest) && Holds(data, offset, EncodeAll(f) + END_OF_CONTENTS)
    ensures Reads(ReadIndefinite(data, offset, depth), DepthAll(f) <= depth, offset + |EncodeAll(f) + END_OF_CONTENTS|)
    decreases f, 1
  {
    hide Encode, ReadObject;
    var s, rest := Encode(f.first), EncodeAll(f.rest) + END_OF_CONTENTS;
    assert EncodeAll(f) + END_OF_CONTENTS == s + rest;
    HeldParts(data, offset, s, rest);
    ReadsObject(data, offset, f.first, depth);
    var next := offset + |s|;
    if f.rest.Grove? {
      LooksLikeEnd(f.rest.first);
      assert rest == Encode(f.rest.first) + (EncodeAll(f.rest.rest) + END_OF_CONTENTS);
      assert rest[..2] == Encode(f.rest.first)[..2];
      assert data[next..next + |rest|][..2] == [data[next], data[next + 1]];
      ReadsToEnd(data, next, f.rest, depth);
    } else {
      assert rest == END_OF_CONTENTS && data[next..next + 2] == [data[next], data[next + 1]];
    }
  }

  /** The encoding of an object, whatever follows it, is accepted exactly when its
      constructed objects nest at most maxDepth deep. */
  lemma EncodedAccepted(o: Object, rest: seq<Byte>, maxDepth: nat)
    requires Encodable(o)
    ensures Accepts(Encode(o) + rest, maxDepth) <==> Depth(o) <= maxDepth
  {
    hide Encode, ReadObject;
    var data := Encode(o) + rest;
    assert data[0..|Encode(o)|] == Encode(o);
    ReadsObject(data, 0, o, maxDepth);
  }
}
