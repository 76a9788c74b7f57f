/** The UAPI.10 version comparison of internal/discover/version.go.

    A version string is read as a stream of segments, each string on its own; the
    two-string scanner CompareVersions is proved equal to the lexicographic order
    on those streams, and the order laws follow from that. */
module Versions {
  import opened Text

  predicate IsDigit(c: char) {
    '0' <= c <= '9'
  }

  predicate IsAlpha(c: char) {
    'a' <= c <= 'z' || 'A' <= c <= 'Z'
  }

  predicate IsVersionChar(c: char) {
    IsDigit(c) || IsAlpha(c) || c == '~' || c == '-' || c == '^' || c == '.'
  }

  function CmpBool(a: bool, b: bool): int {
    if a == b then 0 else if a then 1 else -1
  }

  function CmpInt(a: int, b: int): int {
    if a < b then -1 else if a > b then 1 else 0
  }

  /** strings.Compare: character by character, a proper prefix first. */
  function CmpString(a: string, b: string): int {
    if a == "" && b == "" then 0
    else if a == "" then -1
    else if b == "" then 1
    else if a[0] != b[0] then CmpInt(a[0] as int, b[0] as int)
    else CmpString(a[1..], b[1..])
  }

  function At(s: string, i: nat): char {
    if i < |s| then s[i] else '\0'
  }

  // ----- the segment stream of one string

  datatype Run = Number(value: nat) | Word(text: string)

  datatype Segment =
    | End(tilde: bool)
    | Segment(tilde: bool, dash: bool, caret: bool, dot: bool, run: Run)

  function Pow10(n: nat): (r: nat)
    ensures r >= 1
  {
    if n == 0 then 1 else 10 * Pow10(n - 1)
  }

  predicate Digits(s: string) {
    forall k :: 0 <= k < |s| ==> IsDigit(s[k])
  }

  /** The integer a run of decimal digits denotes. */
  function NatOf(s: string): nat
    requires Digits(s)
  {
    if s == "" then 0
    else
      var d, p := s[0] as int - '0' as int, Pow10(|s| - 1);
      NonNegative(d, p);
      d * p + NatOf(s[1..])
  }

  lemma NonNegative(d: nat, p: nat)
    ensures d * p >= 0
  {
  }

  function DropEnd(s: string, i: nat): (e: nat)
    requires i <= |s|
    ensures i <= e <= |s| && (e < |s| ==> IsVersionChar(s[e]))
    decreases |s| - i
  {
    if i < |s| && !IsVersionChar(s[i]) then DropEnd(s, i + 1) else i
  }

  function DigitEnd(s: string, i: nat): (e: nat)
    requires i <= |s|
    ensures i <= e <= |s| && Digits(s[i..e])
    ensures e < |s| ==> !IsDigit(s[e])
    ensures i < |s| && IsDigit(s[i]) ==> i < e
    decreases |s| - i
  {
    if i < |s| && IsDigit(s[i]) then
      var e := DigitEnd(s, i + 1);
      assert s[i..e] == [s[i]] + s[i + 1..e];
      e
    else i
  }

  function AlphaEnd(s: string, i: nat): (e: nat)
    requires i <= |s|
    ensures i <= e <= |s|
    ensures i < |s| && IsAlpha(s[i]) ==> i < e
    decreases |s| - i
  {
    if i < |s| && IsAlpha(s[i]) then AlphaEnd(s, i + 1) else i
  }

  /** The first position of s from i on that is not '0'. */
  function ZeroEnd(s: string, i: nat): (e: nat)
    requires i <= |s|
    ensures i <= e <= DigitEnd(s, i)
    ensures e < |s| ==> s[e] != '0'
    decreases |s| - i
  {
    if i < |s| && s[i] == '0' then ZeroEnd(s, i + 1) else i
  }

  const SEPARATORS: seq<char> := ['-', '^', '.']

  /** The position after the first k of the separators '-', '^', '.', each taken
      when it is the next character. */
  function SepEnd(s: string, i: nat, k: nat): (e: nat)
    requires i <= |s| && k <= 3
    ensures i <= e <= |s|
  {
    if k == 0 then i
    else
      var p := SepEnd(s, i, k - 1);
      if At(s, p) == SEPARATORS[k - 1] then p + 1 else p
  }

  predicate SepAt(s: string, i: nat, k: nat)
    requires i <= |s| && k < 3
  {
    At(s, SepEnd(s, i, k)) == SEPARATORS[k]
  }

  /** Where a segment's body starts: dropped characters and one '~' are passed. */
  function BodyStart(s: string, i: nat): (e: nat)
    requires i <= |s|
    ensures i <= e <= |s|
  {
    var p := DropEnd(s, i);
    if At(s, p) == '~' then p + 1 else p
  }

  predicate TildeAt(s: string, i: nat)
    requires i <= |s|
  {
    At(s, DropEnd(s, i)) == '~'
  }

  function RunEnd(s: string, i: nat): (e: nat)
    requires i <= |s|
    ensures i <= e <= |s|
  {
    if IsDigit(At(s, i)) then DigitEnd(s, i) else AlphaEnd(s, i)
  }

  function RunAt(s: string, i: nat): Run
    requires i <= |s|
  {
    if IsDigit(At(s, i)) then Number(NatOf(s[i..DigitEnd(s, i)])) else Word(s[i..AlphaEnd(s, i)])
  }

  function SegmentAt(s: string, i: nat): Segment
    requires i <= |s|
  {
    var b := BodyStart(s, i);
    if b == |s| then End(TildeAt(s, i))
    else Segment(TildeAt(s, i), SepAt(s, b, 0), SepAt(s, b, 1), SepAt(s, b, 2), RunAt(s, SepEnd(s, b, 3)))
  }

  function Next(s: string, i: nat): (e: nat)
    requires i <= |s|
    ensures i <= e <= |s|
    ensures BodyStart(s, i) < |s| ==> i < e
  {
    var b := BodyStart(s, i);
    var r := SepEnd(s, b, 3);
    assert b < |s| && b == i ==> i < RunEnd(s, r) by {
      var p1, p2 := SepEnd(s, b, 1), SepEnd(s, b, 2);
    }
    RunEnd(s, r)
  }

  /** The segments of s from position i on; the last one is End. */
  function Stream(s: string, i: nat): seq<Segment>
    requires i <= |s|
    decreases |s| - i
  {
    if BodyStart(s, i) == |s| then [SegmentAt(s, i)]
    else [SegmentAt(s, i)] + Stream(s, Next(s, i))
  }

  function Segments(s: string): seq<Segment> {
    Stream(CutNul(s), 0)
  }

  // ----- the order on segments and streams

  /** Numbers are newer than words, numbers compare by value, words bytewise. */
  function CompareRuns(a: Run, b: Run): int {
    match (a, b)
    case (Number(m), Number(n)) => CmpInt(m, n)
    case (Number(_), Word(_)) => 1
    case (Word(_), Number(_)) => -1
    case (Word(v), Word(w)) => CmpString(v, w)
  }

  /** A '~' is older than anything, then the end of the string, then the
      separators '-', '^', '.', then the run. */
  function CompareSegments(a: Segment, b: Segment): int {
    if a.tilde != b.tilde then CmpBool(!a.tilde, !b.tilde)
    else if a.End? || b.End? then CmpBool(!a.End?, !b.End?)
    else if a.dash != b.dash then CmpBool(!a.dash, !b.dash)
    else if a.caret != b.caret then CmpBool(!a.caret, !b.caret)
    else if a.dot != b.dot then CmpBool(!a.dot, !b.dot)
    else CompareRuns(a.run, b.run)
  }

  /** Lexicographic order of segment sequences. */
  function CompareStreams(a: seq<Segment>, b: seq<Segment>): int {
    if a == [] || b == [] then CmpBool(a != [], b != [])
    else
      var c := CompareSegments(a[0], b[0]);
      if c != 0 then c else CompareStreams(a[1..], b[1..])
  }

  /** The specification of CompareVersions. */
  function Compare(a: string, b: string): int {
    CompareStreams(Segments(a), Segments(b))
  }

  // ----- order laws

  lemma {:induction false} CmpStringLaws(a: string, b: string)
    ensures CmpString(a, b) in {-1, 0, 1}
    ensures CmpString(b, a) == -CmpString(a, b)
    ensures CmpString(a, b) == 0 <==> a == b
  {
    if a != "" && b != "" && a[0] == b[0] {
      CmpStringLaws(a[1..], b[1..]);
      assert a == [a[0]] + a[1..] && b == [b[0]] + b[1..];
    }
  }

  lemma {:induction false} CmpStringTransitive(a: string, b: string, c: string)
    requires CmpString(a, b) <= 0 && CmpString(b, c) <= 0
    ensures CmpString(a, c) <= 0
  {
    if a != "" && b != "" && c != "" && a[0] == b[0] == c[0] {
      CmpStringTransitive(a[1..], b[1..], c[1..]);
    }
  }

  lemma SegmentLaws(a: Segment, b: Segment)
    ensures CompareSegments(a, b) in {-1, 0, 1}
    ensures CompareSegments(b, a) == -CompareSegments(a, b)
    ensures CompareSegments(a, b) == 0 <==> a == b
  {
    if a.Segment? && b.Segment? && a.run.Word? && b.run.Word? {
      CmpStringLaws(a.run.text, b.run.text);
    }
  }

  lemma SegmentTransitive(a: Segment, b: Segment, c: Segment)
    requires CompareSegments(a, b) <= 0 && CompareSegments(b, c) <= 0
    ensures CompareSegments(a, c) <= 0
  {
    if a.Segment? && b.Segment? && c.Segment? && a.run.Word? && b.run.Word? && c.run.Word? {
      CmpStringLaws(a.run.text, b.run.text);
      CmpStringLaws(b.run.text, c.run.text);
      if CmpString(a.run.text, b.run.text) <= 0 && CmpString(b.run.text, c.run.text) <= 0 {
        CmpStringTransitive(a.run.text, b.run.text, c.run.text);
      }
    }
  }

  lemma {:induction false} StreamLaws(a: seq<Segment>, b: seq<Segment>)
    ensures CompareStreams(a, b) in {-1, 0, 1}
    ensures CompareStreams(b, a) == -CompareStreams(a, b)
    ensures CompareStreams(a, b) == 0 <==> a == b
  {
    if a != [] && b != [] {
      SegmentLaws(a[0], b[0]);
      if a[0] == b[0] {
        StreamLaws(a[1..], b[1..]);
        assert a == [a[0]] + a[1..] && b == [b[0]] + b[1..];
      }
    }
  }

  lemma {:induction false} StreamTransitive(a: seq<Segment>, b: seq<Segment>, c: seq<Segment>)
    requires CompareStreams(a, b) <= 0 && CompareStreams(b, c) <= 0
    ensures CompareStreams(a, c) <= 0
  {
    if a != [] && b != [] && c != [] {
      SegmentLaws(a[0], b[0]);
      SegmentLaws(b[0], c[0]);
      SegmentLaws(a[0], c[0]);
      SegmentTransitive(a[0], b[0], c[0]);
      if a[0] == c[0] {
        SegmentTransitive(b[0], c[0], a[0]);
        StreamTransitive(a[1..], b[1..], c[1..]);
      }
    }
  }

  /** CompareVersions is a total preorder whose ties are exactly the strings with
      the same segments. */
  lemma VersionOrder(a: string, b: string)
    ensures Compare(a, b) in {-1, 0, 1}
    ensures Compare(b, a) == -Compare(a, b)
    ensures Compare(a, b) == 0 <==> Segments(a) == Segments(b)
    ensures Compare(a, a) == 0
  {
    StreamLaws(Segments(a), Segments(b));
    StreamLaws(Segments(a), Segments(a));
  }

  lemma VersionTransitive(a: string, b: string, c: string)
    requires Compare(a, b) <= 0 && Compare(b, c) <= 0
    ensures Compare(a, c) <= 0
    ensures Compare(a, c) == 0 ==> Compare(a, b) == 0 && Compare(b, c) == 0
  {
    StreamTransitive(Segments(a), Segments(b), Segments(c));
    VersionOrder(a, b);
    VersionOrder(b, c);
    VersionOrder(a, c);
    if Compare(a, c) == 0 && Compare(a, b) != 0 {
      StreamTransitive(Segments(b), Segments(c), Segments(a));
    }
  }

  // ----- numbers: length of the zero-stripped run, then its bytes

  lemma {:induction false} NatBelow(s: string)
    requires Digits(s)
    ensures NatOf(s) < Pow10(|s|)
  {
    if s != "" {
      NatBelow(s[1..]);
      AtMostNine(s[0] as int - '0' as int, Pow10(|s| - 1));
    }
  }

  lemma AtMostNine(d: int, p: nat)
    requires d <= 9
    ensures d * p <= 9 * p
  {
  }

  lemma {:induction false} Pow10Grows(m: nat, n: nat)
    requires m <= n
    ensures Pow10(m) <= Pow10(n)
    decreases n
  {
    if m < n {
      Pow10Grows(m, n - 1);
    }
  }

  lemma {:induction false} LeadingDigitDecides(d: int, e: int, w: int, s: int, t: int)
    requires d < e && 0 <= s < w && 0 <= t
    ensures d * w + s < e * w + t
    decreases e - d
  {
    assert e * w == (e - 1) * w + w;
    if d + 1 < e {
      LeadingDigitDecides(d, e - 1, w, s, t);
    }
  }

  lemma {:induction false} SameLengthByValue(p: string, q: string)
    requires Digits(p) && Digits(q) && |p| == |q|
    ensures CmpString(p, q) == CmpInt(NatOf(p), NatOf(q))
  {
    if p != "" {
      NatBelow(p[1..]);
      NatBelow(q[1..]);
      var d, e, w := p[0] as int - '0' as int, q[0] as int - '0' as int, Pow10(|p| - 1);
      if d == e {
        SameLengthByValue(p[1..], q[1..]);
      } else if d < e {
        LeadingDigitDecides(d, e, w, NatOf(p[1..]), NatOf(q[1..]));
      } else {
        LeadingDigitDecides(e, d, w, NatOf(q[1..]), NatOf(p[1..]));
      }
    }
  }

  lemma ShorterIsSmaller(p: string, q: string)
    requires Digits(p) && Digits(q) && |p| < |q| && q[0] != '0'
    ensures NatOf(p) < NatOf(q)
  {
    NatBelow(p);
    Pow10Grows(|p|, |q| - 1);
    LeadingDigitDecides(0, q[0] as int - '0' as int, Pow10(|q| - 1), NatOf(p), NatOf(q[1..]));
  }

  /** Comparing zero-stripped digit runs by length and then bytewise compares the
      integers they denote, however long they are. */
  lemma NumbersByValue(p: string, q: string)
    requires Digits(p) && Digits(q)
    requires (p != "" ==> p[0] != '0') && (q != "" ==> q[0] != '0')
    ensures CmpInt(NatOf(p), NatOf(q)) == if |p| != |q| then CmpInt(|p|, |q|) else CmpString(p, q)
  {
    if |p| < |q| {
      ShorterIsSmaller(p, q);
    } else if |p| > |q| {
      ShorterIsSmaller(q, p);
    } else {
      SameLengthByValue(p, q);
    }
  }

  lemma {:induction false} StripZeros(s: string, i: nat)
    requires i <= |s|
    ensures Digits(s[ZeroEnd(s, i)..DigitEnd(s, i)])
    ensures NatOf(s[ZeroEnd(s, i)..DigitEnd(s, i)]) == NatOf(s[i..DigitEnd(s, i)])
    decreases |s| - i
  {
    if i < |s| && s[i] == '0' {
      StripZeros(s, i + 1);
      var t := s[i..DigitEnd(s, i)];
      assert t[1..] == s[i + 1..DigitEnd(s, i)];
    }
  }

  /** Comparing a common-length prefix and then the lengths is strings.Compare. */
  lemma {:induction false} PrefixThenLength(p: string, q: string)
    ensures var n := if |p| < |q| then |p| else |q|;
            CmpString(p, q) == if CmpString(p[..n], q[..n]) != 0 then CmpString(p[..n], q[..n]) else CmpInt(|p|, |q|)
  {
    if p != "" && q != "" && p[0] == q[0] {
      PrefixThenLength(p[1..], q[1..]);
      var n := if |p| < |q| then |p| else |q|;
      assert p[..n][1..] == p[1..][..n - 1] && q[..n][1..] == q[1..][..n - 1];
    }
  }

  // ----- what the order means for whole strings

  lemma {:induction false} AllDigits(s: string, i: nat)
    requires i <= |s| && Digits(s)
    ensures DigitEnd(s, i) == |s|
    decreases |s| - i
  {
    if i < |s| {
      AllDigits(s, i + 1);
    }
  }

  lemma DigitSegments(p: string)
    requires Digits(p) && p != ""
    ensures Segments(p) == [Segment(false, false, false, false, Number(NatOf(p))), End(false)]
  {
    AllDigits(p, 0);
    hide NatOf, DigitEnd;
    assert p[0..|p|] == p;
    assert BodyStart(p, 0) == 0;
    assert SepEnd(p, 0, 1) == 0;
    assert SepEnd(p, 0, 2) == 0;
    assert SepEnd(p, 0, 3) == 0;
    assert Next(p, 0) == |p|;
    assert Stream(p, |p|) == [End(false)];
  }

  /** Numbers of any length compare by their integer values. */
  lemma NumbersCompare(p: string, q: string)
    requires Digits(p) && Digits(q) && p != "" && q != ""
    ensures Compare(p, q) == CmpInt(NatOf(p), NatOf(q))
  {
    DigitSegments(p);
    DigitSegments(q);
    hide Segments, NatOf;
    var s, t := Segments(p), Segments(q);
    assert s[1..] == t[1..] == [End(false)];
    StreamLaws(s[1..], t[1..]);
    assert CompareSegments(s[0], t[0]) == CmpInt(NatOf(p), NatOf(q));
  }

  /** Scanning does not look past the end of s when a '~' follows there. */
  lemma {:induction false} SameScan(s: string, u: string, i: nat)
    requires i <= |s| && u != "" && u[0] == '~'
    ensures DropEnd(s + u, i) == DropEnd(s, i)
    ensures DigitEnd(s + u, i) == DigitEnd(s, i) && AlphaEnd(s + u, i) == AlphaEnd(s, i)
    decreases |s| - i
  {
    if i < |s| {
      SameScan(s, u, i + 1);
    }
  }

  lemma SameSeparators(s: string, u: string, i: nat)
    requires i <= |s| && u != "" && u[0] == '~'
    ensures forall k: nat :: k <= 3 ==> SepEnd(s + u, i, k) == SepEnd(s, i, k)
    ensures forall k: nat :: k < 3 ==> SepAt(s + u, i, k) == SepAt(s, i, k)
  {
    assert SepEnd(s + u, i, 1) == SepEnd(s, i, 1);
    assert SepEnd(s + u, i, 2) == SepEnd(s, i, 2);
    assert SepEnd(s + u, i, 3) == SepEnd(s, i, 3);
  }

  lemma SameBody(s: string, u: string, i: nat)
    requires i <= |s| && u != "" && u[0] == '~' && BodyStart(s, i) < |s|
    ensures BodyStart(s + u, i) == BodyStart(s, i) && TildeAt(s + u, i) == TildeAt(s, i)
  {
    SameScan(s, u, i);
    hide DropEnd;
  }

  lemma SameRun(s: string, u: string, i: nat)
    requires i <= |s| && u != "" && u[0] == '~'
    ensures RunAt(s + u, i) == RunAt(s, i) && RunEnd(s + u, i) == RunEnd(s, i)
  {
    SameScan(s, u, i);
    hide DigitEnd, AlphaEnd, NatOf;
    assert (s + u)[i..DigitEnd(s, i)] == s[i..DigitEnd(s, i)];
    assert (s + u)[i..AlphaEnd(s, i)] == s[i..AlphaEnd(s, i)];
  }

  lemma SameSegment(s: string, u: string, i: nat)
    requires i <= |s| && u != "" && u[0] == '~' && BodyStart(s, i) < |s|
    ensures SegmentAt(s + u, i) == SegmentAt(s, i) && Next(s + u, i) == Next(s, i)
  {
    SameBody(s, u, i);
    SameSeparators(s, u, BodyStart(s, i));
    SameRun(s, u, SepEnd(s, BodyStart(s, i), 3));
    hide BodyStart, TildeAt, SepEnd, SepAt, RunAt, RunEnd;
  }

  lemma {:induction false} TildeStream(s: string, u: string, i: nat)
    requires i <= |s| && u != "" && u[0] == '~'
    ensures CompareStreams(Stream(s + u, i), Stream(s, i)) == if i < |s| && s[|s| - 1] == '~' then 1 else -1
    decreases |s| - i
  {
    if BodyStart(s, i) < |s| {
      SameSegment(s, u, i);
      SegmentLaws(SegmentAt(s, i), SegmentAt(s, i));
      if s[|s| - 1] == '~' {
        LastTilde(s, i);
      }
      TildeStream(s, u, Next(s, i));
      SameBody(s, u, i);
      hide *;
      StreamRound(s + u, s, i, i);
    } else {
      TildeEnds(s, u, i);
    }
  }

  /** s ends here, and what follows begins with a '~'. */
  lemma TildeEnds(s: string, u: string, i: nat)
    requires i <= |s| && u != "" && u[0] == '~' && BodyStart(s, i) >= |s|
    ensures CompareStreams(Stream(s + u, i), Stream(s, i)) == if i < |s| && s[|s| - 1] == '~' then 1 else -1
  {
    hide NatOf, RunAt, SepEnd, SepAt, DropEnd, Next;
    SameScan(s, u, i);
    DropStops(s, i);
  }

  lemma {:induction false} DropStops(s: string, i: nat)
    requires i <= |s|
    ensures i < |s| && IsVersionChar(s[|s| - 1]) ==> DropEnd(s, i) < |s|
    decreases |s| - i
  {
    if i < |s| {
      DropStops(s, i + 1);
    }
  }

  /** A '~' at the end of s is in no segment that ends before it. */
  lemma LastTilde(s: string, i: nat)
    requires i <= |s| && BodyStart(s, i) < |s| && s[|s| - 1] == '~'
    ensures Next(s, i) < |s|
  {
    var b := BodyStart(s, i);
    NoSeparator(s, b, 3);
    NoTilde(s, SepEnd(s, b, 3));
  }

  lemma {:induction false} NoSeparator(s: string, i: nat, k: nat)
    requires i < |s| && s[|s| - 1] == '~' && k <= 3
    ensures SepEnd(s, i, k) < |s|
  {
    if k > 0 {
      NoSeparator(s, i, k - 1);
    }
  }

  lemma {:induction false} NoTilde(s: string, i: nat)
    requires i < |s| && s[|s| - 1] == '~'
    ensures DigitEnd(s, i) < |s| && AlphaEnd(s, i) < |s|
    decreases |s| - i
  {
    if i + 1 < |s| {
      NoTilde(s, i + 1);
    }
  }

  /** A version with a '~' suffix is older than the version without it, except after
      another '~', where it is newer. */
  lemma TildeIsOlder(s: string, t: string)
    requires '\0' !in s && '\0' !in t
    ensures Compare(s + "~" + t, s) == if s != "" && s[|s| - 1] == '~' then 1 else -1
  {
    var u := "~" + t;
    assert s + "~" + t == s + u;
    TildeStream(s, u, 0);
  }

  // ----- the scanner

  method ScanDigits(s: string, i: nat) returns (e: nat)
    requires i <= |s| && '\0' !in s
    ensures e == DigitEnd(s, i)
  {
    e := i;
    while IsDigit(At(s, e))
      invariant i <= e <= |s| && DigitEnd(s, e) == DigitEnd(s, i)
      decreases |s| - e
    {
      e := e + 1;
    }
  }

  method ScanZeros(s: string, i: nat) returns (e: nat)
    requires i <= |s| && '\0' !in s
    ensures e == ZeroEnd(s, i)
  {
    e := i;
    while At(s, e) == '0'
      invariant i <= e <= |s| && ZeroEnd(s, e) == ZeroEnd(s, i)
      decreases |s| - e
    {
      e := e + 1;
    }
  }

  method ScanAlphas(s: string, i: nat) returns (e: nat)
    requires i <= |s| && '\0' !in s
    ensures e == AlphaEnd(s, i)
  {
    e := i;
    while IsAlpha(At(s, e))
      invariant i <= e <= |s| && AlphaEnd(s, e) == AlphaEnd(s, i)
      decreases |s| - e
    {
      e := e + 1;
    }
  }

  /** The digits both strings have next. */
  method CompareNumbersAt(a: string, b: string, i: nat, j: nat) returns (r: int, ai: nat, bj: nat)
    requires i <= |a| && j <= |b| && '\0' !in a && '\0' !in b
    requires IsDigit(At(a, i)) || IsDigit(At(b, j))
    ensures r == CompareRuns(RunAt(a, i), RunAt(b, j))
    ensures r == 0 ==> ai == RunEnd(a, i) && bj == RunEnd(b, j)
  {
    ai := ScanDigits(a, i);
    bj := ScanDigits(b, j);
    r := CmpBool(ai != i, bj != j);
    if r != 0 {
      return;
    }
    var zi := ScanZeros(a, i);
    var zj := ScanZeros(b, j);
    StripZeros(a, i);
    StripZeros(b, j);
    NumbersByValue(a[zi..ai], b[zj..bj]);
    r := CmpInt(ai - zi, bj - zj);
    if r != 0 {
      return;
    }
    r := CmpString(a[zi..ai], b[zj..bj]);
  }

  /** The letters, possibly none, both strings have next. */
  method CompareWordsAt(a: string, b: string, i: nat, j: nat) returns (r: int, ai: nat, bj: nat)
    requires i <= |a| && j <= |b| && '\0' !in a && '\0' !in b
    requires !IsDigit(At(a, i)) && !IsDigit(At(b, j))
    ensures r == CompareRuns(RunAt(a, i), RunAt(b, j))
    ensures r == 0 ==> ai == RunEnd(a, i) && bj == RunEnd(b, j)
  {
    ai := ScanAlphas(a, i);
    bj := ScanAlphas(b, j);
    hide AlphaEnd, DigitEnd, NatOf, CmpString;
    var n := if ai - i < bj - j then ai - i else bj - j;
    PrefixThenLength(a[i..ai], b[j..bj]);
    assert a[i..ai][..n] == a[i..i + n];
    assert b[j..bj][..n] == b[j..j + n];
    r := CmpString(a[i..i + n], b[j..j + n]);
    if r != 0 {
      return;
    }
    r := CmpInt(ai - i, bj - j);
  }

  /** The separators both strings have next: either all three agree, or the first
      that differs decides. */
  method CompareSeparatorsAt(a: string, b: string, bi: nat, bj: nat) returns (r: int, i: nat, j: nat)
    requires bi <= |a| && bj <= |b|
    ensures r == 0 ==> i == SepEnd(a, bi, 3) && j == SepEnd(b, bj, 3)
    ensures r == CmpSeparators(a, b, bi, bj)
  {
    i, j := bi, bj;
    for k := 0 to 3
      invariant i == SepEnd(a, bi, k) && j == SepEnd(b, bj, k)
      invariant k > 0 ==> SepAt(a, bi, 0) == SepAt(b, bj, 0)
      invariant k > 1 ==> SepAt(a, bi, 1) == SepAt(b, bj, 1)
      invariant k > 2 ==> SepAt(a, bi, 2) == SepAt(b, bj, 2)
    {
      var sep := SEPARATORS[k];
      if At(a, i) == sep || At(b, j) == sep {
        r := CmpBool(At(a, i) != sep, At(b, j) != sep);
        if r != 0 {
          return;
        }
        i, j := i + 1, j + 1;
      }
    }
    r := 0;
  }

  function CmpSeparators(a: string, b: string, i: nat, j: nat): int
    requires i <= |a| && j <= |b|
  {
    if SepAt(a, i, 0) != SepAt(b, j, 0) then CmpBool(!SepAt(a, i, 0), !SepAt(b, j, 0))
    else if SepAt(a, i, 1) != SepAt(b, j, 1) then CmpBool(!SepAt(a, i, 1), !SepAt(b, j, 1))
    else CmpBool(!SepAt(a, i, 2), !SepAt(b, j, 2))
  }

  /** One round of the scanner: the next segments decide, or both strings end, or
      the rest of both streams decides. */
  lemma StreamRound(a: string, b: string, i: nat, j: nat)
    requires i <= |a| && j <= |b|
    ensures var c := CompareSegments(SegmentAt(a, i), SegmentAt(b, j));
            CompareStreams(Stream(a, i), Stream(b, j)) ==
            if c != 0 || BodyStart(a, i) == |a| then c
            else CompareStreams(Stream(a, Next(a, i)), Stream(b, Next(b, j)))
  {
    var sa, sb := SegmentAt(a, i), SegmentAt(b, j);
    SegmentLaws(sa, sb);
    if CompareSegments(sa, sb) == 0 && BodyStart(a, i) < |a| {
      assert Stream(a, i)[1..] == Stream(a, Next(a, i));
      assert Stream(b, j)[1..] == Stream(b, Next(b, j));
    }
  }

  lemma SegmentByParts(a: string, b: string, i: nat, j: nat)
    requires i <= |a| && j <= |b|
    requires TildeAt(a, i) == TildeAt(b, j)
    requires BodyStart(a, i) < |a| && BodyStart(b, j) < |b|
    ensures var p, q := BodyStart(a, i), BodyStart(b, j);
            CompareSegments(SegmentAt(a, i), SegmentAt(b, j)) ==
            if CmpSeparators(a, b, p, q) != 0 then CmpSeparators(a, b, p, q)
            else CompareRuns(RunAt(a, SepEnd(a, p, 3)), RunAt(b, SepEnd(b, q, 3)))
  {
  }

  /** The two-string scanner computes the order on segment streams. */
  method CompareVersions(a0: string, b0: string) returns (r: int)
    ensures r == Compare(a0, b0)
  {
    var a, b := CutNul(a0), CutNul(b0);
    var i: nat, j: nat := 0, 0;
    while true
      invariant i <= |a| && j <= |b|
      invariant Compare(a0, b0) == CompareStreams(Stream(a, i), Stream(b, j))
      decreases |a| - i
    {
      ghost var i0, j0 := i, j;
      StreamRound(a, b, i, j);
      while i < |a| && !IsVersionChar(a[i])
        invariant i0 <= i <= |a| && DropEnd(a, i) == DropEnd(a, i0)
      {
        i := i + 1;
      }
      while j < |b| && !IsVersionChar(b[j])
        invariant j0 <= j <= |b| && DropEnd(b, j) == DropEnd(b, j0)
      {
        j := j + 1;
      }
      if At(a, i) == '~' || At(b, j) == '~' {
        r := CmpBool(At(a, i) != '~', At(b, j) != '~');
        if r != 0 {
          return;
        }
        i, j := i + 1, j + 1;
      }
      assert i == BodyStart(a, i0) && j == BodyStart(b, j0);
      if At(a, i) == '\0' || At(b, j) == '\0' {
        return CmpInt(At(a, i) as int, At(b, j) as int);
      }
      SegmentByParts(a, b, i0, j0);
      r, i, j := CompareSeparatorsAt(a, b, i, j);
      if r != 0 {
        return;
      }
      if IsDigit(At(a, i)) || IsDigit(At(b, j)) {
        r, i, j := CompareNumbersAt(a, b, i, j);
      } else {
        r, i, j := CompareWordsAt(a, b, i, j);
      }
      if r != 0 {
        return;
      }
      assert i == Next(a, i0) && j == Next(b, j0);
    }
  }
}
