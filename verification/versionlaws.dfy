/** What the version order of internal/discover/version.go means for strings: what a
    common beginning, the first character, numbers and words decide. */
module VersionLaws {
  import opened Text
  import opened Versions

  predicate Alnum(c: char) {
    IsDigit(c) || IsAlpha(c)
  }

  /** Reading d + u, a segment ends between them, or only a letter or digit can follow
      what d ends in. */
  predicate Boundary(d: string, u: string) {
    d == "" ||
    (var c, n := d[|d| - 1], At(u, 0);
     if IsDigit(c) then !IsDigit(n)
     else if IsAlpha(c) then !IsAlpha(n)
     else IsVersionChar(c) ==> Alnum(n))
  }

  // ----- reading behind d is reading u

  lemma {:induction false} ShiftScan(d: string, u: string, i: nat)
    requires i <= |u|
    ensures DropEnd(d + u, |d| + i) == |d| + DropEnd(u, i)
    ensures DigitEnd(d + u, |d| + i) == |d| + DigitEnd(u, i) && AlphaEnd(d + u, |d| + i) == |d| + AlphaEnd(u, i)
    decreases |u| - i
  {
    if i < |u| {
      ShiftScan(d, u, i + 1);
    }
  }

  lemma {:induction false} ShiftSep(d: string, u: string, i: nat, k: nat)
    requires i <= |u| && k <= 3
    ensures SepEnd(d + u, |d| + i, k) == |d| + SepEnd(u, i, k)
    ensures k < 3 ==> SepAt(d + u, |d| + i, k) == SepAt(u, i, k)
  {
    if k > 0 {
      ShiftSep(d, u, i, k - 1);
    }
  }

  lemma ShiftRun(d: string, u: string, i: nat)
    requires i <= |u|
    ensures RunAt(d + u, |d| + i) == RunAt(u, i) && RunEnd(d + u, |d| + i) == |d| + RunEnd(u, i)
  {
    ShiftScan(d, u, i);
    hide DigitEnd, AlphaEnd, NatOf, DropEnd;
    assert (d + u)[|d| + i..|d| + DigitEnd(u, i)] == u[i..DigitEnd(u, i)];
    assert (d + u)[|d| + i..|d| + AlphaEnd(u, i)] == u[i..AlphaEnd(u, i)];
  }

  lemma ShiftBody(d: string, u: string, i: nat)
    requires i <= |u|
    ensures BodyStart(d + u, |d| + i) == |d| + BodyStart(u, i) && TildeAt(d + u, |d| + i) == TildeAt(u, i)
  {
    ShiftScan(d, u, i);
    hide DropEnd, DigitEnd, AlphaEnd;
  }

  lemma ShiftSegment(d: string, u: string, i: nat)
    requires i <= |u|
    ensures BodyStart(d + u, |d| + i) == |d| + BodyStart(u, i)
    ensures SegmentAt(d + u, |d| + i) == SegmentAt(u, i) && Next(d + u, |d| + i) == |d| + Next(u, i)
  {
    hide BodyStart, TildeAt, SepEnd, SepAt, RunAt, RunEnd;
    ShiftBody(d, u, i);
    var b := BodyStart(u, i);
    ShiftSep(d, u, b, 0);
    ShiftSep(d, u, b, 1);
    ShiftSep(d, u, b, 2);
    ShiftSep(d, u, b, 3);
    ShiftRun(d, u, SepEnd(u, b, 3));
  }

  lemma {:induction false} ShiftStream(d: string, u: string, i: nat)
    requires i <= |u|
    ensures Stream(d + u, |d| + i) == Stream(u, i)
    decreases |u| - i
  {
    hide SegmentAt, Next, BodyStart;
    ShiftSegment(d, u, i);
    if BodyStart(u, i) < |u| {
      ShiftStream(d, u, Next(u, i));
    }
  }

  // ----- reading inside d does not depend on u

  lemma {:induction false} ScanWithin(d: string, u: string, i: nat)
    requires i < |d| && Boundary(d, u)
    ensures DigitEnd(d + u, i) == DigitEnd(d, i) && AlphaEnd(d + u, i) == AlphaEnd(d, i)
    decreases |d| - i
  {
    if i + 1 < |d| {
      ScanWithin(d, u, i + 1);
    } else {
      assert At(d + u, i + 1) == At(u, 0);
    }
  }

  lemma {:induction false} DropWithin(d: string, u: string, i: nat)
    requires i <= |d|
    ensures DropEnd(d, i) < |d| ==> DropEnd(d + u, i) == DropEnd(d, i)
    ensures DropEnd(d, i) == |d| ==> DropEnd(d + u, i) == DropEnd(d + u, |d|)
    decreases |d| - i
  {
    if i < |d| {
      DropWithin(d, u, i + 1);
    }
  }

  lemma {:induction false} SepWithin(d: string, u: string, i: nat, k: nat)
    requires i <= |d| && k <= 3 && Boundary(d, u) && (i == |d| ==> Alnum(At(u, 0)))
    ensures SepEnd(d + u, i, k) == SepEnd(d, i, k)
    ensures SepEnd(d, i, k) == |d| ==> Alnum(At(u, 0))
    ensures k < 3 ==> SepAt(d + u, i, k) == SepAt(d, i, k)
  {
    if k > 0 {
      SepWithin(d, u, i, k - 1);
    }
    assert SepEnd(d, i, k) == |d| ==> At(d + u, |d|) == At(u, 0);
  }

  lemma RunWithin(d: string, u: string, i: nat)
    requires i < |d| && Boundary(d, u)
    ensures RunAt(d + u, i) == RunAt(d, i) && RunEnd(d + u, i) == RunEnd(d, i)
  {
    ScanWithin(d, u, i);
    hide DigitEnd, AlphaEnd, NatOf, Boundary;
    assert (d + u)[i..DigitEnd(d, i)] == d[i..DigitEnd(d, i)];
    assert (d + u)[i..AlphaEnd(d, i)] == d[i..AlphaEnd(d, i)];
  }

  /** The segment at i, read in d + u: it starts in u, its run does, or all of it is in d. */
  lemma SegmentWithin(d: string, u: string, i: nat)
    requires i < |d| && Boundary(d, u)
    ensures var s, b := d + u, BodyStart(d, i);
            if DropEnd(d, i) == |d| then SegmentAt(s, i) == SegmentAt(s, |d|) && Next(s, i) == Next(s, |d|) && BodyStart(s, i) == BodyStart(s, |d|)
            else if SepEnd(d, b, 3) == |d| then
              && Alnum(At(u, 0)) && BodyStart(s, i) < |s| && Next(s, i) == RunEnd(s, |d|)
              && SegmentAt(s, i) == Segment(TildeAt(d, i), SepAt(d, b, 0), SepAt(d, b, 1), SepAt(d, b, 2), RunAt(s, |d|))
            else SegmentAt(s, i) == SegmentAt(d, i) && Next(s, i) == Next(d, i) && BodyStart(s, i) == b < |d|
  {
    DropWithin(d, u, i);
    if DropEnd(d, i) == |d| {
      hide SepEnd, SepAt, RunAt, RunEnd, DropEnd;
    } else {
      BodyWithin(d, u, i);
      RestWithin(d, u, i);
      hide DropEnd, RunAt, RunEnd, SepAt, SepEnd;
    }
  }

  lemma BodyWithin(d: string, u: string, i: nat)
    requires i < |d| && DropEnd(d, i) < |d|
    ensures BodyStart(d + u, i) == BodyStart(d, i) && TildeAt(d + u, i) == TildeAt(d, i)
    ensures Boundary(d, u) && BodyStart(d, i) == |d| ==> Alnum(At(u, 0))
  {
    DropWithin(d, u, i);
    assert At(d + u, DropEnd(d, i)) == At(d, DropEnd(d, i));
    hide DropEnd;
  }

  lemma RestWithin(d: string, u: string, i: nat)
    requires i < |d| && Boundary(d, u) && DropEnd(d, i) < |d|
    ensures var s, b := d + u, BodyStart(d, i);
            if SepEnd(d, b, 3) == |d| then
              && Alnum(At(u, 0)) && b < |s| && Next(s, i) == RunEnd(s, |d|)
              && SegmentAt(s, i) == Segment(TildeAt(d, i), SepAt(d, b, 0), SepAt(d, b, 1), SepAt(d, b, 2), RunAt(s, |d|))
            else SegmentAt(s, i) == SegmentAt(d, i) && Next(s, i) == Next(d, i) && b < |d|
  {
    hide DropEnd, BodyStart, TildeAt, SepEnd, SepAt, RunAt, RunEnd, Boundary;
    BodyWithin(d, u, i);
    var b := BodyStart(d, i);
    SepWithin(d, u, b, 0);
    SepWithin(d, u, b, 1);
    SepWithin(d, u, b, 2);
    SepWithin(d, u, b, 3);
    assert At(u, 0) != '\0' ==> |d + u| > |d|;
    if SepEnd(d, b, 3) < |d| {
      RunWithin(d, u, SepEnd(d, b, 3));
    }
  }

  /** A string that begins with a letter or digit begins with a run. */
  lemma AlnumSegment(u: string)
    requires Alnum(At(u, 0))
    ensures BodyStart(u, 0) == 0 < |u|
    ensures SegmentAt(u, 0) == Segment(false, false, false, false, RunAt(u, 0)) && Next(u, 0) == RunEnd(u, 0)
  {
    assert SepEnd(u, 0, 1) == 0;
    assert SepEnd(u, 0, 2) == 0;
    assert SepEnd(u, 0, 3) == 0;
    hide RunAt, RunEnd;
  }

  lemma {:induction false} PrefixStream(d: string, u: string, v: string, i: nat)
    requires i <= |d| && Boundary(d, u) && Boundary(d, v)
    ensures CompareStreams(Stream(d + u, i), Stream(d + v, i)) == CompareStreams(Stream(u, 0), Stream(v, 0))
    decreases |d| - i
  {
    hide Boundary, SepAt, RunAt, RunEnd, TildeAt, CompareRuns, CompareStreams, SegmentAt, Next, BodyStart, DropEnd, SepEnd, Stream;
    ShiftStream(d, u, 0);
    ShiftStream(d, v, 0);
    if i < |d| {
      SegmentWithin(d, u, i);
      SegmentWithin(d, v, i);
      StreamRound(d + u, d + v, i, i);
      if DropEnd(d, i) == |d| {
        StreamRound(d + u, d + v, |d|, |d|);
      } else if SepEnd(d, BodyStart(d, i), 3) == |d| {
        RunFirst(d, u, v);
      } else {
        SegmentLaws(SegmentAt(d, i), SegmentAt(d, i));
        PrefixStream(d, u, v, Next(d, i));
      }
    }
  }

  /** Two strings that begin with runs compare by these first. */
  lemma RunFirst(d: string, u: string, v: string)
    requires Alnum(At(u, 0)) && Alnum(At(v, 0))
    ensures var c := CompareRuns(RunAt(d + u, |d|), RunAt(d + v, |d|));
            CompareStreams(Stream(u, 0), Stream(v, 0)) ==
            if c != 0 then c else CompareStreams(Stream(d + u, RunEnd(d + u, |d|)), Stream(d + v, RunEnd(d + v, |d|)))
  {
    hide Stream, RunAt, RunEnd, SegmentAt, Next, BodyStart, CompareRuns, CompareStreams;
    AlnumSegment(u);
    AlnumSegment(v);
    ShiftRun(d, u, 0);
    ShiftRun(d, v, 0);
    ShiftStream(d, u, RunEnd(u, 0));
    ShiftStream(d, v, RunEnd(v, 0));
    StreamRound(u, v, 0, 0);
  }

  lemma Assoc(a: string, b: string, c: string)
    ensures (a + b) + c == a + (b + c)
  {
  }

  /** The text before the first NUL is the only one that is. */
  lemma CutIs(s: string, r: string)
    requires '\0' !in r && r <= s && (r == s || s[|r|] == '\0')
    ensures CutNul(s) == r
  {
    var c := CutNul(s);
    hide CutNul;
    assert forall k :: 0 <= k < |r| ==> r[k] == s[k] && s[k] != '\0';
    assert forall k :: 0 <= k < |c| ==> c[k] == s[k] && s[k] != '\0';
  }

  lemma CutJoin(d: string, u: string)
    requires '\0' !in d
    ensures CutNul(d + u) == d + CutNul(u)
  {
    var c := CutNul(u);
    hide CutNul;
    assert c != u ==> (d + u)[|d + c|] == u[|c|];
    CutIs(d + u, d + c);
  }

  /** A common beginning does not matter, as long as no segment goes on behind it. */
  lemma PrefixDrops(d: string, u: string, v: string)
    requires '\0' !in d && Boundary(d, u) && Boundary(d, v)
    ensures Compare(d + u, d + v) == Compare(u, v)
  {
    CutJoin(d, u);
    CutJoin(d, v);
    assert At(CutNul(u), 0) == At(u, 0) && At(CutNul(v), 0) == At(v, 0);
    PrefixStream(d, CutNul(u), CutNul(v), 0);
  }

  // ----- what decides between strings without a common beginning

  /** Where a string stands by its first character: a '~' is older than anything, then
      come the end of the string, '-', '^', '.', letters and digits. */
  function Rank(c: char): int {
    if c == '~' then 0
    else if c == '\0' then 1
    else if c == '-' then 2
    else if c == '^' then 3
    else if c == '.' then 4
    else if IsAlpha(c) then 5
    else 6
  }

  /** The first characters decide when they are of different kinds. */
  lemma FirstDecides(u: string, v: string)
    requires forall c :: c in {At(u, 0), At(v, 0)} ==> c == '\0' || IsVersionChar(c)
    requires Rank(At(u, 0)) != Rank(At(v, 0))
    ensures Compare(u, v) == CmpInt(Rank(At(u, 0)), Rank(At(v, 0)))
  {
    var s, t := CutNul(u), CutNul(v);
    assert At(s, 0) == At(u, 0) && At(t, 0) == At(v, 0);
    StreamRound(s, t, 0, 0);
    FirstFlags(s);
    FirstFlags(t);
    hide Stream, SegmentAt;
  }

  /** What the first character says about the first segment. */
  lemma FirstFlags(s: string)
    requires '\0' !in s && (s == "" || IsVersionChar(s[0]))
    ensures var c, g := At(s, 0), SegmentAt(s, 0);
            && g.tilde == (c == '~')
            && (c == '\0' ==> g == End(false))
            && (c != '\0' && c != '~' ==>
                  && g.Segment? && g.dash == (c == '-') && (c != '-' ==> g.caret == (c == '^'))
                  && (c != '-' && c != '^' ==> g.dot == (c == '.'))
                  && (IsAlpha(c) ==> g.run.Word?) && (IsDigit(c) ==> g.run.Number?))
  {
    if s != "" && Alnum(s[0]) {
      AlnumSegment(s);
    }
    hide NatOf, DigitEnd, AlphaEnd;
  }

  /** Numbers are newer than words: behind a common beginning that ends in neither, too. */
  lemma WordsBeforeNumbers(d: string, u: string, v: string)
    requires '\0' !in d && (d == "" || !Alnum(d[|d| - 1]))
    requires IsAlpha(At(u, 0)) && IsDigit(At(v, 0))
    ensures Compare(d + u, d + v) == -1 && Compare(d + v, d + u) == 1
  {
    hide Compare;
    PrefixDrops(d, u, v);
    PrefixDrops(d, v, u);
    FirstDecides(u, v);
    FirstDecides(v, u);
  }

  lemma {:induction false} DigitsEnd(p: string, x: string, i: nat)
    requires i <= |p| && Digits(p) && !IsDigit(At(x, 0))
    ensures DigitEnd(p + x, i) == |p|
    decreases |p| - i
  {
    if i < |p| {
      DigitsEnd(p, x, i + 1);
    } else {
      assert At(p + x, i) == At(x, 0);
    }
  }

  /** Numbers compare by value, and what follows decides between equal ones. */
  lemma NumbersFirst(p: string, x: string, q: string, y: string)
    requires Digits(p) && p != "" && !IsDigit(At(x, 0)) && Digits(q) && q != "" && !IsDigit(At(y, 0))
    ensures Compare(p + x, q + y) == if NatOf(p) != NatOf(q) then CmpInt(NatOf(p), NatOf(q)) else Compare(x, y)
  {
    NoNul(p);
    NoNul(q);
    CutJoin(p, x);
    CutJoin(q, y);
    NumberStream(p, CutNul(x));
    NumberStream(q, CutNul(y));
    hide Stream, NatOf, SegmentAt, Next, BodyStart;
    StreamRound(p + CutNul(x), q + CutNul(y), 0, 0);
  }

  lemma NoNul(p: string)
    requires Digits(p) || Letters(p)
    ensures '\0' !in p
  {
  }

  lemma NumberStream(p: string, x: string)
    requires Digits(p) && p != "" && !IsDigit(At(x, 0))
    ensures BodyStart(p + x, 0) == 0 && Next(p + x, 0) == |p|
    ensures SegmentAt(p + x, 0) == Segment(false, false, false, false, Number(NatOf(p)))
    ensures Stream(p + x, |p|) == Stream(x, 0)
  {
    DigitsEnd(p, x, 0);
    hide NatOf, DigitEnd;
    assert (p + x)[0..|p|] == p;
    AlnumSegment(p + x);
    ShiftStream(p, x, 0);
  }

  predicate Letters(w: string) {
    forall k :: 0 <= k < |w| ==> IsAlpha(w[k])
  }

  lemma {:induction false} LettersEnd(w: string, x: string, i: nat)
    requires i <= |w| && Letters(w) && !IsAlpha(At(x, 0))
    ensures AlphaEnd(w + x, i) == |w|
    decreases |w| - i
  {
    if i < |w| {
      LettersEnd(w, x, i + 1);
    } else {
      assert At(w + x, i) == At(x, 0);
    }
  }

  lemma WordStream(w: string, x: string)
    requires Letters(w) && w != "" && !IsAlpha(At(x, 0))
    ensures BodyStart(w + x, 0) == 0 && Next(w + x, 0) == |w|
    ensures SegmentAt(w + x, 0) == Segment(false, false, false, false, Word(w))
    ensures Stream(w + x, |w|) == Stream(x, 0)
  {
    LettersEnd(w, x, 0);
    hide NatOf, AlphaEnd;
    assert (w + x)[0..|w|] == w;
    AlnumSegment(w + x);
    ShiftStream(w, x, 0);
  }

  /** Words compare bytewise, the longer one is newer, and what follows decides between
      equal ones. */
  lemma WordsFirst(v: string, x: string, w: string, y: string)
    requires Letters(v) && v != "" && !IsAlpha(At(x, 0)) && Letters(w) && w != "" && !IsAlpha(At(y, 0))
    ensures Compare(v + x, w + y) == if v != w then CmpString(v, w) else Compare(x, y)
  {
    NoNul(v);
    NoNul(w);
    CutJoin(v, x);
    CutJoin(w, y);
    WordStream(v, CutNul(x));
    WordStream(w, CutNul(y));
    CmpStringLaws(v, w);
    hide Stream, CmpString, SegmentAt, Next, BodyStart;
    StreamRound(v + CutNul(x), w + CutNul(y), 0, 0);
  }

  /** More is newer, unless it begins with a '~'. */
  lemma LongerIsNewer(d: string, u: string)
    requires '\0' !in d && Boundary(d, u) && IsVersionChar(At(u, 0)) && At(u, 0) != '~'
    ensures Compare(d + u, d) == 1 && Compare(d, d + u) == -1
  {
    hide Stream, CompareStreams;
    CutJoin(d, u);
    CutJoin(d, "");
    assert d + "" == d;
    assert At(CutNul(u), 0) == At(u, 0);
    LongerStream(d, CutNul(u), 0);
    VersionOrder(d, d + u);
  }

  lemma {:induction false} LongerStream(d: string, u: string, i: nat)
    requires i <= |d| && '\0' !in u && Boundary(d, u) && IsVersionChar(At(u, 0)) && At(u, 0) != '~'
    ensures CompareStreams(Stream(d + u, i), Stream(d, i)) == 1
    decreases |d| - i
  {
    hide Stream, SepAt, RunAt, RunEnd, TildeAt, Boundary;
    StreamRound(d + u, d, i, i);
    if i == |d| || DropEnd(d, i) == |d| {
      LongerEnd(d, u, i);
    } else if SepEnd(d, BodyStart(d, i), 3) < |d| {
      SegmentWithin(d, u, i);
      SegmentLaws(SegmentAt(d, i), SegmentAt(d, i));
      hide SegmentAt, SepEnd, DropEnd;
      LongerStream(d, u, Next(d, i));
    } else {
      SegmentWithin(d, u, i);
      LongerRun(d, u);
    }
  }

  lemma LongerEnd(d: string, u: string, i: nat)
    requires i <= |d| && '\0' !in u && Boundary(d, u) && IsVersionChar(At(u, 0)) && At(u, 0) != '~'
    requires i == |d| || DropEnd(d, i) == |d|
    ensures CompareSegments(SegmentAt(d + u, i), SegmentAt(d, i)) == 1
  {
    hide Boundary, NatOf, RunAt, SepAt, SepEnd;
    FirstFlags(u);
    if i < |d| {
      SegmentWithin(d, u, i);
    }
    ShiftSegment(d, u, 0);
    assert SegmentAt(d, i) == End(false);
  }

  /** A run of letters or digits is newer than none. */
  lemma LongerRun(d: string, u: string)
    requires Alnum(At(u, 0))
    ensures CompareRuns(RunAt(d + u, |d|), RunAt(d, |d|)) == 1
  {
    ShiftRun(d, u, 0);
    hide NatOf, DigitEnd;
    assert RunAt(d, |d|) == Word("");
    if IsAlpha(At(u, 0)) {
      assert u[0..AlphaEnd(u, 0)] != "";
    }
  }

  /** Other characters are dropped. */
  lemma Dropped(d: string, u: string, v: string)
    requires d != "" && '\0' !in d && forall k :: 0 <= k < |d| ==> !IsVersionChar(d[k])
    ensures Compare(d + u, v) == Compare(u, v)
  {
    hide SegmentAt, Next, BodyStart, DropEnd, SepEnd, SepAt, TildeAt, RunAt, RunEnd, CompareStreams;
    CutJoin(d, u);
    DropAll(d, 0);
    LastDropped(d, CutNul(u));
    SegmentWithin(d, CutNul(u), 0);
    ShiftStream(d, CutNul(u), 0);
    assert Stream(d + CutNul(u), 0) == Stream(d + CutNul(u), |d|);
  }

  lemma LastDropped(d: string, u: string)
    requires d != "" && !IsVersionChar(d[|d| - 1])
    ensures Boundary(d, u)
  {
  }

  lemma {:induction false} DropAll(d: string, i: nat)
    requires i <= |d| && forall k :: 0 <= k < |d| ==> !IsVersionChar(d[k])
    ensures DropEnd(d, i) == |d|
    decreases |d| - i
  {
    if i < |d| {
      DropAll(d, i + 1);
    }
  }

  /** The documented chain, for all numbers q < p < r and n, and all words w. */
  lemma DocumentedChain(q: string, p: string, r: string, n: string, w: string)
    requires Digits(q) && Digits(p) && Digits(r) && Digits(n) && Letters(w) && q != "" && p != "" && r != "" && n != "" && w != ""
    requires NatOf(q) < NatOf(p) < NatOf(r)
    ensures Compare(q + ("." + n), p + ("~" + w)) == -1
    ensures Compare(p + ("~" + w), p) == -1
    ensures Compare(p, p + ("-" + w)) == -1
    ensures Compare(p + ("-" + w), p + ("-" + w + ("." + n))) == -1
    ensures Compare(p + ("-" + w + ("." + n)), p + ("-" + n)) == -1
    ensures Compare(p + ("-" + n), p + ("-" + n + ("." + n))) == -1
    ensures Compare(p + ("-" + n + ("." + n)), p + ("^" + w)) == -1
    ensures Compare(p + ("^" + w), p + ("." + w + ("-" + n))) == -1
    ensures Compare(p + ("." + w + ("-" + n)), p + ("." + n + ("-" + n))) == -1
    ensures Compare(p + ("." + n + ("-" + n)), p + (w + ("-" + n))) == -1
    ensures Compare(p + (w + ("-" + n)), r + ("-" + n)) == -1
  {
    hide Compare, NatOf;
    NoNul(p);
    NoNul(w);
    NoNul(n);
    NumbersFirst(q, "." + n, p, "~" + w);
    Kinds(p, "~" + w, "");
    assert p + "" == p;
    LongerIsNewer(p, "-" + w);
    LongerIsNewer(p + ("-" + w), "." + n);
    Assoc(p, "-" + w, "." + n);
    Assoc("-", w, "." + n);
    PrefixDrops(p, "-" + w + ("." + n), "-" + n);
    WordsBeforeNumbers("-", w + ("." + n), n);
    LongerIsNewer(p + ("-" + n), "." + n);
    Assoc(p, "-" + n, "." + n);
    Kinds(p, "-" + n + ("." + n), "^" + w);
    Kinds(p, "^" + w, "." + w + ("-" + n));
    Assoc(".", w, "-" + n);
    Assoc(".", n, "-" + n);
    PrefixDrops(p, "." + w + ("-" + n), "." + n + ("-" + n));
    WordsBeforeNumbers(".", w + ("-" + n), n + ("-" + n));
    Kinds(p, "." + n + ("-" + n), w + ("-" + n));
    NumbersFirst(p, w + ("-" + n), r, "-" + n);
  }

  /** Behind a number, what begins with an older kind of character is older. */
  lemma Kinds(p: string, x: string, y: string)
    requires Digits(p) && p != "" && !IsDigit(At(x, 0)) && !IsDigit(At(y, 0))
    requires forall c :: c in {At(x, 0), At(y, 0)} ==> c == '\0' || IsVersionChar(c)
    requires Rank(At(x, 0)) < Rank(At(y, 0))
    ensures Compare(p + x, p + y) == -1
  {
    hide Compare;
    NoNul(p);
    PrefixDrops(p, x, y);
    FirstDecides(x, y);
  }
}
