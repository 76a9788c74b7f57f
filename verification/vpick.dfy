/** Picking the best entry of a versioned directory: internal/discover/vpick.go. */
module VersionPick {
  import opened Maybe
  import opened Versions

  const TRIES_UNSET: int := 0xffff_ffff

  datatype Kind = Regular | Directory | Block | Other

  /** Where an entry leads: the resolved path and the type of inode there. */
  datatype Resolved = Resolved(path: string, kind: Kind)

  datatype Pick = Pick(path: string, kind: Kind, version: string, arch: string, left: int, done: int)

  /** The caller's filter, the known architecture names, the host's own ones ("" when
      there is no secondary one), and the file system as seen through Chase and stat
      (None is an error). */
  datatype Search = Search(basename: string, suffix: string, want: set<Kind>, architectures: set<string>, native: string, secondary: string, resolve: string -> Option<Resolved>)

  // ----- boot counters

  function ValueIn(s: string, base: nat): nat
    requires Digits(s)
  {
    if s == "" then 0 else ValueIn(s[..|s| - 1], base) * base + (s[|s| - 1] as int - '0' as int)
  }

  /** A leading zero of a longer number selects octal. */
  function BaseOf(s: string): nat {
    if |s| > 1 && s[0] == '0' then 8 else 10
  }

  /** A 32-bit number as strtoul reads it with base 0. */
  predicate IsNumber(s: string) {
    && s != "" && Digits(s)
    && (BaseOf(s) == 8 ==> '8' !in s && '9' !in s)
    && ValueIn(s, BaseOf(s)) <= 0xffff_ffff
  }

  function Number(s: string): nat
    requires IsNumber(s)
  {
    ValueIn(s, BaseOf(s))
  }

  /** parseUnsigned, on digits. */
  function ParseUnsigned(s: string): Option<int> {
    if IsNumber(s) then Some(Number(s)) else None
  }

  /** What a boot counter suffix says: "+<left>" or "+<left>-<done>". */
  ghost predicate Counts(s: string, left: int, done: int) {
    || (exists p: string :: IsNumber(p) && s == "+" + p && left == Number(p) && done == 0)
    || (exists p: string, q: string :: IsNumber(p) && IsNumber(q) && s == "+" + p + "-" + q && left == Number(p) && done == Number(q))
  }

  function Tries(s: string): Option<(int, int)> {
    if s == "" || s[0] != '+' then None
    else
      var b := s[1..];
      var n := DigitEnd(b, 0);
      var left := ParseUnsigned(b[..n]);
      if left.None? then None
      else if n == |b| then Some((left.value, 0))
      else if b[n] != '-' then None
      else
        var done := ParseUnsigned(b[n + 1..]);
        if done.None? then None else Some((left.value, done.value))
  }

  lemma {:induction false} DigitEndStops(b: string, n: nat, i: nat)
    requires i <= n <= |b| && Digits(b[i..n]) && (n < |b| ==> !IsDigit(b[n]))
    ensures DigitEnd(b, i) == n
    decreases n - i
  {
    if i < n {
      assert IsDigit(b[i..n][0]);
      assert b[i + 1..n] == b[i..n][1..];
      DigitEndStops(b, n, i + 1);
    }
  }

  /** parseTries accepts exactly the boot counters, and reads what they say. */
  lemma TriesExactly(s: string, left: int, done: int)
    ensures Tries(s) == Some((left, done)) <==> Counts(s, left, done)
  {
    if Tries(s) == Some((left, done)) {
      TriesCount(s, left, done);
    }
    hide ValueIn, BaseOf, Tries, IsNumber, Number, Digits;
    if Counts(s, left, done) {
      if p: string :| IsNumber(p) && s == "+" + p && left == Number(p) && done == 0 {
        CountRead(p);
      } else {
        var p: string, q: string :| IsNumber(p) && IsNumber(q) && s == "+" + p + "-" + q && left == Number(p) && done == Number(q);
        CountsRead(p, q);
      }
    }
  }

  lemma TriesCount(s: string, left: int, done: int)
    requires Tries(s) == Some((left, done))
    ensures Counts(s, left, done)
  {
    hide IsNumber, Number, Digits;
    var b := s[1..];
    var n := DigitEnd(b, 0);
    assert s == "+" + b;
    if n == |b| {
      assert b[..n] == b;
    } else {
      assert b == b[..n] + "-" + b[n + 1..];
      assert s == "+" + b[..n] + "-" + b[n + 1..];
    }
  }

  lemma CountRead(p: string)
    requires IsNumber(p)
    ensures Tries("+" + p) == Some((Number(p), 0))
  {
    var s := "+" + p;
    assert p[0..|p|] == p[..|p|] == p == s[1..];
    hide ValueIn, BaseOf, Number;
    DigitEndStops(p, |p|, 0);
  }

  lemma CountsRead(p: string, q: string)
    requires IsNumber(p) && IsNumber(q)
    ensures Tries("+" + p + "-" + q) == Some((Number(p), Number(q)))
  {
    var s, b := "+" + p + "-" + q, p + "-" + q;
    assert s[1..] == b && b[|p| + 1..] == q;
    assert b[0..|p|] == b[..|p|] == p;
    hide ValueIn, BaseOf, Number;
    DigitEndStops(b, |p|, 0);
  }

  /** parseTries. */
  method ParseTries(s0: string) returns (r: Option<(int, int)>)
    ensures r == Tries(s0)
  {
    if s0 == "" || s0[0] != '+' {
      return None;
    }
    var s := s0[1..];
    var n := 0;
    while n < |s| && IsDigit(s[n])
      invariant n <= |s| && Digits(s[..n])
    {
      n := n + 1;
    }
    assert s[0..n] == s[..n];
    DigitEndStops(s, n, 0);
    if n == 0 {
      return None;
    }
    var left := ParseUnsigned(s[..n]);
    if n == |s| {
      assert s[..n] == s;
      return if left.Some? then Some((left.value, 0)) else None;
    }
    if s[n] != '-' || left.None? {
      return None;
    }
    var rest := s[n + 1..];
    for i := 0 to |rest|
      invariant forall j :: 0 <= j < i ==> IsDigit(rest[j])
    {
      if !IsDigit(rest[i]) {
        return None;
      }
    }
    var done := ParseUnsigned(rest);
    r := if done.Some? then Some((left.value, done.value)) else None;
  }

  // ----- entry names

  /** strings.LastIndexByte. */
  function LastIndex(s: string, c: char): (i: int)
    ensures -1 <= i < |s|
    ensures i >= 0 ==> s[i] == c
    ensures forall k :: i < k < |s| ==> s[k] != c
  {
    if s == "" then -1 else if s[|s| - 1] == c then |s| - 1 else LastIndex(s[..|s| - 1], c)
  }

  predicate VersionIsValid(s: string) {
    0 < |s| <= 255 && forall k :: 0 <= k < |s| ==> IsVersionChar(s[k])
  }

  /** What an entry name says. */
  datatype Fields = Fields(version: string, arch: string, left: int, done: int)

  /** The name after its basename and before its suffix. */
  function Middle(name: string, q: Search): Option<string> {
    var prefix := q.basename + "_";
    if !(prefix <= name) then None
    else
      var e := name[|prefix|..];
      if |q.suffix| <= |e| && e[|e| - |q.suffix|..] == q.suffix then Some(e[..|e| - |q.suffix|]) else None
  }

  /** Takes the boot counter off the end. */
  function Uncounted(e: string): (string, int, int) {
    var plus := LastIndex(e, '+');
    if plus >= 0 && Tries(e[plus..]).Some? then
      var t := Tries(e[plus..]).value;
      (e[..plus], t.0, t.1)
    else (e, TRIES_UNSET, TRIES_UNSET)
  }

  function FieldsOf(name: string, q: Search): Option<Fields> {
    match Middle(name, q)
    case None => None
    case Some(middle) =>
      var (e, left, done) := Uncounted(middle);
      var (version, arch) := SplitArch(e, q);
      if arch != "" && arch != q.native && (q.secondary == "" || arch != q.secondary) then None
      else if !VersionIsValid(version) then None
      else Some(Fields(version, arch, left, done))
  }

  /** Cuts at the last underscore; what follows is dropped when it names no
      architecture. */
  function SplitArch(e: string, q: Search): (string, string) {
    var underscore := LastIndex(e, '_');
    if underscore < 0 then (e, "")
    else (e[..underscore], if e[underscore + 1..] in q.architectures then e[underscore + 1..] else "")
  }

  function Decimal(n: nat): (s: string)
    ensures s != "" && Digits(s)
  {
    if n < 10 then ['0' + n as char] else Decimal(n / 10) + ['0' + (n % 10) as char]
  }

  lemma {:induction false} DecimalIs(n: nat)
    ensures ValueIn(Decimal(n), 10) == n && (n > 0 ==> Decimal(n)[0] != '0')
  {
    if n >= 10 {
      DecimalIs(n / 10);
      var s := Decimal(n);
      assert s[..|s| - 1] == Decimal(n / 10);
    } else {
      assert Decimal(n)[..0] == "";
    }
  }

  lemma DecimalNumber(n: nat)
    requires n <= 0xffff_ffff
    ensures IsNumber(Decimal(n)) && Number(Decimal(n)) == n
  {
    DecimalIs(n);
    hide ValueIn;
    if n == 0 {
      assert BaseOf(Decimal(n)) == 10;
    }
  }

  /** The name the format prescribes for an entry. */
  function NameOf(q: Search, f: Fields): string
    requires 0 <= f.left && 0 <= f.done
  {
    q.basename + "_" + (Stem(f) + Counter(f.left, f.done)) + q.suffix
  }

  function Stem(f: Fields): string {
    f.version + if f.arch == "" then "" else "_" + f.arch
  }

  function Counter(left: int, done: int): string
    requires 0 <= left && 0 <= done
  {
    if left == TRIES_UNSET then "" else "+" + Decimal(left) + "-" + Decimal(done)
  }

  /** As every name in the table is: neither empty nor holding a separator. */
  predicate IsPlain(arch: string) {
    arch != "" && '_' !in arch && '+' !in arch
  }

  lemma LastIndexIs(s: string, i: nat, c: char)
    requires i < |s| && s[i] == c && c !in s[i + 1..]
    ensures LastIndex(s, c) == i
  {
    assert forall k :: i < k < |s| ==> s[k] == s[i + 1..][k - i - 1];
  }

  lemma NoLastIndex(s: string, c: char)
    requires c !in s
    ensures LastIndex(s, c) == -1
  {
  }

  lemma CounterRead(left: int, done: int)
    requires 0 <= left < TRIES_UNSET && 0 <= done <= TRIES_UNSET
    ensures Counter(left, done) != "" && Counter(left, done)[0] == '+' && '+' !in Counter(left, done)[1..]
    ensures Tries(Counter(left, done)) == Some((left, done))
  {
    hide Tries, IsNumber, Number;
    DecimalNumber(left);
    DecimalNumber(done);
    hide Decimal;
    var counter := Counter(left, done);
    assert counter == "+" + Decimal(left) + "-" + Decimal(done);
    assert counter[1..] == Decimal(left) + "-" + Decimal(done);
    assert Counts(counter, left, done);
    TriesExactly(counter, left, done);
  }

  lemma UncountedMiddle(stem: string, left: int, done: int)
    requires '+' !in stem
    requires (left == done == TRIES_UNSET) || (0 <= left < TRIES_UNSET && 0 <= done <= TRIES_UNSET)
    ensures Uncounted(stem + Counter(left, done)) == (stem, left, done)
  {
    hide Tries, LastIndex;
    if left == TRIES_UNSET {
      assert stem + "" == stem;
      NoLastIndex(stem, '+');
    } else {
      CounterRead(left, done);
      hide Counter;
      var counter := Counter(left, done);
      var e := stem + counter;
      assert e[|stem|..] == counter && e[..|stem|] == stem;
      assert e[|stem| + 1..] == counter[1..];
      LastIndexIs(e, |stem|, '+');
    }
  }

  /** Reading back a name of the prescribed form gives its fields. */
  lemma NameReadsBack(q: Search, f: Fields)
    requires VersionIsValid(f.version)
    requires f.arch == "" || (f.arch in q.architectures && IsPlain(f.arch))
    requires (f.left == f.done == TRIES_UNSET) || (0 <= f.left < TRIES_UNSET && 0 <= f.done <= TRIES_UNSET)
    ensures FieldsOf(NameOf(q, f), q) == if f.arch == "" || f.arch == q.native || (q.secondary != "" && f.arch == q.secondary) then Some(f) else None
  {
    var stem := Stem(f);
    MiddleRead(q, f);
    StemRead(q, f);
    UncountedMiddle(stem, f.left, f.done) by {
      assert '+' !in stem;
    }
    hide Tries, Counter, Uncounted, Middle, Stem, SplitArch, VersionIsValid, NameOf, IsPlain;
  }

  /** Taking an entry name apart at its last underscore. */
  lemma StemRead(q: Search, f: Fields)
    requires VersionIsValid(f.version)
    requires f.arch == "" || (f.arch in q.architectures && IsPlain(f.arch))
    ensures SplitArch(Stem(f), q) == (f.version, f.arch)
  {
    hide LastIndex;
    var e := Stem(f);
    if f.arch == "" {
      assert e == f.version;
      NoLastIndex(e, '_');
    } else {
      assert e[|f.version| + 1..] == f.arch && e[..|f.version|] == f.version;
      LastIndexIs(e, |f.version|, '_');
    }
  }

  lemma MiddleRead(q: Search, f: Fields)
    requires 0 <= f.left && 0 <= f.done
    ensures Middle(NameOf(q, f), q) == Some(Stem(f) + Counter(f.left, f.done))
  {
    hide Stem, Counter;
    var name, prefix, m := NameOf(q, f), q.basename + "_", Stem(f) + Counter(f.left, f.done);
    assert name == prefix + m + q.suffix;
    assert name == prefix + (m + q.suffix);
    assert name[|prefix|..] == m + q.suffix;
    assert (m + q.suffix)[|m|..] == q.suffix && (m + q.suffix)[..|m|] == m;
  }

  // ----- the order

  /** filepath.Base. */
  function BaseName(path: string): string {
    if path == "" then "."
    else if path[|path| - 1] == '/' then if |path| == 1 then "/" else BaseName(path[..|path| - 1])
    else path[LastIndex(path, '/') + 1..]
  }

  /** better: positive when a is the better pick. */
  function Better(a: Pick, b: Pick, q: Search): int {
    var tries := CmpBool(a.left != 0, b.left != 0);
    if tries != 0 then tries
    else
      var version := Compare(a.version, b.version);
      if version != 0 then version
      else
        var native := CmpBool(a.arch == q.native, b.arch == q.native);
        if native != 0 then native
        else
          var secondary := if q.secondary != "" then CmpBool(a.arch == q.secondary, b.arch == q.secondary) else 0;
          if secondary != 0 then secondary
          else
            var left := CmpInt(a.left, b.left);
            if left != 0 then left
            else
              var done := -CmpInt(a.done, b.done);
              if done != 0 then done else CmpString(BaseName(a.path), BaseName(b.path))
  }

  /** better is a total preorder; ties agree in everything that is compared. */
  lemma BetterOrder(a: Pick, b: Pick, q: Search)
    ensures Better(b, a, q) == -Better(a, b, q)
    ensures Better(a, b, q) == 0 <==>
            && Segments(a.version) == Segments(b.version)
            && (a.arch == q.native <==> b.arch == q.native)
            && (q.secondary != "" ==> (a.arch == q.secondary <==> b.arch == q.secondary))
            && a.left == b.left && a.done == b.done
            && BaseName(a.path) == BaseName(b.path)
  {
    VersionOrder(a.version, b.version);
    CmpStringLaws(BaseName(a.path), BaseName(b.path));
  }

  lemma BetterTransitive(a: Pick, b: Pick, c: Pick, q: Search)
    requires Better(a, b, q) <= 0 && Better(b, c, q) <= 0
    ensures Better(a, c, q) <= 0
  {
    hide BaseName, Compare;
    VersionOrder(a.version, b.version);
    VersionOrder(b.version, c.version);
    VersionOrder(a.version, c.version);
    var x, y, z := BaseName(a.path), BaseName(b.path), BaseName(c.path);
    CmpStringLaws(x, y);
    CmpStringLaws(y, z);
    CmpStringLaws(x, z);
    if CmpString(x, y) <= 0 && CmpString(y, z) <= 0 {
      CmpStringTransitive(x, y, z);
    }
    if Compare(a.version, b.version) <= 0 && Compare(b.version, c.version) <= 0 {
      VersionTransitive(a.version, b.version, c.version);
    }
  }

  /** An entry with tries left beats an exhausted one whatever their versions; among
      entries that both have, or both lack, tries the newer version wins. */
  lemma NewerWins(a: Pick, b: Pick, q: Search)
    ensures a.left != 0 && b.left == 0 ==> Better(a, b, q) > 0
    ensures (a.left == 0 <==> b.left == 0) && Compare(a.version, b.version) > 0 ==> Better(a, b, q) > 0
  {
  }

  // ----- picking

  datatype Outcome = Skip | Broken | Match(pick: Pick)

  /** What one directory entry contributes. */
  function Judge(name: string, q: Search): Outcome {
    match FieldsOf(name, q)
    case None => Skip
    case Some(f) =>
      match q.resolve(name)
      case None => Broken
      case Some(r) => if r.kind in q.want && r.kind != Other then Match(Pick(r.path, r.kind, f.version, f.arch, f.left, f.done)) else Skip
  }

  datatype Answer = Best(best: Option<Pick>) | Unresolved

  /** p comes from entry k, which no later entry beats and every earlier one falls
      short of. */
  ghost predicate FirstBest(names: seq<string>, q: Search, k: nat, p: Pick) {
    && k < |names| && Judge(names[k], q) == Match(p)
    && (forall j :: 0 <= j < |names| && Judge(names[j], q).Match? ==> Better(Judge(names[j], q).pick, p, q) <= 0)
    && (forall j :: 0 <= j < k && Judge(names[j], q).Match? ==> Better(Judge(names[j], q).pick, p, q) < 0)
  }

  ghost predicate Picked(names: seq<string>, q: Search, r: Answer) {
    match r
    case Unresolved => exists k :: 0 <= k < |names| && Judge(names[k], q).Broken?
    case Best(best) =>
      && (forall k :: 0 <= k < |names| ==> !Judge(names[k], q).Broken?)
      && match best
         case None => forall k :: 0 <= k < |names| ==> Judge(names[k], q).Skip?
         case Some(p) => exists k :: FirstBest(names, q, k, p)
  }

  lemma FirstBestGrows(names: seq<string>, q: Search, n: nat, k: nat, p: Pick)
    requires n < |names| && FirstBest(names[..n], q, k, p)
    requires Judge(names[n], q).Match? ==> Better(Judge(names[n], q).pick, p, q) <= 0
    ensures FirstBest(names[..n + 1], q, k, p)
  {
    hide Judge, Better;
    var before, after := names[..n], names[..n + 1];
    assert after == before + [names[n]];
  }

  lemma NewBest(names: seq<string>, q: Search, n: nat, k: nat, p: Pick)
    requires n < |names| && FirstBest(names[..n], q, k, p)
    requires Judge(names[n], q).Match? && Better(Judge(names[n], q).pick, p, q) > 0
    ensures FirstBest(names[..n + 1], q, n, Judge(names[n], q).pick)
  {
    hide Judge, Better;
    var before, after, c := names[..n], names[..n + 1], Judge(names[n], q).pick;
    assert after == before + [names[n]];
    BetterOrder(c, c, q);
    BetterOrder(c, p, q);
    forall j | 0 <= j < n && Judge(names[j], q).Match?
      ensures Better(Judge(names[j], q).pick, c, q) < 0
    {
      var x := Judge(names[j], q).pick;
      assert before[j] == names[j];
      BetterTransitive(x, p, c, q);
      BetterOrder(x, c, q);
      if Better(x, c, q) == 0 {
        BetterTransitive(c, x, p, q);
      }
    }
  }

  /** The pick, name by name. */
  function PickOf(names: seq<string>, q: Search): Answer {
    if names == [] then Best(None)
    else
      var before := PickOf(names[..|names| - 1], q);
      if before.Unresolved? then Unresolved
      else
        match Judge(names[|names| - 1], q)
        case Skip => before
        case Broken => Unresolved
        case Match(c) => if before.best.None? || Better(c, before.best.value, q) > 0 then Best(Some(c)) else before
  }

  /** There is one first best match. */
  lemma PickUnique(names: seq<string>, q: Search, r: Answer, s: Answer)
    requires Picked(names, q, r) && Picked(names, q, s)
    ensures r == s
  {
    hide Judge, Better;
    if r.Best? && s.Best? && r.best.Some? && s.best.Some? {
      var i: nat :| FirstBest(names, q, i, r.best.value);
      var j: nat :| FirstBest(names, q, j, s.best.value);
      BetterOrder(r.best.value, r.best.value, q);
      BetterOrder(s.best.value, s.best.value, q);
      BetterOrder(r.best.value, s.best.value, q);
    }
  }

  /** PickOf is that match. */
  lemma {:induction false} PickIsFirstBest(names: seq<string>, q: Search)
    ensures Picked(names, q, PickOf(names, q))
    decreases |names|
  {
    hide Judge, Better;
    if names != [] {
      var n := |names| - 1;
      var init := names[..n];
      PickIsFirstBest(init, q);
      assert names == init + [names[n]] && names[..n + 1] == names;
      var before := PickOf(init, q);
      if before.Best? && before.best.Some? && !Judge(names[n], q).Broken? {
        var k: nat :| FirstBest(init, q, k, before.best.value);
        if Judge(names[n], q).Match? && Better(Judge(names[n], q).pick, before.best.value, q) > 0 {
          NewBest(names, q, n, k, before.best.value);
        } else {
          FirstBestGrows(names, q, n, k, before.best.value);
        }
      } else if before.Best? && Judge(names[n], q).Match? {
        FirstMatch(names, q, n);
      }
    }
  }

  lemma PickStops(names: seq<string>, q: Search, n: nat)
    requires n <= |names|
    ensures PickOf(names[..n], q).Unresolved? ==> PickOf(names, q).Unresolved?
    decreases |names|
  {
    if n < |names| {
      assert names[..|names| - 1][..n] == names[..n];
      PickStops(names[..|names| - 1], q, n);
    } else {
      assert names[..n] == names;
    }
  }

  /** pickVersion, on the names in the directory. */
  method PickVersion(names: seq<string>, q: Search) returns (r: Answer)
    ensures Picked(names, q, r) && r == PickOf(names, q)
  {
    hide FieldsOf, Better, FirstBest;
    var best: Option<Pick> := None;
    ghost var at := 0;
    for n := 0 to |names|
      invariant PickOf(names[..n], q) == Best(best)
      invariant forall k :: 0 <= k < n ==> !Judge(names[k], q).Broken?
      invariant best.None? ==> forall k :: 0 <= k < n ==> Judge(names[k], q).Skip?
      invariant best.Some? ==> FirstBest(names[..n], q, at, best.value)
    {
      assert names[..n + 1][..n] == names[..n];
      PickStops(names, q, if PickOf(names[..n + 1], q).Unresolved? then n + 1 else 0);
      var f := FieldsOf(names[n], q);
      if f.None? {
        Skipped(names, q, n, at, best);
        continue;
      }
      var resolved := q.resolve(names[n]);
      if resolved.None? {
        return Unresolved;
      }
      if resolved.value.kind !in q.want || resolved.value.kind == Other {
        Skipped(names, q, n, at, best);
        continue;
      }
      var c := Pick(resolved.value.path, resolved.value.kind, f.value.version, f.value.arch, f.value.left, f.value.done);
      if best.None? {
        FirstMatch(names, q, n);
        best, at := Some(c), n;
      } else if Better(c, best.value, q) > 0 {
        NewBest(names, q, n, at, best.value);
        best, at := Some(c), n;
      } else {
        FirstBestGrows(names, q, n, at, best.value);
      }
    }
    assert names[..|names|] == names;
    r := Best(best);
  }

  lemma Skipped(names: seq<string>, q: Search, n: nat, k: nat, best: Option<Pick>)
    requires n < |names| && Judge(names[n], q).Skip?
    requires best.Some? ==> FirstBest(names[..n], q, k, best.value)
    ensures best.Some? ==> FirstBest(names[..n + 1], q, k, best.value)
  {
    if best.Some? {
      FirstBestGrows(names, q, n, k, best.value);
    }
  }

  lemma FirstMatch(names: seq<string>, q: Search, n: nat)
    requires n < |names| && Judge(names[n], q).Match?
    requires forall k :: 0 <= k < n ==> Judge(names[k], q).Skip?
    ensures FirstBest(names[..n + 1], q, n, Judge(names[n], q).pick)
  {
    hide Judge, Better;
    BetterOrder(Judge(names[n], q).pick, Judge(names[n], q).pick, q);
    var after := names[..n + 1];
    assert after[n] == names[n];
    assert forall k :: 0 <= k < n ==> after[k] == names[k];
  }

  ghost predicate SameNames(a: seq<string>, b: seq<string>) {
    forall name :: name in a <==> name in b
  }

  /** The order in which a directory lists its entries decides neither success nor,
      up to ties, the pick. */
  lemma OrderIrrelevant(a: seq<string>, b: seq<string>, q: Search, r: Answer, s: Answer)
    requires SameNames(a, b) && Picked(a, q, r) && Picked(b, q, s)
    ensures r.Unresolved? <==> s.Unresolved?
    ensures r.Best? && s.Best? ==> (r.best.None? <==> s.best.None?)
    ensures r.Best? && s.Best? && r.best.Some? && s.best.Some? ==> Better(r.best.value, s.best.value, q) == 0
  {
    hide Judge, Better;
    forall k | 0 <= k < |a|
      ensures a[k] in b
    {
      assert a[k] in a;
    }
    forall k | 0 <= k < |b|
      ensures b[k] in a
    {
      assert b[k] in b;
    }
    if r.Best? && s.Best? && r.best.Some? && s.best.Some? {
      var x, y := r.best.value, s.best.value;
      BetterOrder(x, y, q);
    }
  }

  /** Entries that are not symbolic links keep their names, and then the pick itself
      is the same for every order. */
  lemma SamePick(a: seq<string>, b: seq<string>, q: Search, r: Answer, s: Answer)
    requires SameNames(a, b) && Picked(a, q, r) && Picked(b, q, s)
    requires forall name :: name in a && Judge(name, q).Match? ==> BaseName(Judge(name, q).pick.path) == name
    ensures r == s
  {
    OrderIrrelevant(a, b, q, r, s);
    hide Judge, Better;
    if r.Best? && r.best.Some? {
      var x, y := r.best.value, s.best.value;
      BetterOrder(x, y, q);
      var k: nat :| FirstBest(a, q, k, x);
      var m: nat :| FirstBest(b, q, m, y);
      assert a[k] in a && b[m] in b;
    }
  }
}
