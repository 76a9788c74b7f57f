/** The edit distance of cmd/sysext/cli.go: insertions, deletions, replacements and
    swaps of adjacent characters (the restricted Damerau-Levenshtein distance), and
    the closest-verb suggestion built on it. */
module Levenshtein {

  /** One step of a script that works through x and y from the left. */
  datatype Edit = Keep | Replace | Insert | Delete | Swap {

    /** The characters of x the step uses up. */
    function Taken(): nat {
      match this
      case Insert => 0
      case Swap => 2
      case _ => 1
    }

    /** The characters of y the step produces. */
    function Given(): nat {
      match this
      case Delete => 0
      case Swap => 2
      case _ => 1
    }

    function Price(): nat {
      if Keep? then 0 else 1
    }

    /** The step is possible where i characters of x are used up and j of y made. */
    predicate Possible(x: string, i: nat, y: string, j: nat) {
      && i + Taken() <= |x|
      && j + Given() <= |y|
      && (Keep? ==> x[i] == y[j])
      && (Swap? ==> x[i] == y[j + 1] && x[i + 1] == y[j])
    }
  }

  function Taken(s: seq<Edit>): nat {
    if s == [] then 0 else Taken(s[..|s| - 1]) + s[|s| - 1].Taken()
  }

  function Given(s: seq<Edit>): nat {
    if s == [] then 0 else Given(s[..|s| - 1]) + s[|s| - 1].Given()
  }

  /** The number of edits of a script; keeping a character is free. */
  function Cost(s: seq<Edit>): nat {
    if s == [] then 0 else Cost(s[..|s| - 1]) + s[|s| - 1].Price()
  }

  /** The script is possible at every step. */
  ghost predicate Fits(s: seq<Edit>, x: string, y: string) {
    forall k :: 0 <= k < |s| ==> s[k].Possible(x, Taken(s[..k]), y, Given(s[..k]))
  }

  /** The script turns the first i characters of x into the first j of y. */
  ghost predicate Turns(s: seq<Edit>, x: string, i: nat, y: string, j: nat) {
    Fits(s, x, y) && Taken(s) == i && Given(s) == j
  }

  function Min(a: int, b: int): int {
    if a < b then a else b
  }

  // ----- the recurrence

  predicate Swapped(x: string, y: string, i: nat, j: nat)
    requires i <= |x| && j <= |y|
  {
    i > 1 && j > 1 && x[i - 2] == y[j - 1] && x[i - 1] == y[j - 2]
  }

  /** The least of the distances one step away: past the diagonal neighbour, which
      is free when the characters agree, past a swap, a deletion or an insertion. */
  function Best(same: bool, swapped: bool, corner: int, far: int, above: int, left: int): int {
    var d := if same then corner else corner + 1;
    var e := if swapped && d > far + 1 then far + 1 else d;
    Min(e, Min(above + 1, left + 1))
  }

  /** The distance of the first i characters of x from the first j of y. */
  function Dist(x: string, y: string, i: nat, j: nat): nat
    requires i <= |x| && j <= |y|
    decreases i, j
  {
    if i == 0 then j
    else if j == 0 then i
    else
      var far := if Swapped(x, y, i, j) then Dist(x, y, i - 2, j - 2) else 0;
      Best(x[i - 1] == y[j - 1], Swapped(x, y, i, j), Dist(x, y, i - 1, j - 1), far, Dist(x, y, i - 1, j), Dist(x, y, i, j - 1))
  }

  lemma {:induction false} Extend(s: seq<Edit>, e: Edit, x: string, i: nat, y: string, j: nat)
    requires Turns(s, x, i, y, j) && e.Possible(x, i, y, j)
    ensures Turns(s + [e], x, i + e.Taken(), y, j + e.Given())
    ensures Cost(s + [e]) == Cost(s) + e.Price()
  {
    var t := s + [e];
    assert t[..|t| - 1] == s;
    forall k | 0 <= k < |t|
      ensures t[k].Possible(x, Taken(t[..k]), y, Given(t[..k]))
    {
      assert t[..k] == s[..k];
      if k == |s| {
        assert s[..k] == s;
      }
    }
  }

  /** The last edit of a cheapest script. */
  function LastEdit(x: string, y: string, i: nat, j: nat): Edit
    requires i <= |x| && j <= |y| && i + j > 0
  {
    if i == 0 then Insert
    else if j == 0 then Delete
    else if Dist(x, y, i, j) == Dist(x, y, i - 1, j) + 1 then Delete
    else if Dist(x, y, i, j) == Dist(x, y, i, j - 1) + 1 then Insert
    else if x[i - 1] == y[j - 1] && Dist(x, y, i, j) == Dist(x, y, i - 1, j - 1) then Keep
    else if Dist(x, y, i, j) == Dist(x, y, i - 1, j - 1) + 1 then Replace
    else Swap
  }

  /** It is possible, and its price is what the distance grows by. */
  lemma LastEditCosts(x: string, y: string, i: nat, j: nat)
    requires i <= |x| && j <= |y| && i + j > 0
    ensures var e := LastEdit(x, y, i, j);
            && e.Taken() <= i && e.Given() <= j && e.Possible(x, i - e.Taken(), y, j - e.Given())
            && Dist(x, y, i, j) == Dist(x, y, i - e.Taken(), j - e.Given()) + e.Price()
  {
    hide Dist;
    Unfold(x, y, i, j, if Swapped(x, y, i, j) then Dist(x, y, i - 2, j - 2) else 0);
    if i > 0 {
      Unfold(x, y, i - 1, j, if Swapped(x, y, i - 1, j) then Dist(x, y, i - 3, j - 2) else 0);
    }
    if j > 0 {
      Unfold(x, y, i, j - 1, if Swapped(x, y, i, j - 1) then Dist(x, y, i - 2, j - 3) else 0);
    }
  }

  lemma {:induction false} Reachable(x: string, y: string, i: nat, j: nat) returns (s: seq<Edit>)
    requires i <= |x| && j <= |y|
    ensures Turns(s, x, i, y, j) && Cost(s) == Dist(x, y, i, j)
    decreases i + j
  {
    hide Dist, LastEdit;
    if i + j == 0 {
      Unfold(x, y, i, j, 0);
      return [];
    }
    var e := LastEdit(x, y, i, j);
    LastEditCosts(x, y, i, j);
    s := Reachable(x, y, i - e.Taken(), j - e.Given());
    Extend(s, e, x, i - e.Taken(), y, j - e.Given());
    s := s + [e];
  }

  /** One step never covers more distance than its price. */
  lemma StepDist(e: Edit, x: string, y: string, i: nat, j: nat)
    requires e.Possible(x, i, y, j)
    ensures Dist(x, y, i + e.Taken(), j + e.Given()) <= Dist(x, y, i, j) + e.Price()
  {
    hide Dist;
    var m, n := i + e.Taken(), j + e.Given();
    var far := if Swapped(x, y, m, n) then Dist(x, y, m - 2, n - 2) else 0;
    Unfold(x, y, m, n, far);
    Unfold(x, y, i, j, if Swapped(x, y, i, j) then Dist(x, y, i - 2, j - 2) else 0);
  }

  lemma {:induction false} NotCheaper(s: seq<Edit>, x: string, y: string)
    requires Fits(s, x, y)
    ensures Taken(s) <= |x| && Given(s) <= |y|
    ensures Dist(x, y, Taken(s), Given(s)) <= Cost(s)
    decreases |s|
  {
    hide Dist;
    if s == [] {
      Unfold(x, y, 0, 0, 0);
    } else {
      var t, e := s[..|s| - 1], s[|s| - 1];
      assert e.Possible(x, Taken(t), y, Given(t));
      forall k | 0 <= k < |t|
        ensures t[k].Possible(x, Taken(t[..k]), y, Given(t[..k]))
      {
        assert t[..k] == s[..k];
      }
      NotCheaper(t, x, y);
      StepDist(e, x, y, Taken(t), Given(t));
    }
  }

  function Distance(x: string, y: string): nat {
    Dist(x, y, |x|, |y|)
  }

  /** The distance is the least cost of the scripts that turn x into y. */
  lemma LeastCost(x: string, y: string)
    ensures exists s :: Turns(s, x, |x|, y, |y|) && Cost(s) == Distance(x, y)
    ensures forall s :: Turns(s, x, |x|, y, |y|) ==> Distance(x, y) <= Cost(s)
  {
    var s := Reachable(x, y, |x|, |y|);
    forall t | Turns(t, x, |x|, y, |y|)
      ensures Distance(x, y) <= Cost(t)
    {
      NotCheaper(t, x, y);
    }
  }

  /** The recurrence at one pair of prefixes. */
  lemma Unfold(x: string, y: string, i: nat, j: nat, far: int)
    requires i <= |x| && j <= |y|
    requires Swapped(x, y, i, j) ==> far == Dist(x, y, i - 2, j - 2)
    ensures i == 0 ==> Dist(x, y, i, j) == j
    ensures j == 0 ==> Dist(x, y, i, j) == i
    ensures i > 0 && j > 0 ==>
              Dist(x, y, i, j) == Best(x[i - 1] == y[j - 1], Swapped(x, y, i, j), Dist(x, y, i - 1, j - 1), far, Dist(x, y, i - 1, j), Dist(x, y, i, j - 1))
  {
  }

  lemma {:induction false} SymmetricAt(x: string, y: string, i: nat, j: nat)
    requires i <= |x| && j <= |y|
    ensures Dist(x, y, i, j) == Dist(y, x, j, i)
    decreases i + j
  {
    hide Dist;
    var far := 0;
    if Swapped(x, y, i, j) {
      SymmetricAt(x, y, i - 2, j - 2);
      far := Dist(x, y, i - 2, j - 2);
    }
    Unfold(x, y, i, j, far);
    Unfold(y, x, j, i, far);
    if i > 0 && j > 0 {
      SymmetricAt(x, y, i - 1, j - 1);
      SymmetricAt(x, y, i - 1, j);
      SymmetricAt(x, y, i, j - 1);
    }
  }

  lemma {:induction false} BoundsAt(x: string, y: string, i: nat, j: nat)
    requires i <= |x| && j <= |y|
    ensures i - j <= Dist(x, y, i, j) && j - i <= Dist(x, y, i, j)
    ensures Dist(x, y, i, j) <= i || Dist(x, y, i, j) <= j
    decreases i + j
  {
    hide Dist;
    var far := 0;
    if Swapped(x, y, i, j) {
      BoundsAt(x, y, i - 2, j - 2);
      far := Dist(x, y, i - 2, j - 2);
    }
    Unfold(x, y, i, j, far);
    if i > 0 && j > 0 {
      BoundsAt(x, y, i - 1, j - 1);
      BoundsAt(x, y, i - 1, j);
      BoundsAt(x, y, i, j - 1);
    }
  }

  lemma {:induction false} ZeroAt(x: string, y: string, i: nat)
    requires i <= |x| && i <= |y|
    ensures Dist(x, y, i, i) == 0 <==> x[..i] == y[..i]
  {
    hide Dist;
    var far := if Swapped(x, y, i, i) then Dist(x, y, i - 2, i - 2) else 0;
    Unfold(x, y, i, i, far);
    if i > 0 {
      ZeroAt(x, y, i - 1);
      assert x[..i] == x[..i - 1] + [x[i - 1]] && y[..i] == y[..i - 1] + [y[i - 1]];
    }
  }

  /** Symmetric, zero exactly for equal strings, and between the length difference
      and the longer length. */
  lemma MetricLaws(x: string, y: string)
    ensures Distance(x, y) == Distance(y, x)
    ensures Distance(x, y) == 0 <==> x == y
    ensures |x| - |y| <= Distance(x, y) && |y| - |x| <= Distance(x, y)
    ensures Distance(x, y) <= if |x| < |y| then |y| else |x|
  {
    SymmetricAt(x, y, |x|, |y|);
    BoundsAt(x, y, |x|, |y|);
    if |x| == |y| {
      ZeroAt(x, y, |x|);
      assert x[..|x|] == x && y[..|y|] == y;
    }
  }

  // ----- the three rotating rows

  ghost predicate RowIs(row: array<int>, x: string, y: string, i: nat, n: nat)
    requires i <= |x| && n <= |y| && row.Length == |y| + 1
    reads row
  {
    forall j: nat :: j <= n ==> row[j] == Dist(x, y, i, j)
  }

  /** Fills row i + 1 from rows i and i - 1. */
  method FillRow(x: string, y: string, i: nat, t0: array<int>, t1: array<int>, t2: array<int>)
    requires i < |x|
    requires t0.Length == t1.Length == t2.Length == |y| + 1
    requires t0 != t2 && t1 != t2
    requires RowIs(t1, x, y, i, |y|)
    requires i > 0 ==> RowIs(t0, x, y, i - 1, |y|)
    modifies t2
    ensures RowIs(t2, x, y, i + 1, |y|)
  {
    hide Dist;
    Unfold(x, y, i + 1, 0, 0);
    t2[0] := i + 1;
    for j := 0 to |y|
      invariant RowIs(t1, x, y, i, |y|)
      invariant i > 0 ==> RowIs(t0, x, y, i - 1, |y|)
      invariant RowIs(t2, x, y, i + 1, j)
    {
      Unfold(x, y, i + 1, j + 1, if Swapped(x, y, i + 1, j + 1) then Dist(x, y, i - 1, j - 1) else 0);
      t2[j + 1] := t1[j];
      if x[i] != y[j] {
        t2[j + 1] := t2[j + 1] + 1;
      }
      if i > 0 && j > 0 && x[i - 1] == y[j] && x[i] == y[j - 1] && t2[j + 1] > t0[j - 1] + 1 {
        t2[j + 1] := t0[j - 1] + 1;
      }
      t2[j + 1] := Min(t2[j + 1], Min(t1[j + 1] + 1, t2[j] + 1));
    }
  }

  method ComputeDistance(x: string, y: string) returns (d: nat)
    ensures d == Distance(x, y)
  {
    if x == y {
      MetricLaws(x, y);
      return 0;
    }
    if x == "" {
      return |y|;
    }
    if y == "" {
      return |x|;
    }
    var t0, t1, t2 := new int[|y| + 1], new int[|y| + 1], new int[|y| + 1];
    for i := 0 to |y| + 1
      invariant forall k :: 0 <= k < i ==> t1[k] == k
    {
      t1[i] := i;
    }
    for i := 0 to |x|
      invariant t0.Length == t1.Length == t2.Length == |y| + 1
      invariant t0 != t1 && t0 != t2 && t1 != t2
      invariant fresh(t0) && fresh(t1) && fresh(t2)
      invariant RowIs(t1, x, y, i, |y|)
      invariant i > 0 ==> RowIs(t0, x, y, i - 1, |y|)
    {
      FillRow(x, y, i, t0, t1, t2);
      t0, t1, t2 := t1, t2, t0;
    }
    return t1[|y|];
  }

  // ----- the nearest verb

  /** r is the first verb that starts with name and leaves the fewest characters over. */
  ghost predicate ShortestExtension(verbs: seq<string>, name: string, r: string) {
    exists k :: 0 <= k < |verbs| && verbs[k] == r && name <= r
      && (forall j :: 0 <= j < |verbs| && name <= verbs[j] ==> |r| <= |verbs[j]|)
      && (forall j :: 0 <= j < k && name <= verbs[j] ==> |r| < |verbs[j]|)
  }

  /** r is the first verb at the least distance from name, at most 5. */
  ghost predicate Nearest(verbs: seq<string>, name: string, r: string) {
    exists k :: 0 <= k < |verbs| && verbs[k] == r && Distance(r, name) <= 5
      && (forall j :: 0 <= j < |verbs| ==> Distance(r, name) <= Distance(verbs[j], name))
      && (forall j :: 0 <= j < k ==> Distance(r, name) < Distance(verbs[j], name))
  }

  /** closestVerb; "" says that there is none. */
  method ClosestVerb(verbs: seq<string>, name: string) returns (best: string)
    requires "" !in verbs
    ensures if exists j :: 0 <= j < |verbs| && name <= verbs[j] then ShortestExtension(verbs, name, best)
            else if exists j :: 0 <= j < |verbs| && Distance(verbs[j], name) <= 5 then Nearest(verbs, name, best)
            else best == ""
  {
    var bestLen: int := -1;
    best := "";
    ghost var at := 0;
    for i := 0 to |verbs|
      invariant bestLen < 0 ==> best == "" && forall j :: 0 <= j < i ==> !(name <= verbs[j])
      invariant bestLen >= 0 ==> best in verbs && 0 <= at < i && verbs[at] == best && name <= best && bestLen == |best| - |name|
      invariant bestLen >= 0 ==> forall j :: 0 <= j < i && name <= verbs[j] ==> |best| <= |verbs[j]|
      invariant bestLen >= 0 ==> forall j :: 0 <= j < at && name <= verbs[j] ==> |best| < |verbs[j]|
    {
      if name <= verbs[i] && (bestLen < 0 || |verbs[i]| - |name| < bestLen) {
        best, bestLen, at := verbs[i], |verbs[i]| - |name|, i;
      }
    }
    if best != "" {
      return;
    }
    assert bestLen < 0;
    hide Distance;
    var bestDist: int := -1;
    for i := 0 to |verbs|
      invariant bestDist < 0 ==> best == "" && forall j :: 0 <= j < i ==> Distance(verbs[j], name) > 5
      invariant bestDist >= 0 ==> 0 <= at < i && verbs[at] == best && bestDist == Distance(best, name) <= 5
      invariant bestDist >= 0 ==> forall j :: 0 <= j < i ==> Distance(best, name) <= Distance(verbs[j], name)
      invariant bestDist >= 0 ==> forall j :: 0 <= j < at ==> Distance(best, name) < Distance(verbs[j], name)
    {
      var d := ComputeDistance(verbs[i], name);
      if d <= 5 && (bestDist < 0 || d < bestDist) {
        best, bestDist, at := verbs[i], d, i;
      }
    }
  }
}
