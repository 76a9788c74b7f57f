/** What policies mean for a partition (internal/image/policy.go:14-58 and 277-368): the
    four special texts, single rules, and what follows for verity partitions. */
module PolicyMeaning {
  import opened Maybe
  import opened ImagePolicy
  import opened Dissecting

  /** What a policy says about a designator: whether it may be used (None when it must be
      absent), and which findings pass. */
  ghost predicate Says(p: Policy, d: Designator, use: Option<bool>, pass: Flags) {
    && MayUse(p, d) == use
    && forall found: Flags :: found <= OPEN ==> (ProtectionOk(p, d, found) <==> found * pass != {})
  }

  /** The findings a designator can have: only root and usr can be protected by verity,
      and the partitions that protect them have no protection of their own. */
  function Possible(d: Designator): Flags {
    if d in {Root, Usr} then OPEN
    else if d in {RootVerity, UsrVerity, RootVeritySig, UsrVeritySig} then {Unprotected, Unused, Absent}
    else {Encrypted, EncryptedWithIntegrity, Unprotected, Unused, Absent}
  }

  lemma NormalUse(f: Flags, d: Designator)
    ensures NormalFlags(f, d) * OPEN == (if f * OPEN == {} then OPEN else f * OPEN) * Possible(d)
  {
  }

  lemma PassIs(p: Policy, d: Designator, use: Flags)
    requires Exhaustive(p, d) * OPEN == use
    ensures Says(p, d, if use == {Absent} then None else Some(use - {Absent} != {Unused}), use)
  {
    forall found: Flags | found <= OPEN
      ensures found * Exhaustive(p, d) == found * use
    {
      assert found * OPEN == found;
    }
  }

  /** "*" admits everything, "-" and the empty text ignore what is there, "~" demands that
      nothing is. */
  lemma SpecialPolicies(d: Designator, graceful: bool)
    ensures PolicyOf("*", graceful).Ok? && Says(PolicyOf("*", graceful).value, d, Some(true), Possible(d))
    ensures PolicyOf("-", graceful).Ok? && Says(PolicyOf("-", graceful).value, d, Some(false), {Unused, Absent})
    ensures PolicyOf("", graceful) == PolicyOf("-", graceful)
    ensures PolicyOf("~", graceful).Ok? && Says(PolicyOf("~", graceful).value, d, None, {Absent})
  {
    hide NormalFlags, Says, Exhaustive;
    NormalUse(OPEN, d);
    NormalUse(IGNORE, d);
    NormalUse({Absent}, d);
    var open, ignore, absent := PolicyOf("*", graceful).value, PolicyOf("-", graceful).value, PolicyOf("~", graceful).value;
    Default(open, d);
    Default(ignore, d);
    Default(absent, d);
    hide PolicyOf;
    assert OPEN * Possible(d) == Possible(d) && IGNORE * Possible(d) == IGNORE && {Absent} * Possible(d) == {Absent};
    assert Unprotected in Possible(d) - {Absent};
    PassIs(open, d, Possible(d));
    PassIs(ignore, d, IGNORE);
    PassIs(absent, d, {Absent});
  }

  lemma {:induction false} Default(p: Policy, d: Designator)
    requires p.rules == map[]
    ensures Exhaustive(p, d) == NormalFlags(p.def, d)
    decreases if d.VerityData().Some? then 1 else 0
  {
    if d.VerityData().Some? {
      Default(p, d.VerityData().value);
    }
    hide NormalFlags;
  }

  /** A rule for a designator says which findings pass; one that names none admits all. */
  lemma RuleMeans(p: Policy, d: Designator)
    requires d in p.rules
    ensures var f := if p.rules[d] * OPEN == {} then OPEN else p.rules[d] * OPEN;
            var use := f * Possible(d);
            Says(p, d, if use == {Absent} then None else Some(use - {Absent} != {Unused}), use)
  {
    NormalUse(p.rules[d], d);
    hide NormalFlags, Says;
    PassIs(p, d, Exhaustive(p, d) * OPEN);
  }

  /** Read-only and growfs attributes are demanded exactly when the rule names one of the
      two values, unless the partition must be absent. */
  lemma AttributesMean(p: Policy, d: Designator, a: Attrs)
    requires d in p.rules && MayUse(p, d).Some?
    ensures var f := p.rules[d];
            FlagsOk(p, d, a) <==>
            && (f * READ_ONLY == {ReadOnlyOn} ==> a.readOnly) && (f * READ_ONLY == {ReadOnlyOff} ==> !a.readOnly)
            && (f * GROW_FS == {GrowFSOn} ==> a.growFS) && (f * GROW_FS == {GrowFSOff} ==> !a.growFS)
  {
    var f, e := p.rules[d], Exhaustive(p, d);
    assert e == NormalFlags(f, d) && e * OPEN != {Absent};
    NormalAttributes(f, d);
    hide NormalFlags, Exhaustive;
    OneOf(f, e * READ_ONLY, ReadOnlyOn, ReadOnlyOff);
    OneOf(f, e * GROW_FS, GrowFSOn, GrowFSOff);
  }

  lemma NormalAttributes(f: Flags, d: Designator)
    requires NormalFlags(f, d) * OPEN != {Absent}
    ensures NormalFlags(f, d) * READ_ONLY == if f * READ_ONLY == {} then READ_ONLY else f * READ_ONLY
    ensures NormalFlags(f, d) * GROW_FS == if f * GROW_FS == {} then GROW_FS else f * GROW_FS
  {
  }

  lemma OneOf(f: Flags, e: Flags, x: Flag, y: Flag)
    requires x != y && e == if f * {x, y} == {} then {x, y} else f * {x, y}
    ensures e == {x} <==> f * {x, y} == {x}
    ensures e == {y} <==> f * {x, y} == {y}
  {
    assert x in {x, y} && y in {x, y} && x !in {y} && y !in {x};
  }

  /** Without a rule of its own a verity partition is used as the rule for its data says:
      when that admits verity or a signature, and a signature partition when it admits a
      signature. It may be unused or absent when the data may. */
  lemma DerivedMeans(p: Policy, d: Designator)
    requires d.VerityData().Some? && d !in p.rules && d.VerityData().value in p.rules
    requires p.rules[d.VerityData().value] * OPEN != {}
    ensures var f := p.rules[d.VerityData().value];
            var derived := if d in {RootVeritySig, UsrVeritySig} then Signed in f else Verity in f || Signed in f;
            derived ==> Says(p, d, Some(true), {Unprotected} + f * {Unused, Absent})
  {
    var x := d.VerityData().value;
    var f := p.rules[x];
    NormalUse(f, x);
    var data := NormalFlags(f, x);
    assert Get(p, x) == Some(data);
    assert data * OPEN == f * OPEN;
    assert Signed in data <==> Signed in f;
    assert Verity in data <==> Verity in f;
    assert data * IGNORE == f * IGNORE;
    var own := {Unprotected} + data * IGNORE + data * (READ_ONLY + GROW_FS);
    NormalUse(own, d);
    assert own * OPEN == {Unprotected} + f * IGNORE;
    assert (own * OPEN) * Possible(d) == own * OPEN;
    var derived := if d in {RootVeritySig, UsrVeritySig} then Signed in f else Verity in f || Signed in f;
    if derived {
      assert Get(p, d) == Some(NormalFlags(own, d)) by {
        var need := if d.IsVeritySig() then {Signed} else {Verity, Signed};
        assert Signed in data * need || Verity in data * need;
      }
      hide NormalFlags, Says, Get;
      var use := Exhaustive(p, d) * OPEN;
      assert use == {Unprotected} + f * {Unused, Absent};
      assert Unprotected in use && Unprotected in use - {Absent};
      PassIs(p, d, use);
    }
  }
}
