/** Picking the partitions of an image: internal/image/dissect.go. */
module Dissecting {
  import opened Maybe
  import opened Versions
  import opened ImagePolicy

  /** The GPT attribute bits that matter, and the boot indicator of an MBR. */
  datatype Attrs = Attrs(noAuto: bool, noBlockIO: bool, growFS: bool, readOnly: bool, boot: bool)

  datatype Partition = Partition(typeGuid: string, uuid: string, mbrType: int, attrs: Attrs, name: string)

  /** What a type GUID stands for; no designator for unknown types. */
  datatype GptType = GptType(designator: Option<Designator>, arch: string)

  /** The partition UUIDs an external root hash asks for; "" asks for none. */
  datatype Wanted = Wanted(root: string, rootVerity: string, usr: string, usrVerity: string)

  const GENERIC: string := "0fc63daf-8483-4772-8e79-3d69d8477de4"

  /** What a dissection is given: the type table, the policy, the verity settings, the
      native architecture, and what only I/O can tell about signature and /var
      partitions (None is an error). */
  datatype Env = Env(
    types: string -> GptType,
    policy: Policy,
    rootHash: string,
    verity: Option<Designator>,
    wanted: Wanted,
    native: string,
    signedHash: Partition -> Option<string>,
    varMatches: Partition -> Option<bool>)

  /** The 32-bit architecture a 64-bit host also executes, "" when there is none. */
  function SecondaryArch(native: string): string {
    match native
    case "x86-64" => "x86"
    case "arm64" => "arm"
    case "s390x" => "s390"
    case "ppc64" => "ppc"
    case "ppc64-le" => "ppc-le"
    case _ => ""
  }

  // ----- policy

  /** imagePolicy.mayUse: None when the partition must be absent. */
  function MayUse(p: Policy, d: Designator): Option<bool> {
    var f := Exhaustive(p, d) * OPEN;
    if f == {Absent} then None
    else Some(f - {Absent} != {Unused})
  }

  predicate ProtectionOk(p: Policy, d: Designator, found: Flags) {
    found * Exhaustive(p, d) != {}
  }

  predicate FlagsOk(p: Policy, d: Designator, a: Attrs) {
    && Exhaustive(p, d) * READ_ONLY != (if a.readOnly then {ReadOnlyOff} else {ReadOnlyOn})
    && Exhaustive(p, d) * GROW_FS != (if a.growFS then {GrowFSOff} else {GrowFSOn})
  }

  // ----- which partitions are candidates

  datatype Verdict = Skip | Candidate(d: Designator, arch: string) | Generic | Fail

  function Judge(env: Env, p: Partition): Verdict {
    var typ := env.types(p.typeGuid);
    var data := if typ.designator.Some? then typ.designator.value.VerityData() else None;
    if p.name == "_empty" then Skip
    else if p.attrs.noAuto && typ.designator != Some(ESP) then Skip
    else if env.verity.Some? && data.Some? && data != env.verity then Skip
    else
      match typ.designator
      case None => if p.typeGuid == GENERIC then Generic else Skip
      case Some(d) =>
        var take := Candidate(d, typ.arch);
        match d
        case ESP => if p.attrs.noBlockIO then Skip else take
        case Root => if env.wanted.root != "" && env.wanted.root != p.uuid then Skip else take
        case Usr => if env.wanted.usr != "" && env.wanted.usr != p.uuid then Skip else take
        case RootVerity => if env.wanted.rootVerity != "" && env.wanted.rootVerity != p.uuid then Skip else take
        case UsrVerity => if env.wanted.usrVerity != "" && env.wanted.usrVerity != p.uuid then Skip else take
        case RootVeritySig => JudgeSig(env, p, take)
        case UsrVeritySig => JudgeSig(env, p, take)
        case Var =>
          var m := env.varMatches(p);
          if m.None? then Fail else if m.value then take else Skip
        case _ => take
  }

  function JudgeSig(env: Env, p: Partition, take: Verdict): Verdict {
    if env.rootHash == "" then take
    else
      var h := env.signedHash(p);
      if h.None? then Fail else if h.value == env.rootHash then take else Skip
  }

  // ----- the order of candidates

  /** compareArch: native beats secondary beats anything else. */
  function CompareArch(a: string, b: string, env: Env): int {
    if a == b then 0
    else if a == env.native then 1
    else if b == env.native then -1
    else
      var secondary := SecondaryArch(env.native);
      if secondary == "" then 0 else if a == secondary then 1 else if b == secondary then -1 else 0
  }

  function ArchRank(a: string, env: Env): int {
    var secondary := SecondaryArch(env.native);
    if a == env.native then 2 else if secondary != "" && a == secondary then 1 else 0
  }

  lemma ArchByRank(a: string, b: string, env: Env)
    ensures CompareArch(a, b, env) == CmpInt(ArchRank(a, env), ArchRank(b, env))
  {
    hide SecondaryArch;
  }

  /** Partition i is a candidate for d. */
  predicate IsCandidate(env: Env, table: seq<Partition>, d: Designator, i: nat) {
    i < |table| && Judge(env, table[i]).Candidate? && Judge(env, table[i]).d == d
  }

  /** The order in which candidates of d are preferred: by architecture, then, for a
      versioned designator, by the version in the label. */
  function Prefer(env: Env, d: Designator, p: Partition, q: Partition): int {
    var c := CompareArch(env.types(p.typeGuid).arch, env.types(q.typeGuid).arch, env);
    if c != 0 || !d.Versioned() then c else Compare(p.name, q.name)
  }

  lemma PreferOrder(env: Env, d: Designator, p: Partition, q: Partition, r: Partition)
    ensures Prefer(env, d, q, p) == -Prefer(env, d, p, q)
    ensures Prefer(env, d, p, p) == 0
    ensures Prefer(env, d, p, q) <= 0 && Prefer(env, d, q, r) <= 0 ==> Prefer(env, d, p, r) <= 0
    ensures Prefer(env, d, p, q) <= 0 && Prefer(env, d, q, r) < 0 ==> Prefer(env, d, p, r) < 0
  {
    ArchByRank(env.types(p.typeGuid).arch, env.types(q.typeGuid).arch, env);
    ArchByRank(env.types(q.typeGuid).arch, env.types(p.typeGuid).arch, env);
    ArchByRank(env.types(q.typeGuid).arch, env.types(r.typeGuid).arch, env);
    ArchByRank(env.types(p.typeGuid).arch, env.types(r.typeGuid).arch, env);
    VersionOrder(p.name, q.name);
    VersionOrder(q.name, r.name);
    VersionOrder(p.name, r.name);
    if Compare(p.name, q.name) <= 0 && Compare(q.name, r.name) <= 0 {
      VersionTransitive(p.name, q.name, r.name);
    }
    hide Compare, CompareArch, ArchRank;
  }

  /** i is the first of the best candidates for d among the first n partitions. */
  ghost predicate FirstBest(env: Env, table: seq<Partition>, d: Designator, n: nat, i: nat)
    requires n <= |table|
  {
    && i < n && IsCandidate(env, table, d, i)
    && forall j :: 0 <= j < n && IsCandidate(env, table, d, j) ==>
         Prefer(env, d, table[j], table[i]) <= 0 && (j < i ==> Prefer(env, d, table[j], table[i]) < 0)
  }

  function ArchOf(env: Env, p: Partition): string {
    env.types(p.typeGuid).arch
  }

  /** The designators whose partitions carry a version in their label. */
  const VERSIONED: set<Designator> := {Root, Usr, RootVerity, UsrVerity, RootVeritySig, UsrVeritySig}

  /** Partition i is no worse a choice for d than j, and better if j comes first: native
      beats secondary beats any other architecture, and within one rank the newest label
      wins for a versioned designator, the first partition for any other. */
  ghost predicate NoWorse(env: Env, d: Designator, table: seq<Partition>, i: nat, j: nat)
    requires i < |table| && j < |table|
  {
    var a, b := ArchOf(env, table[i]), ArchOf(env, table[j]);
    var secondary := SecondaryArch(env.native);
    && (b == env.native ==> a == env.native)
    && (b == secondary && secondary != "" ==> a in {env.native, secondary})
    && (ArchRank(a, env) == ArchRank(b, env) ==>
          if d in VERSIONED then Compare(table[j].name, table[i].name) <= 0 && (j < i ==> Compare(table[j].name, table[i].name) < 0)
          else i <= j)
  }

  ghost predicate Newest(env: Env, table: seq<Partition>, d: Designator, i: nat) {
    IsCandidate(env, table, d, i) && forall j: nat :: IsCandidate(env, table, d, j) ==> NoWorse(env, d, table, i, j)
  }

  lemma NoWorseIs(env: Env, d: Designator, table: seq<Partition>, i: nat, j: nat)
    requires i < |table| && j < |table|
    ensures NoWorse(env, d, table, i, j) <==>
            Prefer(env, d, table[j], table[i]) <= 0 && (j < i ==> Prefer(env, d, table[j], table[i]) < 0)
  {
    ArchByRank(ArchOf(env, table[j]), ArchOf(env, table[i]), env);
    hide CompareArch, Compare, SecondaryArch;
    assert d in VERSIONED <==> d.Versioned();
  }

  /** That is what being the first best candidate means. */
  lemma NewestIsBest(env: Env, table: seq<Partition>, d: Designator, i: nat)
    ensures Newest(env, table, d, i) <==> FirstBest(env, table, d, |table|, i)
  {
    hide Prefer, NoWorse;
    forall j: nat | IsCandidate(env, table, d, i) && IsCandidate(env, table, d, j)
      ensures NoWorse(env, d, table, i, j) <==>
              Prefer(env, d, table[j], table[i]) <= 0 && (j < i ==> Prefer(env, d, table[j], table[i]) < 0)
    {
      NoWorseIs(env, d, table, i, j);
    }
    hide IsCandidate;
    assert FirstBest(env, table, d, |table|, i) <==>
           IsCandidate(env, table, d, i) && forall j: nat :: IsCandidate(env, table, d, j) ==>
             Prefer(env, d, table[j], table[i]) <= 0 && (j < i ==> Prefer(env, d, table[j], table[i]) < 0) by {
      assert forall j: nat :: IsCandidate(env, table, d, j) ==> j < |table| by {
        Bounded(env, table, d);
      }
    }
  }

  lemma Bounded(env: Env, table: seq<Partition>, d: Designator)
    ensures forall j: nat :: IsCandidate(env, table, d, j) ==> j < |table|
  {
  }

  ghost predicate NoCandidate(env: Env, table: seq<Partition>, d: Designator, n: nat)
    requires n <= |table|
  {
    forall j :: 0 <= j < n ==> !IsCandidate(env, table, d, j)
  }

  /** There is one first best candidate. */
  lemma FirstBestUnique(env: Env, table: seq<Partition>, d: Designator, n: nat, i: nat, j: nat)
    requires n <= |table| && FirstBest(env, table, d, n, i) && FirstBest(env, table, d, n, j)
    ensures i == j
  {
    PreferOrder(env, d, table[i], table[j], table[i]);
    hide Prefer, IsCandidate;
  }

  lemma KeepBest(env: Env, table: seq<Partition>, d: Designator, n: nat, i: nat)
    requires n < |table| && FirstBest(env, table, d, n, i)
    requires IsCandidate(env, table, d, n) ==> Prefer(env, d, table[n], table[i]) <= 0
    ensures FirstBest(env, table, d, n + 1, i)
  {
    hide Prefer, IsCandidate;
  }

  lemma PreferChain(env: Env, d: Designator, p: Partition, q: Partition, r: Partition)
    requires Prefer(env, d, p, q) <= 0 && Prefer(env, d, r, q) > 0
    ensures Prefer(env, d, p, r) < 0
  {
    PreferOrder(env, d, r, q, q);
    PreferOrder(env, d, p, q, r);
  }

  lemma NewBest(env: Env, table: seq<Partition>, d: Designator, n: nat, i: nat)
    requires n < |table| && FirstBest(env, table, d, n, i) && IsCandidate(env, table, d, n)
    requires Prefer(env, d, table[n], table[i]) > 0
    ensures FirstBest(env, table, d, n + 1, n)
  {
    hide Prefer, IsCandidate;
    PreferOrder(env, d, table[n], table[n], table[n]);
    forall j | 0 <= j < n && IsCandidate(env, table, d, j)
      ensures Prefer(env, d, table[j], table[n]) < 0
    {
      PreferChain(env, d, table[j], table[i], table[n]);
    }
  }

  lemma OnlyBest(env: Env, table: seq<Partition>, d: Designator, n: nat)
    requires n < |table| && NoCandidate(env, table, d, n) && IsCandidate(env, table, d, n)
    ensures FirstBest(env, table, d, n + 1, n)
  {
    PreferOrder(env, d, table[n], table[n], table[n]);
    hide Prefer, IsCandidate;
  }

  /** What is picked for designator d after the first n partitions: the first best
      candidate when the policy lets d be used, none when it is to be ignored. */
  ghost predicate PickedAs(env: Env, table: seq<Partition>, parts: map<Designator, nat>, arch: map<Designator, string>,
                           flags: map<Designator, Attrs>, ignored: set<Designator>, d: Designator, n: nat)
    requires n <= |table|
  {
    && (d in parts <==> MayUse(env.policy, d) == Some(true) && !NoCandidate(env, table, d, n))
    && (d in parts ==> FirstBest(env, table, d, n, parts[d]) && d in arch && arch[d] == env.types(table[parts[d]].typeGuid).arch)
    && (d in flags <==> d in parts) && (d in parts ==> flags[d] == table[parts[d]].attrs)
    && (d in ignored <==> MayUse(env.policy, d) == Some(false) && !NoCandidate(env, table, d, n))
    && (!NoCandidate(env, table, d, n) ==> MayUse(env.policy, d).Some?)
  }

  lemma PickedFacts(env: Env, table: seq<Partition>, parts: map<Designator, nat>, arch: map<Designator, string>,
                    flags: map<Designator, Attrs>, ignored: set<Designator>, d: Designator, n: nat)
    requires n <= |table| && PickedAs(env, table, parts, arch, flags, ignored, d, n)
    ensures d in parts <==> MayUse(env.policy, d) == Some(true) && !NoCandidate(env, table, d, n)
    ensures d in parts ==> FirstBest(env, table, d, n, parts[d]) && d in arch && arch[d] == env.types(table[parts[d]].typeGuid).arch
  {
  }

  lemma PickedIgnored(env: Env, table: seq<Partition>, parts: map<Designator, nat>, arch: map<Designator, string>,
                      flags: map<Designator, Attrs>, ignored: set<Designator>, d: Designator, n: nat)
    requires n < |table| && PickedAs(env, table, parts, arch, flags, ignored, d, n) && IsCandidate(env, table, d, n)
    requires MayUse(env.policy, d) == Some(false)
    ensures d !in parts && PickedAs(env, table, parts, arch, flags, ignored + {d}, d, n + 1)
  {
    hide IsCandidate, MayUse, FirstBest;
  }

  lemma PickedKept(env: Env, table: seq<Partition>, parts: map<Designator, nat>, arch: map<Designator, string>,
                   flags: map<Designator, Attrs>, ignored: set<Designator>, d: Designator, n: nat)
    requires n < |table| && PickedAs(env, table, parts, arch, flags, ignored, d, n) && IsCandidate(env, table, d, n)
    requires d in parts && FirstBest(env, table, d, n + 1, parts[d])
    ensures PickedAs(env, table, parts, arch, flags, ignored, d, n + 1)
  {
    hide IsCandidate, MayUse;
  }

  lemma PickedTaken(env: Env, table: seq<Partition>, parts: map<Designator, nat>, arch: map<Designator, string>,
                    flags: map<Designator, Attrs>, ignored: set<Designator>, d: Designator, n: nat)
    requires n < |table| && PickedAs(env, table, parts, arch, flags, ignored, d, n) && IsCandidate(env, table, d, n)
    requires MayUse(env.policy, d) == Some(true) && FirstBest(env, table, d, n + 1, n)
    ensures PickedAs(env, table, parts[d := n], arch[d := env.types(table[n].typeGuid).arch], flags[d := table[n].attrs],
                     ignored - {d}, d, n + 1)
  {
    hide IsCandidate, MayUse, FirstBest;
  }

  lemma PickedNext(env: Env, table: seq<Partition>, parts: map<Designator, nat>, arch: map<Designator, string>,
                   flags: map<Designator, Attrs>, ignored: set<Designator>, d: Designator, n: nat)
    requires n < |table| && PickedAs(env, table, parts, arch, flags, ignored, d, n) && !IsCandidate(env, table, d, n)
    ensures PickedAs(env, table, parts, arch, flags, ignored, d, n + 1)
  {
    hide Prefer, IsCandidate, MayUse;
    if d in parts {
      KeepBest(env, table, d, n, parts[d]);
    }
  }

  lemma PickedSame(env: Env, table: seq<Partition>, n: nat, d: Designator,
                   parts: map<Designator, nat>, arch: map<Designator, string>, flags: map<Designator, Attrs>, ignored: set<Designator>,
                   parts': map<Designator, nat>, arch': map<Designator, string>, flags': map<Designator, Attrs>, ignored': set<Designator>)
    requires n <= |table| && PickedAs(env, table, parts, arch, flags, ignored, d, n)
    requires (d in parts <==> d in parts') && (d in parts ==> parts[d] == parts'[d])
    requires (d in arch <==> d in arch') && (d in arch ==> arch[d] == arch'[d])
    requires (d in flags <==> d in flags') && (d in flags ==> flags[d] == flags'[d])
    requires d in ignored <==> d in ignored'
    ensures PickedAs(env, table, parts', arch', flags', ignored', d, n)
  {
  }

  /** Partition i stops no dissection: reading it does not fail, and the policy does not
      demand that there be no partition for its designator. */
  ghost predicate Admissible(env: Env, table: seq<Partition>, i: nat)
    requires i < |table|
  {
    !Judge(env, table[i]).Fail? && forall d :: IsCandidate(env, table, d, i) ==> MayUse(env.policy, d).Some?
  }

  /** The first generic Linux partition among the first n, and whether there are more. */
  ghost predicate GenericAs(env: Env, table: seq<Partition>, generic: Option<nat>, multiple: bool, n: nat)
    requires n <= |table|
  {
    && (generic.None? ==> !multiple && forall j :: 0 <= j < n ==> Judge(env, table[j]) != Generic)
    && (generic.Some? ==> generic.value < n && Judge(env, table[generic.value]) == Generic
                          && forall j :: 0 <= j < generic.value ==> Judge(env, table[j]) != Generic)
    && (multiple <==> exists i, j :: 0 <= i < j < n && Judge(env, table[i]) == Generic && Judge(env, table[j]) == Generic)
  }

  /** What checkProtection is told about designator d. */
  function FoundFlags(parts: map<Designator, nat>, ignored: set<Designator>, d: Designator): Flags {
    if d in parts then
      {Encrypted, EncryptedWithIntegrity, Unprotected, Unused}
      + if d.VerityHash().Some? && d.VerityHash().value in parts then
          {Verity} + if d.VeritySig().Some? && d.VeritySig().value in parts then {Signed} else {}
        else {}
    else if d in ignored then {Unused}
    else {Absent}
  }

  function FlagsAt(flags: map<Designator, Attrs>, d: Designator): Attrs {
    if d in flags then flags[d] else Attrs(false, false, false, false, false)
  }

  /** Verity and signature partitions come with what they protect. */
  ghost predicate Paired(parts: map<Designator, nat>) {
    && (RootVerity in parts || RootVeritySig in parts ==> Root in parts)
    && (UsrVerity in parts || UsrVeritySig in parts ==> Usr in parts)
    && (RootVeritySig in parts ==> RootVerity in parts)
    && (UsrVeritySig in parts ==> UsrVerity in parts)
  }

  predicate ArchAgree(parts: map<Designator, nat>, arch: map<Designator, string>) {
    Root in parts && Usr in parts && Root in arch && Usr in arch && arch[Root] != "" && arch[Usr] != "" ==> arch[Root] == arch[Usr]
  }

  /** A result that passes all checks at the end of a dissection. */
  ghost predicate Consistent(env: Env, parts: map<Designator, nat>, flags: map<Designator, Attrs>, ignored: set<Designator>) {
    && Paired(parts)
    && (Root in parts || Usr in parts)
    && (RootVerity in parts ==> UsrVerity !in parts && Usr !in parts)
    && (env.verity.Some? ==> env.verity.value in parts)
    && (env.rootHash != "" ==> var x := if env.verity == Some(Usr) then Usr else Root; x in parts && x.VerityHash().value in parts)
    && (forall d :: ProtectionOk(env.policy, d, FoundFlags(parts, ignored, d)))
    && (forall d :: d in parts ==> FlagsOk(env.policy, d, FlagsAt(flags, d)))
  }

  /** A policy that lets a root (or /usr) partition be used only with verity protection,
      signed or not, admits only images where that partition has a verity partition. */
  lemma ProtectedData(env: Env, parts: map<Designator, nat>, flags: map<Designator, Attrs>, ignored: set<Designator>, d: Designator)
    requires Consistent(env, parts, flags, ignored) && d in {Root, Usr} && d in parts
    requires Exhaustive(env.policy, d) * OPEN <= {Verity, Signed, Absent}
    ensures d.VerityHash().value in parts
    ensures Exhaustive(env.policy, d) * OPEN <= {Signed, Absent} ==> d.VeritySig().value in parts
  {
    var found, want := FoundFlags(parts, ignored, d), Exhaustive(env.policy, d);
    assert ProtectionOk(env.policy, d, found);
    hide Exhaustive;
    var x :| x in found * want;
    assert x in OPEN;
    assert x in want * OPEN;
  }

  // ----- the dissection

  /** What the partition loop leaves to finish. */
  datatype Selection = Selection(parts: map<Designator, nat>, arch: map<Designator, string>, flags: map<Designator, Attrs>,
                                 ignored: set<Designator>, generic: Option<nat>, multiple: bool)
  {
    /** finish falls back to the generic partition for the root. */
    predicate FallsBack(env: Env) {
      Root !in parts && Usr !in parts && (env.rootHash == "" || env.verity != Some(Usr))
    }

    function WithGeneric(env: Env): map<Designator, nat> {
      if FallsBack(env) && generic.Some? && MayUse(env.policy, Root) == Some(true) then parts[Root := generic.value] else parts
    }

    function IgnoredWithGeneric(env: Env): set<Designator> {
      if FallsBack(env) && generic.Some? && MayUse(env.policy, Root) == Some(false) then ignored + {Root} else ignored
    }

    ghost predicate Acceptable(env: Env) {
      && Paired(parts) && ArchAgree(parts, arch)
      && (FallsBack(env) ==> !multiple && (generic.Some? ==> MayUse(env.policy, Root).Some?))
      && Consistent(env, WithGeneric(env), flags, IgnoredWithGeneric(env))
    }

    /** What a GPT yields. */
    ghost predicate From(env: Env, table: seq<Partition>) {
      (forall d :: PickedAs(env, table, parts, arch, flags, ignored, d, |table|)) && GenericAs(env, table, generic, multiple, |table|)
    }
  }

  /** A GPT yields one selection, up to architectures nobody asks for. */
  lemma SelectionUnique(env: Env, table: seq<Partition>, s: Selection, t: Selection)
    requires s.From(env, table) && t.From(env, table)
    ensures s.(arch := t.arch) == t && forall d :: d in s.parts ==> d in s.arch && d in t.arch && s.arch[d] == t.arch[d]
  {
    hide Judge, MayUse, FirstBest, IsCandidate, Consistent;
    forall d
      ensures (d in s.parts <==> d in t.parts) && (d in s.flags <==> d in t.flags) && (d in s.ignored <==> d in t.ignored)
      ensures d in s.flags && d in t.flags ==> s.flags[d] == t.flags[d]
      ensures d in s.parts && d in t.parts ==> s.parts[d] == t.parts[d] && d in s.arch && d in t.arch && s.arch[d] == t.arch[d]
    {
      assert PickedAs(env, table, s.parts, s.arch, s.flags, s.ignored, d, |table|);
      assert PickedAs(env, table, t.parts, t.arch, t.flags, t.ignored, d, |table|);
      if d in s.parts {
        FirstBestUnique(env, table, d, |table|, s.parts[d], t.parts[d]);
      }
    }
    assert s.parts == t.parts && s.flags == t.flags && s.ignored == t.ignored;
    GenericUnique(env, table, s.generic, s.multiple, t.generic, t.multiple);
  }

  lemma GenericUnique(env: Env, table: seq<Partition>, g: Option<nat>, m: bool, h: Option<nat>, n: bool)
    requires GenericAs(env, table, g, m, |table|) && GenericAs(env, table, h, n, |table|)
    ensures g == h && m == n
  {
    hide Judge;
  }

  lemma SameAcceptable(env: Env, table: seq<Partition>, s: Selection, t: Selection)
    requires s.From(env, table) && t.From(env, table)
    ensures s.Acceptable(env) <==> t.Acceptable(env)
  {
    SelectionUnique(env, table, s, t);
    hide MayUse, Consistent, PickedAs, GenericAs;
  }

  datatype DissectError = PolicyViolation | InputError | Inconsistent | Ambiguous | NotFound

  datatype Outcome = Success | Failure(error: DissectError)

  class Dissection {
    const env: Env
    const table: seq<Partition>
    const gpt: bool
    var parts: map<Designator, nat>      // the partition used for each designator
    var arch: map<Designator, string>
    var flags: map<Designator, Attrs>    // attributes of those picked by type
    var ignored: set<Designator>
    var generic: Option<nat>
    var multipleGeneric: bool

    constructor (env: Env, table: seq<Partition>, gpt: bool)
      ensures this.env == env && this.table == table && this.gpt == gpt
      ensures parts == map[] && arch == map[] && flags == map[] && ignored == {} && generic == None && !multipleGeneric
    {
      this.env, this.table, this.gpt := env, table, gpt;
      parts, arch, flags, ignored, generic, multipleGeneric := map[], map[], map[], {}, None, false;
    }

    ghost predicate Picked(d: Designator, n: nat)
      requires n <= |table|
      reads this
    {
      PickedAs(env, table, parts, arch, flags, ignored, d, n)
    }

    /** Whether candidate n is better than what is picked so far. */
    method Beats(n: nat, d: Designator) returns (better: bool)
      requires n < |table| && d in parts && d in arch && parts[d] < |table|
      requires arch[d] == env.types(table[parts[d]].typeGuid).arch
      ensures better <==> Prefer(env, d, table[n], table[parts[d]]) > 0
    {
      hide CompareArch;
      var p, cur := table[n], table[parts[d]];
      var c := CompareArch(env.types(p.typeGuid).arch, arch[d], env);
      if c == 0 && d.Versioned() {
        c := CompareVersions(p.name, cur.name);
      }
      better := c > 0;
    }

    /** consider: applies the policy to candidate n and keeps the best candidate. */
    method Consider(n: nat, d: Designator) returns (ok: bool)
      requires n < |table| && IsCandidate(env, table, d, n)
      requires Picked(d, n)
      modifies this`parts, this`arch, this`flags, this`ignored
      ensures ok ==> Picked(d, n + 1)
      ensures ok <==> MayUse(env.policy, d).Some?
      ensures forall x :: x != d ==>
                (x in parts <==> x in old(parts)) && (x in arch <==> x in old(arch)) && (x in flags <==> x in old(flags))
                && (x in ignored <==> x in old(ignored))
      ensures forall x :: x != d && x in parts ==> parts[x] == old(parts)[x]
      ensures forall x :: x != d && x in arch ==> arch[x] == old(arch)[x]
      ensures forall x :: x != d && x in flags ==> flags[x] == old(flags)[x]
    {
      hide Prefer, Judge, MayUse, NoCandidate, IsCandidate, PickedAs;
      var p := table[n];
      PickedFacts(env, table, parts, arch, flags, ignored, d, n);
      var use := MayUse(env.policy, d);
      if use.None? {
        return false;
      }
      if !use.value {
        PickedIgnored(env, table, parts, arch, flags, ignored, d, n);
        if d !in parts {
          ignored := ignored + {d};
        }
        return true;
      }
      if d in parts {
        var better := Beats(n, d);
        if !better {
          KeepBest(env, table, d, n, parts[d]);
          PickedKept(env, table, parts, arch, flags, ignored, d, n);
          return true;
        }
        NewBest(env, table, d, n, parts[d]);
      } else {
        OnlyBest(env, table, d, n);
      }
      PickedTaken(env, table, parts, arch, flags, ignored, d, n);
      parts, arch, flags := parts[d := n], arch[d := env.types(p.typeGuid).arch], flags[d := p.attrs];
      ignored := ignored - {d};
      ok := true;
    }

    /** The partition loop of dissect, for a GPT. */
    method PickGPT() returns (r: Outcome)
      requires parts == map[] && arch == map[] && flags == map[] && ignored == {} && generic == None && !multipleGeneric
      modifies this
      ensures r.Success? <==> forall i: nat :: i < |table| ==> Admissible(env, table, i)
      ensures r.Success? ==> (forall d :: Picked(d, |table|)) && GenericAs(env, table, generic, multipleGeneric, |table|)
      ensures r.Failure? ==> r.error in {InputError, PolicyViolation}
    {
      hide Prefer, Judge, MayUse, PickedAs, IsCandidate;
      forall d
        ensures Picked(d, 0)
      {
        NonePicked(env, table, d);
      }
      for i := 0 to |table|
        invariant forall d :: Picked(d, i)
        invariant GenericAs(env, table, generic, multipleGeneric, i)
        invariant forall j: nat :: j < i ==> Admissible(env, table, j)
      {
        var v := Judge(env, table[i]);
        VerdictFacts(env, table, i);
        ghost var p0, a0, f0, i0 := parts, arch, flags, ignored;
        assert forall d :: PickedAs(env, table, p0, a0, f0, i0, d, i) by {
          forall d
            ensures PickedAs(env, table, p0, a0, f0, i0, d, i)
          {
            assert Picked(d, i);
          }
        }
        match v {
          case Fail =>
            assert !Admissible(env, table, i);
            return Failure(InputError);
          case Generic =>
            if generic.Some? {
              multipleGeneric := true;
            } else {
              generic := Some(i);
            }
          case Skip =>
          case Candidate(d, _) =>
            var ok := Consider(i, d);
            if !ok {
              assert IsCandidate(env, table, d, i) && !Admissible(env, table, i);
              return Failure(PolicyViolation);
            }
        }
        ghost var m := i + 1;
        forall x: Designator
          ensures PickedAs(env, table, parts, arch, flags, ignored, x, m)
        {
          if !(v.Candidate? && v.d == x) {
            PickedSame(env, table, i, x, p0, a0, f0, i0, parts, arch, flags, ignored);
            PickedNext(env, table, parts, arch, flags, ignored, x, i);
          }
        }
      }
      r := Success;
    }

    /** dissectMBR for one partition: the first bootable Linux partition is the generic
        one, the first of type 0xea the boot loader partition. */
    method ConsiderMBR(n: nat) returns (r: Outcome)
      requires n < |table| && MBRAs(env, table, Selected(), n)
      modifies this`parts, this`ignored, this`generic, this`multipleGeneric
      ensures r.Success? <==> table[n].mbrType != 0xea || MayUse(env.policy, XBootLdr).Some?
      ensures r.Success? ==> MBRAs(env, table, Selected(), n + 1)
    {
      hide MayUse;
      var p := table[n];
      r := Success;
      if p.mbrType == 0x83 {
        if !p.attrs.boot {
          return;
        }
        if generic.Some? {
          multipleGeneric := true;
        } else {
          generic := Some(n);
        }
      } else if p.mbrType == 0xea {
        var use := MayUse(env.policy, XBootLdr);
        if use.None? {
          return Failure(PolicyViolation);
        }
        if !use.value {
          if XBootLdr !in parts {
            ignored := ignored + {XBootLdr};
          }
          return;
        }
        if XBootLdr !in parts {
          parts := parts[XBootLdr := n];
        }
      }
    }

    function Selected(): Selection
      reads this
    {
      Selection(parts, arch, flags, ignored, generic, multipleGeneric)
    }

    /** finish succeeds exactly on what passes all its checks. */
    method Finish() returns (r: Outcome)
      modifies this`parts, this`ignored
      ensures r.Success? ==> parts == old(Selected()).WithGeneric(env) && ignored == old(Selected()).IgnoredWithGeneric(env)
      ensures r.Success? <==> old(Selected()).Acceptable(env)
      ensures r.Success? ==> Consistent(env, parts, flags, ignored)
    {
      hide ProtectionOk, FlagsOk, MayUse, FoundFlags;
      r := Failure(Inconsistent);
      if Root !in parts && (RootVerity in parts || RootVeritySig in parts) {
        return;
      }
      if RootVeritySig in parts && RootVerity !in parts {
        return;
      }
      if Usr !in parts && (UsrVerity in parts || UsrVeritySig in parts) {
        return;
      }
      if UsrVeritySig in parts && UsrVerity !in parts {
        return;
      }
      if !ArchAgree(parts, arch) {
        return;
      }
      if Selected().FallsBack(env) {
        if multipleGeneric {
          return Failure(Ambiguous);
        }
        if generic.Some? {
          var use := MayUse(env.policy, Root);
          if use.None? {
            return Failure(PolicyViolation);
          }
          if use.value {
            parts := parts[Root := generic.value];
          } else {
            ignored := ignored + {Root};
          }
        }
      }
      if Root !in parts && Usr !in parts {
        return Failure(NotFound);
      }
      if RootVerity in parts && (UsrVerity in parts || Usr in parts) {
        return;
      }
      if env.verity.Some? && env.verity.value !in parts {
        return;
      }
      if env.rootHash != "" {
        var x := if env.verity == Some(Usr) then Usr else Root;
        if x !in parts || x.VerityHash().value !in parts {
          return;
        }
      }
      var checked := CheckAll();
      if checked {
        r := Success;
      } else {
        r := Failure(PolicyViolation);
      }
    }

    method CheckAll() returns (ok: bool)
      ensures ok <==> (forall d :: ProtectionOk(env.policy, d, FoundFlags(parts, ignored, d)))
                      && (forall d :: d in parts ==> FlagsOk(env.policy, d, FlagsAt(flags, d)))
    {
      hide ProtectionOk, FlagsOk, FoundFlags;
      for i := 0 to |DESIGNATORS|
        invariant forall j :: 0 <= j < i ==> ProtectionOk(env.policy, DESIGNATORS[j], FoundFlags(parts, ignored, DESIGNATORS[j]))
        invariant forall j :: 0 <= j < i && DESIGNATORS[j] in parts ==> FlagsOk(env.policy, DESIGNATORS[j], FlagsAt(flags, DESIGNATORS[j]))
      {
        var d := DESIGNATORS[i];
        if !ProtectionOk(env.policy, d, FoundFlags(parts, ignored, d)) {
          return false;
        }
        if d in parts && !FlagsOk(env.policy, d, FlagsAt(flags, d)) {
          return false;
        }
      }
      forall d: Designator
        ensures ProtectionOk(env.policy, d, FoundFlags(parts, ignored, d))
        ensures d in parts ==> FlagsOk(env.policy, d, FlagsAt(flags, d))
      {
        AllDesignators(d);
        var j :| 0 <= j < |DESIGNATORS| && DESIGNATORS[j] == d;
      }
      ok := true;
    }

    /** The partition loop of dissect, for an MBR. */
    method PickMBR() returns (r: Outcome)
      requires parts == map[] && arch == map[] && flags == map[] && ignored == {} && generic == None && !multipleGeneric
      modifies this`parts, this`ignored, this`generic, this`multipleGeneric
      ensures r.Success? <==> MayUse(env.policy, XBootLdr).Some? || forall i :: 0 <= i < |table| ==> table[i].mbrType != 0xea
      ensures r.Success? ==> MBRAs(env, table, Selected(), |table|)
    {
      NoneOfMBR(env, table);
      hide MayUse, MBRAs;
      for i := 0 to |table|
        invariant MBRAs(env, table, Selected(), i)
        invariant MayUse(env.policy, XBootLdr).None? ==> forall j :: 0 <= j < i ==> table[j].mbrType != 0xea
      {
        r := ConsiderMBR(i);
        if r.Failure? {
          return;
        }
      }
      r := Success;
    }

    /** dissect: every partition used is the best candidate for its designator, by
        architecture, newest label and position, or the generic root partition; none is both used and ignored; all checks hold. A
        GPT is refused only for a partition that is not admissible or a selection that
        is not acceptable. */
    method Dissect() returns (r: Outcome)
      requires parts == map[] && arch == map[] && flags == map[] && ignored == {} && generic == None && !multipleGeneric
      modifies this
      ensures r.Success? ==> Consistent(env, parts, flags, ignored) && parts.Keys !! ignored
      ensures r.Success? && gpt ==> forall d :: d in parts ==>
                Newest(env, table, d, parts[d])
                || (d == Root && NoCandidate(env, table, Root, |table|) && parts[d] < |table| && Judge(env, table[parts[d]]) == Generic)
      ensures gpt ==> (r.Success? <==> (forall i: nat :: i < |table| ==> Admissible(env, table, i))
                                       && forall s: Selection :: s.From(env, table) ==> s.Acceptable(env))
      ensures !gpt ==> (r.Success? <==> (MayUse(env.policy, XBootLdr).Some? || forall i :: 0 <= i < |table| ==> table[i].mbrType != 0xea)
                                        && forall s: Selection :: MBRAs(env, table, s, |table|) ==> s.Acceptable(env))
      ensures r.Success? && !gpt ==> forall d :: d in parts ==> parts[d] < |table| && MBRUse(table[parts[d]], d)
    {
      hide Prefer, MayUse, IsCandidate, Consistent, Admissible, MBRUse;
      if gpt {
        r := PickGPT();
      } else {
        r := PickMBR();
      }
      if r.Failure? {
        return;
      }
      ghost var s := Selected();
      if gpt {
        forall d
          ensures PickedAs(env, table, parts, arch, flags, ignored, d, |table|)
        {
          assert Picked(d, |table|);
        }
        UsedOrIgnored(env, table, parts, arch, flags, ignored, |table|);
        assert s.From(env, table);
        PartsOfSelection(env, table, s);
        forall t: Selection | t.From(env, table)
          ensures t.Acceptable(env) <==> s.Acceptable(env)
        {
          SameAcceptable(env, table, s, t);
        }
      } else {
        PartsOfMBR(env, table, s);
        forall t: Selection | MBRAs(env, table, t, |table|)
          ensures t == s
        {
          MBRUnique(env, table, s, t);
        }
      }
      assert s.WithGeneric(env).Keys !! s.IgnoredWithGeneric(env);
      hide PickedAs, GenericAs, Newest, NoCandidate, Judge, MBRAs;
      r := Finish();
    }
  }

  /** What the first n partitions of an MBR yield: the first of type 0xea when the policy
      lets it be used, and the first bootable Linux partition. */
  ghost predicate MBRAs(env: Env, table: seq<Partition>, s: Selection, n: nat)
    requires n <= |table|
  {
    && s.arch == map[] && s.flags == map[]
    && (forall d :: d in s.parts <==> d == XBootLdr && MayUse(env.policy, d) == Some(true) && exists j :: 0 <= j < n && table[j].mbrType == 0xea)
    && (forall d :: d in s.ignored <==> d == XBootLdr && MayUse(env.policy, d) == Some(false) && exists j :: 0 <= j < n && table[j].mbrType == 0xea)
    && (XBootLdr in s.parts ==> s.parts[XBootLdr] < n && table[s.parts[XBootLdr]].mbrType == 0xea
                                && forall j :: 0 <= j < s.parts[XBootLdr] ==> table[j].mbrType != 0xea)
    && (s.generic.None? ==> !s.multiple && forall j :: 0 <= j < n ==> !BootableLinux(table[j]))
    && (s.generic.Some? ==> s.generic.value < n && BootableLinux(table[s.generic.value])
                            && forall j :: 0 <= j < s.generic.value ==> !BootableLinux(table[j]))
    && (s.multiple <==> exists i, j :: 0 <= i < j < n && BootableLinux(table[i]) && BootableLinux(table[j]))
  }

  /** An MBR yields one selection. */
  lemma MBRUnique(env: Env, table: seq<Partition>, s: Selection, t: Selection)
    requires MBRAs(env, table, s, |table|) && MBRAs(env, table, t, |table|)
    ensures s == t
  {
    hide MayUse, BootableLinux;
    if XBootLdr in s.parts {
      var i, j := s.parts[XBootLdr], t.parts[XBootLdr];
      assert i == j;
    }
    assert s.parts == t.parts && s.ignored == t.ignored;
    assert s.generic == t.generic;
  }

  lemma NoneOfMBR(env: Env, table: seq<Partition>)
    ensures MBRAs(env, table, Selection(map[], map[], map[], {}, None, false), 0)
  {
  }

  predicate BootableLinux(p: Partition) {
    p.mbrType == 0x83 && p.attrs.boot
  }

  /** A Linux partition may become the root, one of type 0xea the boot loader's. */
  predicate MBRUse(p: Partition, d: Designator) {
    (d == Root && BootableLinux(p)) || (d == XBootLdr && p.mbrType == 0xea)
  }

  lemma PartsOfMBR(env: Env, table: seq<Partition>, s: Selection)
    requires MBRAs(env, table, s, |table|)
    ensures var parts := s.WithGeneric(env); forall d :: d in parts ==> parts[d] < |table| && MBRUse(table[parts[d]], d)
  {
    hide MayUse;
  }

  lemma PartsOfSelection(env: Env, table: seq<Partition>, s: Selection)
    requires s.From(env, table)
    ensures var parts := s.WithGeneric(env);
            forall d :: d in parts ==>
              Newest(env, table, d, parts[d])
              || (d == Root && NoCandidate(env, table, Root, |table|) && parts[d] < |table| && Judge(env, table[parts[d]]) == Generic)
  {
    hide MayUse, FirstBest, Newest, NoCandidate, Judge;
    var parts := s.WithGeneric(env);
    forall d | d in parts
      ensures Newest(env, table, d, parts[d])
              || (d == Root && NoCandidate(env, table, Root, |table|) && parts[d] < |table| && Judge(env, table[parts[d]]) == Generic)
    {
      NewestIsBest(env, table, d, parts[d]);
      assert PickedAs(env, table, s.parts, s.arch, s.flags, s.ignored, d, |table|);
    }
  }

  lemma UsedOrIgnored(env: Env, table: seq<Partition>, parts: map<Designator, nat>, arch: map<Designator, string>,
                      flags: map<Designator, Attrs>, ignored: set<Designator>, n: nat)
    requires n <= |table| && forall d :: PickedAs(env, table, parts, arch, flags, ignored, d, n)
    ensures forall d :: d in parts ==> MayUse(env.policy, d) == Some(true)
    ensures forall d :: d in ignored ==> MayUse(env.policy, d) == Some(false)
  {
    forall d
      ensures d in parts ==> MayUse(env.policy, d) == Some(true)
      ensures d in ignored ==> MayUse(env.policy, d) == Some(false)
    {
      assert PickedAs(env, table, parts, arch, flags, ignored, d, n);
    }
  }

  lemma NonePicked(env: Env, table: seq<Partition>, d: Designator)
    ensures PickedAs(env, table, map[], map[], map[], {}, d, 0)
  {
  }

  lemma VerdictFacts(env: Env, table: seq<Partition>, i: nat)
    requires i < |table|
    ensures forall d :: IsCandidate(env, table, d, i) <==> Judge(env, table[i]).Candidate? && Judge(env, table[i]).d == d
  {
  }
}
