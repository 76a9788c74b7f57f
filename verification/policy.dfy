/** The image policies of internal/image/policy.go (systemd.image-policy(7)): parsing,
    printing and what a policy requires of each partition. Printing a leniently parsed
    policy and parsing it strictly keeps every requirement. */
module ImagePolicy {
  import opened Maybe
  import opened Text

  datatype Flag =
    | Verity | Signed | Encrypted | EncryptedWithIntegrity | Unprotected | Unused | Absent
    | ReadOnlyOn | ReadOnlyOff | GrowFSOn | GrowFSOff
    | Btrfs | Erofs | Ext4 | F2FS | Squashfs | Vfat | XFS

  type Flags = set<Flag>

  const OPEN: Flags := {Verity, Signed, Encrypted, EncryptedWithIntegrity, Unprotected, Unused, Absent}
  const IGNORE: Flags := {Unused, Absent}
  const READ_ONLY: Flags := {ReadOnlyOn, ReadOnlyOff}
  const GROW_FS: Flags := {GrowFSOn, GrowFSOff}
  const USES: seq<Flag> := [Verity, Signed, Encrypted, EncryptedWithIntegrity, Unprotected, Unused, Absent]
  const TYPES: seq<Flag> := [Btrfs, Erofs, Ext4, F2FS, Squashfs, Vfat, XFS]

  datatype Designator =
    | Root | Usr | Home | Srv | ESP | XBootLdr | Swap | RootVerity | UsrVerity | RootVeritySig | UsrVeritySig
    | Tmp | Var
  {
    function VerityHash(): Option<Designator> {
      match this
      case Root => Some(RootVerity)
      case Usr => Some(UsrVerity)
      case _ => None
    }

    function VeritySig(): Option<Designator> {
      match this
      case Root => Some(RootVeritySig)
      case Usr => Some(UsrVeritySig)
      case _ => None
    }

    /** The data partition a verity or signature partition protects. */
    function VerityData(): Option<Designator> {
      match this
      case RootVerity => Some(Root)
      case RootVeritySig => Some(Root)
      case UsrVerity => Some(Usr)
      case UsrVeritySig => Some(Usr)
      case _ => None
    }

    predicate IsVeritySig() {
      this == RootVeritySig || this == UsrVeritySig
    }

    predicate Versioned() {
      VerityHash().Some? || VerityData().Some?
    }
  }

  const DESIGNATORS: seq<Designator> :=
    [Root, Usr, Home, Srv, ESP, XBootLdr, Swap, RootVerity, UsrVerity, RootVeritySig, UsrVeritySig, Tmp, Var]

  datatype Policy = Policy(rules: map<Designator, Flags>, def: Flags)

  datatype Error = Malformed | Duplicate | UnknownDesignator | UnknownFlag

  // ----- names

  function FlagName(f: Flag): string {
    match f
    case Verity => "verity"
    case Signed => "signed"
    case Encrypted => "encrypted"
    case EncryptedWithIntegrity => "encryptedwithintegrity"
    case Unprotected => "unprotected"
    case Unused => "unused"
    case Absent => "absent"
    case ReadOnlyOn => "read-only-on"
    case ReadOnlyOff => "read-only-off"
    case GrowFSOn => "growfs-on"
    case GrowFSOff => "growfs-off"
    case Btrfs => "btrfs"
    case Erofs => "erofs"
    case Ext4 => "ext4"
    case F2FS => "f2fs"
    case Squashfs => "squashfs"
    case Vfat => "vfat"
    case XFS => "xfs"
  }

  function FlagsFromString(s: string): Option<Flags> {
    match s
    case "open" => Some(OPEN)
    case "ignore" => Some(IGNORE)
    case "verity" => Some({Verity})
    case "signed" => Some({Signed})
    case "encrypted" => Some({Encrypted})
    case "encryptedwithintegrity" => Some({EncryptedWithIntegrity})
    case "unprotected" => Some({Unprotected})
    case "unused" => Some({Unused})
    case "absent" => Some({Absent})
    case "read-only-on" => Some({ReadOnlyOn})
    case "read-only-off" => Some({ReadOnlyOff})
    case "growfs-on" => Some({GrowFSOn})
    case "growfs-off" => Some({GrowFSOff})
    case "btrfs" => Some({Btrfs})
    case "erofs" => Some({Erofs})
    case "ext4" => Some({Ext4})
    case "f2fs" => Some({F2FS})
    case "squashfs" => Some({Squashfs})
    case "vfat" => Some({Vfat})
    case "xfs" => Some({XFS})
    case _ => None
  }

  function DesignatorName(d: Designator): string {
    match d
    case Root => "root"
    case Usr => "usr"
    case Home => "home"
    case Srv => "srv"
    case ESP => "esp"
    case XBootLdr => "xbootldr"
    case Swap => "swap"
    case RootVerity => "root-verity"
    case UsrVerity => "usr-verity"
    case RootVeritySig => "root-verity-sig"
    case UsrVeritySig => "usr-verity-sig"
    case Tmp => "tmp"
    case Var => "var"
  }

  function DesignatorFromString(s: string): Option<Designator> {
    match s
    case "root" => Some(Root)
    case "usr" => Some(Usr)
    case "home" => Some(Home)
    case "srv" => Some(Srv)
    case "esp" => Some(ESP)
    case "xbootldr" => Some(XBootLdr)
    case "swap" => Some(Swap)
    case "root-verity" => Some(RootVerity)
    case "usr-verity" => Some(UsrVerity)
    case "root-verity-sig" => Some(RootVeritySig)
    case "usr-verity-sig" => Some(UsrVeritySig)
    case "tmp" => Some(Tmp)
    case "var" => Some(Var)
    case _ => None
  }

  // ----- parsing

  predicate IsSpace(c: char) {
    var n := c as int;
    9 <= n <= 13 || n == 32 || n == 0x85 || n == 0xA0 || n == 0x1680 || 0x2000 <= n <= 0x200A
    || n == 0x2028 || n == 0x2029 || n == 0x202F || n == 0x205F || n == 0x3000
  }

  function TrimLeft(s: string): string {
    if s != "" && IsSpace(s[0]) then TrimLeft(s[1..]) else s
  }

  function TrimRight(s: string): string {
    if s != "" && IsSpace(s[|s| - 1]) then TrimRight(s[..|s| - 1]) else s
  }

  function TrimSpace(s: string): string {
    TrimRight(TrimLeft(s))
  }

  /** The union of the flags the words name; unknown ones are dropped when lenient. */
  function UnionOf(words: seq<string>, graceful: bool): Result<Flags, Error> {
    if words == [] then Ok({})
    else
      var f := FlagsFromString(TrimSpace(words[0]));
      if f.Some? then Join2(f.value, UnionOf(words[1..], graceful))
      else if graceful then UnionOf(words[1..], graceful)
      else Err(UnknownFlag)
  }

  function Join2(f: Flags, r: Result<Flags, Error>): Result<Flags, Error> {
    if r.Err? then r else Ok(f + r.value)
  }

  lemma UnionLaw(r: Result<Flags, Error>)
    ensures Join2({}, r) == r
  {
    assert r.Ok? ==> {} + r.value == r.value;
  }

  lemma UnionAssoc(f: Flags, g: Flags, r: Result<Flags, Error>)
    ensures Join2(f, Join2(g, r)) == Join2(f + g, r)
  {
    assert r.Ok? ==> f + (g + r.value) == (f + g) + r.value;
  }

  function FlagsOf(s: string, graceful: bool): Result<Flags, Error> {
    if s == "" || s == "-" then Ok({}) else UnionOf(Split(s, '+'), graceful)
  }

  /** strings.Cut at the first '='. */
  function CutAtEquals(s: string): Option<(string, string)> {
    if s == "" then None
    else if s[0] == '=' then Some(("", s[1..]))
    else
      var rest := CutAtEquals(s[1..]);
      if rest.None? then None else Some(([s[0]] + rest.value.0, rest.value.1))
  }

  function RulesOf(rules: seq<string>, p: Policy, defaultSet: bool, graceful: bool): Result<Policy, Error> {
    if rules == [] then Ok(p)
    else
      var cut := CutAtEquals(rules[0]);
      if cut.None? then Err(Malformed)
      else
        var name, flags := TrimSpace(cut.value.0), TrimSpace(cut.value.1);
        if name == "" then
          if defaultSet then Err(Duplicate)
          else
            var f := FlagsOf(flags, graceful);
            if f.Err? then Err(f.error) else RulesOf(rules[1..], p.(def := f.value), true, graceful)
        else
          var d := DesignatorFromString(name);
          if d.None? then
            if graceful then RulesOf(rules[1..], p, defaultSet, graceful) else Err(UnknownDesignator)
          else if d.value in p.rules then Err(Duplicate)
          else
            var f := FlagsOf(flags, graceful);
            if f.Err? then Err(f.error)
            else RulesOf(rules[1..], p.(rules := p.rules[d.value := f.value]), defaultSet, graceful)
  }

  /** The specification of parsePolicy. */
  function PolicyOf(s: string, graceful: bool): Result<Policy, Error> {
    if s == "" || s == "-" then Ok(Policy(map[], IGNORE))
    else if s == "*" then Ok(Policy(map[], OPEN))
    else if s == "~" then Ok(Policy(map[], {Absent}))
    else RulesOf(Split(s, ':'), Policy(map[], IGNORE), false, graceful)
  }

  method ParsePolicyFlags(s: string, graceful: bool) returns (r: Result<Flags, Error>)
    ensures r == FlagsOf(s, graceful)
  {
    if s == "" || s == "-" {
      return Ok({});
    }
    hide FlagsFromString, TrimSpace, Split;
    var words := Split(s, '+');
    var flags: Flags := {};
    assert words[0..] == words;
    UnionLaw(UnionOf(words, graceful));
    for i := 0 to |words|
      invariant UnionOf(words, graceful) == Join2(flags, UnionOf(words[i..], graceful))
    {
      assert words[i..][1..] == words[i + 1..];
      var f := FlagsFromString(TrimSpace(words[i]));
      if f.None? {
        if !graceful {
          return Err(UnknownFlag);
        }
      } else {
        UnionAssoc(flags, f.value, UnionOf(words[i + 1..], graceful));
        flags := flags + f.value;
      }
    }
    assert words[|words|..] == [] && flags + {} == flags;
    r := Ok(flags);
  }

  method ParsePolicy(s: string, graceful: bool) returns (r: Result<Policy, Error>)
    ensures r == PolicyOf(s, graceful)
  {
    var p := Policy(map[], IGNORE);
    if s == "" || s == "-" {
      return Ok(p);
    }
    if s == "*" {
      return Ok(p.(def := OPEN));
    }
    if s == "~" {
      return Ok(p.(def := {Absent}));
    }
    hide DesignatorFromString, TrimSpace, Split, CutAtEquals, FlagsOf;
    var rules := Split(s, ':');
    var defaultSet := false;
    assert rules[0..] == rules;
    for i := 0 to |rules|
      invariant RulesOf(rules, Policy(map[], IGNORE), false, graceful) == RulesOf(rules[i..], p, defaultSet, graceful)
    {
      assert rules[i..][1..] == rules[i + 1..];
      var cut := CutAtEquals(rules[i]);
      if cut.None? {
        return Err(Malformed);
      }
      var name := TrimSpace(cut.value.0);
      var d := None;
      if name != "" {
        d := DesignatorFromString(name);
        if d.None? {
          if graceful {
            continue;
          }
          return Err(UnknownDesignator);
        }
        if d.value in p.rules {
          return Err(Duplicate);
        }
      } else if defaultSet {
        return Err(Duplicate);
      }
      var f := ParsePolicyFlags(TrimSpace(cut.value.1), graceful);
      if f.Err? {
        return Err(f.error);
      }
      if name == "" {
        defaultSet := true;
        p := p.(def := f.value);
      } else {
        p := p.(rules := p.rules[d.value := f.value]);
      }
    }
    assert rules[|rules|..] == [];
    r := Ok(p);
  }

  // ----- printing

  /** The names of those flags of order that are in f. */
  function NamesIn(f: Flags, order: seq<Flag>): seq<string> {
    if order == [] then []
    else (if order[0] in f then [FlagName(order[0])] else []) + NamesIn(f, order[1..])
  }

  function UseNames(f: Flags): seq<string> {
    if f * OPEN == OPEN then ["open"]
    else if f * OPEN == IGNORE then ["ignore"]
    else NamesIn(f, USES)
  }

  /** A flag that is both on and off says nothing and is not printed. */
  function OnOff(f: Flags, on: Flag, off: Flag): seq<string> {
    if (on in f) == (off in f) then []
    else [FlagName(if on in f then on else off)]
  }

  function Names(f: Flags): seq<string> {
    UseNames(f) + OnOff(f, ReadOnlyOn, ReadOnlyOff) + OnOff(f, GrowFSOn, GrowFSOff) + NamesIn(f, TYPES)
  }

  /** policyFlags.String. */
  function FlagsString(f: Flags): string {
    if Names(f) == [] then "-" else Join(Names(f), '+')
  }

  /** What survives printing. */
  function Simplified(f: Flags): Flags {
    f - (if READ_ONLY <= f then READ_ONLY else {}) - (if GROW_FS <= f then GROW_FS else {})
  }

  function RuleString(d: Designator, f: Flags): string {
    DesignatorName(d) + "=" + FlagsString(f)
  }

  function RuleStrings(p: Policy, order: seq<Designator>): seq<string> {
    if order == [] then []
    else (if order[0] in p.rules then [RuleString(order[0], p.rules[order[0]])] else []) + RuleStrings(p, order[1..])
  }

  function PolicyString(p: Policy): string {
    Join(["=" + FlagsString(p.def)] + RuleStrings(p, DESIGNATORS), ':')
  }

  /** The specification of NormalizePolicy. */
  function Normalized(s: string): Result<string, Error> {
    if s == "" then Ok("")
    else
      var p := PolicyOf(s, true);
      if p.Err? then Err(p.error) else Ok(PolicyString(p.value))
  }

  method NormalizePolicy(s: string) returns (r: Result<string, Error>)
    ensures r == Normalized(s)
  {
    if s == "" {
      return Ok("");
    }
    var p := ParsePolicy(s, true);
    if p.Err? {
      return Err(p.error);
    }
    hide FlagsString, RuleStrings, PolicyOf;
    var rules := ["=" + FlagsString(p.value.def)];
    var more := PrintRules(p.value, DESIGNATORS);
    r := Ok(Join(rules + more, ':'));
  }

  lemma RuleStringsStep(p: Policy, order: seq<Designator>, i: nat)
    requires i < |order|
    ensures RuleStrings(p, order[i..]) == (if order[i] in p.rules then [RuleString(order[i], p.rules[order[i]])] else []) + RuleStrings(p, order[i + 1..])
    ensures RuleStrings(p, order[|order|..]) == []
  {
    assert order[i..][1..] == order[i + 1..];
  }

  method PrintRules(p: Policy, order: seq<Designator>) returns (rules: seq<string>)
    ensures rules == RuleStrings(p, order)
  {
    if order == [] {
      return [];
    }
    hide RuleStrings, RuleString;
    rules := [];
    assert order[0..] == order;
    RuleStringsStep(p, order, 0);
    for i := 0 to |order|
      invariant rules + RuleStrings(p, order[i..]) == RuleStrings(p, order)
    {
      RuleStringsStep(p, order, i);
      ghost var rest := RuleStrings(p, order[i + 1..]);
      assert [] + rest == rest;
      if order[i] in p.rules {
        var rule := RuleString(order[i], p.rules[order[i]]);
        assert rules + ([rule] + rest) == rules + [rule] + rest;
        rules := rules + [rule];
      }
    }
    assert rules + [] == rules;
  }

  // ----- printed flags parse back

  predicate NameChar(c: char) {
    'a' <= c <= 'z' || '0' <= c <= '9' || c == '-' || c == '+'
  }

  /** Letters, digits, '-' and '+': a text the parser takes as it is, without space
      around it, ':' or '='. */
  predicate Solid(s: string) {
    forall i :: 0 <= i < |s| ==> NameChar(s[i])
  }

  lemma SolidTrims(s: string)
    requires Solid(s)
    ensures TrimSpace(s) == s
  {
  }

  lemma NameReads(f: Flag)
    ensures FlagsFromString(FlagName(f)) == Some({f})
  {
  }

  lemma NameText(f: Flag)
    ensures Solid(FlagName(f)) && |FlagName(f)| > 1
  {
  }

  lemma NameNoPlus(f: Flag)
    ensures '+' !in FlagName(f)
  {
  }

  lemma NameFacts(f: Flag)
    ensures FlagsFromString(FlagName(f)) == Some({f})
    ensures Solid(FlagName(f)) && '+' !in FlagName(f) && |FlagName(f)| > 1
  {
    hide FlagName, FlagsFromString, Solid;
    NameReads(f);
    NameText(f);
    NameNoPlus(f);
  }

  lemma GroupFacts()
    ensures FlagsFromString("open") == Some(OPEN) && FlagsFromString("ignore") == Some(IGNORE)
    ensures Solid("open") && '+' !in "open" && Solid("ignore") && '+' !in "ignore"
  {
  }

  lemma DesignatorReads(d: Designator)
    ensures DesignatorFromString(DesignatorName(d)) == Some(d)
  {
  }

  lemma DesignatorText(d: Designator)
    ensures Solid(DesignatorName(d)) && DesignatorName(d) != ""
  {
  }

  lemma DesignatorFacts(d: Designator)
    ensures DesignatorFromString(DesignatorName(d)) == Some(d)
    ensures Solid(DesignatorName(d)) && DesignatorName(d) != ""
  {
    hide DesignatorFromString, DesignatorName, Solid;
    DesignatorReads(d);
    DesignatorText(d);
  }

  /** A word the printer may write, with what it stands for. */
  ghost predicate Stands(word: string, f: Flags) {
    FlagsFromString(word) == Some(f) && Solid(word) && '+' !in word && |word| > 1
  }

  ghost predicate StandFor(words: seq<string>, f: Flags) {
    && UnionOf(words, false) == Ok(f)
    && forall i :: 0 <= i < |words| ==> Solid(words[i]) && '+' !in words[i] && |words[i]| > 1
  }

  lemma NoWords()
    ensures StandFor([], {})
  {
  }

  lemma OneWord(word: string, f: Flags)
    requires Stands(word, f)
    ensures StandFor([word], f)
  {
    SolidTrims(word);
    hide FlagsFromString, TrimSpace;
    assert [word][1..] == [] && f + {} == f;
    assert UnionOf([], false) == Ok({});
  }

  lemma {:induction false} MoreWords(a: seq<string>, f: Flags, b: seq<string>, g: Flags)
    requires StandFor(a, f) && StandFor(b, g)
    ensures StandFor(a + b, f + g)
    decreases |a|
  {
    hide FlagsFromString, TrimSpace, Solid;
    if a == [] {
      assert a + b == b && f + g == g;
    } else {
      var h := FlagsFromString(TrimSpace(a[0])).value;
      var rest := UnionOf(a[1..], false).value;
      MoreWords(a[1..], rest, b, g);
      assert (a + b)[1..] == a[1..] + b;
      assert h + (rest + g) == f + g;
    }
  }

  function Within(f: Flags, order: seq<Flag>): Flags {
    set x | x in order && x in f
  }

  lemma {:induction false} NamesStand(f: Flags, order: seq<Flag>)
    ensures StandFor(NamesIn(f, order), Within(f, order))
  {
    hide StandFor, FlagName;
    if order == [] {
      NoWords();
      assert Within(f, order) == {};
    } else {
      NamesStand(f, order[1..]);
      assert order == [order[0]] + order[1..];
      if order[0] in f {
        NameFacts(order[0]);
        OneWord(FlagName(order[0]), {order[0]});
        MoreWords([FlagName(order[0])], {order[0]}, NamesIn(f, order[1..]), Within(f, order[1..]));
        assert {order[0]} + Within(f, order[1..]) == Within(f, order);
      } else {
        assert [] + NamesIn(f, order[1..]) == NamesIn(f, order[1..]);
        assert Within(f, order[1..]) == Within(f, order);
      }
    }
  }

  lemma UsesStand(f: Flags)
    ensures StandFor(UseNames(f), f * OPEN)
  {
    hide StandFor, FlagName, NamesIn;
    GroupFacts();
    if f * OPEN == OPEN {
      OneWord("open", OPEN);
    } else if f * OPEN == IGNORE {
      OneWord("ignore", IGNORE);
    } else {
      NamesStand(f, USES);
      assert Within(f, USES) == f * OPEN;
    }
  }

  lemma OnOffStands(f: Flags, on: Flag, off: Flag)
    requires on != off
    ensures StandFor(OnOff(f, on, off), f * {on, off} - if {on, off} <= f then {on, off} else {})
  {
    hide StandFor, FlagName;
    if (on in f) == (off in f) {
      NoWords();
      assert f * {on, off} - (if {on, off} <= f then {on, off} else {}) == {};
    } else {
      var x := if on in f then on else off;
      NameFacts(x);
      OneWord(FlagName(x), {x});
      assert f * {on, off} - (if {on, off} <= f then {on, off} else {}) == {x};
    }
  }

  lemma AllStand(f: Flags)
    ensures StandFor(Names(f), Simplified(f))
  {
    hide StandFor, UseNames, OnOff, NamesIn;
    UsesStand(f);
    OnOffStands(f, ReadOnlyOn, ReadOnlyOff);
    OnOffStands(f, GrowFSOn, GrowFSOff);
    NamesStand(f, TYPES);
    var a, b := f * OPEN, f * READ_ONLY - if READ_ONLY <= f then READ_ONLY else {};
    var c := f * GROW_FS - if GROW_FS <= f then GROW_FS else {};
    var d := Within(f, TYPES);
    MoreWords(UseNames(f), a, OnOff(f, ReadOnlyOn, ReadOnlyOff), b);
    MoreWords(UseNames(f) + OnOff(f, ReadOnlyOn, ReadOnlyOff), a + b, OnOff(f, GrowFSOn, GrowFSOff), c);
    MoreWords(UseNames(f) + OnOff(f, ReadOnlyOn, ReadOnlyOff) + OnOff(f, GrowFSOn, GrowFSOff), a + b + c, NamesIn(f, TYPES), d);
    SimplifiedParts(f);
  }

  lemma SimplifiedParts(f: Flags)
    ensures (f * OPEN)
            + (f * READ_ONLY - if READ_ONLY <= f then READ_ONLY else {})
            + (f * GROW_FS - if GROW_FS <= f then GROW_FS else {})
            + Within(f, TYPES) == Simplified(f)
  {
    forall x: Flag
      ensures x in OPEN || x in READ_ONLY || x in GROW_FS || x in TYPES
    {
      match x {
        case Verity => case Signed => case Encrypted => case EncryptedWithIntegrity => case Unprotected =>
        case Unused => case Absent => case ReadOnlyOn => case ReadOnlyOff => case GrowFSOn => case GrowFSOff =>
        case Btrfs => case Erofs => case Ext4 => case F2FS => case Squashfs => case Vfat => case XFS =>
      }
    }
  }

  lemma {:induction false} JoinSolid(words: seq<string>)
    requires forall i :: 0 <= i < |words| ==> Solid(words[i]) && |words[i]| > 1
    ensures Solid(Join(words, '+')) && (words != [] ==> |Join(words, '+')| > 1)
  {
    if |words| > 1 {
      JoinSolid(words[1..]);
    }
  }

  /** Printed flags parse, strictly, to what survives printing. */
  lemma FlagsRoundTrip(f: Flags)
    ensures FlagsOf(FlagsString(f), false) == Ok(Simplified(f)) && Solid(FlagsString(f))
  {
    AllStand(f);
    hide Names, Simplified;
    if Names(f) != [] {
      JoinSolid(Names(f));
      SplitJoin(Names(f), '+');
    } else {
      assert Simplified(f) == {};
    }
  }

  // ----- what a policy requires of a partition

  /** extendPolicyFlags: an aspect left open allows everything. */
  function Extended(f: Flags): Flags {
    f
    + (if f * OPEN == {} then OPEN else {})
    + (if f * READ_ONLY == {} then READ_ONLY else {})
    + (if f * GROW_FS == {} then GROW_FS else {})
  }

  /** normalizePolicyFlags. */
  function NormalFlags(f: Flags, d: Designator): Flags {
    var e := Extended(f);
    var a := e - if d.VerityData().Some? then {Verity, Signed, Encrypted, EncryptedWithIntegrity} else {};
    var b := a - if d.VerityHash().None? then {Verity, Signed} else {};
    if b * OPEN == {Absent} then b - READ_ONLY - GROW_FS else b
  }

  /** imagePolicy.get: the rule given, or the one derived from the data partition. */
  function Get(p: Policy, d: Designator): Option<Flags>
    decreases if d.VerityData().Some? then 1 else 0
  {
    if d in p.rules then Some(NormalFlags(p.rules[d], d))
    else if d.VerityData().None? then None
    else
      var data := Get(p, d.VerityData().value);
      var need := if d.IsVeritySig() then {Signed} else {Verity, Signed};
      if data.None? || data.value * need == {} then None
      else Some(NormalFlags({Unprotected} + data.value * IGNORE + data.value * (READ_ONLY + GROW_FS), d))
  }

  /** imagePolicy.exhaustive. */
  function Exhaustive(p: Policy, d: Designator): Flags {
    var f := Get(p, d);
    if f.Some? then f.value else NormalFlags(p.def, d)
  }

  function SimplifiedPolicy(p: Policy): Policy {
    Policy(map d | d in p.rules :: Simplified(p.rules[d]), Simplified(p.def))
  }

  lemma SimplifiedExtends(f: Flags)
    ensures Extended(Simplified(f)) == Extended(f)
  {
    var g := Simplified(f);
    assert g * OPEN == f * OPEN;
    assert g * READ_ONLY == if READ_ONLY <= f then {} else f * READ_ONLY;
    assert g * GROW_FS == if GROW_FS <= f then {} else f * GROW_FS;
  }

  /** Printing drops nothing a policy requires, derived rules included. */
  lemma SameRequirements(p: Policy, d: Designator)
    ensures Get(SimplifiedPolicy(p), d) == Get(p, d)
    ensures Exhaustive(SimplifiedPolicy(p), d) == Exhaustive(p, d)
    decreases if d.VerityData().Some? then 1 else 0
  {
    hide Extended, Simplified;
    SimplifiedExtends(p.def);
    if d in p.rules {
      SimplifiedExtends(p.rules[d]);
    } else if d.VerityData().Some? {
      SameRequirements(p, d.VerityData().value);
    }
  }

  // ----- printed policies parse back

  lemma {:induction false} CutRule(name: string, flags: string)
    requires Solid(name)
    ensures CutAtEquals(name + "=" + flags) == Some((name, flags))
  {
    var s := name + "=" + flags;
    if name == "" {
      assert s[1..] == flags;
    } else {
      CutRule(name[1..], flags);
      assert s[1..] == name[1..] + "=" + flags;
      assert name == [name[0]] + name[1..];
    }
  }

  function Add(p: Policy, q: Policy, order: seq<Designator>): Policy {
    q.(rules := map d | d in q.rules.Keys + (p.rules.Keys * set x | x in order) :: if d in q.rules then q.rules[d] else Simplified(p.rules[d]))
  }

  lemma RuleReads(d: Designator, f: Flags, more: seq<string>, q: Policy)
    requires d !in q.rules
    ensures RulesOf([RuleString(d, f)] + more, q, true, false) == RulesOf(more, q.(rules := q.rules[d := Simplified(f)]), true, false)
  {
    DesignatorFacts(d);
    FlagsRoundTrip(f);
    CutRule(DesignatorName(d), FlagsString(f));
    SolidTrims(DesignatorName(d));
    SolidTrims(FlagsString(f));
    hide Simplified, FlagsOf, FlagsString, DesignatorName, DesignatorFromString, CutAtEquals, TrimSpace, Solid;
    assert ([RuleString(d, f)] + more)[1..] == more;
  }

  /** Rules printed for distinct designators parse to those rules. */
  lemma {:induction false} RulesRead(p: Policy, order: seq<Designator>, q: Policy)
    requires forall i, j :: 0 <= i < j < |order| ==> order[i] != order[j]
    requires forall i :: 0 <= i < |order| ==> order[i] !in q.rules
    ensures RulesOf(RuleStrings(p, order), q, true, false) == Ok(Add(p, q, order))
    decreases |order|
  {
    hide Simplified, RuleString, RulesOf, Add;
    if order == [] {
      AddNothing(p, q);
      NoRules(q);
    } else {
      var d, rest := order[0], order[1..];
      AddStep(p, q, d, rest);
      assert order == [d] + rest;
      if d in p.rules {
        RuleReads(d, p.rules[d], RuleStrings(p, rest), q);
        RulesRead(p, rest, q.(rules := q.rules[d := Simplified(p.rules[d])]));
      } else {
        assert [] + RuleStrings(p, rest) == RuleStrings(p, rest);
        RulesRead(p, rest, q);
      }
    }
  }

  lemma AddNothing(p: Policy, q: Policy)
    ensures Add(p, q, []) == q
  {
    assert Add(p, q, []).rules == q.rules;
  }

  lemma AddStep(p: Policy, q: Policy, d: Designator, rest: seq<Designator>)
    requires d !in q.rules && d !in rest
    ensures Add(p, q, [d] + rest) == if d in p.rules then Add(p, q.(rules := q.rules[d := Simplified(p.rules[d])]), rest) else Add(p, q, rest)
  {
    hide Simplified;
    var a := Add(p, q, [d] + rest);
    var b := if d in p.rules then Add(p, q.(rules := q.rules[d := Simplified(p.rules[d])]), rest) else Add(p, q, rest);
    assert a.rules.Keys == b.rules.Keys;
    assert a.rules == b.rules;
  }

  lemma NoRules(q: Policy)
    ensures RulesOf([], q, true, false) == Ok(q)
  {
  }

  lemma {:induction false} RulesSolid(p: Policy, order: seq<Designator>)
    ensures forall i :: 0 <= i < |RuleStrings(p, order)| ==> ':' !in RuleStrings(p, order)[i]
  {
    if order != [] {
      RulesSolid(p, order[1..]);
      DesignatorFacts(order[0]);
      if order[0] in p.rules {
        FlagsRoundTrip(p.rules[order[0]]);
      }
    }
  }

  lemma AllDesignators(d: Designator)
    ensures d in DESIGNATORS
  {
    match d {
      case Root => assert DESIGNATORS[0] == d;
      case Usr => assert DESIGNATORS[1] == d;
      case Home => assert DESIGNATORS[2] == d;
      case Srv => assert DESIGNATORS[3] == d;
      case ESP => assert DESIGNATORS[4] == d;
      case XBootLdr => assert DESIGNATORS[5] == d;
      case Swap => assert DESIGNATORS[6] == d;
      case RootVerity => assert DESIGNATORS[7] == d;
      case UsrVerity => assert DESIGNATORS[8] == d;
      case RootVeritySig => assert DESIGNATORS[9] == d;
      case UsrVeritySig => assert DESIGNATORS[10] == d;
      case Tmp => assert DESIGNATORS[11] == d;
      case Var => assert DESIGNATORS[12] == d;
    }
  }

  /** The printed default rule parses first. */
  lemma DefaultReads(def: Flags, rules: seq<string>)
    ensures RulesOf(["=" + FlagsString(def)] + rules, Policy(map[], IGNORE), false, false)
            == RulesOf(rules, Policy(map[], Simplified(def)), true, false)
  {
    FlagsRoundTrip(def);
    CutRule("", FlagsString(def));
    SolidTrims(FlagsString(def));
    SolidTrims("");
    hide Simplified, FlagsOf, FlagsString, CutAtEquals, TrimSpace, Solid;
    assert "" + "=" + FlagsString(def) == "=" + FlagsString(def);
    assert (["=" + FlagsString(def)] + rules)[1..] == rules;
  }

  lemma PrintedRules(p: Policy)
    ensures RulesOf(["=" + FlagsString(p.def)] + RuleStrings(p, DESIGNATORS), Policy(map[], IGNORE), false, false) == Ok(SimplifiedPolicy(p))
  {
    DefaultReads(p.def, RuleStrings(p, DESIGNATORS));
    hide RulesOf, RuleStrings, Simplified, FlagsString;
    var start := Policy(map[], Simplified(p.def));
    RulesRead(p, DESIGNATORS, start);
    forall d: Designator
      ensures d in DESIGNATORS
    {
      AllDesignators(d);
    }
    assert Add(p, start, DESIGNATORS) == SimplifiedPolicy(p);
  }

  /** The strict parser reads a printed policy, up to flags that are both on and off. */
  lemma PolicyRoundTrip(p: Policy)
    ensures PolicyOf(PolicyString(p), false) == Ok(SimplifiedPolicy(p))
  {
    FlagsRoundTrip(p.def);
    RulesSolid(p, DESIGNATORS);
    PrintedRules(p);
    StartsWithEquals(p.def, RuleStrings(p, DESIGNATORS));
    DefaultNoColon(p.def);
    hide RulesOf, RuleStrings, SimplifiedPolicy, FlagsString, Solid, Join, Split;
    SplitJoin(["=" + FlagsString(p.def)] + RuleStrings(p, DESIGNATORS), ':');
  }

  lemma DefaultNoColon(def: Flags)
    ensures ':' !in "=" + FlagsString(def)
  {
    FlagsRoundTrip(def);
  }

  lemma StartsWithEquals(def: Flags, rules: seq<string>)
    ensures var s := Join(["=" + FlagsString(def)] + rules, ':'); s != "" && s[0] == '='
  {
    var all := ["=" + FlagsString(def)] + rules;
    assert all[0][0] == '=';
  }

  lemma {:induction false} StrictFlags(words: seq<string>)
    requires UnionOf(words, false).Ok?
    ensures UnionOf(words, true) == UnionOf(words, false)
  {
    hide FlagsFromString, TrimSpace;
    if words != [] {
      StrictFlags(words[1..]);
    }
  }

  lemma {:induction false} StrictRules(rules: seq<string>, p: Policy, defaultSet: bool)
    requires RulesOf(rules, p, defaultSet, false).Ok?
    ensures RulesOf(rules, p, defaultSet, true) == RulesOf(rules, p, defaultSet, false)
    decreases |rules|
  {
    hide TrimSpace, DesignatorFromString, CutAtEquals, Split;
    if rules != [] {
      var cut := CutAtEquals(rules[0]).value;
      var name, flags := TrimSpace(cut.0), TrimSpace(cut.1);
      var f := FlagsOf(flags, false);
      if flags != "" && flags != "-" {
        StrictFlags(Split(flags, '+'));
      }
      if name == "" {
        StrictRules(rules[1..], p.(def := f.value), true);
      } else {
        StrictRules(rules[1..], p.(rules := p.rules[DesignatorFromString(name).value := f.value]), defaultSet);
      }
    }
  }

  /** What the strict parser accepts, the lenient one reads the same. */
  lemma StrictIsLenient(s: string)
    requires PolicyOf(s, false).Ok?
    ensures PolicyOf(s, true) == PolicyOf(s, false)
  {
    hide RulesOf;
    if s != "" && s != "-" && s != "*" && s != "~" {
      StrictRules(Split(s, ':'), Policy(map[], IGNORE), false);
    }
  }

  lemma {:induction false} SameNames(f: Flags, g: Flags, order: seq<Flag>)
    requires forall x :: x in order ==> (x in f <==> x in g)
    ensures NamesIn(f, order) == NamesIn(g, order)
  {
    hide FlagName;
    if order != [] {
      assert order == [order[0]] + order[1..];
      SameNames(f, g, order[1..]);
    }
  }

  lemma SameString(f: Flags)
    ensures FlagsString(Simplified(f)) == FlagsString(f)
  {
    hide FlagName, NamesIn, Join;
    var g := Simplified(f);
    SameNames(f, g, USES);
    SameNames(f, g, TYPES);
    assert g * OPEN == f * OPEN;
  }

  lemma {:induction false} SameRuleStrings(p: Policy, order: seq<Designator>)
    ensures RuleStrings(SimplifiedPolicy(p), order) == RuleStrings(p, order)
  {
    hide FlagsString, Simplified, DesignatorName;
    if order != [] {
      SameRuleStrings(p, order[1..]);
      if order[0] in p.rules {
        SameString(p.rules[order[0]]);
      }
    }
  }

  /** For every text the lenient parser accepts, NormalizePolicy gives one the strict
      parser accepts, with the same requirements on every partition; normalizing again
      changes nothing. */
  lemma NormalizeKeepsRequirements(s: string)
    requires s != "" && PolicyOf(s, true).Ok?
    ensures Normalized(s).Ok? && PolicyOf(Normalized(s).value, false).Ok?
    ensures forall d :: Exhaustive(PolicyOf(Normalized(s).value, false).value, d) == Exhaustive(PolicyOf(s, true).value, d)
    ensures Normalized(Normalized(s).value) == Normalized(s)
  {
    var p := PolicyOf(s, true).value;
    PolicyRoundTrip(p);
    StrictIsLenient(PolicyString(p));
    SameRuleStrings(p, DESIGNATORS);
    SameString(p.def);
    StartsWithEquals(p.def, RuleStrings(p, DESIGNATORS));
    hide PolicyOf, RuleStrings, Exhaustive, Simplified, FlagsString, Join;
    forall d
      ensures Exhaustive(SimplifiedPolicy(p), d) == Exhaustive(p, d)
    {
      SameRequirements(p, d);
    }
  }
}
