/** The overlayfs mount options of internal/overlay/mounts.go: escaping layer paths,
    splitting an option string, and turning generic options into mount flags. */
module MountOptions {
  import opened Text

  // ----- escaping and splitting

  predicate Special(c: char) {
    c == '\\' || c == ':' || c == ','
  }

  function Escaped(p: string): string {
    if p == "" then "" else (if Special(p[0]) then ['\\', p[0]] else [p[0]]) + Escaped(p[1..])
  }

  /** The words of s, of which word has been read already. */
  function Words(s: string, word: string): (words: seq<string>)
    ensures |words| >= 1
  {
    if s == "" then [word]
    else if s[0] == '\\' && |s| > 1 then Words(s[2..], word + s[..2])
    else if s[0] == ',' then [word] + Words(s[1..], "")
    else Words(s[1..], word + s[..1])
  }

  lemma EscapedStep(p: string, i: nat)
    requires i < |p|
    ensures Escaped(p[i..]) == (if Special(p[i]) then ['\\', p[i]] else [p[i]]) + Escaped(p[i + 1..])
  {
    assert p[i..][1..] == p[i + 1..];
  }

  method EscapeLayer(p: string) returns (r: string)
    ensures r == Escaped(p)
  {
    hide Escaped;
    r := "";
    assert p[0..] == p;
    for i := 0 to |p|
      invariant r + Escaped(p[i..]) == Escaped(p)
    {
      EscapedStep(p, i);
      if Special(p[i]) {
        r := r + ['\\'];
      }
      r := r + [p[i]];
    }
    EscapedEmpty(p);
  }

  lemma EscapedEmpty(p: string)
    ensures Escaped(p[|p|..]) == ""
  {
  }

  method SplitOptions(s: string) returns (words: seq<string>)
    ensures words == Words(s, "")
  {
    words := [];
    var cur := "";
    var i := 0;
    while i < |s|
      invariant i <= |s| && words + Words(s[i..], cur) == Words(s, "")
      decreases |s| - i
    {
      var t := s[i..];
      assert t[1..] == s[i + 1..];
      if s[i] == '\\' && i + 1 < |s| {
        assert t[2..] == s[i + 2..] && t[..2] == [s[i], s[i + 1]];
        cur := cur + [s[i], s[i + 1]];
        i := i + 1;
      } else if s[i] == ',' {
        words := words + [cur];
        cur := "";
      } else {
        assert t[..1] == [s[i]];
        cur := cur + [s[i]];
      }
      i := i + 1;
    }
    assert s[i..] == "";
    words := words + [cur];
  }

  /** Commas and backslashes occur in s only as the second half of an escape. */
  predicate Inert(s: string) {
    s == "" || (if s[0] == '\\' then |s| > 1 && Inert(s[2..]) else s[0] != ',' && Inert(s[1..]))
  }

  lemma {:induction false} EscapedInert(p: string)
    ensures Inert(Escaped(p))
  {
    if p != "" {
      EscapedInert(p[1..]);
      var e := Escaped(p);
      if Special(p[0]) {
        assert e[2..] == Escaped(p[1..]);
      } else {
        assert e[1..] == Escaped(p[1..]);
      }
    }
  }

  lemma {:induction false} InertSum(a: string, b: string)
    requires Inert(a) && Inert(b)
    ensures Inert(a + b)
    decreases |a|
  {
    if a == "" {
      assert a + b == b;
    } else if a[0] == '\\' {
      InertSum(a[2..], b);
      assert (a + b)[2..] == a[2..] + b;
    } else {
      InertSum(a[1..], b);
      assert (a + b)[1..] == a[1..] + b;
    }
  }

  /** An inert part ends up whole in the word being read. */
  lemma {:induction false} InertWord(a: string, rest: string, word: string)
    requires Inert(a)
    ensures Words(a + rest, word) == Words(rest, word + a)
    decreases |a|
  {
    if a == "" {
      assert a + rest == rest && word + a == word;
    } else if a[0] == '\\' {
      InertWord(a[2..], rest, word + a[..2]);
      assert (a + rest)[2..] == a[2..] + rest && (a + rest)[..2] == a[..2];
      assert word + a[..2] + a[2..] == word + a;
    } else {
      InertWord(a[1..], rest, word + a[..1]);
      assert (a + rest)[1..] == a[1..] + rest && (a + rest)[..1] == a[..1];
      assert word + a[..1] + a[1..] == word + a;
    }
  }

  // ----- the option string of an overlay

  function EscapedAll(layers: seq<string>): (r: seq<string>)
    ensures |r| == |layers| && forall i :: 0 <= i < |r| ==> r[i] == Escaped(layers[i])
  {
    seq(|layers|, i requires 0 <= i < |layers| => Escaped(layers[i]))
  }

  function OverlayOptions(lower: seq<string>, upper: string, work: string, extra: string): string {
    "lowerdir=" + Join(EscapedAll(lower), ':')
    + (if upper != "" then ",upperdir=" + Escaped(upper) + ",workdir=" + Escaped(work) else "")
    + (if extra != "" then "," + extra else "")
  }

  function LayerWords(lower: seq<string>, upper: string, work: string): seq<string> {
    ["lowerdir=" + Join(EscapedAll(lower), ':')]
    + if upper != "" then ["upperdir=" + Escaped(upper), "workdir=" + Escaped(work)] else []
  }

  lemma {:induction false} JoinInert(parts: seq<string>)
    requires forall i :: 0 <= i < |parts| ==> Inert(parts[i])
    ensures Inert(Join(parts, ':'))
  {
    if |parts| > 1 {
      JoinInert(parts[1..]);
      assert Inert(":");
      InertSum(parts[0], ":");
      InertSum(parts[0] + ":", Join(parts[1..], ':'));
    }
  }

  /** The words of an inert part, a comma and more. */
  lemma WordThen(a: string, rest: string)
    requires Inert(a)
    ensures Words(a + "," + rest, "") == [a] + Words(rest, "")
    ensures Words(a, "") == [a]
  {
    assert a + "," + rest == a + ("," + rest);
    InertWord(a, "," + rest, "");
    assert ("," + rest)[1..] == rest;
    InertWord(a, "", "");
    assert a + "" == a && "" + a == a;
  }

  lemma InertPrefix(name: string, value: string)
    requires name in {"lowerdir=", "upperdir=", "workdir="} && Inert(value)
    ensures Inert(name + value)
  {
    assert Inert("lowerdir=") by {
      AllInert("lowerdir=");
    }
    assert Inert("upperdir=") by {
      AllInert("upperdir=");
    }
    assert Inert("workdir=") by {
      AllInert("workdir=");
    }
    InertSum(name, value);
  }

  lemma {:induction false} AllInert(s: string)
    requires '\\' !in s && ',' !in s
    ensures Inert(s)
  {
    if s != "" {
      AllInert(s[1..]);
    }
  }

  function ExtraWords(extra: string): seq<string> {
    if extra != "" then Words(extra, "") else []
  }

  lemma OneWord(l: string, extra: string)
    requires Inert(l)
    ensures Words(l + (if extra != "" then "," + extra else ""), "") == [l] + ExtraWords(extra)
  {
    WordThen(l, extra);
    hide Words, Inert;
    assert l + "" == l && l + ("," + extra) == l + "," + extra;
  }

  lemma ThreeWords(l: string, u: string, w: string, extra: string)
    requires Inert(l) && Inert(u) && Inert(w)
    ensures Words(l + ("," + u + "," + w) + (if extra != "" then "," + extra else ""), "") == [l, u, w] + ExtraWords(extra)
  {
    var tail := if extra != "" then "," + extra else "";
    WordThen(l, u + "," + (w + tail));
    WordThen(u, w + tail);
    OneWord(w, extra);
    hide Words, Inert;
    Regroup(l, u, w, tail);
  }

  lemma Assoc(a: string, b: string, c: string)
    ensures (a + b) + c == a + (b + c)
  {
  }

  lemma Regroup(l: string, u: string, w: string, t: string)
    ensures l + ("," + u + "," + w) + t == l + "," + (u + "," + (w + t))
  {
    calc {
      l + ("," + u + "," + w) + t;
      { Assoc(l, "," + u + "," + w, t); }
      l + (("," + u + "," + w) + t);
      { Assoc("," + u + ",", w, t); }
      l + (("," + u + ",") + (w + t));
      { Assoc(",", u, ","); Assoc(",", u + ",", w + t); }
      l + ("," + (u + "," + (w + t)));
      { Assoc(l, ",", u + "," + (w + t)); }
      l + "," + (u + "," + (w + t));
    }
  }

  /** Whatever the layer paths contain, the option string splits into the lowerdir
      word, the upperdir and workdir words, and the words of the extra options. */
  lemma OptionsSplit(lower: seq<string>, upper: string, work: string, extra: string)
    ensures Words(OverlayOptions(lower, upper, work, extra), "") == LayerWords(lower, upper, work) + ExtraWords(extra)
  {
    var escaped := EscapedAll(lower);
    forall i | 0 <= i < |escaped|
      ensures Inert(escaped[i])
    {
      EscapedInert(lower[i]);
    }
    JoinInert(escaped);
    EscapedInert(upper);
    EscapedInert(work);
    hide Words, Inert, Escaped, Join, EscapedAll, ExtraWords;
    InertPrefix("lowerdir=", Join(escaped, ':'));
    InertPrefix("upperdir=", Escaped(upper));
    InertPrefix("workdir=", Escaped(work));
    var l, u, w := "lowerdir=" + Join(escaped, ':'), "upperdir=" + Escaped(upper), "workdir=" + Escaped(work);
    if upper != "" {
      ThreeWords(l, u, w, extra);
      NamedOptions(Escaped(upper), Escaped(work));
      assert LayerWords(lower, upper, work) == [l, u, w];
    } else {
      OneWord(l, extra);
      assert l + "" == l && LayerWords(lower, upper, work) == [l];
    }
  }

  lemma NamedOptions(upper: string, work: string)
    ensures ",upperdir=" + upper + ",workdir=" + work == "," + ("upperdir=" + upper) + "," + ("workdir=" + work)
  {
    assert ",upperdir=" == "," + "upperdir=" && ",workdir=" == "," + "workdir=";
  }

  // ----- reading lowerdir back

  /** How overlayfs reads lowerdir: paths end at a colon that is not escaped, and a
      backslash is dropped before the character it escapes. */
  function LowerDirs(s: string, path: string): seq<string> {
    if s == "" then [path]
    else if s[0] == '\\' && |s| > 1 then LowerDirs(s[2..], path + [s[1]])
    else if s[0] == ':' then [path] + LowerDirs(s[1..], "")
    else LowerDirs(s[1..], path + [s[0]])
  }

  lemma {:induction false} EscapedReadsBack(p: string, rest: string, path: string)
    ensures LowerDirs(Escaped(p) + rest, path) == LowerDirs(rest, path + p)
    decreases |p|
  {
    var s := Escaped(p) + rest;
    if p == "" {
      assert s == rest && path + p == path;
    } else {
      EscapedReadsBack(p[1..], rest, path + [p[0]]);
      assert path + [p[0]] + p[1..] == path + p;
      if Special(p[0]) {
        assert s[2..] == Escaped(p[1..]) + rest;
      } else {
        assert s[1..] == Escaped(p[1..]) + rest;
      }
    }
  }

  /** The layers reach overlayfs as they are, backslashes, colons and commas included.
      The metadata layer makes the list non-empty. */
  lemma {:induction false} LayersReadBack(lower: seq<string>)
    requires lower != []
    ensures LowerDirs(Join(EscapedAll(lower), ':'), "") == lower
  {
    var parts := EscapedAll(lower);
    if |lower| == 1 {
      EscapedReadsBack(lower[0], "", "");
      assert Escaped(lower[0]) + "" == Escaped(lower[0]) && "" + lower[0] == lower[0];
    } else {
      LayersReadBack(lower[1..]);
      assert parts[1..] == EscapedAll(lower[1..]);
      var rest := [':'] + Join(parts[1..], ':');
      assert Join(parts, ':') == Escaped(lower[0]) + rest;
      EscapedReadsBack(lower[0], rest, "");
      assert "" + lower[0] == lower[0] && rest[1..] == Join(parts[1..], ':');
    }
  }

  // ----- generic options become mount flags

  datatype Flag =
    | ReadOnly | NoSuid | NoDev | NoExec | Synchronous | MandLock | DirSync | NoSymFollow | NoATime
    | NoDirATime | Silent | RelATime | IVersion | StrictATime | LazyTime

  /** What a generic option sets or clears. */
  datatype Effect = Other | Set(flag: Flag) | Clear(flag: Flag) | Nothing

  function EffectOf(word: string): Effect {
    match word
    case "defaults" => Nothing
    case "ro" => Set(ReadOnly)
    case "rw" => Clear(ReadOnly)
    case "exec" => Clear(NoExec)
    case "noexec" => Set(NoExec)
    case "suid" => Clear(NoSuid)
    case "nosuid" => Set(NoSuid)
    case "dev" => Clear(NoDev)
    case "nodev" => Set(NoDev)
    case "sync" => Set(Synchronous)
    case "async" => Clear(Synchronous)
    case "dirsync" => Set(DirSync)
    case "silent" => Set(Silent)
    case "loud" => Clear(Silent)
    case "mand" => Set(MandLock)
    case "nomand" => Clear(MandLock)
    case "atime" => Clear(NoATime)
    case "noatime" => Set(NoATime)
    case "iversion" => Set(IVersion)
    case "noiversion" => Clear(IVersion)
    case "diratime" => Clear(NoDirATime)
    case "nodiratime" => Set(NoDirATime)
    case "relatime" => Set(RelATime)
    case "norelatime" => Clear(RelATime)
    case "strictatime" => Set(StrictATime)
    case "nostrictatime" => Clear(StrictATime)
    case "lazytime" => Set(LazyTime)
    case "nolazytime" => Clear(LazyTime)
    case "symfollow" => Clear(NoSymFollow)
    case "nosymfollow" => Set(NoSymFollow)
    case _ => Other
  }

  /** Options of the form x-… are for user space and dropped. */
  predicate UserSpace(word: string) {
    |word| >= 2 && word[0] in {'x', 'X'} && word[1] == '-'
  }

  function Flags(words: seq<string>, flags: set<Flag>): set<Flag> {
    if words == [] then flags
    else
      match EffectOf(words[0])
      case Set(f) => Flags(words[1..], flags + {f})
      case Clear(f) => Flags(words[1..], flags - {f})
      case _ => Flags(words[1..], flags)
  }

  function Data(words: seq<string>): seq<string> {
    if words == [] then []
    else if EffectOf(words[0]) != Other || words[0] == "" || UserSpace(words[0]) then Data(words[1..])
    else [words[0]] + Data(words[1..])
  }

  method MangleMountOptions(options: string, flags0: set<Flag>) returns (flags: set<Flag>, data: string)
    ensures flags == Flags(Words(options, ""), flags0)
    ensures data == Join(Data(Words(options, "")), ',')
  {
    var words := SplitOptions(options);
    flags := flags0;
    var kept: seq<string> := [];
    for i := 0 to |words|
      invariant Flags(words[i..], flags) == Flags(words, flags0)
      invariant kept + Data(words[i..]) == Data(words)
    {
      assert words[i..][1..] == words[i + 1..];
      var e := EffectOf(words[i]);
      if e.Set? {
        flags := flags + {e.flag};
      } else if e.Clear? {
        flags := flags - {e.flag};
      } else if e == Nothing || words[i] == "" || UserSpace(words[i]) {
        continue;
      } else {
        kept := kept + [words[i]];
      }
    }
    assert words[|words|..] == [] && kept + [] == kept;
    data := Join(kept, ',');
  }

  /** A word with a '=' is no generic option. */
  lemma LayerWordIsData(name: string, value: string)
    requires name in {"lowerdir=", "upperdir=", "workdir="}
    ensures EffectOf(name + value) == Other && name + value != "" && !UserSpace(name + value)
  {
    var w := name + value;
    assert w[0] == name[0] && w[1] == name[1] && w[7] == name[7];
    assert name[0] == 'w' ==> w[7] == '=';
    assert name[0] != 'w' ==> w[8] == name[8] == '=';
  }

  /** The mount flags depend on the extra options and the initial flags alone, and the
      layers are passed on as data in front of what the extra options leave. */
  lemma FlagsFromExtra(lower: seq<string>, upper: string, work: string, extra: string, flags: set<Flag>)
    ensures var words := Words(OverlayOptions(lower, upper, work, extra), "");
            && Flags(words, flags) == Flags(Words(extra, ""), flags)
            && Data(words) == LayerWords(lower, upper, work) + Data(Words(extra, ""))
  {
    OptionsSplit(lower, upper, work, extra);
    var layers, rest := LayerWords(lower, upper, work), ExtraWords(extra);
    NoOptions(flags);
    hide Words, Flags, Data, EffectOf, UserSpace, OverlayOptions;
    LayerWordIsData("lowerdir=", Join(EscapedAll(lower), ':'));
    if upper != "" {
      LayerWordIsData("upperdir=", Escaped(upper));
      LayerWordIsData("workdir=", Escaped(work));
      Skip1(layers[2], rest, flags);
      Skip1(layers[1], [layers[2]] + rest, flags);
      Skip1(layers[0], [layers[1]] + ([layers[2]] + rest), flags);
      assert layers + rest == [layers[0]] + ([layers[1]] + ([layers[2]] + rest));
    } else {
      Skip1(layers[0], rest, flags);
      assert layers + rest == [layers[0]] + rest;
    }
  }

  lemma NoOptions(flags: set<Flag>)
    ensures Words("", "") == [""] && Flags([""], flags) == flags && Data([""]) == []
    ensures Flags([], flags) == flags && Data([]) == []
  {
    var none: seq<string> := [""][1..];
    assert none == [];
    assert Data(none) == [] && Flags(none, flags) == flags;
  }

  lemma Skip1(word: string, rest: seq<string>, flags: set<Flag>)
    requires EffectOf(word) == Other && word != "" && !UserSpace(word)
    ensures Flags([word] + rest, flags) == Flags(rest, flags)
    ensures Data([word] + rest) == [word] + Data(rest)
  {
    assert ([word] + rest)[1..] == rest;
  }

  // ----- mangling what was passed on

  /** Commas do not end s, but a backslash may be the last character. */
  predicate Wordlike(s: string) {
    Inert(s) || (s != "" && s[|s| - 1] == '\\' && Inert(s[..|s| - 1]))
  }

  /** What splitting gives: only the last word may end in a backslash that protects
      nothing. */
  ghost predicate Parts(words: seq<string>) {
    forall i :: 0 <= i < |words| ==> Wordlike(words[i]) && (i < |words| - 1 ==> Inert(words[i]))
  }

  lemma {:induction false} WordsParts(s: string, word: string)
    requires Inert(word)
    ensures Parts(Words(s, word))
    decreases |s|
  {
    if s != "" {
      if s[0] == '\\' && |s| > 1 {
        assert s[..2][2..] == "";
        InertSum(word, s[..2]);
        WordsParts(s[2..], word + s[..2]);
      } else if s[0] == ',' {
        WordsParts(s[1..], "");
      } else if s[0] == '\\' {
        assert s == "\\" && s[1..] == "" && s[..1] == s && (word + s)[..|word|] == word;
        assert Words(s, word) == Words("", word + s);
      } else {
        assert s[..1][1..] == "";
        InertSum(word, s[..1]);
        WordsParts(s[1..], word + s[..1]);
      }
    }
  }

  lemma OneWordlike(s: string)
    requires Wordlike(s)
    ensures Words(s, "") == [s]
  {
    if Inert(s) {
      WordThen(s, "");
    } else {
      var t := s[..|s| - 1];
      assert s == t + "\\";
      InertWord(t, "\\", "");
      assert "" + t == t;
      var last := "\\";
      assert last[1..] == "" && last[..1] == last;
      assert Words("\\", t) == Words("", t + "\\");
    }
  }

  lemma {:induction false} WordsOfJoin(words: seq<string>)
    requires words != [] && Parts(words)
    ensures Words(Join(words, ','), "") == words
  {
    if |words| == 1 {
      OneWordlike(words[0]);
    } else {
      var rest := words[1..];
      assert Parts(rest) by {
        assert forall i :: 0 <= i < |rest| ==> rest[i] == words[i + 1];
      }
      WordsOfJoin(rest);
      WordThen(words[0], Join(rest, ','));
      assert words[0] + [','] + Join(rest, ',') == words[0] + "," + Join(rest, ',');
    }
  }

  lemma {:induction false} DataStays(words: seq<string>, flags: set<Flag>)
    ensures Data(Data(words)) == Data(words) && Flags(Data(words), flags) == flags
    ensures Parts(words) ==> Parts(Data(words))
  {
    if words != [] {
      var rest := words[1..];
      DataStays(rest, flags);
      assert Parts(words) ==> Parts(rest) by {
        assert forall i :: 0 <= i < |rest| ==> rest[i] == words[i + 1];
      }
      if Data(words) != Data(rest) {
        Skip1(words[0], Data(rest), flags);
        assert Data(rest) != [] ==> rest != [];
      }
    }
  }

  /** What is passed on holds no generic option any more: mangling it again sets and
      clears nothing and passes all of it on, escaped commas included. */
  lemma MangledOnce(options: string, flags: set<Flag>)
    ensures var data := Join(Data(Words(options, "")), ',');
            Flags(Words(data, ""), flags) == flags && Join(Data(Words(data, "")), ',') == data
  {
    var kept := Data(Words(options, ""));
    WordsParts(options, "");
    DataStays(Words(options, ""), flags);
    if kept != [] {
      WordsOfJoin(kept);
    } else {
      NoOptions(flags);
    }
  }

  /** Without backslashes splitting is cutting at every comma. */
  lemma {:induction false} WordsAreSplit(s: string, word: string)
    requires '\\' !in s
    ensures Words(s, word) == [word + Split(s, ',')[0]] + Split(s, ',')[1..]
    decreases |s|
  {
    if s == "" {
      assert word + "" == word;
    } else if s[0] == ',' {
      WordsAreSplit(s[1..], "");
      var rest := Split(s[1..], ',');
      assert "" + rest[0] == rest[0] && [rest[0]] + rest[1..] == rest && word + "" == word;
    } else {
      WordsAreSplit(s[1..], word + s[..1]);
      assert word + s[..1] + Split(s[1..], ',')[0] == word + ([s[0]] + Split(s[1..], ',')[0]);
    }
  }

  /** Options without backslashes are passed on as they are, and set no flag, if none of
      their words is generic, empty or for user space. */
  lemma PlainOptions(s: string, flags: set<Flag>)
    requires '\\' !in s
    requires forall w :: w in Split(s, ',') ==> EffectOf(w) == Other && w != "" && !UserSpace(w)
    ensures Flags(Words(s, ""), flags) == flags && Join(Data(Words(s, "")), ',') == s
  {
    WordsAreSplit(s, "");
    var words := Split(s, ',');
    assert "" + words[0] == words[0] && [words[0]] + words[1..] == words;
    AllData(words, flags);
    JoinSplit(s, ',');
  }

  lemma {:induction false} AllData(words: seq<string>, flags: set<Flag>)
    requires forall w :: w in words ==> EffectOf(w) == Other && w != "" && !UserSpace(w)
    ensures Flags(words, flags) == flags && Data(words) == words
  {
    if words != [] {
      AllData(words[1..], flags);
    }
  }
}
