/** The os-release parser of internal/release/envfile.go and the serializer of its
    tests: parsing what was serialized gives the parsed fields back. */
module EnvFile {
  import opened Maybe
  import opened Text

  type Fields = map<string, string>

  datatype State =
    | PreKey | Key | PreValue | Value | ValueEscape | SingleQuote | DoubleQuote | DoubleQuoteEscape
    | Comment | CommentEscape

  predicate IsWhitespace(c: char) {
    c == ' ' || c == '\t' || c == '\n' || c == '\r'
  }

  predicate IsNewline(c: char) {
    c == '\n' || c == '\r'
  }

  predicate IsComment(c: char) {
    c == '#' || c == ';'
  }

  predicate NeedsEscape(c: char) {
    c == '"' || c == '\\' || c == '`' || c == '$'
  }

  /** The variables of the parser; a mark is where trailing whitespace begins, or -1. */
  datatype Machine = Machine(state: State, key: string, value: string, keyMark: int, valueMark: int, fields: Fields)

  function Cut(s: string, mark: int): string {
    if 0 <= mark <= |s| then s[..mark] else s
  }

  /** Records an assignment; None when the key or the value is not valid UTF-8. */
  function Push(m: Machine, chomp: bool, valid: string -> bool): Option<Machine> {
    var k, v := Cut(m.key, m.keyMark), if chomp then Cut(m.value, m.valueMark) else m.value;
    if valid(k) && valid(v) then Some(m.(fields := m.fields[k := v], key := "", value := "")) else None
  }

  function Mark(mark: int, c: char, length: nat): int {
    if !IsWhitespace(c) then -1 else if mark < 0 then length else mark
  }

  /** One byte. */
  function Step(m: Machine, c: char, valid: string -> bool): Option<Machine> {
    match m.state
    case PreKey =>
      Some(if IsComment(c) then m.(state := Comment)
           else if IsWhitespace(c) then m
           else m.(state := Key, keyMark := -1, key := m.key + [c]))
    case Key =>
      Some(if IsNewline(c) then m.(state := PreKey, key := "")
           else if c == '=' then m.(state := PreValue, valueMark := -1)
           else m.(keyMark := Mark(m.keyMark, c, |m.key|), key := m.key + [c]))
    case PreValue =>
      if IsNewline(c) then Push(m.(state := PreKey), false, valid)
      else
        Some(if c == '\'' then m.(state := SingleQuote)
             else if c == '"' then m.(state := DoubleQuote)
             else if c == '\\' then m.(state := ValueEscape)
             else if IsWhitespace(c) then m
             else m.(state := Value, value := m.value + [c]))
    case Value =>
      if IsNewline(c) then Push(m.(state := PreKey), true, valid)
      else
        Some(if c == '\\' then m.(state := ValueEscape, valueMark := -1)
             else m.(valueMark := Mark(m.valueMark, c, |m.value|), value := m.value + [c]))
    case ValueEscape =>
      Some(if IsNewline(c) then m.(state := Value) else m.(state := Value, value := m.value + [c]))
    case SingleQuote =>
      Some(if c == '\'' then m.(state := PreValue) else m.(value := m.value + [c]))
    case DoubleQuote =>
      Some(if c == '"' then m.(state := PreValue)
           else if c == '\\' then m.(state := DoubleQuoteEscape)
           else m.(value := m.value + [c]))
    case DoubleQuoteEscape =>
      Some(if NeedsEscape(c) then m.(state := DoubleQuote, value := m.value + [c])
           else if c != '\n' then m.(state := DoubleQuote, value := m.value + ['\\', c])
           else m.(state := DoubleQuote))
    case Comment =>
      Some(if c == '\\' then m.(state := CommentEscape) else if IsNewline(c) then m.(state := PreKey) else m)
    case CommentEscape =>
      Some(if IsNewline(c) then m.(state := PreKey) else m.(state := Comment))
  }

  function Feed(m: Machine, s: string, valid: string -> bool): Option<Machine>
    decreases |s|
  {
    if s == "" then Some(m)
    else
      var next := Step(m, s[0], valid);
      if next.None? then None else Feed(next.value, s[1..], valid)
  }

  /** The end of the file ends an open value. */
  function Finish(m: Machine, valid: string -> bool): Option<Fields> {
    if m.state in {PreValue, Value, ValueEscape, SingleQuote, DoubleQuote, DoubleQuoteEscape} then
      var last := Push(m, m.state == Value, valid);
      if last.None? then None else Some(last.value.fields)
    else Some(m.fields)
  }

  function Start(f: Fields): Machine {
    Machine(PreKey, "", "", -1, -1, f)
  }

  /** The specification of Parse. */
  function Parsed(content: string, valid: string -> bool): Option<Fields> {
    var m := Feed(Start(map[]), CutNul(content), valid);
    if m.None? then None else Finish(m.value, valid)
  }

  // ----- the parser

  lemma FeedStep(m: Machine, s: string, i: nat, valid: string -> bool)
    requires i < |s|
    ensures var next := Step(m, s[i], valid);
            Feed(m, s[i..], valid) == if next.None? then None else Feed(next.value, s[i + 1..], valid)
  {
    assert s[i..][1..] == s[i + 1..];
  }

  method Parse(content0: string, valid: string -> bool) returns (r: Option<Fields>)
    ensures r == Parsed(content0, valid)
  {
    hide Feed;
    var content := CutNul(content0);
    var f: Fields := map[];
    var key, value := "", "";
    var lastKeyWS, lastValueWS := -1, -1;
    var state := PreKey;
    assert content[0..] == content;
    for i := 0 to |content|
      invariant Feed(Start(map[]), content, valid) == Feed(Machine(state, key, value, lastKeyWS, lastValueWS, f), content[i..], valid)
    {
      FeedStep(Machine(state, key, value, lastKeyWS, lastValueWS, f), content, i, valid);
      var c := content[i];
      match state {
        case PreKey =>
          if IsComment(c) {
            state := Comment;
          } else if !IsWhitespace(c) {
            state, lastKeyWS, key := Key, -1, key + [c];
          }
        case Key =>
          if IsNewline(c) {
            state, key := PreKey, "";
          } else if c == '=' {
            state, lastValueWS := PreValue, -1;
          } else {
            if !IsWhitespace(c) {
              lastKeyWS := -1;
            } else if lastKeyWS < 0 {
              lastKeyWS := |key|;
            }
            key := key + [c];
          }
        case PreValue =>
          if IsNewline(c) {
            state := PreKey;
            if !valid(Cut(key, lastKeyWS)) || !valid(value) {
              return None;
            }
            f, key, value := f[Cut(key, lastKeyWS) := value], "", "";
          } else if c == '\'' {
            state := SingleQuote;
          } else if c == '"' {
            state := DoubleQuote;
          } else if c == '\\' {
            state := ValueEscape;
          } else if !IsWhitespace(c) {
            state, value := Value, value + [c];
          }
        case Value =>
          if IsNewline(c) {
            state := PreKey;
            if !valid(Cut(key, lastKeyWS)) || !valid(Cut(value, lastValueWS)) {
              return None;
            }
            f, key, value := f[Cut(key, lastKeyWS) := Cut(value, lastValueWS)], "", "";
          } else if c == '\\' {
            state, lastValueWS := ValueEscape, -1;
          } else {
            if !IsWhitespace(c) {
              lastValueWS := -1;
            } else if lastValueWS < 0 {
              lastValueWS := |value|;
            }
            value := value + [c];
          }
        case ValueEscape =>
          state := Value;
          if !IsNewline(c) {
            value := value + [c];
          }
        case SingleQuote =>
          if c == '\'' {
            state := PreValue;
          } else {
            value := value + [c];
          }
        case DoubleQuote =>
          if c == '"' {
            state := PreValue;
          } else if c == '\\' {
            state := DoubleQuoteEscape;
          } else {
            value := value + [c];
          }
        case DoubleQuoteEscape =>
          state := DoubleQuote;
          if NeedsEscape(c) {
            value := value + [c];
          } else if c != '\n' {
            value := value + ['\\', c];
          }
        case Comment =>
          if c == '\\' {
            state := CommentEscape;
          } else if IsNewline(c) {
            state := PreKey;
          }
        case CommentEscape =>
          state := if IsNewline(c) then PreKey else Comment;
      }
    }
    FeedNothing(Machine(state, key, value, lastKeyWS, lastValueWS, f), content, valid);
    if state in {PreValue, Value, ValueEscape, SingleQuote, DoubleQuote, DoubleQuoteEscape} {
      var v := if state == Value then Cut(value, lastValueWS) else value;
      if !valid(Cut(key, lastKeyWS)) || !valid(v) {
        return None;
      }
      f := f[Cut(key, lastKeyWS) := v];
    }
    r := Some(f);
  }

  lemma FeedNothing(m: Machine, s: string, valid: string -> bool)
    ensures Feed(m, s[|s|..], valid) == Some(m)
  {
  }

  // ----- what the parser's marks cut

  predicate AllWhitespace(s: string) {
    forall i :: 0 <= i < |s| ==> IsWhitespace(s[i])
  }

  /** A mark cuts off exactly the whitespace s ends in. */
  predicate CutsWhitespace(s: string, mark: int) {
    if mark < 0 then s != "" && !IsWhitespace(s[|s| - 1])
    else 0 < mark < |s| && AllWhitespace(s[mark..]) && !IsWhitespace(s[mark - 1])
  }

  predicate KeyStart(c: char) {
    !IsComment(c) && !IsWhitespace(c)
  }

  /** A key as it is being read: '=' at its start only, no newline. */
  predicate KeyText(k: string) {
    k != "" && KeyStart(k[0]) && '\0' !in k && '\n' !in k && '\r' !in k && '=' !in k[1..]
  }

  /** A key as it is recorded: also without whitespace at its end. */
  predicate GoodKey(k: string) {
    KeyText(k) && !IsWhitespace(k[|k| - 1])
  }

  predicate ReadingKey(s: State) {
    s != PreKey && s != Comment && s != CommentEscape
  }

  ghost predicate GoodFields(f: Fields, valid: string -> bool) {
    forall k :: k in f ==> GoodKey(k) && '\0' !in f[k] && valid(k) && valid(f[k])
  }

  ghost predicate MachineOk(m: Machine, valid: string -> bool) {
    && GoodFields(m.fields, valid)
    && '\0' !in m.value
    && (if ReadingKey(m.state) then KeyText(m.key) && CutsWhitespace(m.key, m.keyMark) else m.key == "")
    && (m.state in {PreKey, Comment, CommentEscape, Key} ==> m.value == "")
    && (m.state in {PreValue, SingleQuote, DoubleQuote, DoubleQuoteEscape, ValueEscape} ==> m.valueMark < 0)
    && (m.state == Value && m.valueMark >= 0 ==> m.valueMark < |m.value| && AllWhitespace(m.value[m.valueMark..]))
  }

  lemma KeyGrows(k: string, mark: int, c: char)
    requires KeyText(k) && CutsWhitespace(k, mark) && !IsNewline(c) && c != '=' && c != '\0'
    ensures KeyText(k + [c]) && CutsWhitespace(k + [c], Mark(mark, c, |k|))
  {
    assert (k + [c])[1..] == k[1..] + [c];
  }

  lemma KeyCut(k: string, mark: int)
    requires KeyText(k) && CutsWhitespace(k, mark)
    ensures GoodKey(Cut(k, mark))
  {
    if mark >= 0 {
      assert k[..mark][1..] <= k[1..];
    }
  }

  lemma PushOk(m: Machine, chomp: bool, valid: string -> bool)
    requires MachineOk(m, valid) && ReadingKey(m.state)
    ensures Push(m.(state := PreKey), chomp, valid).Some? ==> MachineOk(Push(m.(state := PreKey), chomp, valid).value, valid)
  {
    KeyCut(m.key, m.keyMark);
    hide KeyText, CutsWhitespace;
  }

  lemma KeyStepOk(m: Machine, c: char, valid: string -> bool)
    requires MachineOk(m, valid) && c != '\0' && m.state in {PreKey, Key, Comment, CommentEscape}
    ensures MachineOk(Step(m, c, valid).value, valid)
  {
    if m.state == Key && !IsNewline(c) && c != '=' {
      KeyGrows(m.key, m.keyMark, c);
    }
    hide GoodFields;
  }

  lemma ValueStepOk(m: Machine, c: char, valid: string -> bool)
    requires MachineOk(m, valid) && c != '\0' && ReadingKey(m.state) && m.state != Key
    ensures Step(m, c, valid).Some? ==> MachineOk(Step(m, c, valid).value, valid)
  {
    PushOk(m, m.state == Value, valid);
    hide GoodFields, KeyText, CutsWhitespace, Push;
    if m.state == Value && IsWhitespace(c) && m.valueMark >= 0 {
      var v := m.value + [c];
      assert v[m.valueMark..] == m.value[m.valueMark..] + [c];
    }
  }

  lemma StepOk(m: Machine, c: char, valid: string -> bool)
    requires MachineOk(m, valid) && c != '\0'
    ensures Step(m, c, valid).Some? ==> MachineOk(Step(m, c, valid).value, valid)
  {
    if ReadingKey(m.state) && m.state != Key {
      ValueStepOk(m, c, valid);
    } else {
      KeyStepOk(m, c, valid);
    }
  }

  lemma {:induction false} FeedOk(m: Machine, s: string, valid: string -> bool)
    requires MachineOk(m, valid) && '\0' !in s
    ensures Feed(m, s, valid).Some? ==> MachineOk(Feed(m, s, valid).value, valid)
    decreases |s|
  {
    if s != "" {
      StepOk(m, s[0], valid);
      var next := Step(m, s[0], valid);
      if next.Some? {
        FeedOk(next.value, s[1..], valid);
      }
    }
  }

  /** t without the whitespace it ends in. */
  function Chomped(t: string): (r: string)
    ensures r <= t && AllWhitespace(t[|r|..]) && (r == "" || !IsWhitespace(r[|r| - 1]))
  {
    if t == "" || !IsWhitespace(t[|t| - 1]) then t
    else
      var r := Chomped(t[..|t| - 1]);
      assert t[|r|..] == t[..|t| - 1][|r|..] + [t[|t| - 1]];
      r
  }

  /** The mark for a value of the given length after t. */
  function TailMark(length: nat, t: string): int {
    if Chomped(t) == t then -1 else length + |Chomped(t)|
  }

  /** The mark of a value is where the unescaped text read last begins to be nothing but
      whitespace, and unset when that does not end in whitespace: the chomp takes off the
      whole of it, and nothing that was quoted or escaped. */
  lemma ValueTail(m: Machine, t: string, valid: string -> bool)
    requires m.state == Value && m.valueMark == -1
    requires forall i :: 0 <= i < |t| ==> !IsNewline(t[i]) && t[i] != '\\'
    ensures Feed(m, t, valid) == Some(m.(value := m.value + t, valueMark := TailMark(|m.value|, t)))
    ensures Cut(m.value + t, TailMark(|m.value|, t)) == m.value + Chomped(t)
  {
    ValueFed(m, t, valid);
    hide Feed, Step;
    assert (m.value + t)[..|m.value| + |Chomped(t)|] == m.value + Chomped(t);
  }

  lemma {:induction false} ValueFed(m: Machine, t: string, valid: string -> bool)
    requires m.state == Value && m.valueMark == -1
    requires forall i :: 0 <= i < |t| ==> !IsNewline(t[i]) && t[i] != '\\'
    ensures Feed(m, t, valid) == Some(m.(value := m.value + t, valueMark := TailMark(|m.value|, t)))
    decreases |t|
  {
    if t == "" {
      assert m.value + t == m.value;
    } else {
      hide Feed, Step, Chomped, IsNewline;
      var init, c := t[..|t| - 1], t[|t| - 1];
      ValueFed(m, init, valid);
      var mid := m.(value := m.value + init, valueMark := TailMark(|m.value|, init));
      FeedSum(m, init, [c], valid);
      FeedOne(mid, c, valid);
      StepValue(mid, c, valid);
      assert init + [c] == t && m.value + init + [c] == m.value + t;
      ChompedOne(init, c);
    }
  }

  lemma StepValue(m: Machine, c: char, valid: string -> bool)
    requires m.state == Value && !IsNewline(c) && c != '\\'
    ensures Step(m, c, valid) == Some(m.(valueMark := Mark(m.valueMark, c, |m.value|), value := m.value + [c]))
  {
  }

  lemma ChompedOne(t: string, c: char)
    ensures Chomped(t + [c]) == if IsWhitespace(c) then Chomped(t) else t + [c]
  {
    assert (t + [c])[..|t|] == t;
  }

  /** Every recorded key is a text between line starts and '=' without surrounding
      whitespace, and no key or value holds a NUL. */
  lemma ParsedGood(content: string, valid: string -> bool)
    ensures Parsed(content, valid).Some? ==> GoodFields(Parsed(content, valid).value, valid)
  {
    FeedOk(Start(map[]), CutNul(content), valid);
    var m := Feed(Start(map[]), CutNul(content), valid);
    if m.Some? && ReadingKey(m.value.state) {
      KeyCut(m.value.key, m.value.keyMark);
    }
  }

  // ----- serializing

  function Quoted(v: string): string {
    if v == "" then "" else (if NeedsEscape(v[0]) then ['\\', v[0]] else [v[0]]) + Quoted(v[1..])
  }

  function Line(k: string, v: string): string {
    k + "=\"" + Quoted(v) + "\"\n"
  }

  /** One line a key, in the order of keys. */
  function Serialized(keys: seq<string>, f: Fields): string
    requires forall i :: 0 <= i < |keys| ==> keys[i] in f
  {
    if keys == [] then "" else Line(keys[0], f[keys[0]]) + Serialized(keys[1..], f)
  }

  lemma {:induction false} FeedSum(m: Machine, a: string, b: string, valid: string -> bool)
    ensures Feed(m, a + b, valid) == var n := Feed(m, a, valid); if n.None? then None else Feed(n.value, b, valid)
    decreases |a|
  {
    if a == "" {
      assert a + b == b;
    } else {
      assert (a + b)[1..] == a[1..] + b;
      var next := Step(m, a[0], valid);
      if next.Some? {
        FeedSum(next.value, a[1..], b, valid);
      }
    }
  }

  /** The mark after reading the key k. */
  function KeyMark(k: string): int {
    if k == "" then -1 else Mark(KeyMark(k[..|k| - 1]), k[|k| - 1], |k| - 1)
  }

  lemma {:induction false} FeedKey(k: string, n: nat, f: Fields, valid: string -> bool)
    requires KeyText(k) && 1 <= n <= |k|
    ensures Feed(Start(f), k[..n], valid) == Some(Machine(Key, k[..n], "", KeyMark(k[..n]), -1, f))
  {
    if n == 1 {
      assert k[..1] == [k[0]] && k[..1][..0] == "" && "" + [k[0]] == [k[0]];
      FeedOne(Start(f), k[0], valid);
    } else {
      FeedKey(k, n - 1, f, valid);
      var m := Machine(Key, k[..n - 1], "", KeyMark(k[..n - 1]), -1, f);
      var c := k[n - 1];
      assert k[..n] == k[..n - 1] + [c] && k[..n][..n - 1] == k[..n - 1];
      assert c == k[1..][n - 2] && c in k;
      FeedSum(Start(f), k[..n - 1], [c], valid);
      FeedOne(m, c, valid);
    }
  }

  lemma FeedOne(m: Machine, c: char, valid: string -> bool)
    ensures Feed(m, [c], valid) == Step(m, c, valid)
  {
    assert [c][1..] == "";
  }

  lemma {:induction false} FeedQuoted(m: Machine, v: string, valid: string -> bool)
    requires m.state == DoubleQuote
    ensures Feed(m, Quoted(v), valid) == Some(m.(value := m.value + v))
    decreases |v|
  {
    var q := Quoted(v);
    if v == "" {
      assert m.value + v == m.value;
    } else {
      var next := m.(value := m.value + [v[0]]);
      FeedQuoted(next, v[1..], valid);
      assert m.value + [v[0]] + v[1..] == m.value + v;
      if NeedsEscape(v[0]) {
        assert q == ['\\', v[0]] + Quoted(v[1..]);
        assert q[1..] == [v[0]] + Quoted(v[1..]) && q[1..][1..] == Quoted(v[1..]);
        assert Step(m, '\\', valid) == Some(m.(state := DoubleQuoteEscape));
        assert Step(m.(state := DoubleQuoteEscape), v[0], valid) == Some(next);
      } else {
        assert q == [v[0]] + Quoted(v[1..]) && q[1..] == Quoted(v[1..]);
        assert Step(m, v[0], valid) == Some(next);
      }
    }
  }

  /** A serialized line is read as the assignment it was made from. */
  lemma FeedLine(k: string, v: string, f: Fields, valid: string -> bool)
    requires GoodKey(k) && valid(k) && valid(v)
    ensures Feed(Start(f), Line(k, v), valid) == Some(Start(f[k := v]))
  {
    hide Feed;
    FeedKey(k, |k|, f, valid);
    assert k[..|k|] == k && KeyMark(k) == -1;
    var m1 := Machine(Key, k, "", -1, -1, f);
    var m2, m3 := m1.(state := PreValue), m1.(state := DoubleQuote);
    var m4, m5 := m3.(value := v), m2.(value := v);
    FeedSum(Start(f), k, "=\"" + Quoted(v) + "\"\n", valid);
    FeedSum(m1, "=", "\"" + (Quoted(v) + "\"\n"), valid);
    FeedOne(m1, '=', valid);
    FeedSum(m2, "\"", Quoted(v) + "\"\n", valid);
    FeedOne(m2, '"', valid);
    FeedSum(m3, Quoted(v), "\"\n", valid);
    FeedQuoted(m3, v, valid);
    assert "" + v == v;
    FeedSum(m4, "\"", "\n", valid);
    FeedOne(m4, '"', valid);
    FeedOne(m5, '\n', valid);
    assert k + "=\"" + Quoted(v) + "\"\n" == k + ("=\"" + Quoted(v) + "\"\n");
    assert "=\"" + Quoted(v) + "\"\n" == "=" + ("\"" + (Quoted(v) + "\"\n"));
    assert "\"" + "\n" == "\"\n";
  }

  function Assigned(keys: seq<string>, f: Fields, into: Fields): Fields
    requires forall i :: 0 <= i < |keys| ==> keys[i] in f
  {
    if keys == [] then into else Assigned(keys[1..], f, into[keys[0] := f[keys[0]]])
  }

  lemma {:induction false} FeedSerialized(keys: seq<string>, f: Fields, into: Fields, valid: string -> bool)
    requires GoodFields(f, valid) && forall i :: 0 <= i < |keys| ==> keys[i] in f
    ensures Feed(Start(into), Serialized(keys, f), valid) == Some(Start(Assigned(keys, f, into)))
    decreases |keys|
  {
    if keys != [] {
      FeedLine(keys[0], f[keys[0]], into, valid);
      FeedSum(Start(into), Line(keys[0], f[keys[0]]), Serialized(keys[1..], f), valid);
      FeedSerialized(keys[1..], f, into[keys[0] := f[keys[0]]], valid);
    }
  }

  lemma {:induction false} AssignedIs(keys: seq<string>, f: Fields, into: Fields)
    requires forall i :: 0 <= i < |keys| ==> keys[i] in f
    requires forall k :: k in into ==> k in f && into[k] == f[k]
    ensures forall k :: k in Assigned(keys, f, into) <==> k in keys || k in into
    ensures forall k :: k in Assigned(keys, f, into) ==> k in f && Assigned(keys, f, into)[k] == f[k]
    decreases |keys|
  {
    if keys != [] {
      AssignedIs(keys[1..], f, into[keys[0] := f[keys[0]]]);
      assert keys == [keys[0]] + keys[1..];
    }
  }

  lemma {:induction false} NoNul(keys: seq<string>, f: Fields, valid: string -> bool)
    requires GoodFields(f, valid) && forall i :: 0 <= i < |keys| ==> keys[i] in f
    ensures '\0' !in Serialized(keys, f)
    decreases |keys|
  {
    if keys != [] {
      NoNul(keys[1..], f, valid);
      QuotedNoNul(f[keys[0]]);
      assert GoodKey(keys[0]);
    }
  }

  lemma {:induction false} QuotedNoNul(v: string)
    requires '\0' !in v
    ensures '\0' !in Quoted(v)
  {
    if v != "" {
      QuotedNoNul(v[1..]);
    }
  }

  /** Whatever the parser accepts, serializing the fields, in any order of the keys,
      and parsing them again gives the same fields. */
  lemma ParseSerializeParse(content: string, keys: seq<string>, valid: string -> bool)
    requires Parsed(content, valid).Some?
    requires forall k :: k in keys <==> k in Parsed(content, valid).value
    ensures Parsed(Serialized(keys, Parsed(content, valid).value), valid) == Parsed(content, valid)
  {
    var f := Parsed(content, valid).value;
    ParsedGood(content, valid);
    NoNul(keys, f, valid);
    FeedSerialized(keys, f, map[], valid);
    AssignedIs(keys, f, map[]);
    assert Assigned(keys, f, map[]) == f;
  }
}
