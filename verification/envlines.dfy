/** What the lines of an os-release file mean (internal/release/envfile.go:39-48): a
    grammar of files, and that the parser gives each its meaning. */
module EnvLines {
  import opened Maybe
  import opened Text
  import opened EnvFile

  // ----- the grammar

  /** An unquoted character, one behind a backslash, or a continued line. */
  datatype Item = Plain(c: char) | Escaped(c: char) | Continued(newline: char)

  /** Between double quotes a backslash is dropped before a character that needs one and
      before a newline, and kept before any other. */
  datatype Inner = Bare(c: char) | Protected(c: char) | Kept(c: char) | Joined

  datatype Piece = Blank(c: char) | Single(text: string) | Double(inner: seq<Inner>)

  /** The text behind the '=': quoted pieces and blanks, then unquoted text. */
  datatype Right = Right(pieces: seq<Piece>, items: seq<Item>)

  datatype Line =
    | Empty(blanks: string)
    | Remark(blanks: string, mark: char, text: string)
    | Stray(blanks: string, text: string) // no '='
    | Assignment(blanks: string, key: string, pad: string, value: Right)

  predicate Blanks(s: string) {
    forall i :: 0 <= i < |s| ==> IsWhitespace(s[i]) && !IsNewline(s[i])
  }

  predicate OneLine(s: string) {
    forall i :: 0 <= i < |s| ==> !IsNewline(s[i])
  }

  predicate ItemOk(i: Item) {
    match i
    case Plain(c) => !IsNewline(c) && c != '\\'
    case Escaped(c) => !IsNewline(c)
    case Continued(n) => IsNewline(n)
  }

  predicate InnerOk(i: Inner) {
    match i
    case Bare(c) => c != '"' && c != '\\'
    case Protected(c) => NeedsEscape(c)
    case Kept(c) => !NeedsEscape(c) && c != '\n'
    case Joined => true
  }

  predicate PieceOk(p: Piece) {
    match p
    case Blank(c) => IsWhitespace(c) && !IsNewline(c)
    case Single(t) => '\'' !in t
    case Double(s) => forall i :: i in s ==> InnerOk(i)
  }

  /** Unquoted text does not begin with a blank or a quote. */
  predicate ValueOk(v: Right) {
    && (forall p :: p in v.pieces ==> PieceOk(p))
    && (forall i :: i in v.items ==> ItemOk(i))
    && (v.items != [] && v.items[0].Plain? ==> !IsWhitespace(v.items[0].c) && v.items[0].c != '\'' && v.items[0].c != '"')
  }

  predicate LineOk(l: Line) {
    match l
    case Empty(b) => Blanks(b)
    case Remark(b, m, t) => Blanks(b) && IsComment(m) && OneLine(t)
    case Stray(b, t) => Blanks(b) && KeyText(t) && '=' !in t
    case Assignment(b, k, pad, v) => Blanks(b) && GoodKey(k) && Blanks(pad) && ValueOk(v)
  }

  // ----- texts and meanings

  function ItemText(i: Item): string {
    match i
    case Plain(c) => [c]
    case Escaped(c) => ['\\', c]
    case Continued(n) => ['\\', n]
  }

  function ItemsText(items: seq<Item>): string {
    if items == [] then "" else ItemsText(items[..|items| - 1]) + ItemText(items[|items| - 1])
  }

  function ItemsValue(items: seq<Item>): string {
    if items == [] then ""
    else
      var last := items[|items| - 1];
      ItemsValue(items[..|items| - 1]) + if last.Continued? then "" else [last.c]
  }

  /** Blanks that are neither escaped nor quoted go at the end. */
  function Trimmed(items: seq<Item>): string {
    if items != [] && items[|items| - 1].Plain? && IsWhitespace(items[|items| - 1].c) then Trimmed(items[..|items| - 1])
    else ItemsValue(items)
  }

  function CharsOf(i: Inner): string {
    match i
    case Bare(c) => [c]
    case Protected(c) => ['\\', c]
    case Kept(c) => ['\\', c]
    case Joined => "\\\n"
  }

  function ValueOf(i: Inner): string {
    match i
    case Bare(c) => [c]
    case Protected(c) => [c]
    case Kept(c) => ['\\', c]
    case Joined => ""
  }

  function InnerText(s: seq<Inner>): string {
    if s == [] then "" else CharsOf(s[0]) + InnerText(s[1..])
  }

  function InnerValue(s: seq<Inner>): string {
    if s == [] then "" else ValueOf(s[0]) + InnerValue(s[1..])
  }

  function PieceText(p: Piece): string {
    match p
    case Blank(c) => [c]
    case Single(t) => "'" + t + "'"
    case Double(s) => "\"" + InnerText(s) + "\""
  }

  function PieceValue(p: Piece): string {
    match p
    case Blank(_) => ""
    case Single(t) => t
    case Double(s) => InnerValue(s)
  }

  function PiecesText(ps: seq<Piece>): string {
    if ps == [] then "" else PieceText(ps[0]) + PiecesText(ps[1..])
  }

  function PiecesValue(ps: seq<Piece>): string {
    if ps == [] then "" else PieceValue(ps[0]) + PiecesValue(ps[1..])
  }

  function Meaning(v: Right): string {
    PiecesValue(v.pieces) + Trimmed(v.items)
  }

  /** The line without the newline that ends it. */
  function LineText(l: Line): string {
    match l
    case Empty(b) => b
    case Remark(b, m, t) => b + ([m] + t)
    case Stray(b, t) => b + t
    case Assignment(b, k, pad, v) => b + (k + pad + ("=" + (PiecesText(v.pieces) + ItemsText(v.items))))
  }

  /** The lines, each ended by a newline or a carriage return. */
  function FileText(lines: seq<Line>, end: char): string {
    if lines == [] then "" else LineText(lines[0]) + [end] + FileText(lines[1..], end)
  }

  /** The fields after the lines; None when a key or value is not valid text. */
  function Fold(f: Fields, lines: seq<Line>, valid: string -> bool): Option<Fields>
    decreases |lines|
  {
    if lines == [] then Some(f)
    else
      match lines[0]
      case Assignment(_, k, _, v) =>
        if valid(k) && valid(Meaning(v)) then Fold(f[k := Meaning(v)], lines[1..], valid) else None
      case _ => Fold(f, lines[1..], valid)
  }

  // ----- reading

  /** Between two lines. */
  predicate Between(m: Machine, f: Fields) {
    m.state == PreKey && m.key == "" && m.value == "" && m.fields == f
  }

  lemma FeedTwo(m: Machine, a: char, b: char, valid: string -> bool)
    ensures Feed(m, [a, b], valid) == var n := Step(m, a, valid); if n.None? then None else Step(n.value, b, valid)
  {
    hide Step;
    FeedSum(m, [a], [b], valid);
    FeedOne(m, a, valid);
    assert [a] + [b] == [a, b];
    var n := Step(m, a, valid);
    if n.Some? {
      FeedOne(n.value, b, valid);
    }
  }

  lemma Assoc(a: string, b: string, c: string)
    ensures a + b + c == a + (b + c)
  {
  }

  /** Two parts of a text, each read from one machine to the next. */
  lemma FeedBoth(m: Machine, a: string, n: Machine, b: string, valid: string -> bool)
    requires Feed(m, a, valid) == Some(n)
    ensures Feed(m, a + b, valid) == Feed(n, b, valid)
  {
    FeedSum(m, a, b, valid);
  }

  lemma InnerOne(m: Machine, i: Inner, valid: string -> bool)
    requires m.state == DoubleQuote && InnerOk(i)
    ensures Feed(m, CharsOf(i), valid) == Some(m.(value := m.value + ValueOf(i)))
  {
    hide Feed;
    match i
    case Bare(c) =>
      FeedOne(m, c, valid);
    case Protected(c) =>
      FeedTwo(m, '\\', c, valid);
    case Kept(c) =>
      FeedTwo(m, '\\', c, valid);
    case Joined =>
      FeedTwo(m, '\\', '\n', valid);
      assert "\\\n" == ['\\', '\n'] && m.value + "" == m.value;
  }

  lemma {:induction false} FeedInner(m: Machine, s: seq<Inner>, valid: string -> bool)
    requires m.state == DoubleQuote && forall i :: i in s ==> InnerOk(i)
    ensures Feed(m, InnerText(s), valid) == Some(m.(value := m.value + InnerValue(s)))
    decreases |s|
  {
    if s == [] {
      assert m.value + "" == m.value;
    } else {
      hide Feed, CharsOf, ValueOf, InnerOk;
      var next := m.(value := m.value + ValueOf(s[0]));
      InnerOne(m, s[0], valid);
      FeedInner(next, s[1..], valid);
      FeedBoth(m, CharsOf(s[0]), next, InnerText(s[1..]), valid);
      Assoc(m.value, ValueOf(s[0]), InnerValue(s[1..]));
    }
  }

  lemma {:induction false} FeedSingle(m: Machine, t: string, valid: string -> bool)
    requires m.state == SingleQuote && '\'' !in t
    ensures Feed(m, t, valid) == Some(m.(value := m.value + t))
    decreases |t|
  {
    if t == "" {
      assert m.value + "" == m.value;
    } else {
      FeedSingle(m.(value := m.value + [t[0]]), t[1..], valid);
      assert m.value + [t[0]] + t[1..] == m.value + t;
    }
  }

  /** A quoted piece adds its value, and a blank nothing. */
  lemma FeedPiece(m: Machine, p: Piece, valid: string -> bool)
    requires m.state == PreValue && PieceOk(p)
    ensures Feed(m, PieceText(p), valid) == Some(m.(value := m.value + PieceValue(p)))
  {
    hide Feed, InnerText, InnerValue, InnerOk;
    match p
    case Blank(c) =>
      FeedOne(m, c, valid);
      assert m.value + "" == m.value;
    case Single(t) =>
      var n := m.(state := SingleQuote);
      var o := n.(value := m.value + t);
      FeedOne(m, '\'', valid);
      FeedSingle(n, t, valid);
      FeedOne(o, '\'', valid);
      FeedBoth(m, "'", n, t, valid);
      FeedBoth(m, "'" + t, o, "'", valid);
    case Double(s) =>
      var n := m.(state := DoubleQuote);
      var o := n.(value := m.value + InnerValue(s));
      FeedOne(m, '"', valid);
      FeedInner(n, s, valid);
      FeedOne(o, '"', valid);
      FeedBoth(m, "\"", n, InnerText(s), valid);
      FeedBoth(m, "\"" + InnerText(s), o, "\"", valid);
  }

  lemma {:induction false} FeedPieces(m: Machine, ps: seq<Piece>, valid: string -> bool)
    requires m.state == PreValue && forall p :: p in ps ==> PieceOk(p)
    ensures Feed(m, PiecesText(ps), valid) == Some(m.(value := m.value + PiecesValue(ps)))
    decreases |ps|
  {
    if ps == [] {
      assert m.value + "" == m.value;
    } else {
      hide Feed, PieceText, PieceValue, PieceOk;
      var next := m.(value := m.value + PieceValue(ps[0]));
      FeedPiece(m, ps[0], valid);
      FeedPieces(next, ps[1..], valid);
      FeedBoth(m, PieceText(ps[0]), next, PiecesText(ps[1..]), valid);
      Assoc(m.value, PieceValue(ps[0]), PiecesValue(ps[1..]));
    }
  }

  // ----- unquoted text

  /** The mark after items read from a value of this length on. */
  function MarkAfter(length: nat, items: seq<Item>): int {
    if items == [] then -1
    else
      var init, last := items[..|items| - 1], items[|items| - 1];
      if last.Plain? then Mark(MarkAfter(length, init), last.c, length + |ItemsValue(init)|) else -1
  }

  lemma FeedItem(m: Machine, i: Item, valid: string -> bool)
    requires m.state == EnvFile.Value && ItemOk(i)
    ensures Feed(m, ItemText(i), valid) ==
            Some(m.(value := m.value + if i.Continued? then "" else [i.c],
                    valueMark := if i.Plain? then Mark(m.valueMark, i.c, |m.value|) else -1))
  {
    hide Feed;
    match i
    case Plain(c) =>
      FeedOne(m, c, valid);
    case Escaped(c) =>
      FeedTwo(m, '\\', c, valid);
    case Continued(n) =>
      FeedTwo(m, '\\', n, valid);
      assert m.value + "" == m.value;
  }

  lemma {:induction false} FeedItems(m: Machine, items: seq<Item>, valid: string -> bool)
    requires m.state == EnvFile.Value && m.valueMark == -1 && forall i :: i in items ==> ItemOk(i)
    ensures Feed(m, ItemsText(items), valid) ==
            Some(m.(value := m.value + ItemsValue(items), valueMark := MarkAfter(|m.value|, items)))
    decreases |items|
  {
    if items == [] {
      assert m.value + "" == m.value;
    } else {
      hide Feed, ItemText, ItemOk, Mark;
      var init, last := items[..|items| - 1], items[|items| - 1];
      var next := m.(value := m.value + ItemsValue(init), valueMark := MarkAfter(|m.value|, init));
      FeedItems(m, init, valid);
      FeedItem(next, last, valid);
      FeedBoth(m, ItemsText(init), next, ItemText(last), valid);
      Assoc(m.value, ItemsValue(init), if last.Continued? then "" else [last.c]);
    }
  }

  /** The mark cuts off the blanks at the end. */
  lemma {:induction false} MarkTrims(value: string, items: seq<Item>)
    ensures Cut(value + ItemsValue(items), MarkAfter(|value|, items)) == value + Trimmed(items)
    ensures MarkAfter(|value|, items) < 0 ==> Trimmed(items) == ItemsValue(items)
    ensures MarkAfter(|value|, items) >= 0 ==> MarkAfter(|value|, items) == |value| + |Trimmed(items)| && Trimmed(items) <= ItemsValue(items)
  {
    if items != [] {
      MarkTrims(value, items[..|items| - 1]);
    }
  }

  /** Unquoted text begins the value: its first character is no blank and no quote. */
  lemma FeedFirst(m: Machine, items: seq<Item>, valid: string -> bool)
    requires m.state == PreValue && m.valueMark == -1 && items != [] && (forall i :: i in items ==> ItemOk(i))
    requires items[0].Plain? ==> !IsWhitespace(items[0].c) && items[0].c != '\'' && items[0].c != '"'
    ensures Feed(m, ItemsText(items), valid) == Feed(m.(state := EnvFile.Value), ItemsText(items), valid)
  {
    FirstText(items);
    var s := ItemsText(items);
    var n := m.(state := EnvFile.Value);
    assert ItemOk(items[0]);
    assert Step(m, s[0], valid) == Step(n, s[0], valid);
  }

  lemma {:induction false} FirstText(items: seq<Item>)
    requires items != []
    ensures ItemsText(items) != "" && ItemsText(items)[0] == ItemText(items[0])[0]
  {
    if |items| > 1 {
      FirstText(items[..|items| - 1]);
    } else {
      assert items[..0] == [];
    }
  }

  // ----- lines

  lemma {:induction false} FeedBlanks(m: Machine, b: string, valid: string -> bool)
    requires m.state == PreKey && Blanks(b)
    ensures Feed(m, b, valid) == Some(m)
    decreases |b|
  {
    if b != "" {
      FeedBlanks(m, b[1..], valid);
    }
  }

  lemma {:induction false} FeedKeyText(m: Machine, t: string, n: nat, valid: string -> bool)
    requires m.state == PreKey && m.key == "" && KeyText(t) && '=' !in t[1..] && 1 <= n <= |t|
    ensures Feed(m, t[..n], valid) == Some(m.(state := Key, key := t[..n], keyMark := KeyMark(t[..n])))
  {
    var c := t[n - 1];
    if n == 1 {
      assert t[..1] == [t[0]] && t[..1][..0] == "" && "" + [t[0]] == [t[0]];
      FeedOne(m, t[0], valid);
    } else {
      FeedKeyText(m, t, n - 1, valid);
      hide Feed;
      var mid := m.(state := Key, key := t[..n - 1], keyMark := KeyMark(t[..n - 1]));
      assert t[..n] == t[..n - 1] + [c] && t[..n][..n - 1] == t[..n - 1];
      assert c == t[1..][n - 2] && c in t;
      FeedOne(mid, c, valid);
      FeedBoth(m, t[..n - 1], mid, [c], valid);
    }
  }

  lemma {:induction false} PaddedKey(k: string, pad: string)
    requires GoodKey(k) && Blanks(pad)
    ensures KeyText(k + pad) && Cut(k + pad, KeyMark(k + pad)) == k
    ensures KeyMark(k + pad) == if pad == "" then -1 else |k|
    decreases |pad|
  {
    if pad == "" {
      assert k + pad == k;
      PlainKey(k);
    } else {
      var init, s := pad[..|pad| - 1], k + pad;
      PaddedKey(k, init);
      hide KeyText, GoodKey, Blanks;
      var c := pad[|pad| - 1];
      assert s[..|s| - 1] == k + init && s[|s| - 1] == c;
      assert s == (k + init) + [c];
      assert s[..|k|] == k;
      BlankLast(pad);
      KeyLonger(k + init, c);
    }
  }

  lemma BlankLast(pad: string)
    requires Blanks(pad) && pad != ""
    ensures Blanks(pad[..|pad| - 1])
    ensures var c := pad[|pad| - 1]; IsWhitespace(c) && !IsNewline(c)
  {
  }

  lemma PlainKey(k: string)
    requires GoodKey(k)
    ensures KeyText(k) && KeyMark(k) == -1
  {
  }

  lemma KeyLonger(k: string, c: char)
    requires KeyText(k) && IsWhitespace(c) && !IsNewline(c)
    ensures KeyText(k + [c])
  {
    assert (k + [c])[1..] == k[1..] + [c];
  }

  /** What is behind the '=', up to the end of the line or of the file. */
  lemma FeedValue(m: Machine, v: Right, valid: string -> bool)
    requires m.state == PreValue && m.valueMark == -1 && m.value == "" && ValueOk(v)
    ensures var r := Feed(m, PiecesText(v.pieces) + ItemsText(v.items), valid);
            && r.Some? && r.value.key == m.key && r.value.keyMark == m.keyMark && r.value.fields == m.fields
            && r.value.state in {PreValue, EnvFile.Value}
            && (if r.value.state == EnvFile.Value then Cut(r.value.value, r.value.valueMark) else r.value.value) == Meaning(v)
  {
    hide Feed, PiecesText, PiecesValue, ItemsText;
    FeedPieces(m, v.pieces, valid);
    assert "" + PiecesValue(v.pieces) == PiecesValue(v.pieces);
    var mid := m.(value := PiecesValue(v.pieces));
    FeedBoth(m, PiecesText(v.pieces), mid, ItemsText(v.items), valid);
    if v.items == [] {
      FeedNothing(mid, "", valid);
      assert ItemsText([]) == "" by {
        NoItems();
      }
      assert Meaning(v) == mid.value + "" == mid.value;
    } else {
      FeedFirst(mid, v.items, valid);
      FeedItems(mid.(state := EnvFile.Value), v.items, valid);
      MarkTrims(mid.value, v.items);
    }
  }

  lemma NoItems()
    ensures ItemsText([]) == ""
  {
  }

  /** The machine has read an assignment but not the end of its line. */
  ghost predicate Assigning(m: Machine, f: Fields, k: string, v: string) {
    && m.fields == f && m.state in {PreValue, EnvFile.Value} && Cut(m.key, m.keyMark) == k
    && (if m.state == EnvFile.Value then Cut(m.value, m.valueMark) else m.value) == v
  }

  lemma FeedAssignment(m: Machine, f: Fields, l: Line, valid: string -> bool)
    requires Between(m, f) && LineOk(l) && l.Assignment?
    ensures var r := Feed(m, LineText(l), valid); r.Some? && Assigning(r.value, f, l.key, Meaning(l.value))
  {
    hide Feed, PiecesText, ItemsText, Meaning, ValueOk, GoodKey, KeyText, KeyMark;
    var text := PiecesText(l.value.pieces) + ItemsText(l.value.items);
    var kp := l.key + l.pad;
    PaddedKey(l.key, l.pad);
    PaddedSize(l.key, l.pad);
    FeedBlanks(m, l.blanks, valid);
    FeedBoth(m, l.blanks, m, kp + ("=" + text), valid);
    FeedKeyText(m, kp, |kp|, valid);
    assert kp[..|kp|] == kp;
    var a := m.(state := Key, key := kp, keyMark := KeyMark(kp));
    FeedBoth(m, kp, a, "=" + text, valid);
    var b := a.(state := PreValue, valueMark := -1);
    FeedOne(a, '=', valid);
    FeedBoth(a, "=", b, text, valid);
    FeedValue(b, l.value, valid);
  }

  lemma PaddedSize(k: string, pad: string)
    requires GoodKey(k) && KeyText(k + pad)
    ensures |k + pad| >= 1 && '=' !in (k + pad)[1..]
  {
  }

  /** A newline ends an assignment, and so does the end of the file. */
  lemma AssignmentEnds(m: Machine, f: Fields, k: string, v: string, end: char, valid: string -> bool)
    requires Assigning(m, f, k, v) && end in {'\n', '\r'}
    ensures var r := Feed(m, [end], valid);
            if valid(k) && valid(v) then r.Some? && Between(r.value, f[k := v]) else r.None?
    ensures Finish(m, valid) == if valid(k) && valid(v) then Some(f[k := v]) else None
  {
    FeedOne(m, end, valid);
  }

  lemma {:induction false} FeedRemark(m: Machine, t: string, valid: string -> bool)
    requires m.state in {Comment, CommentEscape} && OneLine(t)
    ensures var r := Feed(m, t, valid);
            r.Some? && r.value.state in {Comment, CommentEscape} && r.value == m.(state := r.value.state)
    decreases |t|
  {
    if t != "" {
      FeedRemark(Step(m, t[0], valid).value, t[1..], valid);
    }
  }

  /** A line that assigns nothing, read up to its end. */
  lemma FeedOther(m: Machine, f: Fields, l: Line, valid: string -> bool)
    requires Between(m, f) && LineOk(l) && !l.Assignment?
    ensures var r := Feed(m, LineText(l), valid);
            r.Some? && r.value.fields == f && r.value.value == "" && !ReadingValue(r.value.state) && (r.value.state != Key ==> r.value.key == "")
  {
    hide Feed;
    FeedBlanks(m, l.blanks, valid);
    match l
    case Empty(b) =>
    case Remark(b, c, t) =>
      FeedBoth(m, b, m, [c] + t, valid);
      var n := m.(state := Comment);
      FeedOne(m, c, valid);
      FeedBoth(m, [c], n, t, valid);
      FeedRemark(n, t, valid);
    case Stray(b, t) =>
      FeedBoth(m, b, m, t, valid);
      FeedKeyText(m, t, |t|, valid);
      assert t[..|t|] == t;
  }

  predicate ReadingValue(s: State) {
    s != PreKey && s != Key && s != Comment && s != CommentEscape
  }

  /** What one line, ended, does to the fields. */
  lemma LineReads(m: Machine, f: Fields, l: Line, end: char, valid: string -> bool)
    requires Between(m, f) && LineOk(l) && end in {'\n', '\r'}
    ensures var r, g := Feed(m, LineText(l) + [end], valid), Fold(f, [l], valid);
            if g.Some? then r.Some? && Between(r.value, g.value) else r.None?
    ensures var r := Feed(m, LineText(l), valid); r.Some? && Finish(r.value, valid) == Fold(f, [l], valid)
  {
    assert [l][1..] == [];
    hide LineText, Meaning;
    if l.Assignment? {
      FeedAssignment(m, f, l, valid);
      var n := Feed(m, LineText(l), valid).value;
      FeedBoth(m, LineText(l), n, [end], valid);
      AssignmentEnds(n, f, l.key, Meaning(l.value), end, valid);
    } else {
      FeedOther(m, f, l, valid);
      var n := Feed(m, LineText(l), valid).value;
      FeedBoth(m, LineText(l), n, [end], valid);
      FeedOne(n, end, valid);
    }
    hide Feed;
  }

  lemma {:induction false} FoldMore(f: Fields, lines: seq<Line>, more: seq<Line>, valid: string -> bool)
    ensures Fold(f, lines + more, valid) == var g := Fold(f, lines, valid); if g.None? then None else Fold(g.value, more, valid)
    decreases |lines|
  {
    if lines == [] {
      assert lines + more == more;
    } else {
      assert (lines + more)[1..] == lines[1..] + more;
      match lines[0]
      case Assignment(_, k, _, v) =>
        FoldMore(f[k := Meaning(v)], lines[1..], more, valid);
      case _ =>
        FoldMore(f, lines[1..], more, valid);
    }
  }

  lemma {:induction false} LinesRead(m: Machine, f: Fields, lines: seq<Line>, end: char, valid: string -> bool)
    requires Between(m, f) && end in {'\n', '\r'} && forall l :: l in lines ==> LineOk(l)
    ensures var r, g := Feed(m, FileText(lines, end), valid), Fold(f, lines, valid);
            if g.Some? then r.Some? && Between(r.value, g.value) else r.None?
    decreases |lines|
  {
    if lines != [] {
      var text := LineText(lines[0]) + [end];
      LineReads(m, f, lines[0], end, valid);
      FoldMore(f, [lines[0]], lines[1..], valid);
      assert [lines[0]] + lines[1..] == lines;
      FeedSum(m, text, FileText(lines[1..], end), valid);
      hide Feed, Fold, LineOk, LineText;
      var r := Feed(m, text, valid);
      if r.Some? {
        LinesRead(r.value, Fold(f, [lines[0]], valid).value, lines[1..], end, valid);
      }
    }
  }

  /** A file of such lines, ended or not, gives the fields its lines mean: the last
      assignment of a key wins, blanks around keys and values, comments and lines without
      '=' do not matter, and an invalid key or value fails the whole file. */
  lemma FileMeans(lines: seq<Line>, last: Line, end: char, valid: string -> bool)
    requires (forall l :: l in lines ==> LineOk(l)) && LineOk(last) && end in {'\n', '\r'} && '\0' !in FileText(lines, end) + LineText(last)
    ensures Parsed(FileText(lines, end) + LineText(last), valid) == Fold(map[], lines + [last], valid)
  {
    hide Feed, Fold, LineOk, LineText, FileText;
    var text := FileText(lines, end) + LineText(last);
    assert CutNul(text) == text;
    LinesRead(Start(map[]), map[], lines, end, valid);
    FoldMore(map[], lines, [last], valid);
    FeedSum(Start(map[]), FileText(lines, end), LineText(last), valid);
    var r := Feed(Start(map[]), FileText(lines, end), valid);
    if r.Some? {
      LineReads(r.value, Fold(map[], lines, valid).value, last, end, valid);
    }
  }

  // ----- in particular

  function PlainItems(v: string): seq<Item> {
    seq(|v|, i requires 0 <= i < |v| => Plain(v[i]))
  }

  lemma {:induction false} PlainText(v: string)
    ensures ItemsText(PlainItems(v)) == v && ItemsValue(PlainItems(v)) == v
  {
    if v != "" {
      var init := v[..|v| - 1];
      PlainText(init);
      assert PlainItems(v)[..|v| - 1] == PlainItems(init);
      assert v == init + [v[|v| - 1]];
    }
  }

  /** A file of one assignment. */
  lemma OneMeans(k: string, r: Right, text: string, valid: string -> bool)
    requires GoodKey(k) && ValueOk(r) && '\0' !in text && valid(k) && valid(Meaning(r))
    requires PiecesText(r.pieces) + ItemsText(r.items) == text
    ensures Parsed(k + "=" + text + "\n", valid) == Some(map[k := Meaning(r)])
  {
    hide Parsed, Meaning, PiecesText, ItemsText, GoodKey, ValueOk, FileText, LineText, LineOk, Fold;
    var l, last := Assignment("", k, "", r), Empty("");
    OneText(l);
    OneFold(l, last, valid);
    OneLineText(k, r, text);
    KeyNoNul(k);
    OneOk(k, r);
    FileMeans([l], last, '\n', valid);
  }

  lemma OneText(l: Line)
    ensures FileText([l], '\n') + LineText(Empty("")) == LineText(l) + "\n"
  {
    assert [l][1..] == [] && FileText([], '\n') == "";
    hide LineText, FileText;
    assert LineText(Empty("")) == "" by {
      EmptyText();
    }
    assert FileText([l], '\n') == LineText(l) + "\n" + "" by {
      FileOne(l);
    }
  }

  lemma EmptyText()
    ensures LineText(Empty("")) == ""
  {
  }

  lemma FileOne(l: Line)
    ensures FileText([l], '\n') == LineText(l) + "\n" + ""
  {
    assert [l][1..] == [] && FileText([], '\n') == "";
    hide LineText;
  }

  lemma OneFold(l: Line, last: Line, valid: string -> bool)
    requires l.Assignment? && last.Empty?
    ensures Fold(map[], [l] + [last], valid) == if valid(l.key) && valid(Meaning(l.value)) then Some(map[l.key := Meaning(l.value)]) else None
  {
    hide Meaning;
    var lines, f: Fields := [l] + [last], map[l.key := Meaning(l.value)];
    assert lines[1..] == [last] && [last][1..] == [];
    assert Fold(f, [last], valid) == Fold(f, [], valid) == Some(f);
    assert map[][l.key := Meaning(l.value)] == f;
  }

  lemma OneOk(k: string, r: Right)
    requires GoodKey(k) && ValueOk(r)
    ensures LineOk(Assignment("", k, "", r)) && LineOk(Empty(""))
  {
  }

  lemma OneLineText(k: string, r: Right, text: string)
    requires PiecesText(r.pieces) + ItemsText(r.items) == text
    ensures LineText(Assignment("", k, "", r)) == k + "=" + text
  {
    hide PiecesText, ItemsText;
    assert k + "" == k && "" + (k + ("=" + text)) == k + ("=" + text);
    Assoc(k, "=", text);
  }

  lemma KeyNoNul(k: string)
    requires GoodKey(k)
    ensures '\0' !in k
  {
  }

  /** An unquoted value is what stands between the blanks. */
  lemma UnquotedReads(k: string, before: string, v: string, after: string, valid: string -> bool)
    requires GoodKey(k) && valid(k) && valid(v) && Blanks(before) && Blanks(after)
    requires v != "" && '\0' !in v && '\\' !in v && OneLine(v)
    requires !IsWhitespace(v[0]) && v[0] != '\'' && v[0] != '"' && !IsWhitespace(v[|v| - 1])
    ensures Parsed(k + "=" + (before + (v + after)) + "\n", valid) == Some(map[k := v])
  {
    hide GoodKey, Parsed, ValueOk, Meaning, PiecesText, ItemsText, PiecesValue, ItemsValue, BlankPieces, PlainItems;
    var r := Right(BlankPieces(before), PlainItems(v + after));
    PlainText(v + after);
    BlankText(before);
    PlainOk(before, v, after);
    PlainMeans(before, v, after);
    OneMeans(k, r, before + (v + after), valid);
  }

  lemma PlainOk(before: string, v: string, after: string)
    requires Blanks(before) && Blanks(after) && v != "" && '\\' !in v && OneLine(v)
    requires !IsWhitespace(v[0]) && v[0] != '\'' && v[0] != '"'
    ensures ValueOk(Right(BlankPieces(before), PlainItems(v + after)))
  {
    var s := v + after;
    forall i: Item | i in PlainItems(s)
      ensures ItemOk(i)
    {
      var n :| 0 <= n < |s| && i == Plain(s[n]);
      assert s[n] == if n < |v| then v[n] else after[n - |v|];
    }
  }

  lemma PlainMeans(before: string, v: string, after: string)
    requires v != "" && !IsWhitespace(v[|v| - 1]) && Blanks(after)
    ensures Meaning(Right(BlankPieces(before), PlainItems(v + after))) == v
  {
    BlankText(before);
    BlanksTrimmed(v, after);
    hide PiecesValue, Trimmed;
    assert "" + v == v;
  }

  lemma {:induction false} BlanksTrimmed(v: string, after: string)
    requires v != "" && !IsWhitespace(v[|v| - 1]) && Blanks(after)
    ensures Trimmed(PlainItems(v + after)) == v
    decreases |after|
  {
    var s := v + after;
    if after == "" {
      assert s == v;
      PlainText(v);
    } else {
      var init := after[..|after| - 1];
      assert PlainItems(s)[..|s| - 1] == PlainItems(v + init);
      BlanksTrimmed(v, init);
    }
  }

  function BlankPieces(b: string): seq<Piece> {
    seq(|b|, i requires 0 <= i < |b| => Blank(b[i]))
  }

  lemma {:induction false} BlankText(b: string)
    ensures PiecesText(BlankPieces(b)) == b && PiecesValue(BlankPieces(b)) == ""
  {
    if b != "" {
      BlankText(b[1..]);
      assert BlankPieces(b)[1..] == BlankPieces(b[1..]);
      assert b == [b[0]] + b[1..];
    }
  }

  /** Between single quotes every character stands for itself. */
  lemma SingleQuotedReads(k: string, v: string, valid: string -> bool)
    requires GoodKey(k) && valid(k) && valid(v) && '\0' !in v && '\'' !in v
    ensures Parsed(k + "=" + ("'" + v + "'") + "\n", valid) == Some(map[k := v])
  {
    hide GoodKey, Parsed;
    var p, text := [Single(v)], "'" + v + "'";
    assert p[1..] == [];
    assert PiecesText(p) == text + "" == text && PiecesValue(p) == v + "" == v;
    assert Trimmed([]) == "" && ItemsText([]) == "";
    assert Meaning(Right(p, [])) == v + "" == v;
    assert text + "" == text;
    hide PiecesText, ItemsText, Meaning;
    OneMeans(k, Right(p, []), text, valid);
  }

  /** A backslash takes the meaning from the character behind it. */
  lemma EscapedReads(k: string, c: char, valid: string -> bool)
    requires GoodKey(k) && valid(k) && valid([c]) && c != '\0' && !IsNewline(c)
    ensures Parsed(k + "=" + ['\\', c] + "\n", valid) == Some(map[k := [c]])
  {
    hide GoodKey, Parsed;
    var items := [Escaped(c)];
    assert items[..0] == [];
    assert ItemsText(items) == "" + ['\\', c] == ['\\', c] && ItemsValue(items) == "" + [c] == [c];
    assert Meaning(Right([], items)) == "" + [c] == [c];
    assert "" + ['\\', c] == ['\\', c];
    hide PiecesText, ItemsText, Meaning;
    OneMeans(k, Right([], items), ['\\', c], valid);
  }
}
