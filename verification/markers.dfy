/** C-style escaping of internal/overlay/markers.go, with which the workdir of a merge
    is recorded on one line. Strings are bytes, written as characters below 256. */
module Markers {
  import opened Maybe

  predicate IsByte(c: char) {
    c as int < 256
  }

  ghost predicate Bytes(s: string) {
    forall i :: 0 <= i < |s| ==> IsByte(s[i])
  }

  function Chr(n: int): char
    requires 0 <= n < 256
  {
    n as char
  }

  function Code(c: char): int {
    c as int
  }

  // ----- cescape

  function Octal(c: char): string
    requires IsByte(c)
  {
    ['\\', Chr(48 + Code(c) / 64), Chr(48 + Code(c) / 8 % 8), Chr(48 + Code(c) % 8)]
  }

  function EscapeOne(c: char): string
    requires IsByte(c)
  {
    match Code(c)
    case 7 => "\\a"
    case 8 => "\\b"
    case 12 => "\\f"
    case 10 => "\\n"
    case 13 => "\\r"
    case 9 => "\\t"
    case 11 => "\\v"
    case 92 => "\\\\"
    case 34 => "\\\""
    case 39 => "\\'"
    case n => if n < 32 || n >= 127 then Octal(c) else [c]
  }

  function Escaped(s: string): string
    requires Bytes(s)
  {
    if s == "" then "" else EscapeOne(s[0]) + Escaped(s[1..])
  }

  lemma EscapedStep(s: string, i: nat)
    requires Bytes(s) && i < |s|
    ensures Bytes(s[i..]) && Bytes(s[i + 1..]) && Escaped(s[i..]) == EscapeOne(s[i]) + Escaped(s[i + 1..])
  {
    assert s[i..][1..] == s[i + 1..];
  }

  method Cescape(s: string) returns (r: string)
    requires Bytes(s)
    ensures r == Escaped(s)
  {
    hide Escaped, EscapeOne;
    r := "";
    assert s[0..] == s;
    for i := 0 to |s|
      invariant Bytes(s[i..]) && r + Escaped(s[i..]) == Escaped(s)
    {
      EscapedStep(s, i);
      r := r + EscapeOne(s[i]);
    }
    NothingLeft(s);
  }

  lemma NothingLeft(s: string)
    ensures s[|s|..] == "" && Escaped("") == "" && Unescaped(s[|s|..]) == Some("")
  {
  }

  // ----- cunescape

  function Digit(c: char): int {
    if '0' <= c <= '9' then Code(c) - Code('0')
    else if 'a' <= c <= 'f' then Code(c) - Code('a') + 10
    else if 'A' <= c <= 'F' then Code(c) - Code('A') + 10
    else 16
  }

  /** strconv.ParseUint in the given base, None for a character that is no digit. */
  function ParseUint(s: string, base: nat): (r: Option<nat>)
    requires s != ""
  {
    var d := Digit(s[|s| - 1]);
    if d >= base then None
    else if |s| == 1 then Some(d)
    else
      var high := ParseUint(s[..|s| - 1], base);
      if high.None? then None else Some(high.value * base + d)
  }

  predicate ValidRune(v: nat) {
    v < 0xD800 || 0xE000 <= v <= 0x10FFFF
  }

  /** The UTF-8 encoding of a rune. */
  function EncodeRune(v: nat): (r: string)
    requires ValidRune(v)
    ensures Bytes(r)
  {
    if v < 0x80 then [Chr(v)]
    else if v < 0x800 then [Chr(0xC0 + v / 64), Chr(0x80 + v % 64)]
    else if v < 0x10000 then [Chr(0xE0 + v / 4096), Chr(0x80 + v / 64 % 64), Chr(0x80 + v % 64)]
    else [Chr(0xF0 + v / 262144), Chr(0x80 + v / 4096 % 64), Chr(0x80 + v / 64 % 64), Chr(0x80 + v % 64)]
  }

  /** What the next character or escape of a string stands for, and its length. */
  datatype Piece = Bad | Piece(text: string, length: nat)

  /** A numeric escape: the digits of s[from..to]. */
  function Numeric(s: string, from: nat, to: nat, base: nat, rune: bool): (p: Piece)
    requires from < to
    ensures p.Piece? ==> 0 < p.length <= |s|
  {
    if to > |s| then Bad
    else
      var v := ParseUint(s[from..to], base);
      if v.None? || v.value == 0 then Bad
      else if rune then if ValidRune(v.value) then Piece(EncodeRune(v.value), to) else Bad
      else if v.value > 255 then Bad
      else Piece([Chr(v.value)], to)
  }

  function UnescapeOne(s: string): (p: Piece)
    requires s != ""
    ensures p.Piece? ==> 0 < p.length <= |s|
  {
    if s[0] != '\\' then Piece([s[0]], 1)
    else if |s| < 2 then Bad
    else
      match s[1]
      case 'a' => Piece([Chr(7)], 2)
      case 'b' => Piece([Chr(8)], 2)
      case 'f' => Piece([Chr(12)], 2)
      case 'n' => Piece([Chr(10)], 2)
      case 'r' => Piece([Chr(13)], 2)
      case 't' => Piece([Chr(9)], 2)
      case 'v' => Piece([Chr(11)], 2)
      case '\\' => Piece(['\\'], 2)
      case '"' => Piece(['"'], 2)
      case '\'' => Piece(['\''], 2)
      case 's' => Piece([' '], 2)
      case 'x' => Numeric(s, 2, 4, 16, false)
      case 'u' => Numeric(s, 2, 6, 16, true)
      case 'U' => Numeric(s, 2, 10, 16, true)
      case c => if '0' <= c <= '7' then Numeric(s, 1, 4, 8, false) else Bad
  }

  function Prepend(a: string, r: Option<string>): Option<string> {
    if r.None? then None else Some(a + r.value)
  }

  lemma PrependLaws(a: string, b: string, r: Option<string>)
    ensures Prepend("", r) == r
    ensures Prepend(a, Prepend(b, r)) == Prepend(a + b, r)
  {
    if r.Some? {
      assert "" + r.value == r.value && a + (b + r.value) == (a + b) + r.value;
    }
  }

  function Unescaped(s: string): Option<string> {
    if s == "" then Some("")
    else
      var p := UnescapeOne(s);
      if p.Bad? then None else Prepend(p.text, Unescaped(s[p.length..]))
  }

  lemma UnescapedStep(s: string, i: nat)
    requires i < |s|
    ensures var p := UnescapeOne(s[i..]);
            Unescaped(s[i..]) == if p.Bad? then None else Prepend(p.text, Unescaped(s[i + p.length..]))
  {
    var p := UnescapeOne(s[i..]);
    if p.Piece? {
      assert s[i..][p.length..] == s[i + p.length..];
    }
  }

  method Cunescape(s: string) returns (r: Option<string>)
    ensures r == Unescaped(s)
  {
    hide Unescaped, UnescapeOne;
    var b := "";
    var i := 0;
    assert s[0..] == s;
    PrependLaws("", "", Unescaped(s));
    while i < |s|
      invariant i <= |s| && Unescaped(s) == Prepend(b, Unescaped(s[i..]))
      decreases |s| - i
    {
      UnescapedStep(s, i);
      var p := UnescapeOne(s[i..]);
      if p.Bad? {
        return None;
      }
      PrependLaws(b, p.text, Unescaped(s[i + p.length..]));
      b := b + p.text;
      i := i + p.length;
    }
    NothingLeft(s);
    assert b + "" == b;
    r := Some(b);
  }

  // ----- the round trip

  lemma OctalValue(c: char)
    requires IsByte(c)
    ensures ParseUint(Octal(c)[1..4], 8) == Some(Code(c))
  {
    var s := Octal(c)[1..4];
    assert s[..2][..1] == s[..1] && |s[..2]| == 2;
    assert Digit(s[0]) == Code(c) / 64 && Digit(s[1]) == Code(c) / 8 % 8 && Digit(s[2]) == Code(c) % 8;
    assert s[..1][0] == s[0];
    assert ParseUint(s[..1], 8) == Some(Code(c) / 64);
    assert ParseUint(s[..2], 8) == Some(Code(c) / 64 * 8 + Code(c) / 8 % 8);
  }

  /** An escaped byte reads back as that byte, whatever follows; NUL does not. */
  lemma OneReadsBack(c: char, rest: string)
    requires IsByte(c)
    ensures UnescapeOne(EscapeOne(c) + rest) == if c == '\0' then Bad else Piece([c], |EscapeOne(c)|)
  {
    var s := EscapeOne(c) + rest;
    if EscapeOne(c) == Octal(c) {
      OctalValue(c);
      assert s[1..4] == Octal(c)[1..4];
    }
  }

  /** cunescape undoes cescape exactly for the strings without NUL; on any other it
      fails. */
  lemma {:induction false} RoundTrip(s: string)
    requires Bytes(s)
    ensures Unescaped(Escaped(s)) == if '\0' in s then None else Some(s)
  {
    if s != "" {
      var e, rest := EscapeOne(s[0]), Escaped(s[1..]);
      OneReadsBack(s[0], rest);
      RoundTrip(s[1..]);
      hide EscapeOne, UnescapeOne;
      assert (e + rest)[|e|..] == rest;
      assert s == [s[0]] + s[1..];
    }
  }

  predicate Printable(c: char) {
    32 <= Code(c) < 127
  }

  /** The escaped form is one line of printable characters. */
  lemma {:induction false} EscapedPrintable(s: string)
    requires Bytes(s)
    ensures forall i :: 0 <= i < |Escaped(s)| ==> Printable(Escaped(s)[i])
  {
    if s != "" {
      EscapedPrintable(s[1..]);
      OnePrintable(s[0]);
    }
  }

  lemma OnePrintable(c: char)
    requires IsByte(c)
    ensures forall i :: 0 <= i < |EscapeOne(c)| ==> Printable(EscapeOne(c)[i])
  {
  }

  /** readFirstLine: the text before the first newline, without a carriage return at
      its end. */
  function FirstLine(data: string): string {
    var line := UpToNewline(data);
    if line != "" && line[|line| - 1] == '\r' then line[..|line| - 1] else line
  }

  function UpToNewline(s: string): string {
    if s == "" || s[0] == '\n' then "" else [s[0]] + UpToNewline(s[1..])
  }

  lemma {:induction false} LineOf(s: string, rest: string)
    requires '\n' !in s
    ensures UpToNewline(s + "\n" + rest) == s
  {
    if s != "" {
      LineOf(s[1..], rest);
      assert (s + "\n" + rest)[1..] == s[1..] + "\n" + rest;
      assert s == [s[0]] + s[1..];
    }
  }

  /** The work_dir marker: a path without NUL that is written escaped, with a newline,
      reads back as it was, whatever bytes it holds. */
  lemma MarkerReadsBack(path: string)
    requires Bytes(path) && '\0' !in path
    ensures Unescaped(FirstLine(Escaped(path) + "\n")) == Some(path)
  {
    EscapedPrintable(path);
    RoundTrip(path);
    LineOf(Escaped(path), "");
    assert Escaped(path) + "\n" + "" == Escaped(path) + "\n";
  }

  // ----- escapes that are read but not written

  function HexDigit(n: nat): (c: char)
    requires n < 16
    ensures Digit(c) == n
  {
    if n < 10 then Chr(48 + n) else Chr(87 + n)
  }

  function Power16(k: nat): nat {
    if k == 0 then 1 else 16 * Power16(k - 1)
  }

  /** v in k hexadecimal digits. */
  function Hex(v: nat, k: nat): (s: string)
    ensures |s| == k
  {
    if k == 0 then "" else Hex(v / 16, k - 1) + [HexDigit(v % 16)]
  }

  lemma {:induction false} HexReads(v: nat, k: nat)
    requires k > 0 && v < Power16(k)
    ensures ParseUint(Hex(v, k), 16) == Some(v)
  {
    var s := Hex(v, k);
    assert s[..|s| - 1] == Hex(v / 16, k - 1);
    if k > 1 {
      HexReads(v / 16, k - 1);
    } else {
      assert Power16(1) == 16;
    }
  }

  /** An escape with k digits behind it. */
  lemma NumericReads(c: char, v: nat, k: nat, rest: string)
    requires (c == 'x' && k == 2) || (c == 'u' && k == 4) || (c == 'U' && k == 8)
    requires v < Power16(k)
    ensures Unescaped(['\\', c] + Hex(v, k) + rest) ==
            if v == 0 then None
            else if c == 'x' then (if v < 256 then Prepend([Chr(v)], Unescaped(rest)) else None)
            else if ValidRune(v) then Prepend(EncodeRune(v), Unescaped(rest))
            else None
  {
    hide ParseUint, EncodeRune, Power16, Hex;
    var s := ['\\', c] + Hex(v, k) + rest;
    assert s[2..2 + k] == Hex(v, k) && s[2 + k..] == rest;
    HexReads(v, k);
    assert UnescapeOne(s) == Numeric(s, 2, 2 + k, 16, c != 'x');
  }

  /** The rune a UTF-8 sequence of RFC 3629 section 3 stands for. */
  function Rune(s: string): nat
    requires Bytes(s)
  {
    if |s| == 1 then Code(s[0])
    else if |s| == 2 then Code(s[0]) % 32 * 64 + Code(s[1]) % 64
    else if |s| == 3 then Code(s[0]) % 16 * 4096 + Code(s[1]) % 64 * 64 + Code(s[2]) % 64
    else if |s| == 4 then Code(s[0]) % 8 * 262144 + Code(s[1]) % 64 * 4096 + Code(s[2]) % 64 * 64 + Code(s[3]) % 64
    else 0
  }

  /** The digits of a number in base 64. */
  lemma Base64(v: nat)
    ensures v == v / 64 * 64 + v % 64
    ensures v == v / 4096 * 4096 + v / 64 % 64 * 64 + v % 64
    ensures v == v / 262144 * 262144 + v / 4096 % 64 * 4096 + v / 64 % 64 * 64 + v % 64
  {
    var a := v / 64;
    var b := a / 64;
    assert b == v / 4096;
    var c := b / 64;
    assert c == v / 262144;
  }

  lemma Marked(x: nat, mark: nat, bits: nat)
    requires x < bits && bits in {8, 16, 32, 64} && mark % bits == 0 && mark in {0x80, 0xC0, 0xE0, 0xF0}
    ensures (mark + x) % bits == x
  {
  }

  /** A rune is written in its shortest UTF-8 form, marked by its first byte. */
  lemma RuneReads(v: nat)
    requires ValidRune(v)
    ensures Rune(EncodeRune(v)) == v
  {
    if v < 0x80 {
    } else if v < 0x800 {
      TwoBytes(v);
    } else if v < 0x10000 {
      ThreeBytes(v);
    } else {
      FourBytes(v);
    }
    hide EncodeRune, Rune;
  }

  lemma TwoBytes(v: nat)
    requires 0x80 <= v < 0x800
    ensures Rune(EncodeRune(v)) == v
  {
    Base64(v);
    Marked(v % 64, 0x80, 64);
    Marked(v / 64, 0xC0, 32);
    assert EncodeRune(v) == [Chr(0xC0 + v / 64), Chr(0x80 + v % 64)];
    hide EncodeRune;
  }

  lemma ThreeBytes(v: nat)
    requires 0x800 <= v < 0x10000 && ValidRune(v)
    ensures Rune(EncodeRune(v)) == v
  {
    Base64(v);
    Marked(v % 64, 0x80, 64);
    Marked(v / 64 % 64, 0x80, 64);
    Marked(v / 4096, 0xE0, 16);
    assert EncodeRune(v) == [Chr(0xE0 + v / 4096), Chr(0x80 + v / 64 % 64), Chr(0x80 + v % 64)];
    hide EncodeRune;
  }

  lemma FourBytes(v: nat)
    requires 0x10000 <= v && ValidRune(v)
    ensures Rune(EncodeRune(v)) == v
  {
    Base64(v);
    Marked(v % 64, 0x80, 64);
    Marked(v / 64 % 64, 0x80, 64);
    Marked(v / 4096 % 64, 0x80, 64);
    Marked(v / 262144, 0xF0, 8);
    assert EncodeRune(v) == [Chr(0xF0 + v / 262144), Chr(0x80 + v / 4096 % 64), Chr(0x80 + v / 64 % 64), Chr(0x80 + v % 64)];
    hide EncodeRune;
  }

  lemma RuneForm(v: nat)
    requires ValidRune(v)
    ensures var s := EncodeRune(v);
            && |s| == (if v < 0x80 then 1 else if v < 0x800 then 2 else if v < 0x10000 then 3 else 4)
            && (|s| == 1 ==> Code(s[0]) < 0x80) && (|s| == 2 ==> 0xC0 <= Code(s[0]) < 0xE0)
            && (|s| == 3 ==> 0xE0 <= Code(s[0]) < 0xF0) && (|s| == 4 ==> 0xF0 <= Code(s[0]) < 0xF8)
            && forall i :: 0 < i < |s| ==> 0x80 <= Code(s[i]) < 0xC0
  {
  }
}
