/** The BER depth check of internal/image/signature.go.

    checkBERDepth walks the first BER object of a buffer with an explicit stack.
    It is proved equal to a recursive reader that follows the encoding rules of
    ITU-T X.690 sections 8.1.2 (identifier), 8.1.3 (length) and 8.1.5
    (end-of-contents octets). */
module Ber {

  type Byte = b: int | 0 <= b < 256

  /** constructed, indefinite, content start and content end of one object; for an
      indefinite length the content end is the content start. */
  datatype Header = Malformed | Header(constructed: bool, indefinite: bool, start: nat, end: nat)

  // ----- the header as a function

  /** The first octet after the identifier's subsequent octets, or None at the end
      of the data: every subsequent octet but the last has bit 8 set. */
  function TagEnd(data: seq<Byte>, i: nat): (e: nat)
    requires i < |data|
    ensures i < e
    decreases |data| - i
  {
    if data[i] < 0x80 then i + 1
    else if i + 1 < |data| then TagEnd(data, i + 1)
    else |data|
  }

  /** A big-endian integer. */
  function BigEndian(s: seq<Byte>): nat {
    if s == [] then 0 else BigEndian(s[..|s| - 1]) * 256 + s[|s| - 1]
  }

  function LengthAt(data: seq<Byte>, constructed: bool, i: nat): Header
    requires i < |data|
  {
    var l, o := data[i], i + 1;
    if l == 0x80 then
      if constructed then Header(true, true, o, o) else Malformed
    else if l > 0x80 then
      var n := l - 0x80;
      if n > 4 || o + n > |data| then Malformed
      else if data[o] == 0 || (n == 4 && data[o] > 0x7f) then Malformed
      else Content(data, constructed, o + n, BigEndian(data[o..o + n]))
    else Content(data, constructed, o, l)
  }

  function Content(data: seq<Byte>, constructed: bool, start: nat, length: nat): Header
    requires start <= |data|
  {
    if length > |data| - start then Malformed else Header(constructed, false, start, start + length)
  }

  function HeaderAt(data: seq<Byte>, offset: nat): (h: Header)
    ensures h.Header? ==> offset + 2 <= h.start <= h.end <= |data|
    ensures h.Header? && h.indefinite ==> h.constructed && h.end == h.start
  {
    if offset + 1 >= |data| then Malformed
    else
      var b := data[offset];
      var i := if b % 0x20 == 0x1f then TagEnd(data, offset + 1) else offset + 1;
      if i >= |data| then Malformed else LengthAt(data, (b / 0x20) % 2 == 1, i)
  }

  // ----- the recursive reader

  /** Where an object or a run of objects ends, and how many headers were read on
      the way there or to the failure. */
  datatype Reading = Fail(headers: nat) | Done(end: nat, headers: nat)

  function After(n: nat, r: Reading): Reading {
    if r.Fail? then Fail(n + r.headers) else Done(r.end, n + r.headers)
  }

  /** Reads the object at offset, in which constructed objects may nest depth deep. */
  function ReadObject(data: seq<Byte>, offset: nat, depth: nat): (r: Reading)
    ensures r.Done? ==> offset < r.end <= |data|
    ensures r.headers >= 1
    decreases depth, |data| - offset, 0
  {
    var h := HeaderAt(data, offset);
    if h.Malformed? then Fail(1)
    else if !h.constructed then Done(h.end, 1)
    else if depth == 0 then Fail(1)
    else if h.indefinite then After(1, ReadIndefinite(data, h.start, depth - 1))
    else After(1, ReadDefinite(data, h.start, h.end, depth - 1))
  }

  /** Reads children up to end; the last child may reach beyond it. */
  function ReadDefinite(data: seq<Byte>, offset: nat, end: nat, depth: nat): (r: Reading)
    requires end <= |data|
    ensures r.Done? ==> r.end == end
    decreases depth, |data| - offset, 1
  {
    if offset >= end then Done(end, 0)
    else
      var child := ReadObject(data, offset, depth);
      if child.Fail? then child else After(child.headers, ReadDefinite(data, child.end, end, depth))
  }

  /** Reads one child, then looks for the two end-of-contents octets. */
  function ReadIndefinite(data: seq<Byte>, offset: nat, depth: nat): (r: Reading)
    ensures r.Done? ==> offset < r.end <= |data|
    decreases depth, |data| - offset, 1
  {
    var child := ReadObject(data, offset, depth);
    if child.Fail? then child else After(child.headers, AfterChild(data, child.end, depth))
  }

  function AfterChild(data: seq<Byte>, offset: nat, depth: nat): (r: Reading)
    ensures r.Done? ==> offset < r.end <= |data|
    decreases depth, |data| - offset, 2
  {
    if |data| - offset < 2 then Fail(0)
    else if data[offset] == 0 && data[offset + 1] == 0 then Done(offset + 2, 0)
    else ReadIndefinite(data, offset, depth)
  }

  /** The object at the start of the data is well formed and its constructed objects
      nest at most maxDepth deep. */
  predicate Accepts(data: seq<Byte>, maxDepth: nat) {
    ReadObject(data, 0, maxDepth).Done?
  }

  // ----- what the walker's stack still has to read

  datatype Frame = Frame(end: nat, indefinite: bool)

  ghost predicate ValidStack(data: seq<Byte>, stack: seq<Frame>, maxDepth: nat) {
    |stack| <= maxDepth && forall k :: 0 <= k < |stack| ==> stack[k].end <= |data|
  }

  /** The rest of the reading once a child of the innermost frame ended at offset. */
  function Resume(data: seq<Byte>, stack: seq<Frame>, offset: nat, maxDepth: nat): Reading
    requires ValidStack(data, stack, maxDepth)
    decreases |stack|
  {
    if stack == [] then Done(offset, 0)
    else
      var top, below, depth := stack[|stack| - 1], stack[..|stack| - 1], maxDepth - |stack|;
      var r := if top.indefinite then AfterChild(data, offset, depth) else ReadDefinite(data, offset, top.end, depth);
      if r.Fail? then r else After(r.headers, Resume(data, below, r.end, maxDepth))
  }

  /** The rest of the reading when an object is to be read at offset. */
  function Pending(data: seq<Byte>, stack: seq<Frame>, offset: nat, maxDepth: nat): Reading
    requires ValidStack(data, stack, maxDepth)
  {
    var r := ReadObject(data, offset, maxDepth - |stack|);
    if r.Fail? then r else After(r.headers, Resume(data, stack, r.end, maxDepth))
  }

  /** The first child of an indefinite frame is read without looking for its end. */
  lemma IndefiniteContent(data: seq<Byte>, stack: seq<Frame>, offset: nat, maxDepth: nat)
    requires ValidStack(data, stack, maxDepth) && stack != [] && stack[|stack| - 1].indefinite
    ensures var r := ReadIndefinite(data, offset, maxDepth - |stack|);
            Pending(data, stack, offset, maxDepth) ==
            if r.Fail? then r else After(r.headers, Resume(data, stack[..|stack| - 1], r.end, maxDepth))
  {
    var depth := maxDepth - |stack|;
    var child := ReadObject(data, offset, depth);
    if child.Done? {
      var rest := AfterChild(data, child.end, depth);
      assert Resume(data, stack, child.end, maxDepth) ==
             if rest.Fail? then rest else After(rest.headers, Resume(data, stack[..|stack| - 1], rest.end, maxDepth));
    }
  }

  /** Pushing a frame: one header has been read, the rest is the same. */
  lemma PushFrame(data: seq<Byte>, stack: seq<Frame>, offset: nat, maxDepth: nat)
    requires ValidStack(data, stack, maxDepth) && |stack| < maxDepth
    requires HeaderAt(data, offset).Header? && HeaderAt(data, offset).constructed
    ensures var h := HeaderAt(data, offset);
            var pushed := stack + [Frame(h.end, h.indefinite)];
            ValidStack(data, pushed, maxDepth) &&
            Pending(data, stack, offset, maxDepth) ==
            After(1, if h.indefinite then Pending(data, pushed, h.start, maxDepth) else Resume(data, pushed, h.start, maxDepth))
  {
    var h := HeaderAt(data, offset);
    var pushed := stack + [Frame(h.end, h.indefinite)];
    assert pushed[..|pushed| - 1] == stack;
    var depth := maxDepth - |stack|;
    if h.indefinite {
      IndefiniteContent(data, pushed, h.start, maxDepth);
    } else {
      assert ReadObject(data, offset, depth) == After(1, ReadDefinite(data, h.start, h.end, depth - 1));
    }
  }

  /** A frame that wants another child reads an object where the walker stands. */
  lemma NextChild(data: seq<Byte>, stack: seq<Frame>, offset: nat, maxDepth: nat)
    requires ValidStack(data, stack, maxDepth) && stack != []
    requires var top := stack[|stack| - 1];
             if top.indefinite then offset + 2 <= |data| && !(data[offset] == 0 && data[offset + 1] == 0)
             else offset < top.end
    ensures Resume(data, stack, offset, maxDepth) == Pending(data, stack, offset, maxDepth)
  {
    var top, below, depth := stack[|stack| - 1], stack[..|stack| - 1], maxDepth - |stack|;
    if top.indefinite {
      IndefiniteContent(data, stack, offset, maxDepth);
    } else {
      var child := ReadObject(data, offset, depth);
      if child.Done? {
        var rest := ReadDefinite(data, child.end, top.end, depth);
        assert Resume(data, stack, child.end, maxDepth) ==
               if rest.Fail? then rest else After(rest.headers, Resume(data, below, rest.end, maxDepth));
      }
    }
  }

  // ----- the walker

  method SkipTag(data: seq<Byte>, offset0: nat) returns (offset: nat)
    requires offset0 < |data|
    ensures offset == TagEnd(data, offset0)
  {
    offset := offset0;
    while data[offset] >= 0x80
      invariant offset0 <= offset < |data| && TagEnd(data, offset) == TagEnd(data, offset0)
      decreases |data| - offset
    {
      offset := offset + 1;
      if offset >= |data| {
        return;
      }
    }
    offset := offset + 1;
  }

  method LongLength(data: seq<Byte>, offset: nat, n: nat) returns (length: nat)
    requires offset + n <= |data|
    ensures length == BigEndian(data[offset..offset + n])
  {
    length := 0;
    for k := 0 to n
      invariant length == BigEndian(data[offset..offset + k])
    {
      assert data[offset..offset + k + 1][..k] == data[offset..offset + k];
      length := length * 256 + data[offset + k];
    }
  }

  method BerHeader(data: seq<Byte>, offset0: nat) returns (h: Header)
    ensures h == HeaderAt(data, offset0)
  {
    var offset := offset0;
    if offset + 1 >= |data| {
      return Malformed;
    }
    var b := data[offset];
    offset := offset + 1;
    if b % 0x20 == 0x1f {
      offset := SkipTag(data, offset);
      if offset >= |data| {
        return Malformed;
      }
    }
    var constructed := (b / 0x20) % 2 == 1;
    var l := data[offset];
    offset := offset + 1;
    if l == 0x80 {
      return if constructed then Header(true, true, offset, offset) else Malformed;
    }
    var length: nat := l;
    if l > 0x80 {
      var n := l - 0x80;
      if n > 4 || offset + n > |data| {
        return Malformed;
      }
      if data[offset] == 0 || (n == 4 && data[offset] > 0x7f) {
        return Malformed;
      }
      length := LongLength(data, offset, n);
      offset := offset + n;
    }
    if length > |data| - offset {
      return Malformed;
    }
    return Header(constructed, false, offset, offset + length);
  }

  /** Pops the frames that end at the walker's position. When a frame wants another
      child the walker goes on reading there; with the stack empty it is done. */
  method PopFinished(data: seq<Byte>, stack0: seq<Frame>, offset0: nat, maxDepth: nat)
    returns (ok: bool, stack: seq<Frame>, offset: nat)
    requires ValidStack(data, stack0, maxDepth)
    ensures ok ==> ValidStack(data, stack, maxDepth)
    ensures ok && stack != [] ==> Resume(data, stack0, offset0, maxDepth) == Pending(data, stack, offset, maxDepth)
    ensures ok && stack == [] ==> Resume(data, stack0, offset0, maxDepth).Done?
    ensures !ok ==> Resume(data, stack0, offset0, maxDepth).Fail?
  {
    stack, offset := stack0, offset0;
    while |stack| > 0
      invariant ValidStack(data, stack, maxDepth)
      invariant Resume(data, stack0, offset0, maxDepth) == Resume(data, stack, offset, maxDepth)
      decreases |stack|
    {
      var top := stack[|stack| - 1];
      if top.indefinite {
        if |data| - offset < 2 {
          return false, stack, offset;
        }
        if data[offset] != 0 || data[offset + 1] != 0 {
          NextChild(data, stack, offset, maxDepth);
          return true, stack, offset;
        }
        offset := offset + 2;
      } else {
        if offset < top.end {
          NextChild(data, stack, offset, maxDepth);
          return true, stack, offset;
        }
        offset := top.end;
      }
      stack := stack[..|stack| - 1];
    }
    ok := true;
  }

  /** The explicit-stack walk accepts exactly what the recursive reader accepts. It
      terminates although leaving a definite frame can move the position back: the
      number of headers the recursive reader still has to read falls by one a round. */
  method CheckBERDepth(data: seq<Byte>, maxDepth: nat) returns (ok: bool)
    ensures ok <==> Accepts(data, maxDepth)
  {
    var stack: seq<Frame> := [];
    var offset: nat := 0;
    while true
      invariant ValidStack(data, stack, maxDepth)
      invariant Accepts(data, maxDepth) <==> Pending(data, stack, offset, maxDepth).Done?
      decreases Pending(data, stack, offset, maxDepth).headers
    {
      ghost var todo := Pending(data, stack, offset, maxDepth);
      var h := BerHeader(data, offset);
      if h.Malformed? {
        return false;
      }
      if !h.constructed {
        offset := h.end;
        assert todo == After(1, Resume(data, stack, offset, maxDepth));
      } else {
        if |stack| == maxDepth {
          return false;
        }
        PushFrame(data, stack, offset, maxDepth);
        stack := stack + [Frame(h.end, h.indefinite)];
        offset := h.start;
        if h.indefinite {
          continue;
        }
      }
      ok, stack, offset := PopFinished(data, stack, offset, maxDepth);
      if !ok {
        return false;
      }
      if |stack| == 0 {
        return true;
      }
    }
  }
}
