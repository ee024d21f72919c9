/** The buffered printer: one growing buffer, an offset, and repeated measuring of what was written last. */
module JsonPrintBuffer {
  import opened CStrings
  import opened JsonCText
  import opened JsonPieces
  import opened JsonPrintString
  import opened JsonText
  import opened JsonTree
  import opened Pow2

  /** The largest buffer whose size an `int` can be rounded up to. */
  const LIMIT: int := 0x4000_0000

  /** More than any fixed amount of space that is asked for beyond the text. */
  const SLACK: int := 32

  /** A new buffer with the contents of the smaller one. */
  method Enlarged(a: array<char>, newSize: nat, ghost done: string) returns (b: array<char>)
    requires a.Length <= newSize && Starts(a, done)
    ensures fresh(b) && b.Length == newSize && b[..a.Length] == a[..]
    ensures Starts(b, done)
  {
    b := new char[newSize];
    forall i | 0 <= i < a.Length {
      b[i] := a[i];
    }
    assert b[..a.Length] == a[..];
    assert b[..|done|] == a[..|done|];
  }

  class PrintBuffer {
    var buffer: array<char>
    var length: nat
    var offset: nat

    ghost predicate Valid()
      reads this
    {
      length == buffer.Length && offset <= length
    }

    constructor (prebuffer: nat)
      ensures Valid() && fresh(buffer)
      ensures offset == 0 && length == prebuffer
    {
      buffer := new char[prebuffer];
      length := prebuffer;
      offset := 0;
    }

    /** What follows the offset is the end of a C string that was `done` before `text` was printed. */
    ghost predicate Printed(done: string, text: string)
      reads this, buffer
    {
      Valid() && Holds(buffer, done + text) && |done| <= offset <= |done| + |text|
    }

    /** Everything before the offset is `done`. */
    ghost predicate At(done: string)
      reads this, buffer
    {
      Valid() && offset == |done| && Starts(buffer, done)
    }

    /** Makes room for `needed` more characters, in a buffer of the next power of two if there is none. */
    method Ensure(needed: nat, ghost done: string)
      requires At(done) && offset + needed <= LIMIT
      modifies this
      ensures At(done) && offset + needed <= length
      ensures buffer == old(buffer) || fresh(buffer)
      ensures if offset + needed <= old(length) then buffer == old(buffer)
              else length == Pow2Gt(offset + needed) && buffer[..old(length)] == old(buffer[..])
    {
      if offset + needed <= length {
        return;
      }
      var newSize := RoundUp(offset + needed);
      buffer := Enlarged(buffer, newSize, done);
      length := newSize;
    }

    /** Moves the offset to the end of the C string that is there. */
    method Update(ghost done: string, ghost text: string)
      requires Printed(done, text) && NoNul(text)
      modifies this`offset
      ensures At(done + text)
    {
      assert NoNul((done + text)[offset..]) by {
        assert (done + text)[offset..] == text[offset - |done|..];
      }
      var n := StrLen(buffer, offset, done + text);
      offset := offset + n;
    }

    /** Characters written behind the offset, with room for `extra` more, and the offset moved. */
    method Append(s: string, extra: nat, ghost done: string)
      requires At(done) && |done| + |s| + extra <= LIMIT
      modifies this, buffer
      ensures At(done + s) && offset + extra <= length
      ensures buffer == old(buffer) || fresh(buffer)
    {
      Ensure(|s| + extra, done);
      Copy(buffer, offset, s, done);
      offset := offset + |s|;
    }

    /** The same, with the terminator written behind. */
    method AppendTerminated(s: string, ghost done: string)
      requires At(done) && |done| + |s| < LIMIT
      modifies this, buffer
      ensures At(done + s)
      ensures buffer == old(buffer) || fresh(buffer)
    {
      Append(s, 1, done);
      Terminate(buffer, offset, done + s);
    }

    /** A text written where the offset stays, as the scalar printers do. */
    method Put(s: string, room: nat, ghost done: string)
      requires At(done) && |s| < room && |done| + room <= LIMIT
      modifies this, buffer
      ensures Printed(done, s)
      ensures buffer == old(buffer) || fresh(buffer)
    {
      Ensure(room, done);
      StrCpy(buffer, offset, s, done);
    }

    method PrintString(s: string, ghost done: string)
      requires IsText(s)
      requires At(done) && |done| + |RenderString(s)| + SLACK <= LIMIT
      modifies this, buffer
      ensures Printed(done, RenderString(s))
      ensures buffer == old(buffer) || fresh(buffer)
    {
      var flag, len := LiteralSpace(s);
      Ensure(len + 3, done);
      WriteLiteral(buffer, offset, s, flag, done);
    }

    /** Prints `j` behind what is done already, and says where its text starts. */
    method PrintValue(j: Json, depth: nat, fmt: bool, ghost done: string) returns (out: nat)
      requires WellFormed(j)
      requires At(done) && |done| + |Render(j, depth, fmt)| + SLACK <= LIMIT
      modifies this, buffer
      ensures Printed(done, Render(j, depth, fmt))
      ensures buffer == old(buffer) || fresh(buffer)
      ensures depth == 0 && done == [] ==> out == 0
      decreases j, 2
    {
      out := offset;
      match j
      case Null => Put("null", 5, done);
      case False => Put("false", 6, done);
      case True => Put("true", 5, done);
      case Number(v) =>
        NumeralFits(v);
        if v == 0.0 {
          Put("0", 2, done);
        } else {
          Put(RenderNumber(v), 21, done);
        }
      case String(s) => PrintString(s, done);
      case Array(items) => out := PrintArray(j, depth, fmt, done);
      case Object(ms) => out := PrintObject(j, depth, fmt, done);
    }

    method PrintArray(j: Json, depth: nat, fmt: bool, ghost done: string) returns (out: nat)
      requires WellFormed(j) && j.Array?
      requires At(done) && |done| + |Render(j, depth, fmt)| + SLACK <= LIMIT
      modifies this, buffer
      ensures Printed(done, Render(j, depth, fmt))
      ensures buffer == old(buffer) || fresh(buffer)
      ensures out == |done|
      decreases j, 1
    {
      out := offset;
      if j.items == [] {
        Put("[]", 3, done);
        return;
      }
      ghost var goal := done + Render(j, depth, fmt);
      Append("[", 0, done);
      ghost var so := done + "[";
      ArrayStart(j.items, depth, fmt, done);
      var k := 0;
      while k < |j.items|
        invariant 0 <= k <= |j.items|
        invariant buffer == old(buffer) || fresh(buffer)
        invariant At(so) && |done| <= |so|
        invariant so + ItemsTo(j.items[k..], depth + 1, fmt, "]") == goal
      {
        so := PrintItem(j, k, depth + 1, fmt, so, goal);
        k := k + 1;
      }
      Put("]", 2, so);
    }

    method PrintItem(j: Json, k: nat, depth: nat, fmt: bool, ghost so: string, ghost goal: string)
      returns (ghost after: string)
      requires WellFormed(j) && j.Array? && k < |j.items|
      requires At(so) && |goal| + SLACK <= LIMIT
      requires so + ItemsTo(j.items[k..], depth, fmt, "]") == goal
      modifies this, buffer
      ensures At(after) && |so| <= |after|
      ensures after + ItemsTo(j.items[k + 1..], depth, fmt, "]") == goal
      ensures buffer == old(buffer) || fresh(buffer)
      decreases j, 0
    {
      ghost var text := Render(j.items[k], depth, fmt);
      ItemThenNext(j.items, k, depth, fmt, so);
      RenderNoNul(j.items[k], depth, fmt);
      var _ := PrintValue(j.items[k], depth, fmt, so);
      Update(so, text);
      after := so + text;
      NextThenItems(j.items, k, depth, fmt, after);
      if k < |j.items| - 1 {
        var separator := if fmt then ", " else ",";
        AppendTerminated(separator, after);
        after := after + separator;
      }
    }

    method PrintObject(j: Json, depth: nat, fmt: bool, ghost done: string) returns (out: nat)
      requires WellFormed(j) && j.Object?
      requires At(done) && |done| + |Render(j, depth, fmt)| + SLACK <= LIMIT
      modifies this, buffer
      ensures Printed(done, Render(j, depth, fmt))
      ensures buffer == old(buffer) || fresh(buffer)
      ensures out == if fmt && j.members != [] then depth else |done|
      decreases j, 1
    {
      out := offset;
      if j.members == [] {
        EmptyObject(depth, fmt);
        Put(if fmt then "{\n" + Spaces(depth) + "}" else "{}", if fmt then depth + 4 else 3, done);
        return;
      }
      ghost var goal := done + Render(j, depth, fmt);
      ghost var close := Indent(depth, fmt) + "}";
      ObjectStart(j.members, depth, fmt, done);
      var open := if fmt then "{\n" else "{";
      AppendTerminated(open, done);
      ghost var so := done + open;
      var k := 0;
      while k < |j.members|
        invariant 0 <= k <= |j.members|
        invariant buffer == old(buffer) || fresh(buffer)
        invariant At(so) && |done| <= |so|
        invariant so + MembersTo(j.members[k..], depth + 1, fmt, close) == goal
      {
        so := PrintMember(j, k, depth + 1, fmt, close, so, goal);
        k := k + 1;
      }
      Put(Indent(depth, fmt) + "}", if fmt then depth + 2 else 2, so);
      if fmt {
        out := depth;
      }
    }

    method PrintMember(j: Json, k: nat, depth: nat, fmt: bool, ghost close: string, ghost so: string,
                       ghost goal: string)
      returns (ghost after: string)
      requires WellFormed(j) && j.Object? && k < |j.members|
      requires At(so) && |goal| + SLACK <= LIMIT
      requires so + MembersTo(j.members[k..], depth, fmt, close) == goal
      modifies this, buffer
      ensures At(after) && |so| <= |after|
      ensures after + MembersTo(j.members[k + 1..], depth, fmt, close) == goal
      ensures buffer == old(buffer) || fresh(buffer)
      decreases j, 0
    {
      var m := j.members[k];
      var last := k == |j.members| - 1;
      MemberThenRest(j.members, k, depth, fmt, close, so);
      PrintKey(m.key, depth, fmt, so);
      after := so + Indent(depth, fmt) + RenderString(m.key) + (if fmt then ": " else ":");
      RenderNoNul(m.value, depth, fmt);
      var _ := PrintValue(m.value, depth, fmt, after);
      Update(after, Render(m.value, depth, fmt));
      after := after + Render(m.value, depth, fmt);
      AppendTerminated(Comma(last) + Eol(fmt), after);
      after := after + (Comma(last) + Eol(fmt));
    }

    method PrintKey(key: string, depth: nat, fmt: bool, ghost done: string)
      requires IsText(key)
      requires At(done) && |done| + |Indent(depth, fmt)| + |RenderString(key)| + SLACK <= LIMIT
      modifies this, buffer
      ensures At(done + Indent(depth, fmt) + RenderString(key) + (if fmt then ": " else ":"))
      ensures buffer == old(buffer) || fresh(buffer)
    {
      if fmt {
        Append(Spaces(depth), 0, done);
      }
      ghost var so := done + Indent(depth, fmt);
      EscapeNoNul(key);
      PrintString(key, so);
      Update(so, RenderString(key));
      Append(if fmt then ": " else ":", 0, so + RenderString(key));
    }
  }

  /** Whatever the initial size, the buffer ends up holding the text from its first character. */
  method PrintBuffered(j: Json, prebuffer: nat, fmt: bool) returns (text: array<char>, out: nat)
    requires WellFormed(j) && |Render(j, 0, fmt)| + SLACK <= LIMIT
    ensures fresh(text) && out == 0
    ensures Holds(text, Render(j, 0, fmt))
  {
    var p := new PrintBuffer(prebuffer);
    out := p.PrintValue(j, 0, fmt, "");
    text := p.buffer;
    assert "" + Render(j, 0, fmt) == Render(j, 0, fmt);
  }
}
