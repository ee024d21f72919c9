/**
 Programs built from the macros `E4C_TRY`, `E4C_CATCH`, `E4C_FINALLY` and
 `E4C_THROW_CTX`, and what they mean without frames, stages or jumps.
 */
module E4cSemantics {
  import opened Options
  import opened ExceptionTypes

  const MAX_FRAMES: nat := 32      // E4C_MAX_FRAMES
  const MESSAGE_SIZE: nat := 128   // E4C_MESSAGE_SIZE

  /** `struct e4c_exception`; nothing has been thrown before the first throw. */
  datatype Err = NoErr | Err(type_: ExcType, message: string, ctx: int)

  datatype Handler = Handler(catches: ExcType, code: Prog)

  datatype Prog =
    | Skip
    | Act(n: int)
    | Throw(type_: Option<ExcType>, message: Option<string>, ctx: int)
    | Seq(first: Prog, second: Prog)
    | IfInstance(of: ExcType, yes: Prog, no: Prog)
    | Try(id: int, body: Prog, handlers: seq<Handler>, fin: Prog)

  /** What an observer sees: user actions (with the current error) and block entries. */
  datatype Event =
    | Did(n: int, seen: Err)
    | Entered(id: int)
    | Caught(id: int, index: nat, seen: Err)
    | Finally(id: int)
    | Left(id: int)

  /** The error that a throw installs, with the message cut to the buffer. */
  function MakeErr(t: Option<ExcType>, message: Option<string>, ctx: int): Err {
    var ty := if t.Some? then t.value else NULL_POINTER_EXCEPTION;
    var text := if message.Some? then message.value else ty.defaultMessage;
    Err(ty, if |text| < MESSAGE_SIZE then text else text[..MESSAGE_SIZE - 1], ctx)
  }

  const TOO_MANY_FRAMES: Err :=
    MakeErr(Some(RUNTIME_EXCEPTION), Some("Too many `try` blocks nested."), 0)

  predicate Matches(err: Err, of: ExcType) {
    err.Err? && IsInstance(err.type_, of)
  }

  /** The handler chosen for `err`: the first one, in program order, whose type matches. */
  function FirstMatch(hs: seq<Handler>, err: Err): (r: Option<nat>)
    ensures r.Some? ==> r.value < |hs| && Matches(err, hs[r.value].catches)
    ensures r.Some? ==> forall j :: 0 <= j < r.value ==> !Matches(err, hs[j].catches)
    ensures r.None? ==> forall j :: 0 <= j < |hs| ==> !Matches(err, hs[j].catches)
  {
    if hs == [] then None
    else if Matches(err, hs[0].catches) then Some(0)
    else match FirstMatch(hs[1..], err)
      case Some(i) => Some(i + 1)
      case None => None
  }

  /**
   The result of a program: whether an error is on its way out, the last error
   thrown (one global slot, so a handled throw also overwrites it) and the events.
   */
  datatype Outcome = Outcome(raised: bool, err: Err, trace: seq<Event>)

  /** A try block from the outcomes of its body, its catch part and its finally part. */
  function WholeBlock(id: int, b: Outcome, h: Outcome, f: Outcome): Outcome {
    Outcome(h.raised || f.raised, f.err,
            [Entered(id)] + b.trace + h.trace + [Finally(id)] + f.trace + [Left(id)])
  }

  /** Structured semantics at nesting depth `depth` with `err` as the last error thrown. */
  function Eval(p: Prog, depth: nat, err: Err): Outcome
    decreases p
  {
    match p
    case Skip => Outcome(false, err, [])
    case Act(n) => Outcome(false, err, [Did(n, err)])
    case Throw(t, m, c) => Outcome(true, MakeErr(t, m, c), [])
    case Seq(a, b) =>
      var x := Eval(a, depth, err);
      if x.raised then x
      else
        var y := Eval(b, depth, x.err);
        y.(trace := x.trace + y.trace)
    case IfInstance(t, a, b) =>
      if Matches(err, t) then Eval(a, depth, err) else Eval(b, depth, err)
    case Try(id, body, hs, fin) =>
      if depth >= MAX_FRAMES then Outcome(true, TOO_MANY_FRAMES, [])
      else
        var b := Eval(body, depth + 1, err);
        var h := if b.raised then EvalHandler(p, depth, b.err) else Outcome(false, b.err, []);
        var f := Eval(fin, depth + 1, h.err);
        WholeBlock(id, b, h, f)
  }

  /** The catch part of a try block whose body raised `err`. */
  function EvalHandler(p: Prog, depth: nat, err: Err): Outcome
    requires p.Try?
    decreases p, 0
  {
    match FirstMatch(p.handlers, err)
    case None => Outcome(true, err, [])
    case Some(i) =>
      var x := Eval(p.handlers[i].code, depth + 1, err);
      x.(trace := [Caught(p.id, i, err)] + x.trace)
  }

  /** The program contains no throw and cannot exceed the frame limit from `depth`. */
  predicate Quiet(p: Prog, depth: nat)
    decreases p
  {
    match p
    case Throw(_, _, _) => false
    case Seq(a, b) => Quiet(a, depth) && Quiet(b, depth)
    case IfInstance(_, a, b) => Quiet(a, depth) && Quiet(b, depth)
    case Try(_, b, _, f) => depth < MAX_FRAMES && Quiet(b, depth + 1) && Quiet(f, depth + 1)
    case _ => true
  }

  lemma {:induction false} QuietKeepsError(p: Prog, depth: nat, err: Err)
    requires Quiet(p, depth)
    ensures var o := Eval(p, depth, err); !o.raised && o.err == err
    decreases p
  {
    match p
    case Seq(a, b) =>
      QuietKeepsError(a, depth, err);
      QuietKeepsError(b, depth, err);
    case IfInstance(_, a, b) =>
      QuietKeepsError(a, depth, err);
      QuietKeepsError(b, depth, err);
    case Try(_, b, _, f) =>
      QuietKeepsError(b, depth + 1, err);
      QuietKeepsError(f, depth + 1, err);
    case _ =>
  }

  /** An error that no handler takes leaves its block unchanged if the finally part is quiet. */
  lemma PendingErrorSurvives(p: Prog, depth: nat, err: Err)
    requires p.Try? && depth < MAX_FRAMES && Quiet(p.fin, depth + 1)
    requires Eval(p.body, depth + 1, err).raised
    requires FirstMatch(p.handlers, Eval(p.body, depth + 1, err).err).None?
    ensures var o := Eval(p, depth, err); o.raised && o.err == Eval(p.body, depth + 1, err).err
  {
    QuietKeepsError(p.fin, depth + 1, Eval(p.body, depth + 1, err).err);
  }

  /**
   It need not survive otherwise: for any two errors, the second one, thrown and
   handled inside the finally part, is what leaves the block in place of the first.
   */
  lemma PendingErrorReplaced(a: ExcType, b: ExcType, message: Option<string>, depth: nat, err: Err)
    requires depth + 1 < MAX_FRAMES
    ensures var inner := Try(1, Throw(Some(b), message, 0), [Handler(b, Skip)], Skip);
            var o := Eval(Try(0, Throw(Some(a), message, 0), [], inner), depth, err);
            o.raised && o.err == MakeErr(Some(b), message, 0)
  {
    var inner := Try(1, Throw(Some(b), message, 0), [Handler(b, Skip)], Skip);
    var thrown := MakeErr(Some(b), message, 0);
    assert FirstMatch(inner.handlers, thrown) == Some(0);
    var first := MakeErr(Some(a), message, 0);
    assert Eval(Throw(Some(b), message, 0), depth + 2, first) == Outcome(true, thrown, []);
    assert Eval(Skip, depth + 2, thrown) == Outcome(false, thrown, []);
    var h := EvalHandler(inner, depth + 1, thrown);
    assert h.err == thrown && !h.raised;
    var o := Eval(inner, depth + 1, first);
    assert o.err == thrown && !o.raised;
  }
}
