/**
 The frame machine of e4c: a frame array with stages, a jump array and one error
 slot. `longjmp` is the replacement of the control by a saved one, so the control
 (what is still to be run) is a value of its own.
 */
module E4cMachine {
  import opened E4cSemantics

  const BEGINNING: nat := 0
  const TRYING: nat := 1
  const CATCHING: nat := 2
  const FINALIZING: nat := 3
  const DONE: nat := 4

  datatype Frame = Frame(stage: nat, uncaught: bool)

  /** What remains to be run; `Loop` is the head of a `while (e4c_hook(0))` loop. */
  datatype Control =
    | Halt
    | Run(p: Prog, rest: Control)
    | Loop(block: Prog, rest: Control)

  /** `struct e4c_context` together with the control, the events and the process state. */
  datatype Machine = Machine(control: Control, frames: nat, frame: seq<Frame>, jump: seq<Control>,
                             err: Err, trace: seq<Event>, exited: bool)

  /** The number of try blocks that a control is inside of. */
  function Depth(k: Control): nat {
    match k
    case Halt => 0
    case Run(_, r) => Depth(r)
    case Loop(_, r) => 1 + Depth(r)
  }

  predicate BlocksOnly(k: Control) {
    match k
    case Halt => true
    case Run(_, r) => BlocksOnly(r)
    case Loop(b, r) => b.Try? && BlocksOnly(r)
  }

  /** The frame count never exceeds the arrays, and each live jump buffer resumes a loop. */
  predicate InArrays(m: Machine) {
    && |m.frame| == MAX_FRAMES + 1
    && |m.jump| == MAX_FRAMES
    && m.frames <= MAX_FRAMES
    && forall i :: 0 <= i < m.frames ==> m.jump[i].Loop? && BlocksOnly(m.jump[i])
  }

  /**
   The invariant of every run: besides, the frame count equals the nesting of the control, and so it did where each
   live jump buffer was saved.
   */
  predicate Valid(m: Machine) {
    && InArrays(m)
    && (!m.exited ==> Depth(m.control) == m.frames && BlocksOnly(m.control))
    && forall i :: 0 <= i < m.frames ==> Depth(m.jump[i]) == i + 1
  }

  predicate Halted(m: Machine) {
    m.exited || m.control.Halt?
  }

  /** `e4c_propagate`: mark the current frame and jump to it, or end the process. */
  function Propagate(m: Machine): Machine
    requires InArrays(m)
  {
    var marked := m.(frame := m.frame[m.frames := m.frame[m.frames].(uncaught := true)]);
    if m.frames > 0 then marked.(control := m.jump[m.frames - 1]) else marked.(exited := true)
  }

  /** `e4c_throw_ctx` with the error already built. */
  function ThrowErr(m: Machine, err: Err): Machine
    requires InArrays(m)
  {
    Propagate(m.(err := err))
  }

  /** `e4c_try` followed by the `setjmp` of `E4C_TRY`, for a block followed by `rest`. */
  function EnterTry(m: Machine, block: Prog, rest: Control): Machine
    requires InArrays(m) && block.Try?
  {
    if m.frames >= MAX_FRAMES then ThrowErr(m, TOO_MANY_FRAMES)
    else
      var loop := Loop(block, rest);
      m.(frames := m.frames + 1,
         frame := m.frame[m.frames + 1 := Frame(BEGINNING, false)],
         jump := m.jump[m.frames := loop],
         control := loop,
         trace := m.trace + [Entered(block.id)])
  }

  /** The stage that `e4c_hook(0)` moves a frame to. */
  function NextStage(f: Frame): nat {
    if f.stage + 1 == CATCHING && !f.uncaught then f.stage + 2 else f.stage + 1
  }

  /**
   One turn of the loop of `block`: `e4c_hook(0)`, then the chain of `if`s over the
   stage, in which `e4c_hook(1)` clears the mark of a frame whose error is caught.
   */
  function LoopTurn(m: Machine, block: Prog, rest: Control): Machine
    requires InArrays(m) && m.frames > 0 && block.Try? && m.control == Loop(block, rest)
  {
    var top := m.frames;
    var next := NextStage(m.frame[top]);
    var f := Frame(next, m.frame[top].uncaught);
    var m1 := m.(frame := m.frame[top := f]);
    if next == TRYING then m1.(control := Run(block.body, m.control))
    else if next == CATCHING then
      match FirstMatch(block.handlers, m.err)
      case None => m1
      case Some(i) =>
        m1.(frame := m.frame[top := Frame(next, false)],
            control := Run(block.handlers[i].code, m.control),
            trace := m.trace + [Caught(block.id, i, m.err)])
    else if next == FINALIZING then
      m1.(control := Run(block.fin, m.control), trace := m.trace + [Finally(block.id)])
    else if next < DONE then m1
    else
      var popped := m1.(frames := top - 1, control := rest, trace := m.trace + [Left(block.id)]);
      if f.uncaught then Propagate(popped) else popped
  }

  /** A control that the frames allow to go on: a loop has a frame, though it may be that of another block. */
  predicate Ready(m: Machine) {
    InArrays(m) && !Halted(m) && (m.control.Loop? ==> m.frames > 0 && m.control.block.Try?)
  }

  /** Every step keeps the invariant, also the throw that the 33rd nested block turns into. */
  function Step(m: Machine): (r: Machine)
    requires Ready(m)
    ensures Valid(m) ==> Valid(r)
  {
    match m.control
    case Loop(block, rest) => LoopTurn(m, block, rest)
    case Run(p, rest) =>
      var n := m.(control := rest);
      match p
      case Skip => n
      case Act(a) => n.(trace := m.trace + [Did(a, m.err)])
      case Throw(t, s, c) => ThrowErr(m, MakeErr(t, s, c))
      case Seq(a, b) => m.(control := Run(a, Run(b, rest)))
      case IfInstance(t, a, b) => m.(control := Run(if Matches(m.err, t) then a else b, rest))
      case Try(_, _, _, _) => EnterTry(m, p, rest)
  }

  /** The state after `n` steps, or earlier if the machine halts. */
  function Steps(m: Machine, n: nat): Machine
    requires Valid(m)
    ensures Valid(Steps(m, n))
    decreases n
  {
    if n == 0 || Halted(m) then m else Steps(Step(m), n - 1)
  }

  lemma {:induction false} StepsAdd(m: Machine, a: nat, b: nat)
    requires Valid(m)
    ensures Steps(m, a + b) == Steps(Steps(m, a), b)
    decreases a
  {
    hide Step;
    if a > 0 && !Halted(m) {
      StepsAdd(Step(m), a - 1, b);
    }
  }

  function Start(p: Prog): (m: Machine)
    ensures Valid(m)
  {
    Machine(Run(p, Halt), 0, seq(MAX_FRAMES + 1, _ => Frame(BEGINNING, false)),
            seq(MAX_FRAMES, _ => Halt), NoErr, [], false)
  }
}
