/** The frame machine runs every program exactly as the structured semantics says. */
module E4cCorrectness {
  import opened E4cSemantics
  import opened E4cMachine

  /** Frames and jump buffers below the current frame are the same in both machines. */
  ghost predicate SameBelow(m: Machine, n: Machine, top: nat)
    requires Valid(m) && Valid(n) && top <= MAX_FRAMES
  {
    && (forall i :: 0 <= i < top ==> n.frame[i] == m.frame[i])
    && (forall i :: 0 <= i < top ==> n.jump[i] == m.jump[i])
  }

  /**
   `n` is what the machine must look like after `m` has run a program with outcome
   `o` that is followed by `rest`: the frame count is back, and either control is at
   `rest` or the error has reached the current frame (or ended the process).
   */
  ghost predicate After(m: Machine, rest: Control, o: Outcome, n: Machine)
    requires Valid(m) && Valid(n)
  {
    var top := m.frames;
    && n.frames == top
    && SameBelow(m, n, top)
    && n.err == o.err
    && n.trace == m.trace + o.trace
    && (if o.raised then
          && n.frame[top] == m.frame[top].(uncaught := true)
          && (if top > 0 then !n.exited && n.control == m.jump[top - 1] else n.exited)
        else
          n.frame[top] == m.frame[top] && !n.exited && n.control == rest)
  }

  /**
   `n` runs inside `block`, which was entered from `m` and is followed by `rest`: the
   top frame, the last error and the events since `m` are the given ones.
   */
  ghost predicate InBlock(m: Machine, block: Prog, rest: Control, n: Machine, top: Frame,
                          err: Err, trace: seq<Event>)
    requires Valid(m) && Valid(n)
  {
    && n.frames == m.frames + 1
    && SameBelow(m, n, m.frames)
    && n.frame[m.frames] == m.frame[m.frames]
    && n.frame[n.frames] == top
    && n.jump[m.frames] == Loop(block, rest)
    && !n.exited
    && n.err == err
    && n.trace == m.trace + trace
  }

  ghost predicate AtLoop(m: Machine, block: Prog, rest: Control, n: Machine, top: Frame,
                         err: Err, trace: seq<Event>)
    requires Valid(m) && Valid(n)
  {
    InBlock(m, block, rest, n, top, err, trace) && n.control == Loop(block, rest)
  }

  /** Running a part of a block, normally or not, ends at the loop head of the block. */
  lemma PartEndsAtLoop(m: Machine, block: Prog, rest: Control, n: Machine, top: Frame, err: Err,
                       trace: seq<Event>, o: Outcome, r: Machine)
    requires Valid(m) && Valid(n) && Valid(r) && m.frames < MAX_FRAMES
    requires InBlock(m, block, rest, n, top, err, trace)
    requires After(n, Loop(block, rest), o, r)
    ensures AtLoop(m, block, rest, r, top.(uncaught := top.uncaught || o.raised), o.err, trace + o.trace)
  {
  }

  /** The machine takes some number of steps to run `p`, and then is where `Eval` says. */
  lemma {:induction false} Simulate(p: Prog, m: Machine, rest: Control) returns (n: nat)
    requires Valid(m) && !m.exited && m.control == Run(p, rest)
    ensures After(m, rest, Eval(p, m.frames, m.err), Steps(m, n))
    decreases p, 2
  {
    match p
    case Seq(_, _) => n := SimulateSeq(p, m, rest);
    case IfInstance(t, a, b) =>
      var n1 := Simulate(if Matches(m.err, t) then a else b, Step(m), rest);
      n := 1 + n1;
    case Try(_, _, _, _) =>
      if m.frames < MAX_FRAMES {
        n := SimulateTry(p, m, rest);
      } else {
        SimulateLeaf(p, m, rest);
        n := 1;
      }
    case _ =>
      SimulateLeaf(p, m, rest);
      n := 1;
  }

  lemma SimulateLeaf(p: Prog, m: Machine, rest: Control)
    requires Valid(m) && !m.exited && m.control == Run(p, rest)
    requires p.Skip? || p.Act? || p.Throw? || (p.Try? && m.frames >= MAX_FRAMES)
    ensures After(m, rest, Eval(p, m.frames, m.err), Steps(m, 1))
  {
    assert Steps(m, 1) == Step(m);
  }

  lemma AfterThen(m: Machine, k: Control, x: Outcome, mid: Machine, rest: Control, y: Outcome, r: Machine)
    requires Valid(m) && Valid(mid) && Valid(r)
    requires After(m, k, x, mid) && !x.raised && After(mid, rest, y, r)
    ensures After(m, rest, y.(trace := x.trace + y.trace), r)
  {
  }

  lemma {:induction false} SimulateSeq(p: Prog, m: Machine, rest: Control) returns (n: nat)
    requires Valid(m) && !m.exited && m.control == Run(p, rest) && p.Seq?
    ensures After(m, rest, Eval(p, m.frames, m.err), Steps(m, n))
    decreases p, 1
  {
    var m1 := m.(control := Run(p.first, Run(p.second, rest)));
    assert Step(m) == m1;
    assert Steps(m, 1) == m1;
    var x := Eval(p.first, m.frames, m.err);
    var n1 := Simulate(p.first, m1, Run(p.second, rest));
    var m2 := Steps(m1, n1);
    StepsAdd(m, 1, n1);
    n := 1 + n1;
    if !x.raised {
      var n2 := Simulate(p.second, m2, rest);
      StepsAdd(m, n, n2);
      AfterThen(m, Run(p.second, rest), x, m2, rest, Eval(p.second, m.frames, x.err), Steps(m2, n2));
      n := n + n2;
    }
  }

  lemma {:induction false} SimulateTry(p: Prog, m: Machine, rest: Control) returns (n: nat)
    requires Valid(m) && !m.exited && m.control == Run(p, rest) && p.Try? && m.frames < MAX_FRAMES
    ensures After(m, rest, Eval(p, m.frames, m.err), Steps(m, n))
    decreases p, 1
  {
    var b := Eval(p.body, m.frames + 1, m.err);
    var n1 := SimulateBody(p, m, rest);
    var n2 := SimulateCatchFinally(p, m, rest, Steps(m, n1), b);
    StepsAdd(m, n1, n2);
    n := n1 + n2;
  }

  lemma {:induction false} SimulateCatchFinally(p: Prog, m: Machine, rest: Control, m1: Machine, b: Outcome)
    returns (n: nat)
    requires Valid(m) && Valid(m1) && p.Try? && m.frames < MAX_FRAMES && !m.exited && m.control == Run(p, rest)
    requires AtLoop(m, p, rest, m1, Frame(TRYING, b.raised), b.err, [Entered(p.id)] + b.trace)
    ensures var h := if b.raised then EvalHandler(p, m.frames, b.err) else Outcome(false, b.err, []);
            After(m, rest, WholeBlock(p.id, b, h, Eval(p.fin, m.frames + 1, h.err)), Steps(m1, n))
    decreases p, 0, 1
  {
    var t := [Entered(p.id)] + b.trace;
    if b.raised {
      var h := EvalHandler(p, m.frames, b.err);
      var n2 := SimulateCatch(p, m, rest, m1, b.err, t);
      var n3 := SimulateFinally(p, m, rest, Steps(m1, n2), Frame(CATCHING, h.raised), h.err, t + h.trace);
      StepsAdd(m1, n2, n3);
      n := n2 + n3;
    } else {
      assert t + [] == t;
      n := SimulateFinally(p, m, rest, m1, Frame(TRYING, false), b.err, t);
    }
  }

  /** `e4c_try` and the first turn of the loop start the body. */
  lemma TurnToBody(p: Prog, m: Machine, rest: Control)
    requires Valid(m) && !m.exited && m.control == Run(p, rest) && p.Try? && m.frames < MAX_FRAMES
    ensures var n := Steps(m, 2);
            && InBlock(m, p, rest, n, Frame(TRYING, false), m.err, [Entered(p.id)])
            && n.control == Run(p.body, Loop(p, rest))
  {
    var m1 := EnterTry(m, p, rest);
    assert Step(m) == m1;
    assert Steps(m1, 1) == Step(m1) == LoopTurn(m1, p, rest);
  }

  /** A turn with an error pending starts the first matching handler, if there is one. */
  lemma TurnToCatch(p: Prog, m: Machine, rest: Control, m1: Machine, err: Err, trace: seq<Event>)
    requires Valid(m) && Valid(m1) && p.Try? && m.frames < MAX_FRAMES
    requires AtLoop(m, p, rest, m1, Frame(TRYING, true), err, trace)
    ensures var n := Steps(m1, 1);
            match FirstMatch(p.handlers, err)
            case None => AtLoop(m, p, rest, n, Frame(CATCHING, true), err, trace)
            case Some(i) =>
              && InBlock(m, p, rest, n, Frame(CATCHING, false), err, trace + [Caught(p.id, i, err)])
              && n.control == Run(p.handlers[i].code, Loop(p, rest))
  {
    assert Steps(m1, 1) == Step(m1) == LoopTurn(m1, p, rest);
  }

  /** The turn after the body, or after the catch part, starts the finally part. */
  lemma TurnToFinally(p: Prog, m: Machine, rest: Control, m1: Machine, top: Frame, err: Err, trace: seq<Event>)
    requires Valid(m) && Valid(m1) && p.Try? && m.frames < MAX_FRAMES
    requires AtLoop(m, p, rest, m1, top, err, trace)
    requires top == Frame(TRYING, false) || top.stage == CATCHING
    ensures var n := Steps(m1, 1);
            && InBlock(m, p, rest, n, Frame(FINALIZING, top.uncaught), err, trace + [Finally(p.id)])
            && n.control == Run(p.fin, Loop(p, rest))
  {
    assert Steps(m1, 1) == Step(m1) == LoopTurn(m1, p, rest);
  }

  lemma {:induction false} SimulateBody(p: Prog, m: Machine, rest: Control) returns (n: nat)
    requires Valid(m) && !m.exited && m.control == Run(p, rest) && p.Try? && m.frames < MAX_FRAMES
    ensures var b := Eval(p.body, m.frames + 1, m.err);
            AtLoop(m, p, rest, Steps(m, n), Frame(TRYING, b.raised), b.err, [Entered(p.id)] + b.trace)
    decreases p, 0, 0
  {
    TurnToBody(p, m, rest);
    var m2 := Steps(m, 2);
    n := SimulatePart(p.body, p, m, rest, m2, Frame(TRYING, false), m.err, [Entered(p.id)]);
    StepsAdd(m, 2, n);
    n := 2 + n;
  }

  lemma {:induction false} SimulateCatch(p: Prog, m: Machine, rest: Control, m1: Machine, err: Err, trace: seq<Event>)
    returns (n: nat)
    requires Valid(m) && Valid(m1) && p.Try? && m.frames < MAX_FRAMES
    requires AtLoop(m, p, rest, m1, Frame(TRYING, true), err, trace)
    ensures var h := EvalHandler(p, m.frames, err);
            AtLoop(m, p, rest, Steps(m1, n), Frame(CATCHING, h.raised), h.err, trace + h.trace)
    decreases p, 0, 0
  {
    hide Step, Steps, Eval, Valid, Matches;
    TurnToCatch(p, m, rest, m1, err, trace);
    n := 1;
    match FirstMatch(p.handlers, err)
    case None =>
      assert trace + [] == trace;
    case Some(i) =>
      var t := trace + [Caught(p.id, i, err)];
      var n1 := SimulatePart(p.handlers[i].code, p, m, rest, Steps(m1, 1), Frame(CATCHING, false), err, t);
      assert t + Eval(p.handlers[i].code, m.frames + 1, err).trace == trace + EvalHandler(p, m.frames, err).trace;
      StepsAdd(m1, 1, n1);
      n := 1 + n1;
  }

  lemma {:induction false} SimulateFinally(p: Prog, m: Machine, rest: Control, m1: Machine, top: Frame, err: Err,
                                           trace: seq<Event>)
    returns (n: nat)
    requires Valid(m) && Valid(m1) && p.Try? && m.frames < MAX_FRAMES && !m.exited && m.control == Run(p, rest)
    requires AtLoop(m, p, rest, m1, top, err, trace)
    requires top == Frame(TRYING, false) || top.stage == CATCHING
    ensures var f := Eval(p.fin, m.frames + 1, err);
            After(m, rest, Outcome(top.uncaught || f.raised, f.err, trace + [Finally(p.id)] + f.trace + [Left(p.id)]),
                  Steps(m1, n))
    decreases p, 0, 0
  {
    hide Step, Steps, Eval, Valid;
    var f := Eval(p.fin, m.frames + 1, err);
    var t := trace + [Finally(p.id)];
    TurnToFinally(p, m, rest, m1, top, err, trace);
    var m2 := Steps(m1, 1);
    var n1 := SimulatePart(p.fin, p, m, rest, m2, Frame(FINALIZING, top.uncaught), err, t);
    LeaveBlock(p, m, rest, Steps(m2, n1), top.uncaught || f.raised, f.err, t + f.trace);
    StepsAdd(m1, 1, n1);
    StepsAdd(m1, 1 + n1, 1);
    n := 1 + n1 + 1;
  }

  /** A part of a block runs as `Eval` says and ends at the loop head of the block. */
  lemma {:induction false} SimulatePart(code: Prog, p: Prog, m: Machine, rest: Control, m2: Machine, top: Frame,
                                        err: Err, trace: seq<Event>)
    returns (n: nat)
    requires Valid(m) && Valid(m2) && m.frames < MAX_FRAMES
    requires InBlock(m, p, rest, m2, top, err, trace) && m2.control == Run(code, Loop(p, rest))
    ensures var o := Eval(code, m.frames + 1, err);
            AtLoop(m, p, rest, Steps(m2, n), top.(uncaught := top.uncaught || o.raised), o.err, trace + o.trace)
    decreases code, 3
  {
    n := Simulate(code, m2, Loop(p, rest));
    PartEndsAtLoop(m, p, rest, m2, top, err, trace, Eval(code, m.frames + 1, err), Steps(m2, n));
  }

  /** The last turn of the loop gives the frame back and passes on an error still marked. */
  lemma LeaveBlock(p: Prog, m: Machine, rest: Control, m3: Machine, uncaught: bool, err: Err, trace: seq<Event>)
    requires Valid(m) && Valid(m3) && p.Try? && m.frames < MAX_FRAMES && !m.exited && m.control == Run(p, rest)
    requires AtLoop(m, p, rest, m3, Frame(FINALIZING, uncaught), err, trace)
    ensures After(m, rest, Outcome(uncaught, err, trace + [Left(p.id)]), Steps(m3, 1))
  {
    assert Steps(m3, 1) == Step(m3);
    assert m3.trace + [Left(p.id)] == m.trace + (trace + [Left(p.id)]);
  }

  /**
   Whole programs: the machine halts, it ends the process exactly when an error
   escapes, and its events and last error are those of the structured semantics.
   */
  lemma MachineImplementsSemantics(p: Prog) returns (n: nat)
    ensures var o := Eval(p, 0, NoErr);
            var r := Steps(Start(p), n);
            Halted(r) && r.frames == 0 && r.exited == o.raised && r.err == o.err && r.trace == o.trace
  {
    n := Simulate(p, Start(p), Halt);
    assert [] + Eval(p, 0, NoErr).trace == Eval(p, 0, NoErr).trace;
  }
}
