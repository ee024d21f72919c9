/**
 Leaving a try block from inside it by `return` or `break`: e4c is not told, so the frame of the block stays open,
 and the enclosing block takes it for its own.
 */
module E4cLeave {
  import opened ExceptionTypes
  import opened E4cSemantics
  import opened E4cMachine
  import opened Options

  /** From one saved loop to the next one, and to the control, the nesting grows by one at most. */
  predicate Nested(m: Machine)
    requires InArrays(m)
  {
    && (forall i, j :: 0 <= i < j < m.frames ==> Depth(m.jump[j]) <= Depth(m.jump[i]) + j - i)
    && forall i :: 0 <= i < m.frames ==>
                     Depth(m.jump[i]) <= i + 1 && Depth(m.control) <= Depth(m.jump[i]) + m.frames - 1 - i
  }

  /** There are `extra` more frames than blocks that the control is inside of. */
  predicate Surplus(m: Machine, extra: nat) {
    InArrays(m) && !m.exited && BlocksOnly(m.control) && m.frames == Depth(m.control) + extra && Nested(m)
  }

  // Leaving

  /** `later` is left of `k` when some of what is to be run is skipped, but no block is left. */
  predicate Skips(k: Control, later: Control) {
    k == later || (k.Run? && Skips(k.rest, later))
  }

  /** `break` goes on behind the innermost block; `return` also skips what is left of the function. */
  predicate LeadsOut(k: Control, out: Control) {
    match k
    case Halt => false
    case Run(_, rest) => LeadsOut(rest, out)
    case Loop(_, rest) => Skips(rest, out)
  }

  /** The next step throws: a throw, a block beyond the limit, or an error that no handler took. */
  predicate Throws(m: Machine)
    requires Ready(m)
  {
    match m.control
    case Halt => false
    case Run(p, _) => p.Throw? || (p.Try? && m.frames >= MAX_FRAMES)
    case Loop(_, _) => NextStage(m.frame[m.frames]) >= DONE && m.frame[m.frames].uncaught
  }

  datatype Move = Go | Leave(out: Control)

  predicate Allowed(m: Machine, move: Move) {
    match move
    case Go => Ready(m)
    case Leave(out) => !m.exited && LeadsOut(m.control, out)
  }

  function After(m: Machine, move: Move): Machine
    requires Allowed(m, move)
  {
    match move
    case Go => Step(m)
    case Leave(out) => m.(control := out)
  }

  /** The moves lead from `m` to `r`. */
  predicate Leads(m: Machine, moves: seq<Move>, r: Machine)
    decreases |moves|
  {
    if moves == [] then r == m else Allowed(m, moves[0]) && Leads(After(m, moves[0]), moves[1..], r)
  }

  /** No move throws. */
  predicate Calm(m: Machine, moves: seq<Move>)
    decreases |moves|
  {
    moves == []
    || (Allowed(m, moves[0]) && (moves[0].Go? ==> !Throws(m)) && Calm(After(m, moves[0]), moves[1..]))
  }

  /** How many blocks are left from inside. */
  function Leavings(moves: seq<Move>): nat {
    if moves == [] then 0 else (if moves[0].Leave? then 1 else 0) + Leavings(moves[1..])
  }

  lemma {:induction false} SkippingStays(k: Control, later: Control)
    requires Skips(k, later) && BlocksOnly(k)
    ensures Depth(later) == Depth(k) && BlocksOnly(later)
  {
    if k != later {
      SkippingStays(k.rest, later);
    }
  }

  lemma {:induction false} LeavingIsOneLess(k: Control, out: Control)
    requires LeadsOut(k, out) && BlocksOnly(k)
    ensures Depth(out) + 1 == Depth(k) && BlocksOnly(out)
  {
    match k
    case Run(_, rest) => LeavingIsOneLess(rest, out);
    case Loop(_, rest) => SkippingStays(rest, out);
  }

  /** The process is over, or no frame was added that no block belongs to. */
  ghost predicate NoMore(m: Machine, extra: nat) {
    m.exited || exists less: nat :: less <= extra && Surplus(m, less)
  }

  lemma AsBefore(m: Machine, n: Machine, extra: nat)
    requires Surplus(m, extra) && !n.exited && n.frames == m.frames && n.jump == m.jump && |n.frame| == |m.frame|
    requires Depth(n.control) == Depth(m.control) && BlocksOnly(n.control)
    ensures Surplus(n, extra)
  {
  }

  lemma PropagateKeepsSurplus(m: Machine, extra: nat)
    requires Surplus(m, extra)
    ensures NoMore(Propagate(m), extra)
  {
    if m.frames > 0 {
      assert Surplus(Propagate(m), m.frames - Depth(m.jump[m.frames - 1]));
    }
  }

  lemma EnterKeepsSurplus(m: Machine, block: Prog, rest: Control, extra: nat)
    requires Surplus(m, extra) && block.Try? && Depth(m.control) == Depth(rest) && BlocksOnly(rest)
    ensures var n := EnterTry(m, block, rest); if m.frames < MAX_FRAMES then Surplus(n, extra) else NoMore(n, extra)
  {
    if m.frames >= MAX_FRAMES {
      PropagateKeepsSurplus(m.(err := TOO_MANY_FRAMES), extra);
    }
  }

  lemma TurnKeepsSurplus(m: Machine, block: Prog, rest: Control, extra: nat)
    requires Surplus(m, extra) && block.Try? && m.control == Loop(block, rest)
    ensures if Throws(m) then NoMore(LoopTurn(m, block, rest), extra) else Surplus(LoopTurn(m, block, rest), extra)
  {
    var n := LoopTurn(m, block, rest);
    var f := Frame(NextStage(m.frame[m.frames]), m.frame[m.frames].uncaught);
    if f.stage >= DONE {
      var popped := m.(frame := m.frame[m.frames := f], frames := m.frames - 1, control := rest,
                       trace := m.trace + [Left(block.id)]);
      assert Surplus(popped, extra);
      if f.uncaught {
        PropagateKeepsSurplus(popped, extra);
      }
    } else {
      AsBefore(m, n, extra);
    }
  }

  /**
   A step never adds a frame that no block belongs to, and without a throw it takes none away. A throw goes back to
   the loop of the innermost frame, and there are no more of them than before.
   */
  lemma StepKeepsSurplus(m: Machine, extra: nat)
    requires Surplus(m, extra) && Ready(m)
    ensures if Throws(m) then NoMore(Step(m), extra) else Surplus(Step(m), extra)
  {
    hide Nested, InArrays;
    match m.control
    case Loop(block, rest) => TurnKeepsSurplus(m, block, rest, extra);
    case Run(p, rest) =>
      match p
      case Throw(t, s, c) =>
        var n := m.(control := rest, err := MakeErr(t, s, c));
        AsBefore(m, n, extra);
        PropagateKeepsSurplus(n, extra);
      case Try(_, _, _, _) => EnterKeepsSurplus(m, p, rest, extra);
      case _ => AsBefore(m, Step(m), extra);
  }

  /**
   Every block that is left from inside costs one frame. As long as nothing is thrown no other step costs or saves
   any, so when the program is over one frame is open for each of them; with throws, there are no more than that.
   */
  lemma {:induction false} FramesLeak(m: Machine, moves: seq<Move>, r: Machine, extra: nat)
    requires Surplus(m, extra) && Leads(m, moves, r)
    ensures Calm(m, moves) ==> Surplus(r, extra + Leavings(moves))
                               && (r.control.Halt? ==> r.frames == extra + Leavings(moves))
    ensures NoMore(r, extra + Leavings(moves))
    decreases |moves|
  {
    hide Surplus, Step, Ready, Throws, LeadsOut;
    if moves != [] {
      match moves[0]
      case Go =>
        StepKeepsSurplus(m, extra);
        if Throws(m) && Step(m).exited {
          ExitedStays(Step(m), moves[1..], r);
        } else {
          var less: nat :| less <= extra && Surplus(Step(m), less) && (!Throws(m) ==> less == extra);
          FramesLeak(Step(m), moves[1..], r, less);
        }
      case Leave(out) =>
        LeavingCostsOne(m, out, extra);
        FramesLeak(m.(control := out), moves[1..], r, extra + 1);
    }
    forall e: nat | Surplus(r, e) && r.control.Halt?
      ensures r.frames == e
    {
      OverMeansAllExtra(r, e);
    }
  }

  lemma OverMeansAllExtra(m: Machine, extra: nat)
    requires Surplus(m, extra) && m.control.Halt?
    ensures m.frames == extra
  {
  }

  lemma LeavingCostsOne(m: Machine, out: Control, extra: nat)
    requires Surplus(m, extra) && LeadsOut(m.control, out)
    ensures Surplus(m.(control := out), extra + 1)
  {
    LeavingIsOneLess(m.control, out);
  }

  lemma ExitedStays(m: Machine, moves: seq<Move>, r: Machine)
    requires m.exited && Leads(m, moves, r)
    ensures r == m
  {
  }

  /** When as many blocks were left from inside as there are frames, the next block cannot be entered. */
  lemma NoFrameIsLeft(p: Prog, moves: seq<Move>, r: Machine)
    requires Leads(Start(p), moves, r) && Calm(Start(p), moves) && Leavings(moves) == MAX_FRAMES
    requires r.control.Run? && r.control.p.Try?
    ensures Ready(r) && Throws(r) && Step(r).err == TOO_MANY_FRAMES
  {
    FramesLeak(Start(p), moves, r, 0);
  }

  /** A block that throws and whose only handler takes what was thrown. */
  function Handled(id: int, t: ExcType, code: Prog): Prog {
    Try(id, Throw(Some(t), None, 0), [Handler(t, code)], Skip)
  }

  /** After four steps the handler is about to run, in a frame that is marked as caught. */
  lemma HandlerStarts(m: Machine, rest: Control, id: int, t: ExcType, code: Prog)
    requires Valid(m) && !m.exited && m.frames < MAX_FRAMES && m.control == Run(Handled(id, t, code), rest)
    ensures var h := Steps(m, 4);
            && Valid(h) && !h.exited && h.frames == m.frames + 1 && h.frame[h.frames] == Frame(CATCHING, false)
            && h.control == Run(code, Loop(Handled(id, t, code), rest))
  {
    var m1 := Step(m);
    var m2 := Step(m1);
    var m3 := Step(m2);
    assert FirstMatch([Handler(t, code)], m3.err) == Some(0);
    assert Steps(m, 4) == Steps(m1, 3) == Steps(m2, 2) == Steps(m3, 1) == Step(m3);
  }

  /**
   If such a block is the finally part of another one and its handler is left by `break`, the finally part runs
   once more: the outer block finds the frame of the inner one, in which no finally part has been run.
   */
  lemma FinallyRunsAgain(m: Machine, outer: Prog, rest: Control, id: int, t: ExcType, code: Prog)
    requires Valid(m) && !m.exited && m.frames < MAX_FRAMES
    requires outer.Try? && outer.fin == Handled(id, t, code) && m.control == Run(outer.fin, Loop(outer, rest))
    ensures var h := Steps(m, 4);
            && Allowed(h, Leave(Loop(outer, rest)))
            && var r := After(h, Leave(Loop(outer, rest)));
            && Allowed(r, Go) && Surplus(After(r, Go), 1)
            && After(r, Go).control == m.control && After(r, Go).trace == r.trace + [Finally(outer.id)]
  {
    HandlerStarts(m, Loop(outer, rest), id, t, code);
  }
}
