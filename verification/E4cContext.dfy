/** The global context of e4c as an object whose arrays and fields the calls update. */
module E4cContext {
  import opened Options
  import opened ExceptionTypes
  import opened E4cSemantics
  import opened E4cMachine
  import opened E4cCorrectness

  class Context {
    var frames: int
    const frame: array<Frame>
    const jump: array<Control>
    var err: Err
    var control: Control
    var trace: seq<Event>
    var exited: bool

    ghost predicate InBounds()
      reads this
    {
      frame.Length == MAX_FRAMES + 1 && jump.Length == MAX_FRAMES && 0 <= frames <= MAX_FRAMES
    }

    /** The state as a value. */
    ghost function View(): Machine
      requires InBounds()
      reads this, frame, jump
    {
      Machine(control, frames, frame[..], jump[..], err, trace, exited)
    }

    ghost predicate Ok()
      reads this, frame, jump
    {
      InBounds() && Valid(View())
    }

    constructor (p: Prog)
      ensures Ok() && View() == Start(p) && fresh(frame) && fresh(jump)
    {
      frames, err, trace, exited := 0, NoErr, [], false;
      frame := new Frame[MAX_FRAMES + 1](_ => Frame(BEGINNING, false));
      jump := new Control[MAX_FRAMES](_ => Halt);
      control := Run(p, Halt);
      new;
      assert frame[..] == Start(p).frame && jump[..] == Start(p).jump;
    }

    /** `e4c_propagate` */
    method MarkAndJump()
      requires Ok()
      modifies this, frame
      ensures InBounds() && View() == Propagate(old(View()))
    {
      frame[frames] := frame[frames].(uncaught := true);
      if frames > 0 {
        control := jump[frames - 1];
      } else {
        exited := true;
      }
    }

    /** `e4c_throw_ctx` */
    method Raise(e: Err)
      requires Ok()
      modifies this, frame
      ensures InBounds() && View() == ThrowErr(old(View()), e)
    {
      err := e;
      MarkAndJump();
    }

    /** `e4c_try` and the `setjmp` beside it. */
    method BeginTry(block: Prog, rest: Control)
      requires Ok() && block.Try?
      modifies this, frame, jump
      ensures InBounds() && View() == EnterTry(old(View()), block, rest)
    {
      if frames >= MAX_FRAMES {
        Raise(TOO_MANY_FRAMES);
      } else {
        frames := frames + 1;
        frame[frames] := Frame(BEGINNING, false);
        jump[frames - 1] := Loop(block, rest);
        control := Loop(block, rest);
        trace := trace + [Entered(block.id)];
      }
    }

    /** `e4c_hook`: with `isCatch` it clears the mark, otherwise it advances the stage. */
    method Hook(isCatch: bool, block: Prog, rest: Control) returns (again: bool)
      requires Ok() && !exited && frames > 0 && block.Try? && (!isCatch ==> control == Loop(block, rest))
      modifies this, frame
      ensures InBounds()
      ensures isCatch ==>
                again && View() == old(View().(frame := frame[..][frames := frame[frames].(uncaught := false)]))
      ensures !isCatch ==> again == (NextStage(old(frame[frames])) < DONE)
      ensures !isCatch && again ==>
                View() == old(View().(frame := frame[..][frames := Frame(NextStage(frame[frames]),
                                                                          frame[frames].uncaught)]))
      ensures !isCatch && !again ==> View() == LoopTurn(old(View()), block, rest)
    {
      if isCatch {
        frame[frames] := frame[frames].(uncaught := false);
        return true;
      }
      var uncaught := frame[frames].uncaught;
      frame[frames] := frame[frames].(stage := frame[frames].stage + 1);
      if frame[frames].stage == CATCHING && !uncaught {
        frame[frames] := frame[frames].(stage := frame[frames].stage + 1);
      }
      if frame[frames].stage < DONE {
        return true;
      }
      frames := frames - 1;
      control := rest;
      trace := trace + [Left(block.id)];
      if uncaught {
        MarkAndJump();
      }
      return false;
    }

    /** The chain of `E4C_CATCH` tests: the first handler whose type matches. */
    method SelectHandler(hs: seq<Handler>) returns (r: Option<nat>)
      ensures r == FirstMatch(hs, err)
    {
      var i := 0;
      while i < |hs|
        invariant 0 <= i <= |hs|
        invariant forall j :: 0 <= j < i ==> !Matches(err, hs[j].catches)
      {
        if err.Err? {
          var extends_ := Extends(err.type_, hs[i].catches);
          if err.type_ == hs[i].catches || extends_ {
            return Some(i);
          }
        }
        i := i + 1;
      }
      return None;
    }

    /** One turn of `while (e4c_hook(0)) if (...) ... else if (...)`. */
    method Turn(block: Prog, rest: Control)
      requires Ok() && !exited && control == Loop(block, rest)
      modifies this, frame
      ensures InBounds() && View() == LoopTurn(old(View()), block, rest)
    {
      var again := Hook(false, block, rest);
      if again {
        var head := control;
        if frame[frames].stage == TRYING {
          control := Run(block.body, head);
        } else if frame[frames].stage == CATCHING {
          var chosen := SelectHandler(block.handlers);
          if chosen.Some? {
            var _ := Hook(true, block, rest);
            trace := trace + [Caught(block.id, chosen.value, err)];
            control := Run(block.handlers[chosen.value].code, head);
          }
        } else if frame[frames].stage == FINALIZING {
          trace := trace + [Finally(block.id)];
          control := Run(block.fin, head);
        }
      }
    }

    method Advance()
      requires Ok() && !Halted(View())
      modifies this, frame, jump
      ensures Ok() && View() == Step(old(View()))
    {
      hide LoopTurn, EnterTry, ThrowErr, Propagate;
      match control {
        case Loop(block, rest) => Turn(block, rest);
        case Run(p, rest) =>
          match p {
            case Skip => control := rest;
            case Act(n) => trace, control := trace + [Did(n, err)], rest;
            case Throw(t, m, c) => Raise(MakeErr(t, m, c));
            case Seq(a, b) => control := Run(a, Run(b, rest));
            case IfInstance(t, a, b) => control := Run(if Matches(err, t) then a else b, rest);
            case Try(_, _, _, _) => BeginTry(p, rest);
          }
      }
      assert View() == Step(old(View()));
    }
  }

  /** Runs a whole program; it always ends, with the outcome of the structured semantics. */
  method Execute(p: Prog) returns (raised: bool, err: Err, trace: seq<Event>)
    ensures Outcome(raised, err, trace) == Eval(p, 0, NoErr)
  {
    hide Step, Eval;
    var c := new Context(p);
    ghost var total := MachineImplementsSemantics(p);
    ghost var left := total;
    while !c.exited && c.control != Halt
      invariant c.Ok() && fresh(c) && fresh(c.frame) && fresh(c.jump)
      invariant left >= 0 && Steps(c.View(), left) == Steps(Start(p), total)
      decreases left
    {
      c.Advance();
      left := left - 1;
    }
    raised, err, trace := c.exited, c.err, c.trace;
  }
}
