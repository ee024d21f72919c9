/** What the error that a handler reads holds: the type, the cut message and the context of a throw. */
module E4cThrown {
  import opened ExceptionTypes
  import opened E4cSemantics
  import opened E4cMachine
  import opened E4cCorrectness
  import opened Options

  /** At most 127 characters of a message are kept. */
  function Kept(message: string): (s: string)
    ensures s <= message && |s| <= 127 && (s == message || |s| == 127)
  {
    if |message| <= 127 then message else message[..127]
  }

  /** The types that catch an error of type `t`: that type and all its supertypes up to the root. */
  function CaughtBy(t: ExcType): seq<ExcType> {
    match t
    case Root(_, _) => [t]
    case Sub(_, _, super) => [t] + CaughtBy(super)
  }

  lemma {:induction false} InstanceOfSupertypes(t: ExcType, of: ExcType)
    ensures IsInstance(t, of) <==> of in CaughtBy(t)
    decreases t
  {
    if t.Sub? {
      InstanceOfSupertypes(t.super, of);
      assert CaughtBy(t)[1..] == CaughtBy(t.super);
    }
  }

  /** The trace of a block whose body throws and whose only handler takes what was thrown. */
  function HandledTrace(id: int, n: int, e: Err): seq<Event> {
    [Entered(id), Caught(id, 0, e), Did(n, e), Finally(id), Left(id)]
  }

  /** A block that throws in its body and handles that. */
  function Handled(id: int, n: int, of: ExcType, thrown: Prog): Prog {
    Try(id, thrown, [Handler(of, Act(n))], Skip)
  }

  lemma HandlerRuns(id: int, n: int, of: ExcType, thrown: Prog, depth: nat, err: Err, e: Err)
    requires depth < MAX_FRAMES && thrown.Throw? && Eval(thrown, depth + 1, err) == Outcome(true, e, [])
    requires e.Err? && IsInstance(e.type_, of)
    ensures Eval(Handled(id, n, of, thrown), depth, err) == Outcome(false, e, HandledTrace(id, n, e))
  {
    var p := Handled(id, n, of, thrown);
    assert FirstMatch(p.handlers, e) == Some(0);
    assert Eval(Act(n), depth + 1, e) == Outcome(false, e, [Did(n, e)]);
    assert EvalHandler(p, depth, e) == Outcome(false, e, [Caught(id, 0, e), Did(n, e)]);
    assert Eval(Skip, depth + 1, e) == Outcome(false, e, []);
    assert Eval(p, depth, err) == WholeBlock(id, Outcome(true, e, []), EvalHandler(p, depth, e), Outcome(false, e, []));
  }

  /**
   Every throw that is handled by a handler of its type or of a supertype: the handler and what it does see exactly
   what was thrown. Without a message it is that of the type, and without a type it is a `NullPointerException`.
   */
  lemma ThrownIsSeen(id: int, n: int, t: ExcType, of: ExcType, m: string, ctx: int, depth: nat, err: Err)
    requires depth < 32 && of in CaughtBy(t)
    ensures var e := Err(t, Kept(m), ctx);
            Eval(Handled(id, n, of, Throw(Some(t), Some(m), ctx)), depth, err)
            == Outcome(false, e, HandledTrace(id, n, e))
    ensures var e := Err(t, Kept(t.defaultMessage), ctx);
            Eval(Handled(id, n, of, Throw(Some(t), None, ctx)), depth, err) == Outcome(false, e, HandledTrace(id, n, e))
  {
    InstanceOfSupertypes(t, of);
    HandlerRuns(id, n, of, Throw(Some(t), Some(m), ctx), depth, err, Err(t, Kept(m), ctx));
    HandlerRuns(id, n, of, Throw(Some(t), None, ctx), depth, err, Err(t, Kept(t.defaultMessage), ctx));
  }

  lemma UntypedIsSeen(id: int, n: int, m: string, ctx: int, depth: nat, err: Err)
    requires depth < 32
    ensures var root := Root("RuntimeException", "Runtime exception.");
            var t := Sub("NullPointerException", "Null pointer.", root);
            var e, d := Err(t, Kept(m), ctx), Err(t, "Null pointer.", ctx);
            && Eval(Handled(id, n, root, Throw(None, Some(m), ctx)), depth, err)
               == Outcome(false, e, HandledTrace(id, n, e))
            && Eval(Handled(id, n, root, Throw(None, None, ctx)), depth, err)
               == Outcome(false, d, HandledTrace(id, n, d))
  {
    var root := Root("RuntimeException", "Runtime exception.");
    var t := Sub("NullPointerException", "Null pointer.", root);
    HandlerRuns(id, n, root, Throw(None, Some(m), ctx), depth, err, Err(t, Kept(m), ctx));
    HandlerRuns(id, n, root, Throw(None, None, ctx), depth, err, Err(t, "Null pointer.", ctx));
  }

  /** A handler of any other type does not run, and the error leaves the block as it was thrown. */
  lemma OtherIsNotCaught(id: int, n: int, t: ExcType, of: ExcType, m: string, ctx: int, depth: nat, err: Err)
    requires depth < 32 && of !in CaughtBy(t)
    ensures Eval(Handled(id, n, of, Throw(Some(t), Some(m), ctx)), depth, err)
            == Outcome(true, Err(t, Kept(m), ctx), [Entered(id), Finally(id), Left(id)])
  {
    var e := Err(t, Kept(m), ctx);
    var p := Handled(id, n, of, Throw(Some(t), Some(m), ctx));
    InstanceOfSupertypes(t, of);
    assert FirstMatch(p.handlers, e) == None;
    assert Eval(p.body, depth + 1, err) == Outcome(true, e, []);
    assert EvalHandler(p, depth, e) == Outcome(true, e, []);
    assert Eval(Skip, depth + 1, e) == Outcome(false, e, []);
  }

  // Every program

  /** The error has the type, the kept message and the context of a throw. */
  predicate Carries(e: Err, t: Option<ExcType>, m: Option<string>, ctx: int) {
    && e.Err? && e.ctx == ctx
    && (if t.Some? then e.type_ == t.value
        else e.type_.name == "NullPointerException" && e.type_.defaultMessage == "Null pointer.")
    && e.message == Kept(if m.Some? then m.value else e.type_.defaultMessage)
  }

  /** The error is that of a throw somewhere in the program. */
  predicate ThrownIn(p: Prog, e: Err) {
    match p
    case Throw(t, m, ctx) => Carries(e, t, m, ctx)
    case Seq(a, b) => ThrownIn(a, e) || ThrownIn(b, e)
    case IfInstance(_, a, b) => ThrownIn(a, e) || ThrownIn(b, e)
    case Try(_, body, hs, fin) =>
      ThrownIn(body, e) || ThrownIn(fin, e) || exists i :: 0 <= i < |hs| && ThrownIn(hs[i].code, e)
    case _ => false
  }

  /** The error is the one from before, that of too many blocks, or that of a throw in the program. */
  predicate Known(p: Prog, before: Err, e: Err) {
    || e == before
    || e == Err(Root("RuntimeException", "Runtime exception."), "Too many `try` blocks nested.", 0)
    || ThrownIn(p, e)
  }

  predicate AllSeen(trace: seq<Event>, ok: Err -> bool) {
    forall k :: 0 <= k < |trace| && (trace[k].Did? || trace[k].Caught?) ==> ok(trace[k].seen)
  }

  ghost predicate Covers(p: Prog, ok: Err -> bool) {
    ok(TOO_MANY_FRAMES) && forall e :: ThrownIn(p, e) ==> ok(e)
  }

  lemma PartsCovered(p: Prog, ok: Err -> bool)
    requires Covers(p, ok)
    ensures p.Seq? ==> Covers(p.first, ok) && Covers(p.second, ok)
    ensures p.IfInstance? ==> Covers(p.yes, ok) && Covers(p.no, ok)
    ensures p.Try? ==> Covers(p.body, ok) && Covers(p.fin, ok)
    ensures p.Try? ==> forall i :: 0 <= i < |p.handlers| ==> Covers(p.handlers[i].code, ok)
  {
  }

  lemma AllSeenJoin(a: seq<Event>, b: seq<Event>, ok: Err -> bool)
    requires AllSeen(a, ok) && AllSeen(b, ok)
    ensures AllSeen(a + b, ok)
  {
  }

  lemma {:induction false} EvalSees(p: Prog, depth: nat, err: Err, ok: Err -> bool)
    requires ok(err) && Covers(p, ok)
    ensures var o := Eval(p, depth, err); ok(o.err) && AllSeen(o.trace, ok)
    decreases p, 2
  {
    PartsCovered(p, ok);
    match p
    case Throw(t, m, ctx) => assert ThrownIn(p, MakeErr(t, m, ctx));
    case Seq(a, b) =>
      var x := Eval(a, depth, err);
      EvalSees(a, depth, err, ok);
      EvalSees(b, depth, x.err, ok);
      AllSeenJoin(x.trace, Eval(b, depth, x.err).trace, ok);
    case IfInstance(_, a, b) =>
      EvalSees(a, depth, err, ok);
      EvalSees(b, depth, err, ok);
    case Try(_, _, _, _) => BlockSees(p, depth, err, ok);
    case _ =>
  }

  lemma {:induction false} BlockSees(p: Prog, depth: nat, err: Err, ok: Err -> bool)
    requires p.Try? && ok(err) && Covers(p, ok)
    ensures var o := Eval(p, depth, err); ok(o.err) && AllSeen(o.trace, ok)
    decreases p, 1
  {
    if depth < MAX_FRAMES {
      PartsCovered(p, ok);
      var b := Eval(p.body, depth + 1, err);
      var h := if b.raised then EvalHandler(p, depth, b.err) else Outcome(false, b.err, []);
      var f := Eval(p.fin, depth + 1, h.err);
      assert Eval(p, depth, err) == WholeBlock(p.id, b, h, f);
      assert ok(TOO_MANY_FRAMES);
      hide Eval, EvalHandler, Covers, ThrownIn;
      EvalSees(p.body, depth + 1, err, ok);
      HandlerSees(p, depth, b.err, ok);
      EvalSees(p.fin, depth + 1, h.err, ok);
      hide AllSeen;
      NothingSeen(p.id, ok);
      AllSeenJoin([Entered(p.id)], b.trace, ok);
      AllSeenJoin([Entered(p.id)] + b.trace, h.trace, ok);
      AllSeenJoin([Entered(p.id)] + b.trace + h.trace, [Finally(p.id)], ok);
      AllSeenJoin([Entered(p.id)] + b.trace + h.trace + [Finally(p.id)], f.trace, ok);
      AllSeenJoin([Entered(p.id)] + b.trace + h.trace + [Finally(p.id)] + f.trace, [Left(p.id)], ok);
    }
  }

  lemma NothingSeen(id: int, ok: Err -> bool)
    ensures AllSeen([], ok) && AllSeen([Entered(id)], ok) && AllSeen([Finally(id)], ok) && AllSeen([Left(id)], ok)
  {
  }

  lemma {:induction false} HandlerSees(p: Prog, depth: nat, err: Err, ok: Err -> bool)
    requires p.Try? && ok(err) && Covers(p, ok)
    ensures var o := EvalHandler(p, depth, err); ok(o.err) && AllSeen(o.trace, ok)
    decreases p, 0
  {
    var r := FirstMatch(p.handlers, err);
    if r.Some? {
      var code := p.handlers[r.value].code;
      PartsCovered(p, ok);
      hide Eval;
      EvalSees(code, depth + 1, err, ok);
      AllSeenJoin([Caught(p.id, r.value, err)], Eval(code, depth + 1, err).trace, ok);
    }
  }

  /** Whatever a program does, what is seen was thrown in it, or is the error of too many blocks. */
  lemma EveryRunSees(p: Prog) returns (n: nat)
    ensures var r := Steps(Start(p), n);
            && Halted(r) && Known(p, NoErr, r.err)
            && AllSeen(r.trace, (e: Err) => Known(p, NoErr, e))
  {
    n := MachineImplementsSemantics(p);
    var ok := (e: Err) => Known(p, NoErr, e);
    EvalSees(p, 0, NoErr, ok);
  }
}
