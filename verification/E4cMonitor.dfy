/**
 An observer that knows nothing of frames or of the semantics: it only follows
 events with a stack of open blocks. Every run of the machine satisfies it.
 */
module E4cMonitor {
  import opened Options
  import opened E4cSemantics
  import opened E4cMachine
  import opened E4cCorrectness

  datatype Phase = InBody | InHandler | InFinally
  datatype Open = Open(id: int, phase: Phase)

  /**
   One event against the stack of open blocks: a handler may start only from the body
   of the innermost block, a finally part only once and before the block is left, and
   no more than 32 blocks are open.
   */
  function Observe(e: Event, stack: seq<Open>): Option<seq<Open>> {
    match e
    case Did(_, _) => Some(stack)
    case Entered(id) => if |stack| < MAX_FRAMES then Some(stack + [Open(id, InBody)]) else None
    case Caught(id, _, _) => Change(stack, id, {InBody}, InHandler)
    case Finally(id) => Change(stack, id, {InBody, InHandler}, InFinally)
    case Left(id) =>
      if stack != [] && stack[|stack| - 1] == Open(id, InFinally) then Some(stack[..|stack| - 1]) else None
  }

  function Change(stack: seq<Open>, id: int, from: set<Phase>, to: Phase): Option<seq<Open>> {
    var n := |stack|;
    if n > 0 && stack[n - 1].id == id && stack[n - 1].phase in from
    then Some(stack[..n - 1] + [Open(id, to)])
    else None
  }

  /** The stack after a whole trace, or `None` if some event is out of place. */
  function Watch(trace: seq<Event>, stack: seq<Open>): Option<seq<Open>>
    decreases |trace|
  {
    if trace == [] then Some(stack)
    else match Observe(trace[0], stack)
      case None => None
      case Some(s) => Watch(trace[1..], s)
  }

  lemma {:induction false} WatchAppend(a: seq<Event>, b: seq<Event>, s: seq<Open>, t: seq<Open>)
    requires Watch(a, s) == Some(t)
    ensures Watch(a + b, s) == Watch(b, t)
    decreases |a|
  {
    if a == [] {
      assert a + b == b;
    } else {
      assert (a + b)[0] == a[0] && (a + b)[1..] == a[1..] + b;
      WatchAppend(a[1..], b, Observe(a[0], s).value, t);
    }
  }

  lemma WatchOne(a: seq<Event>, e: Event, s: seq<Open>, t: seq<Open>, u: seq<Open>)
    requires Watch(a, s) == Some(t) && Observe(e, t) == Some(u)
    ensures Watch(a + [e], s) == Some(u)
  {
    WatchAppend(a, [e], s, t);
    assert [e][1..] == [];
    assert Watch([e], t) == Watch([], u);
  }

  /** A program closes every block that it opens, whether or not it raises an error. */
  lemma {:induction false} EvalIsOrderly(p: Prog, depth: nat, err: Err, stack: seq<Open>)
    requires |stack| == depth <= MAX_FRAMES
    ensures Watch(Eval(p, depth, err).trace, stack) == Some(stack)
    decreases p, 2
  {
    match p
    case Seq(a, b) =>
      var x := Eval(a, depth, err);
      EvalIsOrderly(a, depth, err, stack);
      if !x.raised {
        EvalIsOrderly(b, depth, x.err, stack);
        WatchAppend(x.trace, Eval(b, depth, x.err).trace, stack, stack);
      }
    case IfInstance(t, a, b) => EvalIsOrderly(if Matches(err, t) then a else b, depth, err, stack);
    case Try(_, _, _, _) =>
      if depth < MAX_FRAMES {
        TryIsOrderly(p, depth, err, stack);
      }
    case Act(n) => WatchOne([], Did(n, err), stack, stack, stack);
    case _ =>
  }

  lemma {:induction false} TryIsOrderly(p: Prog, depth: nat, err: Err, stack: seq<Open>)
    requires |stack| == depth < MAX_FRAMES && p.Try?
    ensures Watch(Eval(p, depth, err).trace, stack) == Some(stack)
    decreases p, 1
  {
    var b := Eval(p.body, depth + 1, err);
    var h := if b.raised then EvalHandler(p, depth, b.err) else Outcome(false, b.err, []);
    var f := Eval(p.fin, depth + 1, h.err);
    var inBody, inFinally := stack + [Open(p.id, InBody)], stack + [Open(p.id, InFinally)];
    var t := [Entered(p.id)] + b.trace;
    assert Eval(p, depth, err) == WholeBlock(p.id, b, h, f);
    assert Observe(Entered(p.id), stack) == Some(inBody);
    assert [] + [Entered(p.id)] == [Entered(p.id)] && Watch([], stack) == Some(stack);
    hide Eval, EvalHandler, Watch;
    WatchOne([], Entered(p.id), stack, stack, inBody);
    EvalIsOrderly(p.body, depth + 1, err, inBody);
    WatchAppend([Entered(p.id)], b.trace, stack, inBody);
    var before := CatchIsOrderly(p, depth, b, t, stack);
    WatchOne(t + h.trace, Finally(p.id), stack, before, inFinally);
    EvalIsOrderly(p.fin, depth + 1, h.err, inFinally);
    WatchAppend(t + h.trace + [Finally(p.id)], f.trace, stack, inFinally);
    WatchOne(t + h.trace + [Finally(p.id)] + f.trace, Left(p.id), stack, inFinally, stack);
  }

  /** The catch part of a block ends in the body of the block or in one of its handlers. */
  lemma {:induction false} CatchIsOrderly(p: Prog, depth: nat, b: Outcome, t: seq<Event>, stack: seq<Open>)
    returns (before: seq<Open>)
    requires |stack| == depth < MAX_FRAMES && p.Try? && Watch(t, stack) == Some(stack + [Open(p.id, InBody)])
    ensures before == stack + [Open(p.id, InBody)] || before == stack + [Open(p.id, InHandler)]
    ensures var h := if b.raised then EvalHandler(p, depth, b.err) else Outcome(false, b.err, []);
            Watch(t + h.trace, stack) == Some(before)
    decreases p, 0
  {
    hide Eval, Watch;
    before := stack + [Open(p.id, InBody)];
    if b.raised && FirstMatch(p.handlers, b.err).Some? {
      var i := FirstMatch(p.handlers, b.err).value;
      var caught, inHandler := Caught(p.id, i, b.err), stack + [Open(p.id, InHandler)];
      var code := Eval(p.handlers[i].code, depth + 1, b.err).trace;
      EvalIsOrderly(p.handlers[i].code, depth + 1, b.err, inHandler);
      WatchOne(t, caught, stack, before, inHandler);
      WatchAppend(t + [caught], code, stack, inHandler);
      assert t + ([caught] + code) == t + [caught] + code;
      before := inHandler;
    } else {
      assert t + [] == t;
    }
  }

  datatype What = Entries | Handlers | Finallies

  function Weight(e: Event, what: What, id: int): nat {
    match what
    case Entries => if e == Entered(id) then 1 else 0
    case Handlers => if e.Caught? && e.id == id then 1 else 0
    case Finallies => if e == Finally(id) then 1 else 0
  }

  /** How often block `id` was entered, had a handler run, or had its finally part run. */
  function Count(trace: seq<Event>, what: What, id: int): nat {
    if trace == [] then 0 else Weight(trace[0], what, id) + Count(trace[1..], what, id)
  }

  function OpenCount(stack: seq<Open>, id: int, phases: set<Phase>): nat {
    if stack == [] then 0
    else
      var o := stack[|stack| - 1];
      (if o.id == id && o.phase in phases then 1 else 0) + OpenCount(stack[..|stack| - 1], id, phases)
  }

  /** What the observer accepts has one finally per entry and at most one handler per entry. */
  lemma {:induction false} OrderlyCounts(trace: seq<Event>, s: seq<Open>, t: seq<Open>, id: int)
    requires Watch(trace, s) == Some(t)
    ensures Count(trace, Entries, id) + OpenCount(s, id, {InBody, InHandler})
         == Count(trace, Finallies, id) + OpenCount(t, id, {InBody, InHandler})
    ensures Count(trace, Handlers, id) + OpenCount(t, id, {InBody})
         <= Count(trace, Entries, id) + OpenCount(s, id, {InBody})
    decreases |trace|
  {
    if trace != [] {
      var u := Observe(trace[0], s).value;
      ObserveCounts(trace[0], s, u, id);
      OrderlyCounts(trace[1..], u, t, id);
    }
  }

  lemma ObserveCounts(e: Event, s: seq<Open>, u: seq<Open>, id: int)
    requires Observe(e, s) == Some(u)
    ensures OpenCount(u, id, {InBody, InHandler}) - OpenCount(s, id, {InBody, InHandler})
         == Weight(e, Entries, id) - Weight(e, Finallies, id)
    ensures Weight(e, Handlers, id) + OpenCount(u, id, {InBody})
         <= Weight(e, Entries, id) + OpenCount(s, id, {InBody})
  {
    hide OpenCount;
    if s != [] {
      TopCount(s, id, {InBody, InHandler});
      TopCount(s, id, {InBody});
    }
    if e.Entered? {
      assert u[..|u| - 1] == s;
    }
    if e.Caught? || e.Finally? {
      assert u[..|u| - 1] == s[..|s| - 1];
    }
    if u != [] && !e.Left? {
      TopCount(u, id, {InBody, InHandler});
      TopCount(u, id, {InBody});
    }
  }

  lemma TopCount(s: seq<Open>, id: int, phases: set<Phase>)
    requires s != []
    ensures var top := s[|s| - 1];
            OpenCount(s, id, phases)
            == OpenCount(s[..|s| - 1], id, phases) + if top.id == id && top.phase in phases then 1 else 0
  {
  }

  lemma EveryRunIsOrderly(p: Prog, id: int) returns (n: nat)
    ensures var r := Steps(Start(p), n);
            && Halted(r)
            && Watch(r.trace, []) == Some([])
            && Count(r.trace, Finallies, id) == Count(r.trace, Entries, id)
            && Count(r.trace, Handlers, id) <= Count(r.trace, Entries, id)
  {
    n := MachineImplementsSemantics(p);
    EvalIsOrderly(p, 0, NoErr, []);
    OrderlyCounts(Steps(Start(p), n).trace, [], [], id);
  }
}
