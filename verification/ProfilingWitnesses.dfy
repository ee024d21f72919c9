/** Runs in which times are charged to the wrong file, or twice. */
module ProfilingWitnesses {
  import opened Options
  import opened Profiling
  import opened ProfilingFlags
  import opened ProfilingTimes
  import opened Sums

  function Enabled(now: nat): State {
    State([], None, 0, now, true, now, 0)
  }

  function Data(name: string, parseTime: nat, total: nat, start: nat, accum: nat, paused: bool): FileData {
    FileData(name, parseTime, Zeros(STAGES), total, start, accum, paused)
  }

  function At(files: seq<FileData>, active: nat, wallStart: nat, now: nat, charged: nat): State {
    State(files, Some(active), 0, wallStart, true, now, charged)
  }

  /** A file that does one thing or none while it is parsed, unfolded. */
  lemma ShortFile(st: State, run: FileRun, begun: State, read: State)
    requires |run.steps| <= 1 && run.stages == [] && run.reading == 0
    requires run.outcome == NotAModule || run.outcome == NotParsed || run.outcome == Thrown
    requires begun == ParseStart(Tick(StartFile(st, run.name), 0))
    requires read == if run.steps == [] then begun else RunStep(begun, run.steps[0])
    ensures var end := Tick(read, run.rest);
            RunFile(st, run) == if run.outcome == Thrown then end else EndFile(ParseStop(end))
  {
    if run.steps != [] {
      assert run.steps[1..] == [];
      assert RunSteps(begun, run.steps) == RunSteps(read, []);
    }
    assert RunSteps(begun, run.steps) == read;
    var parsed := RunParse(Tick(StartFile(st, run.name), 0), run);
    assert RunStages(parsed, run.stages, run.outcome) == parsed;
  }

  lemma NewFiles(a: FileData, name: string)
    requires name != a.name
    ensures Find([], name) == 0 && Find([a], name) == 1 && Find([a], a.name) == 0
  {
    assert [a][..0] == [];
  }

  lemma FoundAgain(a: FileData, b: FileData)
    ensures Find([a, b], a.name) == 0
  {
    assert [a, b][..1] == [a] && [a][..0] == [];
  }

  // A throw out of an import

  /** The file whose parser threw stays active, and the timer of the importing file stays paused. */
  lemma ThrownImportLeavesTimer(st: State, fl: Flags, before: nat, run: FileRun)
    requires Agree(st, fl) && run.outcome == Thrown && run.steps == [] && run.name != fl.active
    ensures var after := RunStep(st, Import(before, run));
            && Ready(after) && Active(after).name == run.name && !Active(after).parsePaused
            && st.active.value < |after.files| && after.files[st.active.value].name == fl.active
            && after.files[st.active.value].parsePaused
  {
    hide RunStep, RunFile;
    StepAgrees(st, fl, Import(before, run));
    assert AfterSteps(Run(Pause(fl).(active := run.name)), []) == Run(Pause(fl).(active := run.name));
    assert AfterStep(fl, Import(before, run)) == Flags(run.name, fl.paused + {fl.active} - {run.name});
    var after := RunStep(st, Import(before, run));
    assert after.files[st.active.value].name == fl.active;
  }

  /** The rest of the importing file is charged to the file that was left. */
  lemma ThrownImportWitness(now: nat, before: nat, inner: nat, rest: nat)
    ensures var b := FileRun("b", 0, [], inner, Thrown, []);
            var after := RunFile(Enabled(now), FileRun("a", 0, [Import(before, b)], rest, NotParsed, []));
            && |after.files| == 2 && after.files[0].name == "a" && after.files[1].name == "b"
            && after.files[0].total == 0 && after.files[0].parseTime == 0
            && after.files[1].total == inner + rest
  {
    hide RunFile, RunSteps, RunParse, RunStages;
    SumZeros(STAGES);
    var b := FileRun("b", 0, [], inner, Thrown, []);
    var a := FileRun("a", 0, [Import(before, b)], rest, NotParsed, []);
    var blank := Data("a", 0, 0, 0, 0, false);
    NewFiles(blank, "b");
    var started := At([Data("a", 0, 0, now, 0, false)], 0, now, now, 0);
    assert [] + [blank] == [blank];
    assert ParseStart(Tick(StartFile(Enabled(now), "a"), 0)) == started;
    var a1 := Data("a", 0, 0, now, before, true);
    NewFiles(a1, "b");
    var paused := At([a1], 0, now, now + before, before);
    assert ParsePause(Tick(started, before)) == paused;
    var read := At([a1, Data("b", 0, 0, now + before, 0, false)], 1, now, now + before + inner, before);
    assert [a1] + [Blank("b")] == [a1, Blank("b")];
    var begun := At([a1, Data("b", 0, 0, now + before, 0, false)], 1, now, now + before, before);
    assert ParseStart(Tick(StartFile(paused, "b"), 0)) == begun;
    ShortFile(paused, b, begun, begun);
    assert RunStep(started, Import(before, b)) == read;
    ShortFile(Enabled(now), a, started, read);
    var spent := inner + rest;
    var b1 := Data("b", spent, 0, now + before, spent, false);
    var stopped := At([a1, b1], 1, now, now + before + spent, before + spent);
    assert ParseStop(Tick(read, rest)) == stopped;
  }

  // A file that its own import imports again

  /** The times of `a`, which imports `b` after `p`, which imports `a` after `q`, and of what is left of the three. */
  datatype Circle = Circle(p: nat, q: nat, inner: nat, middle: nat, outer: nat)

  function Inner(c: Circle): FileRun {
    FileRun("a", 0, [], c.inner, NotAModule, [])
  }

  function Middle(c: Circle): FileRun {
    FileRun("b", 0, [Import(c.q, Inner(c))], c.middle, NotAModule, [])
  }

  function Outer(c: Circle): FileRun {
    FileRun("a", 0, [Import(c.p, Middle(c))], c.outer, NotAModule, [])
  }

  /**
   The inner `a` starts the paused timer again, so that its time and that of the rest of `b` are charged to `a` once
   more, and what was charged before is forgotten: the totals exceed the elapsed time exactly if that is less.
   */
  lemma CircularImportWitness(c: Circle)
    ensures var after := RunFile(Enabled(0), Outer(c));
            && after.now == c.p + c.q + c.inner + c.middle + c.outer
            && Totals(after.files) == after.now + c.inner + c.middle - c.p
  {
    hide RunFile, RunSteps, RunParse, RunStages;
    SumZeros(STAGES);
    OuterRun(c);
    var t := c.inner + c.inner + c.middle + c.outer;
    var a2, b1 := Data("a", t, t, c.p + c.q, t, false),
                  Data("b", c.q + c.middle, c.q + c.middle, c.p + c.q + c.inner, c.q + c.middle, false);
    assert [a2, b1][..1] == [a2] && [a2][..0] == [];
    assert Totals([]) == 0 && Totals([a2]) == t;
  }

  /** `a` while `b` is imported, and the data of both after the inner run of `a`. */
  function AwayA(c: Circle): FileData {
    Data("a", 0, 0, 0, c.p, true)
  }

  function InnerA(c: Circle): FileData {
    Data("a", c.inner, c.inner, c.p + c.q, c.inner, false)
  }

  lemma InnerRun(c: Circle, b: FileData)
    requires b == Data("b", 0, 0, c.p, c.q, true)
    ensures RunFile(At([AwayA(c), b], 1, 0, c.p + c.q, c.p + c.q), Inner(c))
         == At([InnerA(c), b], 0, 0, c.p + c.q + c.inner, c.p + c.q + c.inner).(active := None)
  {
    hide RunFile, RunSteps, RunParse, RunStages;
    SumZeros(STAGES);
    var now := c.p + c.q;
    var st := At([AwayA(c), b], 1, 0, now, now);
    FoundAgain(AwayA(c), b);
    assert StartFile(st, "a") == At([Data("a", 0, 0, 0, 0, false), b], 0, 0, now, now);
    var started := At([Data("a", 0, 0, now, 0, false), b], 0, 0, now, now);
    assert ParseStart(Tick(StartFile(st, "a"), 0)) == started;
    ShortFile(st, Inner(c), started, started);
    var stopped := Data("a", c.inner, 0, now, c.inner, false);
    assert ParseStop(Tick(started, c.inner)) == At([stopped, b], 0, 0, now + c.inner, now + c.inner);
  }

  function DoneB(c: Circle): FileData {
    Data("b", c.q + c.middle, c.q + c.middle, c.p + c.q + c.inner, c.q + c.middle, false)
  }

  lemma MiddleRun(c: Circle)
    ensures var end := c.p + c.q + c.inner + c.middle;
            RunFile(At([AwayA(c)], 0, 0, c.p, c.p), Middle(c))
            == At([InnerA(c), DoneB(c)], 1, 0, end, end).(active := None)
  {
    hide RunFile, RunSteps, RunParse, RunStages;
    SumZeros(STAGES);
    var a := AwayA(c);
    var st := At([a], 0, 0, c.p, c.p);
    NewFiles(a, "b");
    assert [a] + [Blank("b")] == [a, Blank("b")];
    var started := At([a, Data("b", 0, 0, c.p, 0, false)], 1, 0, c.p, c.p);
    assert ParseStart(Tick(StartFile(st, "b"), 0)) == started;
    var now := c.p + c.q;
    var b := Data("b", 0, 0, c.p, c.q, true);
    assert ParsePause(Tick(started, c.q)) == At([a, b], 1, 0, now, now);
    InnerRun(c, b);
    var t := now + c.inner;
    var back := At([InnerA(c), Data("b", 0, 0, t, c.q, false)], 1, 0, t, t);
    assert RunStep(started, Import(c.q, Inner(c))) == back;
    ShortFile(st, Middle(c), started, back);
    var stopped := Data("b", c.q + c.middle, 0, t, c.q + c.middle, false);
    assert ParseStop(Tick(back, c.middle)) == At([InnerA(c), stopped], 1, 0, t + c.middle, t + c.middle);
  }

  lemma OuterRun(c: Circle)
    ensures var t, end := c.inner + c.inner + c.middle + c.outer, c.p + c.q + c.inner + c.middle + c.outer;
            RunFile(Enabled(0), Outer(c))
            == At([Data("a", t, t, c.p + c.q, t, false), DoneB(c)], 0, 0, end, end + c.inner + c.middle)
               .(active := None)
  {
    hide RunFile, RunSteps, RunParse, RunStages;
    SumZeros(STAGES);
    var blank := Data("a", 0, 0, 0, 0, false);
    NewFiles(blank, "b");
    var started := At([blank], 0, 0, 0, 0);
    assert [] + [blank] == [blank];
    assert ParseStart(Tick(StartFile(Enabled(0), "a"), 0)) == started;
    assert ParsePause(Tick(started, c.p)) == At([AwayA(c)], 0, 0, c.p, c.p);
    MiddleRun(c);
    var now := c.p + c.q + c.inner + c.middle;
    var back := At([InnerA(c), DoneB(c)], 0, 0, now, now);
    assert RunStep(started, Import(c.p, Middle(c))) == back;
    ShortFile(Enabled(0), Outer(c), started, back);
    var t, end := c.inner + c.inner + c.middle + c.outer, now + c.outer;
    var stopped := Data("a", t, c.inner, c.p + c.q, t, false);
    assert ParseStop(Tick(back, c.outer)) == At([stopped, DoneB(c)], 0, 0, end, end + c.inner + c.middle);
  }
}
