/** What the totals are: for every file the time of parsing it without its imports, and the times of its stages. */
module ProfilingTotals {
  import opened Options
  import opened Profiling
  import opened ProfilingTimes
  import opened Sums

  // Read off the run alone

  /** The times of parsing between imports and headers. */
  function Befores(steps: seq<Step>): nat {
    if steps == [] then 0 else steps[0].before + Befores(steps[1..])
  }

  function StagesTime(stages: seq<StageRun>): nat {
    if stages == [] then 0 else (if stages[0].stage < 17 then stages[0].time else 0) + StagesTime(stages[1..])
  }

  /** The time that a file spends in one stage. */
  function StageTime(stages: seq<StageRun>, stage: nat): nat {
    if stages == [] then 0 else (if stages[0].stage == stage then stages[0].time else 0) + StageTime(stages[1..], stage)
  }

  /** The stages that a file gets to. */
  function StagesOf(run: FileRun): seq<StageRun> {
    if run.outcome in {Failed, Compiled} then run.stages else []
  }

  /** The time of parsing a file without its imports and headers. */
  function ParseTime(run: FileRun): nat {
    if run.outcome == Unreadable then 0 else Befores(run.steps) + run.rest
  }

  /** The time of a file alone. */
  function OwnTime(run: FileRun): nat {
    ParseTime(run) + StagesTime(StagesOf(run))
  }

  /** All files that are compiled, in the order in which they are started. */
  function Runs(run: FileRun): (runs: seq<FileRun>)
    ensures runs != []
    decreases run, 1
  {
    [run] + if run.outcome == Unreadable then [] else RunsOf(run.steps)
  }

  function RunsOf(steps: seq<Step>): seq<FileRun>
    decreases steps, 0
  {
    if steps == [] then [] else RunsOfStep(steps[0]) + RunsOf(steps[1..])
  }

  function RunsOfStep(step: Step): seq<FileRun>
    decreases step, 2
  {
    match step
    case Header(_, _) => []
    case Import(_, run) => Runs(run)
  }

  /** The time of all C headers. */
  function Headers(run: FileRun): nat
    decreases run, 1
  {
    if run.outcome == Unreadable then 0 else HeadersOf(run.steps)
  }

  function HeadersOf(steps: seq<Step>): nat
    decreases steps, 0
  {
    if steps == [] then 0 else HeadersOfStep(steps[0]) + HeadersOf(steps[1..])
  }

  function HeadersOfStep(step: Step): nat
    decreases step, 2
  {
    match step
    case Header(_, time) => time
    case Import(_, run) => Headers(run)
  }

  function OwnTimes(runs: seq<FileRun>): nat {
    if runs == [] then 0 else OwnTime(runs[0]) + OwnTimes(runs[1..])
  }

  lemma {:induction false} OwnTimesJoin(a: seq<FileRun>, b: seq<FileRun>)
    ensures OwnTimes(a + b) == OwnTimes(a) + OwnTimes(b)
    decreases |a|
  {
    if a == [] {
      assert a + b == b;
    } else {
      assert (a + b)[0] == a[0] && (a + b)[1..] == a[1..] + b;
      OwnTimesJoin(a[1..], b);
    }
  }

  /** Nothing throws. */
  predicate CalmRuns(runs: seq<FileRun>) {
    forall i :: 0 <= i < |runs| ==> !IsThrown(runs[i].outcome)
  }

  /** No file is started that is known already, and none is started twice. */
  predicate AllNew(files: seq<FileData>, runs: seq<FileRun>) {
    && (forall i, k :: 0 <= i < |runs| && 0 <= k < |files| ==> files[k].name != runs[i].name)
    && forall i, j :: 0 <= i < j < |runs| ==> runs[i].name != runs[j].name
  }

  // What a run leaves

  /** What is recorded of a file: its name, the time of its parsing and of each stage, and their total. */
  predicate Recorded(f: FileData, run: FileRun) {
    && f.name == run.name && f.total == OwnTime(run) && f.parseTime == ParseTime(run)
    && |f.stageTimes| == 17 && forall k :: 0 <= k < 17 ==> f.stageTimes[k] == StageTime(StagesOf(run), k)
  }

  /** From an index on, the data of these files. */
  predicate Listed(files: seq<FileData>, from: nat, runs: seq<FileRun>) {
    |files| == from + |runs| && forall i :: 0 <= i < |runs| ==> Recorded(files[from + i], runs[i])
  }

  predicate FileDone(a: State, b: State, runs: seq<FileRun>, headers: nat) {
    && b.enabled && b.active == None && a.now <= b.now
    && |a.files| <= |b.files| && b.files[..|a.files|] == a.files && Listed(b.files, |a.files|, runs)
    && b.cImport == a.cImport + headers && b.charged == a.charged + OwnTimes(runs) + headers
  }

  /** The active file is being parsed and its timer runs. */
  predicate Timed(st: State) {
    Ready(st) && !Active(st).parsePaused && Active(st).parseStart <= st.now
  }

  /** What its timer shows. */
  function Shown(st: State): nat
    requires Timed(st)
  {
    Active(st).parseAccum + (st.now - Active(st).parseStart)
  }

  /** What is charged, with what the timer will add. */
  function Due(st: State): nat
    requires Timed(st)
  {
    st.charged + (st.now - Active(st).parseStart)
  }

  predicate SameButTimer(f: FileData, g: FileData) {
    g == f.(parseStart := g.parseStart, parseAccum := g.parseAccum, parsePaused := g.parsePaused)
  }

  /** Some steps of the active file: its timer shows the time between them, and the files in between are listed. */
  predicate StepsDone(a: State, b: State, time: nat, runs: seq<FileRun>, headers: nat) {
    && Timed(a) && Timed(b) && b.active == a.active && a.now <= b.now && |a.files| <= |b.files|
    && (forall k :: 0 <= k < |a.files| && k != a.active.value ==> b.files[k] == a.files[k])
    && SameButTimer(Active(a), Active(b)) && Shown(b) == Shown(a) + time
    && Listed(b.files, |a.files|, runs)
    && b.cImport == a.cImport + headers && Due(b) == Due(a) + time + OwnTimes(runs) + headers
  }

  lemma StepsJoin(a: State, b: State, c: State, x: nat, y: nat, r: seq<FileRun>, s: seq<FileRun>, h: nat, k: nat)
    requires StepsDone(a, b, x, r, h) && StepsDone(b, c, y, s, k)
    ensures StepsDone(a, c, x + y, r + s, h + k)
  {
    hide Recorded, OwnTimes;
    OwnTimesJoin(r, s);
    forall i | 0 <= i < |r + s|
      ensures Recorded(c.files[|a.files| + i], (r + s)[i])
    {
      if i >= |r| {
        assert Recorded(c.files[|b.files| + (i - |r|)], s[i - |r|]);
      }
    }
  }

  lemma NewParts(files: seq<FileData>, r: seq<FileRun>, s: seq<FileRun>)
    requires AllNew(files, r + s) && CalmRuns(r + s)
    ensures AllNew(files, r) && CalmRuns(r) && CalmRuns(s)
  {
    assert forall i :: 0 <= i < |r| ==> r[i] == (r + s)[i];
    assert forall i :: 0 <= i < |s| ==> s[i] == (r + s)[|r| + i];
  }

  /** What is new stays new when some of it is listed. */
  lemma StillNew(files: seq<FileData>, r: seq<FileRun>, s: seq<FileRun>, more: seq<FileData>)
    requires AllNew(files, r + s) && |more| == |files| + |r|
    requires forall k :: 0 <= k < |files| ==> more[k].name == files[k].name
    requires forall i :: 0 <= i < |r| ==> more[|files| + i].name == r[i].name
    ensures AllNew(more, s)
  {
    assert forall i :: 0 <= i < |r| ==> r[i] == (r + s)[i];
    assert forall i :: 0 <= i < |s| ==> s[i] == (r + s)[|r| + i];
    forall i, k | 0 <= i < |s| && 0 <= k < |more|
      ensures more[k].name != s[i].name
    {
      if k >= |files| {
        assert more[|files| + (k - |files|)].name == r[k - |files|].name;
      }
    }
  }

  lemma NewAfter(a: State, b: State, r: seq<FileRun>, s: seq<FileRun>, headers: nat)
    requires FileDone(a, b, r, headers) && AllNew(a.files, r + s)
    ensures AllNew(b.files, s)
  {
    hide AllNew, OwnTimes;
    forall k | 0 <= k < |a.files|
      ensures b.files[k].name == a.files[k].name
    {
      assert b.files[k] == b.files[..|a.files|][k];
    }
    forall i | 0 <= i < |r|
      ensures b.files[|a.files| + i].name == r[i].name
    {
      assert Recorded(b.files[|a.files| + i], r[i]);
    }
    StillNew(a.files, r, s, b.files);
  }

  // One step

  /** Pausing stops the timer at what it shows and charges that. */
  lemma PausedFor(st: State, before: nat)
    requires Timed(st)
    ensures var p := ParsePause(Tick(st, before));
            && Ready(p) && p.active == st.active && p.enabled && p.now == st.now + before && p.cImport == st.cImport
            && Active(p) == Active(st).(parseAccum := Shown(st) + before, parsePaused := true)
            && p.files == st.files[st.active.value := Active(p)] && p.charged == Due(st) + before
  {
  }

  lemma Resumed(a: State, p: State, back: State, before: nat, runs: seq<FileRun>, headers: nat)
    requires Timed(a) && p == ParsePause(Tick(a, before))
    requires back.enabled && back.active == a.active && p.now <= back.now && |p.files| <= |back.files|
    requires back.files[..|p.files|] == p.files && Listed(back.files, |p.files|, runs)
    requires back.cImport == p.cImport + headers && back.charged == p.charged + OwnTimes(runs) + headers
    ensures StepsDone(a, ParseResume(back), before, runs, headers)
  {
    PausedFor(a, before);
    assert forall k :: 0 <= k < |p.files| ==> back.files[k] == back.files[..|p.files|][k];
  }

  lemma {:induction false} StepTotals(st: State, step: Step)
    requires Timed(st) && AllNew(st.files, RunsOfStep(step)) && CalmRuns(RunsOfStep(step))
    ensures StepsDone(st, RunStep(st, step), step.before, RunsOfStep(step), HeadersOfStep(step))
    decreases step, 3
  {
    var p := ParsePause(Tick(st, step.before));
    PausedFor(st, step.before);
    match step
    case Header(_, time) =>
      var back := RecordCImport(Tick(p, time), time);
      Resumed(st, p, back, step.before, [], time);
    case Import(_, run) =>
      assert AllNew(p.files, Runs(run));
      FileTotals(p, run);
      assert !IsThrown(Runs(run)[0].outcome);
      Resumed(st, p, RunFile(p, run).(active := st.active), step.before, Runs(run), Headers(run));
  }

  lemma {:induction false} StepsTotals(st: State, steps: seq<Step>)
    requires Timed(st) && AllNew(st.files, RunsOf(steps)) && CalmRuns(RunsOf(steps))
    ensures StepsDone(st, RunSteps(st, steps), Befores(steps), RunsOf(steps), HeadersOf(steps))
    decreases steps, 0
  {
    if steps != [] {
      var one, more := RunsOfStep(steps[0]), RunsOf(steps[1..]);
      NewParts(st.files, one, more);
      StepTotals(st, steps[0]);
      var next := RunStep(st, steps[0]);
      StillNew(st.files, one, more, next.files);
      StepsTotals(next, steps[1..]);
      StepsJoin(st, next, RunSteps(next, steps[1..]), steps[0].before, Befores(steps[1..]), one, more,
                HeadersOfStep(steps[0]), HeadersOf(steps[1..]));
    }
  }

  // The stages

  predicate StagesDone(a: State, b: State, stages: seq<StageRun>) {
    && Ready(a) && Ready(b) && b.active == a.active && b.now >= a.now && b.cImport == a.cImport
    && |Active(a).stageTimes| == |Active(b).stageTimes| == 17
    && Sum(Active(b).stageTimes) == Sum(Active(a).stageTimes) + StagesTime(stages)
    && (forall k :: 0 <= k < 17 ==> Active(b).stageTimes[k] == Active(a).stageTimes[k] + StageTime(stages, k))
    && b.files == a.files[a.active.value := Active(a).(stageTimes := Active(b).stageTimes)]
    && b.charged == a.charged + StagesTime(stages)
  }

  lemma {:induction false} StagesTotal(st: State, stages: seq<StageRun>, outcome: Outcome)
    requires Ready(st) && |Active(st).stageTimes| == 17 && !IsThrown(outcome)
    ensures StagesDone(st, RunStages(st, stages, outcome), if outcome in {Failed, Compiled} then stages else [])
    decreases |stages|
  {
    if stages == [] || !HasStages(outcome) {
      assert st.files == st.files[st.active.value := Active(st).(stageTimes := Active(st).stageTimes)];
    } else {
      var worked := Tick(st, stages[0].time);
      var next := RecordStage(worked, stages[0].stage, stages[0].time);
      if stages[0].stage < 17 {
        SumUpdate(Active(st).stageTimes, stages[0].stage, Active(st).stageTimes[stages[0].stage] + stages[0].time);
      }
      StagesTotal(next, stages[1..], outcome);
    }
  }

  // Whole files

  lemma {:induction false} FileTotals(st: State, run: FileRun)
    requires st.enabled && AllNew(st.files, Runs(run)) && CalmRuns(Runs(run))
    ensures FileDone(st, RunFile(st, run), Runs(run), Headers(run))
    decreases run, 2
  {
    var started := Tick(StartFile(st, run.name), run.reading);
    assert Runs(run)[0] == run;
    StartedNew(st, run);
    if run.outcome == Unreadable {
      UnreadableTotals(st, run);
    } else {
      var s0 := ParseStart(started);
      NewParts(st.files, [run], RunsOf(run.steps));
      StillNew(st.files, [run], RunsOf(run.steps), s0.files);
      StepsTotals(s0, run.steps);
      ReadTotals(st, run, RunSteps(s0, run.steps));
    }
  }

  /** The data of a file that is started for the first time. */
  lemma StartedNew(st: State, run: FileRun)
    requires st.enabled && forall k :: 0 <= k < |st.files| ==> st.files[k].name != run.name
    ensures StartFile(st, run.name) == st.(files := st.files + [Blank(run.name)], active := Some(|st.files|))
  {
  }

  lemma UnreadableTotals(st: State, run: FileRun)
    requires st.enabled && run.outcome == Unreadable
    requires forall k :: 0 <= k < |st.files| ==> st.files[k].name != run.name
    ensures FileDone(st, RunFile(st, run), [run], 0)
  {
    StartedNew(st, run);
    SumZeros(17);
    assert OwnTimes([run]) == OwnTime(run) by { assert [run][1..] == []; }
  }

  predicate NoStages(times: seq<nat>) {
    |times| == 17 && Sum(times) == 0 && forall k :: 0 <= k < 17 ==> times[k] == 0
  }

  /** The start of parsing a new file. */
  lemma Begun(st: State, run: FileRun)
    requires st.enabled && forall k :: 0 <= k < |st.files| ==> st.files[k].name != run.name
    ensures var s0, n := ParseStart(Tick(StartFile(st, run.name), run.reading)), |st.files|;
            && Timed(s0) && Shown(s0) == 0 && Due(s0) == st.charged && st.now <= s0.now && s0.cImport == st.cImport
            && s0.active == Some(n) && |s0.files| == n + 1 && s0.files[..n] == st.files
            && Active(s0).name == run.name && NoStages(Active(s0).stageTimes)
  {
    StartedNew(st, run);
    SumZeros(17);
  }

  /** The end of parsing, the stages, and the end of the file. */
  lemma ReadTotals(st: State, run: FileRun, s1: State)
    requires st.enabled && run.outcome != Unreadable && !IsThrown(run.outcome)
    requires forall k :: 0 <= k < |st.files| ==> st.files[k].name != run.name
    requires var s0 := ParseStart(Tick(StartFile(st, run.name), run.reading));
             s1 == RunSteps(s0, run.steps)
             && StepsDone(s0, s1, Befores(run.steps), RunsOf(run.steps), HeadersOf(run.steps))
    ensures FileDone(st, RunFile(st, run), Runs(run), Headers(run))
  {
    var s0 := ParseStart(Tick(StartFile(st, run.name), run.reading));
    var parsed := ParseStop(Tick(s1, run.rest));
    var staged := RunStages(parsed, run.stages, run.outcome);
    assert RunFile(st, run) == EndFile(staged);
    assert Runs(run) == [run] + RunsOf(run.steps) && Headers(run) == HeadersOf(run.steps);
    Begun(st, run);
    StoppedFor(s1, run.rest);
    hide RunFile, RunSteps, RunStages, StartFile, ParseStart, ParseStop, Sum, Runs, Headers, Befores;
    StagesTotal(parsed, run.stages, run.outcome);
    EndedFor(parsed, staged, run, |st.files|);
    hide EndFile;
    Assembled(st, s0, s1, parsed, staged, EndFile(staged), run);
  }

  lemma Assembled(st: State, s0: State, s1: State, parsed: State, staged: State, e: State, run: FileRun)
    requires st.enabled && run.outcome != Unreadable && e.enabled && e.active == None
    requires var n := |st.files|;
             && Timed(s0) && Shown(s0) == 0 && Due(s0) == st.charged && st.now <= s0.now && s0.cImport == st.cImport
             && s0.active == Some(n) && |s0.files| == n + 1 && s0.files[..n] == st.files && Active(s0).name == run.name
    requires StepsDone(s0, s1, Befores(run.steps), RunsOf(run.steps), HeadersOf(run.steps))
    requires Ready(parsed) && parsed.active == s1.active && parsed.now >= s1.now && parsed.cImport == s1.cImport
    requires parsed.files == s1.files[s1.active.value := Active(parsed)] && parsed.charged == Due(s1) + run.rest
    requires StagesDone(parsed, staged, StagesOf(run))
    requires e.now == staged.now && e.cImport == staged.cImport && e.charged == staged.charged
    requires |e.files| == |parsed.files|
    requires forall k :: 0 <= k < |e.files| && k != |st.files| ==> e.files[k] == parsed.files[k]
    requires |st.files| < |e.files| && Recorded(e.files[|st.files|], run)
    ensures FileDone(st, e, [run] + RunsOf(run.steps), HeadersOf(run.steps))
  {
    hide Befores, RunsOf, HeadersOf, StagesTime, StageTime, Sum;
    var n, more := |st.files|, RunsOf(run.steps);
    OwnTimesJoin([run], more);
    assert OwnTimes([run]) == OwnTime(run) by { assert [run][1..] == []; }
    assert e.files[..n] == st.files by {
      assert forall k :: 0 <= k < n ==> s0.files[k] == s0.files[..n][k] == s1.files[k];
    }
    hide Recorded;
    forall i | 0 <= i < |[run] + more|
      ensures Recorded(e.files[n + i], ([run] + more)[i])
    {
      if i > 0 {
        assert Recorded(s1.files[n + 1 + (i - 1)], more[i - 1]);
      }
    }
  }

  /** Stopping the timer records what it shows. */
  lemma StoppedFor(st: State, rest: nat)
    requires Timed(st)
    ensures var p := ParseStop(Tick(st, rest));
            && Ready(p) && p.active == st.active && p.now == st.now + rest && p.cImport == st.cImport
            && Active(p) == Active(st).(parseAccum := Shown(st) + rest, parseTime := Shown(st) + rest)
            && p.files == st.files[st.active.value := Active(p)] && p.charged == Due(st) + rest
  {
  }

  lemma EndedFor(parsed: State, staged: State, run: FileRun, n: nat)
    requires run.outcome != Unreadable && Ready(parsed) && Active(parsed).name == run.name
    requires StagesDone(parsed, staged, StagesOf(run))
    requires parsed.active == Some(n) && Active(parsed).parseTime == Befores(run.steps) + run.rest
    requires NoStages(Active(parsed).stageTimes)
    ensures var e := EndFile(staged);
            && |e.files| == |parsed.files|
            && (forall k :: 0 <= k < |e.files| && k != n ==> e.files[k] == parsed.files[k])
            && Recorded(e.files[n], run)
  {
  }

  // Totals

  lemma {:induction false} TotalsOfListed(files: seq<FileData>, from: nat, runs: seq<FileRun>)
    requires Listed(files, from, runs)
    ensures Totals(files) == Totals(files[..from]) + OwnTimes(runs)
    decreases |runs|
  {
    if runs == [] {
      assert files[..from] == files;
    } else {
      var last := |runs| - 1;
      var less := files[..|files| - 1];
      assert less[..from] == files[..from];
      TotalsOfListed(less, from, runs[..last]);
      assert runs[..last] + [runs[last]] == runs && files[|files| - 1] == files[from + last];
      OwnTimesJoin(runs[..last], [runs[last]]);
      assert [runs[last]][1..] == [];
    }
  }

  /**
   Every file that is compiled, directly or by imports, gets exactly the time of its own parsing and stages; together
   with the C headers that is exactly what is charged.
   */
  lemma TotalsAreExact(st: State, run: FileRun)
    requires st.enabled && AllNew(st.files, Runs(run)) && CalmRuns(Runs(run))
    ensures var after, n := RunFile(st, run), |st.files|;
            && Listed(after.files, n, Runs(run)) && after.files[..n] == st.files
            && after.cImport == st.cImport + Headers(run)
            && Totals(after.files) == Totals(st.files) + OwnTimes(Runs(run))
            && after.charged == st.charged + OwnTimes(Runs(run)) + Headers(run)
  {
    FileTotals(st, run);
    TotalsOfListed(RunFile(st, run).files, |st.files|, Runs(run));
  }
}
