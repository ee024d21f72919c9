/** What the operations charge, and that the totals of the files never account for more than that. */
module ProfilingTimes {
  import opened Profiling
  import opened Sums

  // The totals are covered by what was charged

  /** The most that the data of a file accounts for, now or when the file ends. */
  function Claimed(f: FileData): nat {
    var parse := if f.parseTime > f.parseAccum then f.parseTime else f.parseAccum;
    var measured := parse + Sum(f.stageTimes);
    if f.total > measured then f.total else measured
  }

  function ClaimedByAll(files: seq<FileData>): nat {
    if files == [] then 0 else ClaimedByAll(files[..|files| - 1]) + Claimed(files[|files| - 1])
  }

  /** The sum of the totals of all files. */
  function Totals(files: seq<FileData>): nat {
    if files == [] then 0 else Totals(files[..|files| - 1]) + files[|files| - 1].total
  }

  predicate Covered(st: State) {
    ClaimedByAll(st.files) + st.cImport <= st.charged
  }

  lemma {:induction false} TotalsAreClaimed(files: seq<FileData>)
    ensures Totals(files) <= ClaimedByAll(files)
    decreases |files|
  {
    if files != [] {
      TotalsAreClaimed(files[..|files| - 1]);
    }
  }

  lemma {:induction false} ClaimedUpdate(files: seq<FileData>, i: nat, f: FileData)
    requires i < |files|
    ensures ClaimedByAll(files[i := f]) == ClaimedByAll(files) - Claimed(files[i]) + Claimed(f)
    decreases |files|
  {
    var last := |files| - 1;
    if i == last {
      assert files[i := f][..last] == files[..last];
    } else {
      assert files[i := f][..last] == files[..last][i := f];
      ClaimedUpdate(files[..last], i, f);
    }
  }

  lemma StartFileCovered(st: State, name: string)
    requires Covered(st)
    ensures Covered(StartFile(st, name))
  {
    var i := Find(st.files, name);
    var files := if i < |st.files| then st.files else st.files + [Blank(name)];
    if i == |st.files| {
      SumZeros(STAGES);
      assert files[..i] == st.files;
      assert ClaimedByAll(files) == ClaimedByAll(st.files) + Claimed(Blank(name));
    }
    ClaimedUpdate(files, i, files[i].(parseAccum := 0, parsePaused := false));
  }

  /** New data that claims as much more as is charged. */
  lemma ChargeCovered(st: State, f: FileData, d: nat)
    requires Ready(st) && Covered(st) && Claimed(f) <= Claimed(Active(st)) + d
    ensures Covered(Charge(st, f, d))
  {
    ClaimedUpdate(st.files, st.active.value, f);
  }

  lemma StartCovered(st: State)
    requires Covered(st)
    ensures Covered(ParseStart(st)) && Covered(ParseResume(st))
  {
    if Ready(st) {
      ChargeCovered(st, Active(st).(parseStart := st.now, parsePaused := false), 0);
    }
  }

  lemma PauseCovered(st: State)
    requires Covered(st)
    ensures Covered(ParsePause(st))
  {
    if Ready(st) {
      var f := Active(st);
      var d := Elapsed(f.parseStart, st.now);
      ChargeCovered(st, f.(parseAccum := f.parseAccum + d, parsePaused := true), d);
    }
  }

  lemma StopCovered(st: State)
    requires Covered(st)
    ensures Covered(ParseStop(st))
  {
    if Ready(st) {
      var f := Active(st);
      var d := if f.parsePaused then 0 else Elapsed(f.parseStart, st.now);
      var accum := f.parseAccum + d;
      ChargeCovered(st, f.(parseAccum := accum, parseTime := accum, parsePaused := false), d);
    }
  }

  lemma EndFileCovered(st: State)
    requires Covered(st)
    ensures Covered(EndFile(st))
  {
    if Ready(st) {
      var f := Active(st);
      ChargeCovered(st, f.(total := f.parseTime + Sum(f.stageTimes)), 0);
    }
  }

  lemma RecordStageCovered(st: State, stage: nat, duration: nat)
    requires Covered(st)
    ensures Covered(RecordStage(st, stage, duration))
  {
    if Ready(st) && stage < |Active(st).stageTimes| {
      var f := Active(st);
      SumUpdate(f.stageTimes, stage, f.stageTimes[stage] + duration);
      ChargeCovered(st, f.(stageTimes := f.stageTimes[stage := f.stageTimes[stage] + duration]), duration);
    }
  }

  // Whole runs, whatever they do

  /** Time passes, charges are never taken back, and they cover the totals. */
  predicate Grows(a: State, b: State) {
    a.charged <= b.charged && a.now <= b.now && a.wallStart == b.wallStart && a.enabled == b.enabled
    && (Covered(a) ==> Covered(b))
  }

  lemma {:induction false} FileGrows(st: State, run: FileRun)
    ensures Grows(st, RunFile(st, run))
    decreases run, 2
  {
    if Covered(st) {
      StartFileCovered(st, run.name);
    }
    var parsed := RunParse(Tick(StartFile(st, run.name), run.reading), run);
    ParseGrows(Tick(StartFile(st, run.name), run.reading), run);
    StagesGrow(parsed, run.stages, run.outcome);
    var staged := RunStages(parsed, run.stages, run.outcome);
    if Covered(staged) {
      EndFileCovered(staged);
    }
  }

  lemma {:induction false} ParseGrows(st: State, run: FileRun)
    ensures Grows(st, RunParse(st, run))
    decreases run, 1
  {
    if run.outcome != Unreadable {
      if Covered(st) {
        StartCovered(st);
      }
      StepsGrow(ParseStart(st), run.steps);
      var read := Tick(RunSteps(ParseStart(st), run.steps), run.rest);
      if Covered(read) {
        StopCovered(read);
      }
    }
  }

  lemma {:induction false} StepsGrow(st: State, steps: seq<Step>)
    ensures Grows(st, RunSteps(st, steps))
    decreases steps, 0
  {
    if steps != [] {
      StepGrows(st, steps[0]);
      StepsGrow(RunStep(st, steps[0]), steps[1..]);
    }
  }

  lemma {:induction false} StepGrows(st: State, step: Step)
    ensures Grows(st, RunStep(st, step))
    decreases step, 3
  {
    var worked := Tick(st, step.before);
    if Covered(worked) {
      PauseCovered(worked);
    }
    var paused := ParsePause(worked);
    match step
    case Header(_, time) =>
      var recorded := RecordCImport(Tick(paused, time), time);
      if Covered(recorded) {
        StartCovered(recorded);
      }
    case Import(_, run) =>
      FileGrows(paused, run);
      var back := RunFile(paused, run).(active := st.active);
      if Covered(back) {
        StartCovered(back);
      }
  }

  lemma {:induction false} StagesGrow(st: State, stages: seq<StageRun>, outcome: Outcome)
    ensures Grows(st, RunStages(st, stages, outcome))
    decreases |stages|
  {
    if stages != [] && HasStages(outcome) {
      var worked := Tick(st, stages[0].time);
      if Covered(st) {
        RecordStageCovered(worked, stages[0].stage, stages[0].time);
      }
      StagesGrow(RecordStage(worked, stages[0].stage, stages[0].time), stages[1..], outcome);
    }
  }

  /** The totals of all files and the time of C imports are never more than what was charged. */
  lemma TotalsAreCharged(st: State, run: FileRun)
    requires Covered(st)
    ensures var after := RunFile(st, run); Totals(after.files) + after.cImport <= after.charged
  {
    FileGrows(st, run);
    TotalsAreClaimed(RunFile(st, run).files);
  }
}
