/** No instant is charged twice, at any times of the parts of a run, exactly if the run is proper. */
module ProfilingExact {
  import opened Profiling
  import opened ProfilingFlags
  import opened ProfilingRuns
  import opened ProfilingTimes
  import opened ProfilingTimings

  /** What a run charges is no more than the time it takes. */
  predicate Fits(st: State, run: FileRun) {
    var after := RunFile(st, run);
    after.charged - st.charged <= after.now - st.now
  }

  /** One unit of time after `t`, two were charged; or one was, and the timer that runs was started before. */
  predicate Pending(st: State, base: nat, t: nat) {
    st.charged >= base + 2
    || (Ready(st) && !Active(st).parsePaused && Active(st).parseStart <= t && st.now == t + 1
        && st.charged >= base + 1)
  }

  lemma StepSettles(st: State, step: Step, base: nat, t: nat)
    requires Pending(st, base, t)
    ensures RunStep(st, step).charged >= base + 2
  {
    StepGrows(st, step);
    var paused := ParsePause(Tick(st, step.before));
    match step
    case Header(_, time) =>
    case Import(_, run) => FileGrows(paused, run);
  }

  lemma StepsSettle(st: State, steps: seq<Step>, base: nat, t: nat)
    requires Pending(st, base, t)
    ensures Pending(RunSteps(st, steps), base, t)
  {
    if steps != [] {
      StepSettles(st, steps[0], base, t);
      StepsGrow(RunStep(st, steps[0]), steps[1..]);
    }
  }

  lemma {:induction false} StagesPend(st: State, stages: seq<StageRun>, outcome: Outcome, base: nat, t: nat)
    requires Pending(st, base, t) && UntimedStages(stages) == stages
    ensures Pending(RunStages(st, stages, outcome), base, t)
    decreases |stages|
  {
    if stages != [] && HasStages(outcome) {
      StagesPend(RecordStage(Tick(st, 0), stages[0].stage, 0), stages[1..], outcome, base, t);
    }
  }

  // A time at which a run that is not proper charges an instant twice

  /** Before `t` is over nothing was charged, and all timers were started by then. */
  predicate Early(st: State, base: nat, t: nat) {
    st.now == t && st.charged >= base && StartedBy(st, t)
  }

  lemma {:induction false} FileOverlaps(st: State, fl: Flags, run: FileRun, base: nat, t: nat) returns (timed: FileRun)
    requires Sound(st, fl.paused) && Early(st, base, t) && Untimed(run) == run && !Proper(fl, run)
    ensures Untimed(timed) == run && timed.outcome == run.outcome && RunFile(st, timed).now == t + 1
    ensures Pending(RunFile(st, timed), base, t)
    ensures !IsThrown(run.outcome) ==> RunFile(st, timed).charged >= base + 2
    decreases run, 2
  {
    var begun := ParseStart(Tick(StartFile(st, run.name), 0));
    var flags := Run(fl.(active := run.name));
    BegunEarly(st, fl, run, base, t);
    var steps := StepsOverlap(begun, flags, run.steps, base, t);
    timed := run.(steps := steps);
    ParseOverlaps(st, timed, RunSteps(begun, steps), base, t);
  }

  lemma BegunEarly(st: State, fl: Flags, run: FileRun, base: nat, t: nat)
    requires Sound(st, fl.paused) && Early(st, base, t)
    ensures var begun := ParseStart(Tick(StartFile(st, run.name), 0));
            Agree(begun, Run(fl.(active := run.name))) && Early(begun, base, t)
  {
    var flags := Run(fl.(active := run.name));
    StartAgrees(st, fl.paused, run.name);
    OperationsAgree(StartFile(st, run.name), flags);
    assert Run(flags) == flags;
    OperationsStill(st, run.name, t);
    OperationsStill(StartFile(st, run.name), "", t);
  }

  /** The rest of a file in which an instant is charged twice. */
  lemma ParseOverlaps(st: State, run: FileRun, read: State, base: nat, t: nat)
    requires run.outcome != Unreadable && run.reading == run.rest == 0 && UntimedStages(run.stages) == run.stages
    requires read == RunSteps(ParseStart(Tick(StartFile(st, run.name), 0)), run.steps)
    requires Pending(read, base, t) && read.now == t + 1
    ensures Pending(RunFile(st, run), base, t) && RunFile(st, run).now == t + 1
    ensures !IsThrown(run.outcome) ==> RunFile(st, run).charged >= base + 2
  {
    var started := Tick(StartFile(st, run.name), 0);
    assert Tick(read, 0) == read;
    var parsed := RunParse(started, run);
    StagesPend(parsed, run.stages, run.outcome, base, t);
    StagesGrow(parsed, run.stages, run.outcome);
    StagesStill(parsed, run.stages, run.outcome, t);
  }

  lemma {:induction false} StepsOverlap(st: State, fl: Flags, steps: seq<Step>, base: nat, t: nat)
    returns (timed: seq<Step>)
    requires Agree(st, fl) && fl.active !in fl.paused && Early(st, base, t)
    requires UntimedSteps(steps) == steps && !ProperSteps(fl, steps)
    ensures UntimedSteps(timed) == steps
    ensures Pending(RunSteps(st, timed), base, t) && RunSteps(st, timed).now == t + 1
    decreases steps, 0
  {
    if ProperStep(fl, steps[0]) {
      StepAgrees(st, fl, steps[0]);
      StepStill(st, steps[0], t);
      StepGrows(st, steps[0]);
      ActiveRunsAfterStep(fl, steps[0]);
      var rest := StepsOverlap(RunStep(st, steps[0]), AfterStep(fl, steps[0]), steps[1..], base, t);
      timed := [steps[0]] + rest;
      assert timed[1..] == rest;
    } else {
      var step := StepOverlaps(st, fl, steps[0], base, t);
      timed := [step] + steps[1..];
      assert timed[1..] == steps[1..];
      StepsSettle(RunStep(st, step), steps[1..], base, t);
      StepsStill(RunStep(st, step), steps[1..], t);
    }
  }

  lemma {:induction false} StepOverlaps(st: State, fl: Flags, step: Step, base: nat, t: nat) returns (timed: Step)
    requires Agree(st, fl) && fl.active !in fl.paused && Early(st, base, t)
    requires UntimedStep(step) == step && !ProperStep(fl, step)
    ensures UntimedStep(timed) == step
    ensures Pending(RunStep(st, timed), base, t) && RunStep(st, timed).now == t + 1
    decreases step, 3
  {
    var run := step.run;
    if !Proper(Pause(fl), run) {
      assert Tick(st, 0) == st;
      OperationsAgree(st, fl);
      OperationsStill(st, "", t);
      var inner := FileOverlaps(ParsePause(st), Pause(fl), run, base, t);
      timed := Import(0, inner);
    } else if run.outcome == Unreadable {
      timed := Import(1, run);
      RestartOverlaps(st, fl, run, base, t);
    } else {
      timed := Import(0, run.(rest := 1));
      ReturnOverlaps(st, fl, run, base, t);
    }
  }

  /** The importing file itself, which cannot be read any more: its timer goes on from where it was started. */
  lemma RestartOverlaps(st: State, fl: Flags, run: FileRun, base: nat, t: nat)
    requires Agree(st, fl) && fl.active !in fl.paused && Early(st, base, t)
    requires Untimed(run) == run && run.outcome == Unreadable && !ProperStep(fl, Import(0, run))
    ensures Pending(RunStep(st, Import(1, run)), base, t) && RunStep(st, Import(1, run)).now == t + 1
  {
    assert run.name == fl.active;
    var worked := Tick(st, 1);
    OperationsAgree(worked, fl);
    var paused := ParsePause(worked);
    var started := StartFile(paused, run.name);
    Restarted(paused, Pause(fl), run.name);
    assert RunFile(paused, run) == EndFile(Tick(started, 0));
    var back := EndFile(started).(active := st.active);
    assert RunStep(st, Import(1, run)) == ParseResume(back);
  }

  lemma Restarted(st: State, fl: Flags, name: string)
    requires Agree(st, fl) && name == fl.active
    ensures StartFile(st, name) == WithActive(st, Active(st).(parseAccum := 0, parsePaused := false))
  {
  }

  /** A timer runs at the end of parsing, which takes some time, and is stopped but not started anew. */
  lemma StopLate(read: State, fl: Flags, stages: seq<StageRun>, outcome: Outcome, base: nat, t: nat)
    requires Agree(read, fl) && fl.active !in fl.paused && Early(read, base, t) && UntimedStages(stages) == stages
    ensures var staged := RunStages(ParseStop(Tick(read, 1)), stages, outcome);
            Pending(staged, base, t) && staged.charged >= base + 1 && staged.now == t + 1 && StartedBy(staged, t)
  {
    var stopped := ParseStop(Tick(read, 1));
    OperationsStill(Tick(read, 1), "", t);
    StagesPend(stopped, stages, outcome, base, t);
    StagesGrow(stopped, stages, outcome);
    StagesStill(stopped, stages, outcome, t);
  }

  lemma FileEndsLate(st: State, fl: Flags, run: FileRun, base: nat, t: nat)
    requires Sound(st, fl.paused) && Early(st, base, t) && Untimed(run) == run
    requires run.outcome != Unreadable && run.outcome != Thrown
    ensures var after := RunFile(st, run.(rest := 1));
            && after.charged >= base + 1 && after.now == t + 1 && StartedBy(after, t)
            && (run.outcome == ThrownByStage ==> Pending(after, base, t))
  {
    var begun := ParseStart(Tick(StartFile(st, run.name), 0));
    var flags := Run(fl.(active := run.name));
    BegunEarly(st, fl, run, base, t);
    StepsAgree(begun, flags, run.steps);
    StepsStill(begun, run.steps, t);
    StepsGrow(begun, run.steps);
    ActiveRunsInSteps(flags, run.steps);
    var read := RunSteps(begun, run.steps);
    StopLate(read, AfterSteps(flags, run.steps), run.stages, run.outcome, base, t);
    OperationsStill(RunStages(ParseStop(Tick(read, 1)), run.stages, run.outcome), "", t);
  }

  /** An import that ends with the timer of the importing file running, or with a throw out of a stage. */
  lemma ReturnOverlaps(st: State, fl: Flags, run: FileRun, base: nat, t: nat)
    requires Agree(st, fl) && Early(st, base, t) && Untimed(run) == run && run.outcome != Unreadable
    requires Proper(Pause(fl), run) && !ProperStep(fl, Import(0, run))
    ensures var after := RunStep(st, Import(0, run.(rest := 1))); Pending(after, base, t) && after.now == t + 1
  {
    var timed := run.(rest := 1);
    var paused := ParsePause(st);
    assert Tick(st, 0) == st;
    OperationsAgree(st, fl);
    OperationsStill(st, "", t);
    FileEndsLate(paused, Pause(fl), run, base, t);
    FileAgrees(paused, Pause(fl), timed);
    var after := RunFile(paused, timed);
    assert AfterFile(Pause(fl), timed) == AfterFile(Pause(fl), run);
    if !IsThrown(run.outcome) {
      assert after.files[st.active.value].name == fl.active;
    }
  }

  // The exact condition

  lemma {:induction false} ProperFits(st: State, fl: Flags, run: FileRun)
    requires Sound(st, fl.paused) && Proper(fl, run)
    ensures Fits(st, run)
  {
    FileClaims(st, fl, run, st.now - st.charged);
  }

  /**
   For every run of a main file that ends: whatever times its parts take, no more is charged than the time that
   passes, exactly if every import that returns finds the timer of the importing file paused and none is left by a
   throw out of a stage.
   */
  lemma FitsExactly(st: State, fl: Flags, run: FileRun)
    requires Sound(st, fl.paused) && StartedBy(st, st.now) && !IsThrown(run.outcome)
    ensures Proper(fl, run) <==> forall timed: FileRun :: Untimed(timed) == Untimed(run) ==> Fits(st, timed)
  {
    FlagsOfShape(fl, run);
    if Proper(fl, run) {
      forall timed: FileRun | Untimed(timed) == Untimed(run)
        ensures Fits(st, timed)
      {
        FlagsOfShape(fl, timed);
        ProperFits(st, fl, timed);
      }
    } else {
      UntimedTwice(run);
      var timed := FileOverlaps(st, fl, Untimed(run), st.charged, st.now);
      assert Untimed(timed) == Untimed(run) && !Fits(st, timed);
    }
  }
}
