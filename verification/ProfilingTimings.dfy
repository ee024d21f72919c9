/** Only proper runs charge no instant twice: any other one does, for some times of its parts. */
module ProfilingTimings {
  import opened Profiling
  import opened ProfilingFlags

  // The shape of a run

  /** The same run, with nothing that takes any time. */
  function Untimed(run: FileRun): FileRun
    decreases run, 2
  {
    FileRun(run.name, 0, UntimedSteps(run.steps), 0, run.outcome, UntimedStages(run.stages))
  }

  function UntimedSteps(steps: seq<Step>): (r: seq<Step>)
    decreases steps, 0
  {
    if steps == [] then [] else [UntimedStep(steps[0])] + UntimedSteps(steps[1..])
  }

  function UntimedStep(step: Step): Step
    decreases step, 3
  {
    match step
    case Header(_, _) => Header(0, 0)
    case Import(_, run) => Import(0, Untimed(run))
  }

  function UntimedStages(stages: seq<StageRun>): seq<StageRun> {
    if stages == [] then [] else [StageRun(stages[0].stage, 0)] + UntimedStages(stages[1..])
  }

  lemma {:induction false} UntimedTwice(run: FileRun)
    ensures Untimed(Untimed(run)) == Untimed(run)
    decreases run, 2
  {
    UntimedStepsTwice(run.steps);
    UntimedStagesTwice(run.stages);
  }

  lemma {:induction false} UntimedStepsTwice(steps: seq<Step>)
    ensures UntimedSteps(UntimedSteps(steps)) == UntimedSteps(steps)
    decreases steps, 0
  {
    if steps != [] {
      UntimedStepTwice(steps[0]);
      UntimedStepsTwice(steps[1..]);
    }
  }

  lemma {:induction false} UntimedStepTwice(step: Step)
    ensures UntimedStep(UntimedStep(step)) == UntimedStep(step)
    decreases step, 3
  {
    if step.Import? {
      UntimedTwice(step.run);
    }
  }

  lemma {:induction false} UntimedStagesTwice(stages: seq<StageRun>)
    ensures UntimedStages(UntimedStages(stages)) == UntimedStages(stages)
    decreases |stages|
  {
    if stages != [] {
      UntimedStagesTwice(stages[1..]);
    }
  }

  // Flags do not depend on times

  lemma {:induction false} FlagsOfShape(fl: Flags, run: FileRun)
    ensures AfterFile(fl, Untimed(run)) == AfterFile(fl, run) && Proper(fl, Untimed(run)) == Proper(fl, run)
    decreases run, 2
  {
    FlagsOfSteps(Run(fl.(active := run.name)), run.steps);
  }

  lemma {:induction false} FlagsOfSteps(fl: Flags, steps: seq<Step>)
    ensures AfterSteps(fl, UntimedSteps(steps)) == AfterSteps(fl, steps)
    ensures ProperSteps(fl, UntimedSteps(steps)) == ProperSteps(fl, steps)
    decreases steps, 0
  {
    if steps != [] {
      FlagsOfStep(fl, steps[0]);
      FlagsOfSteps(AfterStep(fl, steps[0]), steps[1..]);
    }
  }

  lemma {:induction false} FlagsOfStep(fl: Flags, step: Step)
    ensures AfterStep(fl, UntimedStep(step)) == AfterStep(fl, step)
    ensures ProperStep(fl, UntimedStep(step)) == ProperStep(fl, step)
    decreases step, 3
  {
    if step.Import? {
      FlagsOfShape(Pause(fl), step.run);
    }
  }

  /** While a file is parsed, the active timer runs. */
  lemma {:induction false} ActiveRuns(fl: Flags, run: FileRun)
    ensures var after := AfterFile(fl, run); after.active !in after.paused
    decreases run, 2
  {
    ActiveRunsInSteps(Run(fl.(active := run.name)), run.steps);
  }

  lemma {:induction false} ActiveRunsInSteps(fl: Flags, steps: seq<Step>)
    requires fl.active !in fl.paused
    ensures var after := AfterSteps(fl, steps); after.active !in after.paused
    decreases steps, 0
  {
    if steps != [] {
      ActiveRunsAfterStep(fl, steps[0]);
      ActiveRunsInSteps(AfterStep(fl, steps[0]), steps[1..]);
    }
  }

  lemma {:induction false} ActiveRunsAfterStep(fl: Flags, step: Step)
    ensures var after := AfterStep(fl, step); after.active !in after.paused
    decreases step, 3
  {
    if step.Import? {
      ActiveRuns(Pause(fl), step.run);
    }
  }

  // Runs without any time

  predicate StartedBy(st: State, t: nat) {
    forall k :: 0 <= k < |st.files| ==> st.files[k].parseStart <= t
  }

  /** The clock stands still, and no timer is started after `t`. */
  predicate Still(a: State, b: State, t: nat) {
    b.now == a.now && (a.now <= t && StartedBy(a, t) ==> StartedBy(b, t))
  }

  lemma OperationsStill(st: State, name: string, t: nat)
    ensures Still(st, StartFile(st, name), t) && Still(st, EndFile(st), t) && Still(st, ParseStart(st), t)
    ensures Still(st, ParsePause(st), t) && Still(st, ParseResume(st), t)
    ensures StartedBy(st, t) ==> StartedBy(ParseStop(st), t) && StartedBy(EndFile(st), t)
  {
  }

  lemma {:induction false} StagesStill(st: State, stages: seq<StageRun>, outcome: Outcome, t: nat)
    requires UntimedStages(stages) == stages
    ensures RunStages(st, stages, outcome).now == st.now
    ensures StartedBy(st, t) ==> StartedBy(RunStages(st, stages, outcome), t)
    decreases |stages|
  {
    if stages != [] && HasStages(outcome) {
      StagesStill(RecordStage(Tick(st, 0), stages[0].stage, 0), stages[1..], outcome, t);
    }
  }

  lemma {:induction false} FileStill(st: State, run: FileRun, t: nat)
    requires Untimed(run) == run
    ensures Still(st, RunFile(st, run), t)
    decreases run, 2
  {
    var started := StartFile(st, run.name);
    OperationsStill(st, run.name, t);
    assert Tick(started, run.reading) == started;
    if run.outcome != Unreadable {
      OperationsStill(started, "", t);
      StepsStill(ParseStart(started), run.steps, t);
      OperationsStill(RunSteps(ParseStart(started), run.steps), "", t);
    }
    var parsed := RunParse(started, run);
    StagesStill(parsed, run.stages, run.outcome, t);
    OperationsStill(RunStages(parsed, run.stages, run.outcome), "", t);
  }

  lemma {:induction false} StepsStill(st: State, steps: seq<Step>, t: nat)
    requires UntimedSteps(steps) == steps
    ensures Still(st, RunSteps(st, steps), t)
    decreases steps, 0
  {
    if steps != [] {
      StepStill(st, steps[0], t);
      StepsStill(RunStep(st, steps[0]), steps[1..], t);
    }
  }

  lemma {:induction false} StepStill(st: State, step: Step, t: nat)
    requires UntimedStep(step) == step
    ensures Still(st, RunStep(st, step), t)
    decreases step, 3
  {
    assert Tick(st, step.before) == st;
    OperationsStill(st, "", t);
    match step
    case Header(_, _) => OperationsStill(RecordCImport(Tick(ParsePause(st), 0), 0), "", t);
    case Import(_, run) =>
      FileStill(ParsePause(st), run, t);
      OperationsStill(RunFile(ParsePause(st), run).(active := st.active), "", t);
  }
}
