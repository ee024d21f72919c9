/** Proper runs charge no instant twice, however the imports are nested. */
module ProfilingRuns {
  import opened Profiling
  import opened ProfilingFlags
  import opened ProfilingTimes

  /** All that was charged fits between `origin` and `mark`. */
  predicate ChargedBefore(st: State, origin: int, mark: nat) {
    origin + st.charged <= mark <= st.now
  }

  /** A file is parsed: if its timer runs, nothing was charged since it was started. */
  predicate Parsing(st: State, origin: int) {
    Ready(st) && ChargedBefore(st, origin, st.now)
    && (Active(st).parsePaused || ChargedBefore(st, origin, Active(st).parseStart))
  }

  lemma ParseStartClaims(st: State, origin: int)
    requires Ready(st) && ChargedBefore(st, origin, st.now)
    ensures Parsing(ParseStart(st), origin)
  {
  }

  /** Pausing charges the time since the timer was started, so that all is charged up to now. */
  lemma ParsePauseClaims(st: State, origin: int)
    requires Parsing(st, origin)
    ensures Ready(ParsePause(st)) && ChargedBefore(ParsePause(st), origin, st.now)
  {
  }

  lemma ParseResumeClaims(st: State, origin: int)
    requires Ready(st) && Active(st).parsePaused && ChargedBefore(st, origin, st.now)
    ensures Parsing(ParseResume(st), origin)
  {
  }

  lemma ParseStopClaims(st: State, origin: int)
    requires Parsing(st, origin)
    ensures Ready(ParseStop(st)) && ChargedBefore(ParseStop(st), origin, st.now)
  {
  }

  lemma {:induction false} StagesClaim(st: State, stages: seq<StageRun>, outcome: Outcome, origin: int)
    requires Ready(st) && ChargedBefore(st, origin, st.now)
    ensures var after := RunStages(st, stages, outcome); Ready(after) && ChargedBefore(after, origin, after.now)
    decreases |stages|
  {
    if stages != [] && HasStages(outcome) {
      var worked := Tick(st, stages[0].time);
      StagesClaim(RecordStage(worked, stages[0].stage, stages[0].time), stages[1..], outcome, origin);
    }
  }

  /** Imports and C headers during parsing charge no instant twice. */
  lemma {:induction false} StepsClaim(st: State, fl: Flags, steps: seq<Step>, origin: int)
    requires Parsing(st, origin) && Agree(st, fl) && ProperSteps(fl, steps)
    ensures Parsing(RunSteps(st, steps), origin)
    decreases steps, 0
  {
    if steps != [] {
      StepClaims(st, fl, steps[0], origin);
      StepAgrees(st, fl, steps[0]);
      StepsClaim(RunStep(st, steps[0]), AfterStep(fl, steps[0]), steps[1..], origin);
    }
  }

  lemma {:induction false} StepClaims(st: State, fl: Flags, step: Step, origin: int)
    requires Parsing(st, origin) && Agree(st, fl) && ProperStep(fl, step)
    ensures Parsing(RunStep(st, step), origin)
    decreases step, 3
  {
    var paused := ParsePause(Tick(st, step.before));
    ParsePauseClaims(Tick(st, step.before), origin);
    OperationsAgree(Tick(st, step.before), fl);
    match step
    case Header(_, time) =>
      ParseResumeClaims(RecordCImport(Tick(paused, time), time), origin);
    case Import(_, run) =>
      FileClaims(paused, Pause(fl), run, origin);
      FileAgrees(paused, Pause(fl), run);
      if run.outcome != Thrown {
        var back := RunFile(paused, run).(active := st.active);
        assert back.files[st.active.value].name == fl.active;
        ParseResumeClaims(back, origin);
      }
  }

  /** The same for a whole file; if it is left by a throw, its timer goes on where the charges end. */
  lemma {:induction false} FileClaims(st: State, fl: Flags, run: FileRun, origin: int)
    requires Sound(st, fl.paused) && ChargedBefore(st, origin, st.now) && Proper(fl, run)
    ensures ChargedBefore(RunFile(st, run), origin, RunFile(st, run).now)
    ensures run.outcome == Thrown ==> Parsing(RunFile(st, run), origin)
    decreases run, 2
  {
    var started := Tick(StartFile(st, run.name), run.reading);
    var flags := Run(fl.(active := run.name));
    StartedFile(st, fl.paused, run);
    assert Run(flags) == flags;
    ParseClaims(started, flags, run, origin);
    if run.outcome != Thrown {
      StagesClaim(RunParse(started, run), run.stages, run.outcome, origin);
    }
  }

  lemma {:induction false} ParseClaims(st: State, fl: Flags, run: FileRun, origin: int)
    requires Agree(st, fl) && ChargedBefore(st, origin, st.now)
    requires run.outcome == Unreadable || ProperSteps(Run(fl), run.steps)
    ensures var after := RunParse(st, run); Ready(after) && ChargedBefore(after, origin, after.now)
    ensures run.outcome == Thrown ==> Parsing(RunParse(st, run), origin)
    decreases run, 1
  {
    if run.outcome != Unreadable {
      ParseStartClaims(st, origin);
      OperationsAgree(st, fl);
      StepsClaim(ParseStart(st), Run(fl), run.steps, origin);
      ParseStopClaims(Tick(RunSteps(ParseStart(st), run.steps), run.rest), origin);
    }
  }

  /**
   After every proper run of a context whose charges fit the time since it was enabled, they still do, and the
   totals of all files together with the time of C imports fit in them.
   */
  lemma NothingChargedTwice(st: State, fl: Flags, run: FileRun)
    requires Sound(st, fl.paused) && Covered(st) && st.wallStart + st.charged <= st.now
    requires Proper(fl, run)
    ensures var after := RunFile(st, run);
            Totals(after.files) + after.cImport <= after.charged <= after.now - after.wallStart
  {
    FileClaims(st, fl, run, st.wallStart);
    FileGrows(st, run);
    TotalsAreCharged(st, run);
  }
}
