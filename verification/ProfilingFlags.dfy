/** Which file is active and which parse timers are paused: what a run does to the context apart from the times. */
module ProfilingFlags {
  import opened Options
  import opened Profiling

  datatype Flags = Flags(active: string, paused: set<string>)

  function Pause(fl: Flags): Flags {
    fl.(paused := fl.paused + {fl.active})
  }

  function Run(fl: Flags): Flags {
    fl.(paused := fl.paused - {fl.active})
  }

  /** At the end of a file, before the importer's file is active again. */
  function AfterFile(fl: Flags, run: FileRun): Flags
    decreases run, 2
  {
    var started := Run(fl.(active := run.name));
    if run.outcome == Unreadable then started
    else
      var read := AfterSteps(started, run.steps);
      if run.outcome == Thrown then read else Run(read)
  }

  function AfterSteps(fl: Flags, steps: seq<Step>): Flags
    decreases steps, 0
  {
    if steps == [] then fl else AfterSteps(AfterStep(fl, steps[0]), steps[1..])
  }

  function AfterStep(fl: Flags, step: Step): Flags
    decreases step, 3
  {
    match step
    case Header(_, _) => Run(fl)
    case Import(_, run) =>
      var after := AfterFile(Pause(fl), run);
      if IsThrown(run.outcome) then after else Run(after.(active := fl.active))
  }

  // The flags are those of the context

  predicate Distinct(files: seq<FileData>) {
    forall i, j :: 0 <= i < j < |files| ==> files[i].name != files[j].name
  }

  predicate PausedAre(files: seq<FileData>, paused: set<string>) {
    forall k :: 0 <= k < |files| ==> (files[k].parsePaused <==> files[k].name in paused)
  }

  predicate Sound(st: State, paused: set<string>) {
    st.enabled && Distinct(st.files) && PausedAre(st.files, paused)
  }

  /** The active file is the one of the flags, and the files whose timers are paused are those of the flags. */
  predicate Agree(st: State, fl: Flags) {
    Sound(st, fl.paused) && Ready(st) && Active(st).name == fl.active
  }

  lemma StartAgrees(st: State, paused: set<string>, name: string)
    requires Sound(st, paused)
    ensures Agree(StartFile(st, name), Flags(name, paused - {name}))
  {
  }

  lemma OperationsAgree(st: State, fl: Flags)
    requires Agree(st, fl)
    ensures Agree(ParsePause(st), Pause(fl)) && Agree(ParseStart(st), Run(fl))
    ensures Agree(ParseResume(st), Run(fl)) && Agree(ParseStop(st), Run(fl))
  {
  }

  /** Files are only added, and the data of a file stays at its index. */
  predicate KeepsNames(a: State, b: State) {
    |a.files| <= |b.files| && forall k :: 0 <= k < |a.files| ==> b.files[k].name == a.files[k].name
  }

  lemma NamesKept(st: State, name: string)
    ensures KeepsNames(st, StartFile(st, name)) && KeepsNames(st, EndFile(st))
  {
  }

  lemma {:induction false} StagesAgree(st: State, fl: Flags, stages: seq<StageRun>, outcome: Outcome)
    requires Agree(st, fl)
    ensures Agree(RunStages(st, stages, outcome), fl) && KeepsNames(st, RunStages(st, stages, outcome))
    decreases |stages|
  {
    if stages != [] && HasStages(outcome) {
      var worked := Tick(st, stages[0].time);
      StagesAgree(RecordStage(worked, stages[0].stage, stages[0].time), fl, stages[1..], outcome);
    }
  }

  /** The context at the end of a file, whose data is no longer active unless the file was left by a throw. */
  predicate Ended(after: State, fl: Flags, outcome: Outcome) {
    if IsThrown(outcome) then Agree(after, fl) else after.active == None && Sound(after, fl.paused)
  }

  lemma EndAgrees(st: State, fl: Flags, outcome: Outcome)
    requires Agree(st, fl)
    ensures Ended(if IsThrown(outcome) then st else EndFile(st), fl, outcome)
  {
  }

  lemma {:induction false} FileAgrees(st: State, fl: Flags, run: FileRun)
    requires Sound(st, fl.paused)
    ensures Ended(RunFile(st, run), AfterFile(fl, run), run.outcome) && KeepsNames(st, RunFile(st, run))
    decreases run, 2
  {
    hide Agree, Sound, KeepsNames, Ended, StartFile, EndFile;
    var started := Tick(StartFile(st, run.name), run.reading);
    var flags := Run(fl.(active := run.name));
    StartedFile(st, fl.paused, run);
    assert Run(flags) == flags;
    ParseAgrees(started, flags, run);
    var parsed := RunParse(started, run);
    StagesAgree(parsed, AfterFile(fl, run), run.stages, run.outcome);
    var staged := RunStages(parsed, run.stages, run.outcome);
    EndAgrees(staged, AfterFile(fl, run), run.outcome);
    NamesKept(staged, "");
    KeepsNamesTwice(st, started, parsed);
    KeepsNamesTwice(st, parsed, staged);
    KeepsNamesTwice(st, staged, EndFile(staged));
  }

  lemma StartedFile(st: State, paused: set<string>, run: FileRun)
    requires Sound(st, paused)
    ensures var started := Tick(StartFile(st, run.name), run.reading);
            Agree(started, Flags(run.name, paused - {run.name})) && KeepsNames(st, started)
  {
    StartAgrees(st, paused, run.name);
    NamesKept(st, run.name);
  }

  lemma KeepsNamesTwice(a: State, b: State, c: State)
    requires KeepsNames(a, b) && KeepsNames(b, c)
    ensures KeepsNames(a, c)
  {
  }

  lemma {:induction false} ParseAgrees(st: State, fl: Flags, run: FileRun)
    requires Agree(st, fl) && fl.active !in fl.paused && run.name == fl.active
    ensures Agree(RunParse(st, run), AfterFile(fl, run)) && KeepsNames(st, RunParse(st, run))
    decreases run, 1
  {
    assert Run(fl) == fl;
    if run.outcome != Unreadable {
      OperationsAgree(st, fl);
      StepsAgree(ParseStart(st), fl, run.steps);
      var read := Tick(RunSteps(ParseStart(st), run.steps), run.rest);
      OperationsAgree(read, AfterSteps(fl, run.steps));
    }
  }

  lemma {:induction false} StepsAgree(st: State, fl: Flags, steps: seq<Step>)
    requires Agree(st, fl)
    ensures Agree(RunSteps(st, steps), AfterSteps(fl, steps)) && KeepsNames(st, RunSteps(st, steps))
    decreases steps, 0
  {
    if steps != [] {
      StepAgrees(st, fl, steps[0]);
      StepsAgree(RunStep(st, steps[0]), AfterStep(fl, steps[0]), steps[1..]);
    }
  }

  lemma {:induction false} StepAgrees(st: State, fl: Flags, step: Step)
    requires Agree(st, fl)
    ensures Agree(RunStep(st, step), AfterStep(fl, step)) && KeepsNames(st, RunStep(st, step))
    decreases step, 3
  {
    var paused := ParsePause(Tick(st, step.before));
    OperationsAgree(Tick(st, step.before), fl);
    match step
    case Header(_, time) => OperationsAgree(RecordCImport(Tick(paused, time), time), Pause(fl));
    case Import(_, run) =>
      FileAgrees(paused, Pause(fl), run);
      if !IsThrown(run.outcome) {
        var back := RunFile(paused, run).(active := st.active);
        OperationsAgree(back, AfterFile(Pause(fl), run).(active := fl.active));
      }
  }

  // The importer's file is active again, unless the import was left by a throw

  /**
   After an import, the file that was active before is active again exactly if the import was not left by a
   throw, or was left while that very file was active.
   */
  lemma ImporterActive(st: State, fl: Flags, before: nat, run: FileRun)
    requires Agree(st, fl)
    ensures RunStep(st, Import(before, run)).active == st.active
         <==> !IsThrown(run.outcome) || AfterFile(Pause(fl), run).active == fl.active
  {
    StepAgrees(st, fl, Import(before, run));
    var after := RunStep(st, Import(before, run));
    if IsThrown(run.outcome) && after.active != st.active {
      var i, j := st.active.value, after.active.value;
      assert after.files[i].name == fl.active;
    }
  }

  /** The files that a run compiles. */
  function Names(run: FileRun): set<string>
    decreases run, 1
  {
    {run.name} + NamesOfSteps(run.steps)
  }

  function NamesOfSteps(steps: seq<Step>): set<string>
    decreases steps, 0
  {
    if steps == [] then {} else NamesOfStep(steps[0]) + NamesOfSteps(steps[1..])
  }

  function NamesOfStep(step: Step): set<string>
    decreases step, 2
  {
    if step.Import? then Names(step.run) else {}
  }

  lemma {:induction false} ActiveIsNamed(fl: Flags, run: FileRun)
    ensures AfterFile(fl, run).active in Names(run)
    decreases run, 1
  {
    ActiveIsNamedInSteps(Run(fl.(active := run.name)), run.steps);
  }

  lemma {:induction false} ActiveIsNamedInSteps(fl: Flags, steps: seq<Step>)
    ensures AfterSteps(fl, steps).active in {fl.active} + NamesOfSteps(steps)
    decreases steps, 0
  {
    if steps != [] {
      ActiveIsNamedInStep(fl, steps[0]);
      ActiveIsNamedInSteps(AfterStep(fl, steps[0]), steps[1..]);
    }
  }

  lemma {:induction false} ActiveIsNamedInStep(fl: Flags, step: Step)
    ensures AfterStep(fl, step).active in {fl.active} + NamesOfStep(step)
    decreases step, 2
  {
    if step.Import? {
      ActiveIsNamed(Pause(fl), step.run);
    }
  }

  /** For an import that does not compile the active file again, being thrown out is the only way to lose it. */
  lemma ImporterActiveUnlessThrown(st: State, fl: Flags, before: nat, run: FileRun)
    requires Agree(st, fl) && fl.active !in Names(run)
    ensures RunStep(st, Import(before, run)).active == st.active <==> !IsThrown(run.outcome)
  {
    ImporterActive(st, fl, before, run);
    ActiveIsNamed(Pause(fl), run);
  }

  // Runs in which a resumed timer was paused

  /**
   No import returns to a file whose timer is running, and none is left by a throw out of a stage, which leaves
   a stopped timer that counts as running.
   */
  predicate Proper(fl: Flags, run: FileRun)
    decreases run, 2
  {
    run.outcome == Unreadable || ProperSteps(Run(fl.(active := run.name)), run.steps)
  }

  predicate ProperSteps(fl: Flags, steps: seq<Step>)
    decreases steps, 0
  {
    steps == [] || (ProperStep(fl, steps[0]) && ProperSteps(AfterStep(fl, steps[0]), steps[1..]))
  }

  predicate ProperStep(fl: Flags, step: Step)
    decreases step, 3
  {
    step.Import? ==>
      && Proper(Pause(fl), step.run)
      && step.run.outcome != ThrownByStage
      && (step.run.outcome != Thrown ==> fl.active in AfterFile(Pause(fl), step.run).paused)
  }

  /** None of the files in `path`, which are being compiled, is started again. */
  predicate Acyclic(run: FileRun, path: set<string>)
    decreases run, 2
  {
    run.name !in path && (run.outcome == Unreadable || AcyclicSteps(run.steps, path + {run.name}))
  }

  predicate AcyclicSteps(steps: seq<Step>, path: set<string>)
    decreases steps, 0
  {
    steps == [] || (AcyclicStep(steps[0], path) && AcyclicSteps(steps[1..], path))
  }

  predicate AcyclicStep(step: Step, path: set<string>)
    decreases step, 3
  {
    step.Import? ==> Acyclic(step.run, path)
  }

  /** No file is left by a throw. */
  predicate Caught(run: FileRun)
    decreases run, 2
  {
    !IsThrown(run.outcome) && CaughtSteps(run.steps)
  }

  predicate CaughtSteps(steps: seq<Step>)
    decreases steps, 0
  {
    steps == [] || (CaughtStep(steps[0]) && CaughtSteps(steps[1..]))
  }

  predicate CaughtStep(step: Step)
    decreases step, 3
  {
    step.Import? ==> Caught(step.run)
  }

  /** Without throws, the proper runs are those in which no file is started while it is being compiled. */
  lemma {:induction false} ProperMeansAcyclic(run: FileRun)
    requires Caught(run)
    ensures Proper(Flags("", {}), run) <==> Acyclic(run, {})
  {
    FileMeansAcyclic(Flags("", {}), run);
  }

  lemma {:induction false} FileMeansAcyclic(fl: Flags, run: FileRun)
    requires Caught(run)
    ensures AfterFile(fl, run).paused <= fl.paused - {run.name}
    ensures Proper(fl, run) && AfterFile(fl, run).paused == fl.paused <==> Acyclic(run, fl.paused)
    decreases run, 2
  {
    if run.outcome != Unreadable {
      var started := Run(fl.(active := run.name));
      StepsMeanAcyclic(started, run.steps);
      if run.name !in fl.paused {
        assert started.paused == fl.paused;
      }
    }
  }

  lemma {:induction false} StepsMeanAcyclic(fl: Flags, steps: seq<Step>)
    requires CaughtSteps(steps) && fl.active !in fl.paused
    ensures var after := AfterSteps(fl, steps); after.active == fl.active && after.paused <= fl.paused
    ensures ProperSteps(fl, steps) && AfterSteps(fl, steps).paused == fl.paused
       <==> AcyclicSteps(steps, fl.paused + {fl.active})
    decreases steps, 0
  {
    if steps != [] {
      var next := AfterStep(fl, steps[0]);
      StepMeansAcyclic(fl, steps[0]);
      StepsMeanAcyclic(next, steps[1..]);
    }
  }

  lemma {:induction false} StepMeansAcyclic(fl: Flags, step: Step)
    requires CaughtStep(step) && fl.active !in fl.paused
    ensures var after := AfterStep(fl, step); after.active == fl.active && after.paused <= fl.paused
    ensures ProperStep(fl, step) && AfterStep(fl, step).paused == fl.paused
       <==> AcyclicStep(step, fl.paused + {fl.active})
    decreases step, 3
  {
    if step.Import? {
      FileMeansAcyclic(Pause(fl), step.run);
      var after := AfterFile(Pause(fl), step.run);
      if fl.active in after.paused && after.paused - {fl.active} == fl.paused {
        assert after.paused == fl.paused + {fl.active};
      }
    }
  }
}
