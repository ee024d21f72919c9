/** Profiling of nested imports: what a run of the compiler charges to the files it compiles. */
module Profiling {
  import opened Options
  import opened Sums

  datatype FileData = FileData(
    name: string,
    parseTime: nat,
    stageTimes: seq<nat>,
    total: nat,
    parseStart: nat,
    parseAccum: nat,
    parsePaused: bool)

  /**
   The profiling context, and the monotonic clock that it reads. A pointer to file data is its index.
   `charged` is the sum of all that was ever added to a parse timer, to a stage or to the C imports.
   */
  datatype State = State(
    files: seq<FileData>,
    active: Option<nat>,
    cImport: nat,
    wallStart: nat,
    enabled: bool,
    now: nat,
    charged: nat)

  /** `ccsCOUNT` */
  const STAGES: nat := 17

  predicate Ready(st: State) {
    st.enabled && st.active.Some? && st.active.value < |st.files|
  }

  function Active(st: State): FileData
    requires Ready(st)
  {
    st.files[st.active.value]
  }

  function WithActive(st: State, f: FileData): State
    requires Ready(st)
  {
    st.(files := st.files[st.active.value := f])
  }

  /** New data of the active file, with `d` more charged to it. */
  function Charge(st: State, f: FileData, d: nat): State
    requires Ready(st)
  {
    WithActive(st, f).(charged := st.charged + d)
  }

  function Tick(st: State, dt: nat): State {
    st.(now := st.now + dt)
  }

  // The operations of profiling.c

  /** The index of the data of a file, or the number of files. */
  function Find(files: seq<FileData>, name: string): (i: nat)
    ensures i <= |files| && (i < |files| ==> files[i].name == name)
    ensures forall j :: 0 <= j < i ==> files[j].name != name
  {
    if files == [] then 0
    else
      var i := Find(files[..|files| - 1], name);
      if i < |files| - 1 || files[|files| - 1].name == name then i else |files|
  }

  function Blank(name: string): FileData {
    FileData(name, 0, Zeros(STAGES), 0, 0, 0, false)
  }

  function StartFile(st: State, name: string): State {
    if !st.enabled then st
    else
      var i := Find(st.files, name);
      var files := if i < |st.files| then st.files else st.files + [Blank(name)];
      st.(files := files[i := files[i].(parseAccum := 0, parsePaused := false)], active := Some(i))
  }

  function EndFile(st: State): State {
    if !Ready(st) then st
    else
      var f := Active(st);
      WithActive(st, f.(total := f.parseTime + Sum(f.stageTimes))).(active := None)
  }

  function ParseStart(st: State): State {
    if !Ready(st) then st else WithActive(st, Active(st).(parseStart := st.now, parsePaused := false))
  }

  function Elapsed(start: nat, end: nat): nat {
    if end > start then end - start else 0
  }

  function ParsePause(st: State): State {
    if !Ready(st) || Active(st).parsePaused then st
    else
      var f := Active(st);
      var d := Elapsed(f.parseStart, st.now);
      Charge(st, f.(parseAccum := f.parseAccum + d, parsePaused := true), d)
  }

  function ParseResume(st: State): State {
    if !Ready(st) || !Active(st).parsePaused then st
    else WithActive(st, Active(st).(parseStart := st.now, parsePaused := false))
  }

  function ParseStop(st: State): State {
    if !Ready(st) then st
    else
      var f := Active(st);
      var d := if f.parsePaused then 0 else Elapsed(f.parseStart, st.now);
      var accum := f.parseAccum + d;
      Charge(st, f.(parseAccum := accum, parseTime := accum, parsePaused := false), d)
  }

  function RecordStage(st: State, stage: nat, duration: nat): State {
    if !Ready(st) || stage >= |Active(st).stageTimes| then st
    else
      var f := Active(st);
      Charge(st, f.(stageTimes := f.stageTimes[stage := f.stageTimes[stage] + duration]), duration)
  }

  function RecordCImport(st: State, duration: nat): State {
    if !st.enabled then st else st.(cImport := st.cImport + duration, charged := st.charged + duration)
  }

  // Runs of the compiler

  /** An import or a C header, after some time of parsing. */
  datatype Step =
    | Import(before: nat, run: FileRun)
    | Header(before: nat, time: nat)

  datatype StageRun = StageRun(stage: nat, time: nat)

  /**
   How the compilation of a file ends. The parser may throw outside of its own try blocks, and so may a stage
   that calls it; both jump to the try block around the import declaration in the importing file.
   */
  datatype Outcome = Unreadable | Thrown | NotParsed | NotAModule | ThrownByStage | Failed | Compiled

  /** The compilation of a file: the time to read it, its imports and headers, the rest of parsing, the stages. */
  datatype FileRun = FileRun(name: string, reading: nat, steps: seq<Step>, rest: nat, outcome: Outcome,
                             stages: seq<StageRun>)

  predicate IsThrown(outcome: Outcome) {
    outcome.Thrown? || outcome.ThrownByStage?
  }

  /** `compileModule` between saving the active file and restoring it, and `PROFILE_FILE` of the main file. */
  function RunFile(st: State, run: FileRun): State
    decreases run, 2
  {
    var staged := RunStages(RunParse(Tick(StartFile(st, run.name), run.reading), run), run.stages, run.outcome);
    if IsThrown(run.outcome) then staged else EndFile(staged)
  }

  function RunParse(st: State, run: FileRun): State
    decreases run, 1
  {
    if run.outcome == Unreadable then st
    else
      var read := Tick(RunSteps(ParseStart(st), run.steps), run.rest);
      if run.outcome == Thrown then read else ParseStop(read)
  }

  /** After a throw out of an import, the importing file goes on behind it. */
  function RunSteps(st: State, steps: seq<Step>): State
    decreases steps, 0
  {
    if steps == [] then st else RunSteps(RunStep(st, steps[0]), steps[1..])
  }

  function RunStep(st: State, step: Step): State
    decreases step, 3
  {
    var paused := ParsePause(Tick(st, step.before));
    match step
    case Header(_, time) => ParseResume(RecordCImport(Tick(paused, time), time))
    case Import(_, run) =>
      var after := RunFile(paused, run);
      if IsThrown(run.outcome) then after else ParseResume(after.(active := st.active))
  }

  predicate HasStages(outcome: Outcome) {
    outcome.ThrownByStage? || outcome.Failed? || outcome.Compiled?
  }

  /** The stages run only if there is a module to compile; one that throws is not recorded. */
  function RunStages(st: State, stages: seq<StageRun>, outcome: Outcome): State
    decreases |stages|
  {
    if stages == [] || !HasStages(outcome) then st
    else
      var worked := Tick(st, stages[0].time);
      if |stages| == 1 && outcome == ThrownByStage then worked
      else RunStages(RecordStage(worked, stages[0].stage, stages[0].time), stages[1..], outcome)
  }

  /** Nothing but the clock moves while profiling is off. */
  lemma {:induction false} DisabledFile(st: State, run: FileRun)
    requires !st.enabled && st.active == None
    ensures RunFile(st, run) == st.(now := RunFile(st, run).now)
    decreases run, 2
  {
    var s := Tick(StartFile(st, run.name), run.reading);
    if run.outcome != Unreadable {
      DisabledSteps(ParseStart(s), run.steps);
    }
    DisabledStages(RunParse(s, run), run.stages, run.outcome);
  }

  lemma {:induction false} DisabledSteps(st: State, steps: seq<Step>)
    requires !st.enabled && st.active == None
    ensures RunSteps(st, steps) == st.(now := RunSteps(st, steps).now)
    decreases steps, 0
  {
    if steps != [] {
      DisabledStep(st, steps[0]);
      DisabledSteps(RunStep(st, steps[0]), steps[1..]);
    }
  }

  lemma {:induction false} DisabledStep(st: State, step: Step)
    requires !st.enabled && st.active == None
    ensures RunStep(st, step) == st.(now := RunStep(st, step).now)
    decreases step, 3
  {
    if step.Import? {
      DisabledFile(Tick(st, step.before), step.run);
    }
  }

  lemma {:induction false} DisabledStages(st: State, stages: seq<StageRun>, outcome: Outcome)
    requires !st.enabled && st.active == None
    ensures RunStages(st, stages, outcome) == st.(now := RunStages(st, stages, outcome).now)
    decreases |stages|
  {
    if stages != [] && HasStages(outcome) {
      DisabledStages(Tick(st, stages[0].time), stages[1..], outcome);
    }
  }
}
