/** The profiling calls and the compilation of a module around them, updating one context in place. */
module ProfilingContext {
  import opened Options
  import opened Profiling
  import opened ProfilingFlags
  import opened ProfilingRuns
  import opened ProfilingTimes
  import opened Sums

  class Context {
    var files: seq<FileData>
    var activeFile: Option<nat>
    var cImportTimeNs: nat
    var wallStartNs: nat
    var enabled: bool

    /** What the monotonic clock shows. */
    var clock: nat

    /** All that was ever charged. */
    ghost var charged: nat

    ghost function Now(): State
      reads this
    {
      State(files, activeFile, cImportTimeNs, wallStartNs, enabled, clock, charged)
    }

    constructor (clock: nat)
      ensures Now() == State([], None, 0, 0, false, clock, 0)
    {
      files, activeFile, cImportTimeNs, wallStartNs, enabled := [], None, 0, 0, false;
      this.clock, charged := clock, 0;
    }

    /** `profileEnable` */
    method Enable()
      modifies this
      ensures Now() == old(Now()).(enabled := true, wallStart := old(clock))
    {
      enabled := true;
      wallStartNs := clock;
    }

    method Wait(dt: nat)
      modifies this
      ensures Now() == Tick(old(Now()), dt)
    {
      clock := clock + dt;
    }

    method FindOrCreate(fileName: string) returns (i: nat)
      modifies this`files
      ensures i == Find(old(files), fileName) && i < |files|
      ensures if i < |old(files)| then files == old(files)
              else files == old(files) + [Blank(fileName)]
    {
      i := 0;
      while i < |files| && files[i].name != fileName
        invariant i <= |files|
        invariant forall j :: 0 <= j < i ==> files[j].name != fileName
      {
        i := i + 1;
      }
      FirstIsFound(files, fileName, i);
      if i == |files| {
        files := files + [Blank(fileName)];
      }
    }

    method Start(fileName: string)
      modifies this
      ensures Now() == StartFile(old(Now()), fileName)
    {
      if !enabled {
        return;
      }
      var i := FindOrCreate(fileName);
      files := files[i := files[i].(parseAccum := 0, parsePaused := false)];
      activeFile := Some(i);
    }

    /** The data of the active file, as the early returns of all operations test for it. */
    method ActiveData() returns (ok: bool, i: nat)
      ensures ok == Ready(Now()) && (ok ==> activeFile == Some(i))
    {
      ok := enabled && activeFile.Some? && activeFile.value < |files|;
      i := if ok then activeFile.value else 0;
    }

    method End()
      modifies this
      ensures Now() == EndFile(old(Now()))
    {
      var ok, i := ActiveData();
      if ok {
        var total := AddStages(files[i].parseTime, files[i].stageTimes);
        files := files[i := files[i].(total := total)];
        activeFile := None;
      }
    }

    method AddStages(parseTime: nat, stageTimes: seq<nat>) returns (total: nat)
      ensures total == parseTime + Sum(stageTimes)
    {
      total := parseTime;
      var s := 0;
      while s < |stageTimes|
        invariant 0 <= s <= |stageTimes| && total == parseTime + Sum(stageTimes[..s])
      {
        assert stageTimes[..s + 1][..s] == stageTimes[..s];
        total := total + stageTimes[s];
        s := s + 1;
      }
      assert stageTimes[..s] == stageTimes;
    }

    method BeginParse()
      modifies this
      ensures Now() == ParseStart(old(Now()))
    {
      var ok, i := ActiveData();
      if ok {
        files := files[i := files[i].(parseStart := clock, parsePaused := false)];
      }
    }

    method Pause()
      modifies this
      ensures Now() == ParsePause(old(Now()))
    {
      var ok, i := ActiveData();
      if ok && !files[i].parsePaused {
        var elapsed := Elapsed(files[i].parseStart, clock);
        files := files[i := files[i].(parseAccum := files[i].parseAccum + elapsed, parsePaused := true)];
        charged := charged + elapsed;
      }
    }

    method Resume()
      modifies this
      ensures Now() == ParseResume(old(Now()))
    {
      var ok, i := ActiveData();
      if ok && files[i].parsePaused {
        files := files[i := files[i].(parseStart := clock, parsePaused := false)];
      }
    }

    method Stop()
      modifies this
      ensures Now() == ParseStop(old(Now()))
    {
      var ok, i := ActiveData();
      if ok {
        var accum := files[i].parseAccum;
        if !files[i].parsePaused {
          var elapsed := Elapsed(files[i].parseStart, clock);
          accum := accum + elapsed;
          charged := charged + elapsed;
        }
        files := files[i := files[i].(parseAccum := accum, parseTime := accum, parsePaused := false)];
      }
    }

    method Record(stage: nat, duration: nat)
      modifies this
      ensures Now() == RecordStage(old(Now()), stage, duration)
    {
      var ok, i := ActiveData();
      if ok && stage < |files[i].stageTimes| {
        var times := files[i].stageTimes;
        files := files[i := files[i].(stageTimes := times[stage := times[stage] + duration])];
        charged := charged + duration;
      }
    }

    method RecordImport(duration: nat)
      modifies this
      ensures Now() == RecordCImport(old(Now()), duration)
    {
      if enabled {
        cImportTimeNs := cImportTimeNs + duration;
        charged := charged + duration;
      }
    }

    // The compiler around them

    /**
     `compileModule`, for the file that is active: it is active again whenever the function returns. A throw out of
     the parser or of a stage goes through it, and leaves the context as it is.
     */
    method CompileModule(run: FileRun) returns (thrown: bool)
      modifies this
      ensures RunStep(old(Now()), Import(0, run)) == Now()
      ensures thrown == IsThrown(run.outcome) && (!thrown ==> activeFile == old(activeFile))
      decreases run, 5
    {
      var parentFile := activeFile;
      Pause();
      Start(run.name);
      Wait(run.reading);
      var program;
      thrown, program := ParseFile(run);
      NoStages(Now(), run.stages, run.outcome);
      if thrown {
        return;
      }
      if !program {
        End();
        activeFile := parentFile;
        Resume();
        return;
      }
      if run.outcome == NotAModule {
        End();
        activeFile := parentFile;
        Resume();
        return;
      }
      var compileOk;
      thrown, compileOk := CompileProgram(run.stages, run.outcome);
      if thrown {
        return;
      }
      if !compileOk {
        End();
        activeFile := parentFile;
        Resume();
        return;
      }
      End();
      activeFile := parentFile;
      Resume();
    }

    method ParseFile(run: FileRun) returns (thrown: bool, program: bool)
      modifies this
      ensures Now() == RunParse(old(Now()), run) && thrown == run.outcome.Thrown?
      ensures program == !(run.outcome.Unreadable? || run.outcome.Thrown? || run.outcome.NotParsed?)
      decreases run, 4
    {
      thrown, program := false, false;
      if run.outcome == Unreadable {
        return;
      }
      BeginParse();
      Steps(run.steps);
      Wait(run.rest);
      if run.outcome == Thrown {
        thrown := true;
        return;
      }
      Stop();
      program := run.outcome != NotParsed;
    }

    /** The imports and headers of a file; a throw out of one of them is caught in the file, which goes on. */
    method Steps(steps: seq<Step>)
      modifies this
      ensures Now() == RunSteps(old(Now()), steps)
      decreases steps, 3
    {
      var i := 0;
      while i < |steps|
        invariant 0 <= i <= |steps|
        invariant RunSteps(Now(), steps[i..]) == RunSteps(old(Now()), steps)
      {
        assert steps[i..][0] == steps[i] && steps[i..][1..] == steps[i + 1..];
        OneStep(steps[i]);
        i := i + 1;
      }
    }

    method OneStep(step: Step)
      modifies this
      ensures Now() == RunStep(old(Now()), step)
      decreases step, 6
    {
      Wait(step.before);
      match step
      case Import(_, run) => var thrown := CompileModule(run);
      case Header(_, time) => ImportHeader(time);
    }

    method ImportHeader(time: nat)
      modifies this
      ensures Now() == RunStep(old(Now()), Header(0, time))
    {
      Pause();
      var start := clock;
      Wait(time);
      RecordImport(clock - start);
      Resume();
    }

    method CompileProgram(stages: seq<StageRun>, outcome: Outcome) returns (thrown: bool, ok: bool)
      requires HasStages(outcome)
      modifies this
      ensures Now() == RunStages(old(Now()), stages, outcome)
      ensures thrown == outcome.ThrownByStage? && ok == outcome.Compiled?
    {
      var i := 0;
      while i < |stages|
        invariant 0 <= i <= |stages|
        invariant RunStages(Now(), stages[i..], outcome) == RunStages(old(Now()), stages, outcome)
      {
        assert stages[i..][0] == stages[i] && stages[i..][1..] == stages[i + 1..];
        var start := clock;
        Wait(stages[i].time);
        if i + 1 == |stages| && outcome == ThrownByStage {
          return true, false;
        }
        Record(stages[i].stage, Elapsed(start, clock));
        i := i + 1;
      }
      thrown, ok := outcome == ThrownByStage, outcome == Compiled;
    }

    /** The main file; a throw out of it ends the program. */
    method CompileFile(run: FileRun, ghost paused: set<string>) returns (exited: bool)
      modifies this
      ensures Now() == RunFile(old(Now()), run) && exited == IsThrown(run.outcome)
      ensures old(Sound(Now(), paused)) && !exited ==> activeFile == None
      ensures old(Sound(Now(), paused) && Covered(Now()) && wallStartNs + charged <= clock)
           && Proper(Flags("", paused), run)
           ==> Totals(files) + cImportTimeNs <= charged <= clock - wallStartNs
    {
      Start(run.name);
      Wait(run.reading);
      var program;
      exited, program := ParseFile(run);
      NoStages(Now(), run.stages, run.outcome);
      if !exited && program && run.outcome != NotAModule {
        var ok;
        exited, ok := CompileProgram(run.stages, run.outcome);
      }
      if !exited {
        End();
      }
      Finished(old(Now()), run, paused);
    }
  }

  lemma Finished(st: State, run: FileRun, paused: set<string>)
    ensures Sound(st, paused) && !IsThrown(run.outcome) ==> RunFile(st, run).active == None
    ensures Sound(st, paused) && Covered(st) && st.wallStart + st.charged <= st.now && Proper(Flags("", paused), run)
       ==> var after := RunFile(st, run);
           Totals(after.files) + after.cImport <= after.charged <= after.now - after.wallStart
  {
    if Sound(st, paused) {
      FileAgrees(st, Flags("", paused), run);
    }
    if Sound(st, paused) && Covered(st) && st.wallStart + st.charged <= st.now && Proper(Flags("", paused), run) {
      NothingChargedTwice(st, Flags("", paused), run);
    }
  }

  lemma NoStages(st: State, stages: seq<StageRun>, outcome: Outcome)
    ensures !HasStages(outcome) ==> RunStages(st, stages, outcome) == st
  {
  }

  lemma {:induction false} FirstIsFound(files: seq<FileData>, name: string, i: nat)
    requires i <= |files| && (i < |files| ==> files[i].name == name)
    requires forall j :: 0 <= j < i ==> files[j].name != name
    ensures Find(files, name) == i
    decreases |files|
  {
    if files != [] {
      var f := files[..|files| - 1];
      FirstIsFound(f, name, if i < |f| then i else |f|);
    }
  }
}
