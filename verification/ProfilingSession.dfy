/** One run of the compiler with profiling: all its source files, one after the other. */
module ProfilingSession {
  import opened Options
  import opened Profiling
  import opened ProfilingContext
  import opened ProfilingFlags
  import opened ProfilingRuns
  import opened ProfilingTimes
  import opened ProfilingTotals

  /** The source files in order; a throw out of one ends the program. */
  function RunFiles(st: State, runs: seq<FileRun>): State
    decreases |runs|
  {
    if runs == [] then st
    else
      var after := RunFile(st, runs[0]);
      if IsThrown(runs[0].outcome) then after else RunFiles(after, runs[1..])
  }

  /** Every file is proper with the timers as the files before it have left them. */
  predicate AllProper(paused: set<string>, runs: seq<FileRun>)
    decreases |runs|
  {
    runs == []
    || (Proper(Flags("", paused), runs[0])
        && (IsThrown(runs[0].outcome) || AllProper(AfterFile(Flags("", paused), runs[0]).paused, runs[1..])))
  }

  /** All that is charged in a session of proper files fits in the time since profiling was enabled. */
  lemma {:induction false} SessionFits(st: State, paused: set<string>, runs: seq<FileRun>)
    requires Sound(st, paused) && Covered(st) && st.wallStart + st.charged <= st.now && AllProper(paused, runs)
    ensures var after := RunFiles(st, runs);
            Totals(after.files) + after.cImport <= after.charged <= after.now - after.wallStart
    decreases |runs|
  {
    if runs == [] {
      TotalsAreClaimed(st.files);
    } else {
      var fl := Flags("", paused);
      var after := RunFile(st, runs[0]);
      NothingChargedTwice(st, fl, runs[0]);
      FileGrows(st, runs[0]);
      FileAgrees(st, fl, runs[0]);
      if !IsThrown(runs[0].outcome) {
        SessionFits(after, AfterFile(fl, runs[0]).paused, runs[1..]);
      }
    }
  }

  // What the totals are

  /** All files of all sources. */
  function AllRuns(runs: seq<FileRun>): seq<FileRun> {
    if runs == [] then [] else Runs(runs[0]) + AllRuns(runs[1..])
  }

  function AllHeaders(runs: seq<FileRun>): nat {
    if runs == [] then 0 else Headers(runs[0]) + AllHeaders(runs[1..])
  }

  /**
   If nothing throws and no file is started twice, the totals and the C import time together are exactly what is
   charged: the own times of all files and the times of all headers.
   */
  lemma {:induction false} SessionTotals(st: State, runs: seq<FileRun>)
    requires st.enabled && AllNew(st.files, AllRuns(runs)) && CalmRuns(AllRuns(runs))
    ensures var after := RunFiles(st, runs);
            && Totals(after.files) == Totals(st.files) + OwnTimes(AllRuns(runs))
            && after.cImport == st.cImport + AllHeaders(runs)
            && after.charged == st.charged + OwnTimes(AllRuns(runs)) + AllHeaders(runs)
    decreases |runs|
  {
    if runs != [] {
      var one, more := Runs(runs[0]), AllRuns(runs[1..]);
      OneFileMore(st, runs[0], more);
      hide AllNew, CalmRuns, RunFile, OwnTimes, Totals, Runs, Headers, IsThrown;
      SessionTotals(RunFile(st, runs[0]), runs[1..]);
      OwnTimesJoin(one, more);
    }
  }

  lemma OneFileMore(st: State, run: FileRun, more: seq<FileRun>)
    requires st.enabled && AllNew(st.files, Runs(run) + more) && CalmRuns(Runs(run) + more)
    ensures var after := RunFile(st, run);
            && after.enabled && AllNew(after.files, more) && CalmRuns(more) && !IsThrown(run.outcome)
            && Totals(after.files) == Totals(st.files) + OwnTimes(Runs(run))
            && after.cImport == st.cImport + Headers(run)
            && after.charged == st.charged + OwnTimes(Runs(run)) + Headers(run)
  {
    var after := RunFile(st, run);
    assert Runs(run)[0] == run;
    NewParts(st.files, Runs(run), more);
    hide RunFile, OwnTimes, Totals, Runs, Headers, AllNew, IsThrown, Listed;
    TotalsAreExact(st, run);
    FileTotals(st, run);
    NewAfter(st, after, Runs(run), more, Headers(run));
  }

  /** The loop over the sources in `main`. */
  method CompileSources(c: Context, runs: seq<FileRun>) returns (exited: bool)
    modifies c
    ensures c.Now() == RunFiles(old(c.Now()), runs)
  {
    var i := 0;
    exited := false;
    while i < |runs|
      invariant 0 <= i <= |runs| && !exited
      invariant RunFiles(c.Now(), runs[i..]) == RunFiles(old(c.Now()), runs)
    {
      assert runs[i..][0] == runs[i] && runs[i..][1..] == runs[i + 1..];
      exited := c.CompileFile(runs[i], {});
      if exited {
        return;
      }
      i := i + 1;
    }
  }

  /** A context that is initialised, enabled and used for all sources. */
  method Profile(clock: nat, runs: seq<FileRun>) returns (c: Context)
    ensures c.Now() == RunFiles(State([], None, 0, clock, true, clock, 0), runs)
    ensures AllProper({}, runs) ==> Totals(c.files) + c.cImportTimeNs <= c.charged <= c.clock - clock
  {
    c := new Context(clock);
    c.Enable();
    ghost var st := c.Now();
    var exited := CompileSources(c, runs);
    if AllProper({}, runs) {
      SessionFits(st, {}, runs);
      WallStartStays(st, runs);
    }
  }

  lemma {:induction false} WallStartStays(st: State, runs: seq<FileRun>)
    ensures RunFiles(st, runs).wallStart == st.wallStart
    decreases |runs|
  {
    if runs != [] {
      FileGrows(st, runs[0]);
      WallStartStays(RunFile(st, runs[0]), runs[1..]);
    }
  }
}
