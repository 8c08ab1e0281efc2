/** The idle collector and StopAll, under any interleaving with everything else. */
module PipelineSweeps {
  import opened Nodes
  import opened PipelineTable
  import opened PipelineSteps
  import opened PipelineInvariant
  import opened PipelineProof
  import opened PipelineTheorems

  /** A process that has left the table never returns to it. */
  lemma FatesAreFinal(s: State, a: Action, pid: nat)
    requires pid < |s.procs|
    ensures pid < |Step(s, a).procs|
    ensures Step(s, a).procs[pid].fate == Mapped ==> s.procs[pid].fate == Mapped
  {
    ProcessesAreNeverForgotten(s, a);
    if a.Go? && a.call < |s.calls| {
      var pc := s.calls[a.call];
      if pc.Relock? || pc.EnsureStart? {
        LaunchKeepsFates(s, a.call, pc.model, a.choice, pid);
        hide Launch;
      } else {
        OtherCallsDoNotOverwrite(s, a.call, a.choice, pid);
        hide GoOn;
      }
    } else {
      hide GoOn;
    }
  }

  lemma LaunchKeepsFates(s: State, c: nat, m: string, choice: Choice, pid: nat)
    requires c < |s.calls| && pid < |s.procs|
    ensures pid < |Launch(s, c, m, choice).procs|
    ensures Launch(s, c, m, choice).procs[pid].fate in {s.procs[pid].fate, Overwritten}
  {
    hide FreePort;
    hide HeldPorts;
  }

  lemma {:induction false} FatesAreFinalInRuns(base: int, run: seq<Action>, i: nat, j: nat, pid: nat)
    requires i <= j <= |run| && pid < |StateAt(base, run, i).procs|
    ensures pid < |StateAt(base, run, j).procs|
    ensures StateAt(base, run, j).procs[pid].fate == Mapped ==> StateAt(base, run, i).procs[pid].fate == Mapped
  {
    if j > i {
      FatesAreFinalInRuns(base, run, i, j - 1, pid);
      FatesAreFinal(StateAt(base, run, j - 1), run[j - 1], pid);
      hide Step;
    }
  }

  /** Call c is sweeping with pid among its targets, or has finished with pid out of the table. */
  ghost predicate Tracks(s: State, c: nat, pid: nat) {
    && c < |s.calls| && pid < |s.procs|
    && (s.calls[c].InSweep() || s.calls[c].Done?)
    && (s.calls[c].InSweep() ==> pid in s.calls[c].sweep.targets)
    && (s.calls[c].Done? ==> s.procs[pid].fate != Mapped)
  }

  lemma SweepStepTracks(s: State, c: nat, choice: Choice, pid: nat)
    requires SweepsMatch(s) && Tracks(s, c, pid) && s.calls[c].InSweep()
    ensures Tracks(GoOn(s, c, choice), c, pid)
  {
    hide Launch;
    hide LookUp;
  }

  lemma StepTracks(s: State, a: Action, c: nat, pid: nat)
    requires SweepsMatch(s) && Tracks(s, c, pid)
    ensures Tracks(Step(s, a), c, pid)
  {
    FatesAreFinal(s, a, pid);
    if a.Go? && a.call < |s.calls| {
      if a.call == c {
        if s.calls[c].InSweep() {
          SweepStepTracks(s, c, a.choice, pid);
        }
      } else {
        LaunchCall(s, a.call, a.choice);
      }
      hide GoOn;
    }
  }

  lemma SweepsAlwaysMatch(base: int, run: seq<Action>, k: nat)
    requires k <= |run|
    ensures SweepsMatch(StateAt(base, run, k))
  {
    EveryRunKeepsInv(base, run, k);
    hide StateAt;
    hide SweepsMatch;
  }

  lemma TablesAlwaysMatch(base: int, run: seq<Action>, k: nat)
    requires k <= |run|
    ensures TableMatches(StateAt(base, run, k))
  {
    EveryRunKeepsInv(base, run, k);
    hide StateAt;
    hide TableMatches;
  }

  lemma {:induction false} RunTracks(base: int, run: seq<Action>, i: nat, j: nat, c: nat, pid: nat)
    requires i <= j <= |run| && Tracks(StateAt(base, run, i), c, pid)
    ensures Tracks(StateAt(base, run, j), c, pid)
  {
    hide Tracks;
    hide SweepsMatch;
    if j > i {
      RunTracks(base, run, i, j - 1, c, pid);
      SweepsAlwaysMatch(base, run, j - 1);
      StepTracks(StateAt(base, run, j - 1), run[j - 1], c, pid);
      hide Step;
    }
  }

  /** The step by which call c takes its list. */
  ghost predicate TakesList(base: int, run: seq<Action>, i: nat, c: nat, all: bool) {
    && i < |run| && run[i].Go? && run[i].call == c
    && c < |StateAt(base, run, i).calls| && StateAt(base, run, i).calls[c] == SweepScan(all)
  }

  ghost predicate HasFinished(base: int, run: seq<Action>, j: nat, c: nat)
    requires j <= |run|
  {
    c < |StateAt(base, run, j).calls| && StateAt(base, run, j).calls[c].Done?
  }

  lemma ScanTracks(s: State, c: nat, all: bool, m: string)
    requires TableMatches(s) && c < |s.calls|
    requires m in s.table && (all || IsIdle(s.table[m], s.now))
    ensures Tracks(Scan(s, c, all), c, s.table[m].pid)
  {
    assert EntryIsMapped(s, m);
    assert s.table[m].pid in TargetPids(s.table, if all then s.table.Keys else PipelineTable.Idle(s.table, s.now));
  }

  lemma TakingTheListScans(base: int, run: seq<Action>, i: nat, c: nat, all: bool)
    requires TakesList(base, run, i, c, all)
    ensures StateAt(base, run, i + 1) == Scan(StateAt(base, run, i), c, all)
  {
    assert StateAt(base, run, i + 1) == Step(StateAt(base, run, i), run[i]);
    hide StateAt;
    hide Scan;
    hide Launch;
    hide LookUp;
  }

  /** Every pipeline a sweep found (for the collector: every one that was ready and idle for
      longer than IdleTimeout) is out of the table when the sweep ends, and stays out. */
  lemma SweepRemovesWhatItFound(base: int, run: seq<Action>, i: nat, j: nat, c: nat, all: bool, m: string)
    requires TakesList(base, run, i, c, all) && i < j <= |run| && HasFinished(base, run, j, c)
    requires var s := StateAt(base, run, i); m in s.table && (all || IsIdle(s.table[m], s.now))
    ensures !IsMapped(StateAt(base, run, j), StateAt(base, run, i).table[m].pid)
  {
    hide *;
    ListIsTracked(base, run, i, c, all, m);
    var pid := StateAt(base, run, i).table[m].pid;
    RunTracks(base, run, i + 1, j, c, pid);
    TrackedToTheEnd(base, run, j, c, pid);
  }

  lemma ListIsTracked(base: int, run: seq<Action>, i: nat, c: nat, all: bool, m: string)
    requires TakesList(base, run, i, c, all)
    requires var s := StateAt(base, run, i); m in s.table && (all || IsIdle(s.table[m], s.now))
    ensures Tracks(StateAt(base, run, i + 1), c, StateAt(base, run, i).table[m].pid)
  {
    TablesAlwaysMatch(base, run, i);
    ScanTracks(StateAt(base, run, i), c, all, m);
    TakingTheListScans(base, run, i, c, all);
    hide *;
  }

  lemma TrackedToTheEnd(base: int, run: seq<Action>, j: nat, c: nat, pid: nat)
    requires j <= |run| && Tracks(StateAt(base, run, j), c, pid) && HasFinished(base, run, j, c)
    ensures !IsMapped(StateAt(base, run, j), pid)
  {
    hide StateAt;
    ProcessesAreConserved(base, run, j, pid);
  }

  /** Whatever is in the table when StopAll returns, or later, was started after StopAll took
      its list. */
  lemma StopAllLeavesOnlyNewer(base: int, run: seq<Action>, i: nat, j: nat, c: nat, m: string)
    requires TakesList(base, run, i, c, true) && i < j <= |run| && HasFinished(base, run, j, c)
    requires m in StateAt(base, run, j).table
    ensures |StateAt(base, run, i).procs| <= StateAt(base, run, j).table[m].pid < |StateAt(base, run, j).procs|
  {
    var s, t := StateAt(base, run, i), StateAt(base, run, j);
    TablesAlwaysMatch(base, run, i);
    TablesAlwaysMatch(base, run, j);
    hide StateAt;
    assert EntryIsMapped(t, m);
    var pid := t.table[m].pid;
    if pid < |s.procs| {
      FatesAreFinalInRuns(base, run, i, j, pid);
      assert Holds(s, s.procs[pid].model, pid);
      SweepRemovesWhatItFound(base, run, i, j, c, true, s.procs[pid].model);
    }
  }

  /** If no process starts after StopAll has taken its list, the table is empty when it
      returns. */
  lemma StopAllEmptiesTheTable(base: int, run: seq<Action>, i: nat, j: nat, c: nat)
    requires TakesList(base, run, i, c, true) && i < j <= |run| && HasFinished(base, run, j, c)
    requires |StateAt(base, run, j).procs| == |StateAt(base, run, i).procs|
    ensures StateAt(base, run, j).table == map[]
  {
    hide StateAt;
    forall m | m in StateAt(base, run, j).table
      ensures false
    {
      StopAllLeavesOnlyNewer(base, run, i, j, c, m);
    }
  }
}
