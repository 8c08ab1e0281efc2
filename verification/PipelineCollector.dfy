/** What the idle collector stops, measured by when the model was last used. */
module PipelineCollector {
  import opened Nodes
  import opened PipelineTable
  import opened PipelineSteps
  import opened PipelineInvariant
  import opened PipelineProof
  import opened PipelineTheorems
  import opened PipelineSweeps

  /** Action a is a use of model m: Touch, or the lookup of an Ensure call. */
  ghost predicate Uses(s: State, a: Action, m: string) {
    a == Touch(m) || (a.Go? && a.call < |s.calls| && s.calls[a.call] == EnsureStart(m))
  }

  /** Action a dates the entry of m to the present: a use, or a relaunch that starts a process. */
  ghost predicate Marks(s: State, a: Action, m: string) {
    || Uses(s, a, m)
    || (a.Go? && a.call < |s.calls| && s.calls[a.call].Relock? && s.calls[a.call].model == m
        && |Step(s, a).procs| > |s.procs|)
  }

  lemma LaunchMarks(s: State, c: nat, model: string, choice: Choice, m: string)
    requires c < |s.calls| && m in Launch(s, c, model, choice).table
    ensures var t := Launch(s, c, model, choice);
            if m == model && |t.procs| > |s.procs| then t.table[m].lastUsed == s.now
            else m in s.table && t.table[m].lastUsed == s.table[m].lastUsed
  {
    hide FreePort;
    hide HeldPorts;
  }

  lemma CallMarks(s: State, c: nat, choice: Choice, m: string)
    requires c < |s.calls| && m in GoOn(s, c, choice).table
    ensures var t := GoOn(s, c, choice); var pc := s.calls[c];
            if pc == EnsureStart(m) || (pc.Relock? && pc.model == m && |t.procs| > |s.procs|)
            then t.table[m].lastUsed == s.now
            else m in s.table && t.table[m].lastUsed == s.table[m].lastUsed
  {
    var pc := s.calls[c];
    if pc.Relock? || (pc.EnsureStart? && pc.model !in s.table) {
      LaunchMarks(s, c, pc.model, choice, m);
    }
    hide Launch;
    hide WithFate;
    hide PipelineTable.Idle;
    hide TargetPids;
  }

  /** A step dates an entry to the present if it marks it, and leaves its date alone if not. */
  lemma StepMarks(s: State, a: Action, m: string)
    requires m in Step(s, a).table
    ensures if Marks(s, a, m) then Step(s, a).table[m].lastUsed == s.now
            else m in s.table && Step(s, a).table[m].lastUsed == s.table[m].lastUsed
  {
    if a.Go? && a.call < |s.calls| {
      CallMarks(s, a.call, a.choice, m);
    }
    hide GoOn;
  }

  lemma ClockStaysInCalls(s: State, c: nat, choice: Choice)
    requires c < |s.calls|
    ensures GoOn(s, c, choice).now == s.now
  {
    hide FreePort;
    hide HeldPorts;
    hide WithFate;
    hide Touched;
    hide WithState;
    hide PipelineTable.Idle;
    hide TargetPids;
  }

  /** The clock moves with Tick and with nothing else. */
  lemma ClockExactly(s: State, a: Action)
    ensures Step(s, a).now == s.now + if a.Tick? then a.elapsed else 0
  {
    if a.Go? && a.call < |s.calls| {
      ClockStaysInCalls(s, a.call, a.choice);
    }
    hide GoOn;
  }

  lemma {:induction false} ClockIsMonotone(base: int, run: seq<Action>, i: nat, j: nat)
    requires i <= j <= |run|
    ensures StateAt(base, run, i).now <= StateAt(base, run, j).now
  {
    if i < j {
      ClockIsMonotone(base, run, i, j - 1);
      ClockExactly(StateAt(base, run, j - 1), run[j - 1]);
      hide Step;
    }
  }

  /** Action k of the run marks m. */
  ghost predicate MarksAt(base: int, run: seq<Action>, k: nat, m: string) {
    k < |run| && Marks(StateAt(base, run, k), run[k], m)
  }

  lemma StepMarksInRun(base: int, run: seq<Action>, k: nat, m: string)
    requires k < |run| && m in StateAt(base, run, k + 1).table
    ensures var s, t := StateAt(base, run, k), StateAt(base, run, k + 1);
            if MarksAt(base, run, k, m) then t.table[m].lastUsed == s.now
            else m in s.table && t.table[m].lastUsed == s.table[m].lastUsed
  {
    var s := StateAt(base, run, k);
    assert StateAt(base, run, k + 1) == Step(s, run[k]);
    hide StateAt;
    StepMarks(s, run[k], m);
    hide Step;
    hide Marks;
  }

  /** No entry is ever dated before an action that marked its model. */
  lemma {:induction false} MarksAreRemembered(base: int, run: seq<Action>, k: nat, j: nat, m: string)
    requires k < j <= |run| && MarksAt(base, run, k, m) && m in StateAt(base, run, j).table
    ensures StateAt(base, run, j).table[m].lastUsed >= StateAt(base, run, k).now
  {
    hide *;
    StepMarksInRun(base, run, j - 1, m);
    if MarksAt(base, run, j - 1, m) {
      ClockIsMonotone(base, run, k, j - 1);
    } else {
      MarksAreRemembered(base, run, k, j - 1, m);
    }
  }

  /** An entry carries the date of the last action that marked it, if there was one since i;
      otherwise it is dated as it was at i. */
  lemma {:induction false} DatedByLastMark(base: int, run: seq<Action>, i: nat, j: nat, m: string)
    requires i <= j <= |run| && m in StateAt(base, run, j).table
    ensures || (exists k: nat :: i <= k < j && MarksAt(base, run, k, m)
                                 && StateAt(base, run, j).table[m].lastUsed == StateAt(base, run, k).now)
            || (m in StateAt(base, run, i).table
                && StateAt(base, run, j).table[m].lastUsed == StateAt(base, run, i).table[m].lastUsed)
  {
    hide *;
    if i < j {
      StepMarksInRun(base, run, j - 1, m);
      if !MarksAt(base, run, j - 1, m) {
        DatedByLastMark(base, run, i, j - 1, m);
      }
    }
  }

  /** The collector lists only what nobody has used for longer than IdleTimeout: neither a
      Touch nor an Ensure of the model lies less far back. */
  lemma CollectedWasUnused(base: int, run: seq<Action>, i: nat, k: nat, m: string)
    requires i < k <= |run| && Uses(StateAt(base, run, i), run[i], m)
    requires m in PipelineTable.Idle(StateAt(base, run, k).table, StateAt(base, run, k).now)
    ensures StateAt(base, run, i).now < StateAt(base, run, k).now - 600 * SECOND
  {
    hide StateAt;
    assert MarksAt(base, run, i, m);
    MarksAreRemembered(base, run, i, k, m);
  }

  /** Nothing has marked m between i and j within the last IdleTimeout before j. */
  ghost predicate UnusedSince(base: int, run: seq<Action>, i: nat, j: nat, m: string)
    requires j <= |run|
  {
    forall k: nat :: i <= k < j && MarksAt(base, run, k, m) ==>
      StateAt(base, run, k).now < StateAt(base, run, j).now - 600 * SECOND
  }

  /** Listed as idle at i, an entry is still overdue at j exactly if nothing in between has
      marked it within the last IdleTimeout. */
  lemma StillOverdueExactly(base: int, run: seq<Action>, i: nat, j: nat, m: string)
    requires i <= j <= |run| && m in StateAt(base, run, j).table
    requires m in PipelineTable.Idle(StateAt(base, run, i).table, StateAt(base, run, i).now)
    ensures StateAt(base, run, j).now - StateAt(base, run, j).table[m].lastUsed > 600 * SECOND <==>
            UnusedSince(base, run, i, j, m)
  {
    hide StateAt;
    hide MarksAt;
    forall k: nat | i <= k < j && MarksAt(base, run, k, m)
      ensures StateAt(base, run, j).table[m].lastUsed >= StateAt(base, run, k).now
    {
      MarksAreRemembered(base, run, k, j, m);
    }
    DatedByLastMark(base, run, i, j, m);
    ClockIsMonotone(base, run, i, j);
  }

  /** Call c is a collector's whose list was within `listed`, or has finished. */
  ghost predicate Collects(s: State, c: nat, listed: set<string>) {
    && c < |s.calls|
    && (s.calls[c].InSweep() || s.calls[c].Done?)
    && (s.calls[c].InSweep() ==> s.calls[c].sweep.todo <= listed)
  }

  lemma OwnStepCollects(s: State, c: nat, choice: Choice, listed: set<string>)
    requires Collects(s, c, listed)
    ensures Collects(GoOn(s, c, choice), c, listed)
  {
    hide Launch;
    hide LookUp;
  }

  lemma StepCollects(s: State, a: Action, c: nat, listed: set<string>)
    requires Collects(s, c, listed)
    ensures Collects(Step(s, a), c, listed)
  {
    if a.Go? && a.call < |s.calls| {
      if a.call == c {
        OwnStepCollects(s, c, a.choice, listed);
      } else {
        LaunchCall(s, a.call, a.choice);
      }
    }
    hide GoOn;
  }

  lemma {:induction false} RunCollects(base: int, run: seq<Action>, i: nat, j: nat, c: nat, listed: set<string>)
    requires i <= j <= |run| && Collects(StateAt(base, run, i), c, listed)
    ensures Collects(StateAt(base, run, j), c, listed)
  {
    hide Collects;
    if j > i {
      RunCollects(base, run, i, j - 1, c, listed);
      StepCollects(StateAt(base, run, j - 1), run[j - 1], c, listed);
      hide Step;
    }
  }

  lemma ListsAreIdle(base: int, run: seq<Action>, i: nat, j: nat, c: nat)
    requires TakesList(base, run, i, c, false) && i < j <= |run|
    ensures var s := StateAt(base, run, i);
            Collects(StateAt(base, run, j), c, PipelineTable.Idle(s.table, s.now))
  {
    var s := StateAt(base, run, i);
    var listed := PipelineTable.Idle(s.table, s.now);
    TakingTheListScans(base, run, i, c, false);
    assert Collects(Scan(s, c, false), c, listed);
    hide Collects;
    hide Scan;
    RunCollects(base, run, i + 1, j, c, listed);
  }

  /** Call c is a sweep of everything, or of what is idle, or has finished. */
  ghost predicate SweepsAll(s: State, c: nat, all: bool) {
    c < |s.calls|
    && (s.calls[c] == SweepScan(all) || (s.calls[c].InSweep() && s.calls[c].sweep.all == all) || s.calls[c].Done?)
  }

  lemma OwnStepSweepsAll(s: State, c: nat, choice: Choice, all: bool)
    requires SweepsAll(s, c, all)
    ensures SweepsAll(GoOn(s, c, choice), c, all)
  {
    hide Launch;
    hide LookUp;
    hide TargetPids;
    hide PipelineTable.Idle;
  }

  lemma StepSweepsAll(s: State, a: Action, c: nat, all: bool)
    requires SweepsAll(s, c, all)
    ensures SweepsAll(Step(s, a), c, all)
  {
    if a.Go? && a.call < |s.calls| {
      if a.call == c {
        OwnStepSweepsAll(s, c, a.choice, all);
      } else {
        LaunchCall(s, a.call, a.choice);
      }
    }
    hide GoOn;
  }

  lemma {:induction false} RunSweepsAll(base: int, run: seq<Action>, i: nat, j: nat, c: nat, all: bool)
    requires i <= j <= |run| && SweepsAll(StateAt(base, run, i), c, all)
    ensures SweepsAll(StateAt(base, run, j), c, all)
  {
    hide SweepsAll;
    if j > i {
      RunSweepsAll(base, run, i, j - 1, c, all);
      StepSweepsAll(StateAt(base, run, j - 1), run[j - 1], c, all);
      hide Step;
    }
  }

  /** StopAll's list is of everything, the collector's of what is idle. */
  lemma SweepsAsAsked(base: int, run: seq<Action>, h: nat, i: nat, all: bool, taken: bool)
    requires h < i < |run| && run[h] == (if all then CallStopAll else CallCollect)
    requires TakesList(base, run, i, |StateAt(base, run, h).calls|, taken)
    ensures taken == all
  {
    hide *;
    NewSweep(base, run, h, all);
    RunSweepsAll(base, run, h + 1, i, |StateAt(base, run, h).calls|, all);
    ListOfSweep(base, run, i, |StateAt(base, run, h).calls|, all, taken);
  }

  lemma NewSweep(base: int, run: seq<Action>, h: nat, all: bool)
    requires h < |run| && run[h] == (if all then CallStopAll else CallCollect)
    ensures SweepsAll(StateAt(base, run, h + 1), |StateAt(base, run, h).calls|, all)
  {
    assert StateAt(base, run, h + 1) == Step(StateAt(base, run, h), run[h]);
    hide StateAt;
    hide GoOn;
  }

  lemma ListOfSweep(base: int, run: seq<Action>, i: nat, c: nat, all: bool, taken: bool)
    requires i <= |run| && SweepsAll(StateAt(base, run, i), c, all) && TakesList(base, run, i, c, taken)
    ensures taken == all
  {
    hide StateAt;
  }

  /** The collector's list is exactly what is in the table, ready, and unused for longer than
      ten minutes; StopAll's is everything. */
  lemma ListedExactly(base: int, run: seq<Action>, i: nat, c: nat, all: bool)
    requires TakesList(base, run, i, c, all)
    ensures var s, t := StateAt(base, run, i), StateAt(base, run, i + 1);
            && t.table == s.table && t.procs == s.procs && c < |t.calls| && t.calls[c].Sweeping?
            && forall m :: m in t.calls[c].sweep.todo <==>
                 m in s.table && (all || (s.table[m].state == Ready && s.now - s.table[m].lastUsed > 600 * SECOND))
  {
    TakingTheListScans(base, run, i, c, all);
    hide StateAt;
    hide TargetPids;
  }

  /** Whatever a collector's step takes out of the table was ready and unused for longer than
      ten minutes when the list was taken. */
  lemma CollectorTakesOnlyIdle(base: int, run: seq<Action>, i: nat, j: nat, c: nat, m: string)
    requires TakesList(base, run, i, c, false) && i < j < |run| && run[j].Go? && run[j].call == c
    requires m in StateAt(base, run, j).table && m !in StateAt(base, run, j + 1).table
    ensures var s := StateAt(base, run, i);
            m in s.table && s.table[m].state == Ready && s.now - s.table[m].lastUsed > 600 * SECOND
  {
    var s := StateAt(base, run, j);
    ListsAreIdle(base, run, i, j, c);
    assert StateAt(base, run, j + 1) == Step(s, run[j]);
    hide StateAt;
    SweepersTakeTheNext(s, c, run[j].choice, m);
    hide Step;
  }

  lemma SweepersTakeTheNext(s: State, c: nat, choice: Choice, m: string)
    requires c < |s.calls| && (s.calls[c].InSweep() || s.calls[c].Done?)
    requires m in s.table && m !in GoOn(s, c, choice).table
    ensures s.calls[c].InSweep() && m in s.calls[c].sweep.todo
  {
    hide Launch;
    hide LookUp;
  }

  /** At step j the collector's call c, whose list dates from step i, stops the entry of m. */
  ghost predicate Collected(base: int, run: seq<Action>, i: nat, j: nat, c: nat, m: string) {
    && TakesList(base, run, i, c, false) && i < j < |run|
    && run[j].Go? && run[j].call == c && run[j].choice.next == m
    && var s := StateAt(base, run, j);
       c < |s.calls| && s.calls[c].Sweeping? && m in s.calls[c].sweep.todo && m in s.table
  }

  lemma CollectingStops(s: State, c: nat, choice: Choice)
    requires TableMatches(s) && c < |s.calls| && s.calls[c].Sweeping?
    requires choice.next in s.calls[c].sweep.todo && choice.next in s.table
    ensures var m, t := choice.next, GoOn(s, c, choice);
            t.table == s.table - {m} && KillPending(t, s.table[m].pid, c)
  {
    assert EntryIsMapped(s, choice.next);
    hide TableMatches;
    hide Launch;
    hide LookUp;
  }

  /** The collector removes what it stops and is about to kill it; and what it stops has been
      unused for longer than IdleTimeout at that moment if and only if nothing has marked it
      within that time since the list was taken. */
  lemma CollectorStopsExactly(base: int, run: seq<Action>, i: nat, j: nat, c: nat, m: string)
    requires Collected(base, run, i, j, c, m)
    ensures var s, t := StateAt(base, run, j), StateAt(base, run, j + 1);
            && t.table == s.table - {m} && KillPending(t, s.table[m].pid, c)
            && (s.now - s.table[m].lastUsed > 600 * SECOND <==> UnusedSince(base, run, i, j, m))
  {
    var s := StateAt(base, run, j);
    ListsAreIdle(base, run, i, j, c);
    TablesAlwaysMatch(base, run, j);
    assert StateAt(base, run, j + 1) == Step(s, run[j]);
    hide StateAt;
    hide TableMatches;
    hide UnusedSince;
    StillOverdueExactly(base, run, i, j, m);
    CollectingStops(s, c, run[j].choice);
    hide GoOn;
  }
}
