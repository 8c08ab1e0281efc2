/** What Ensure's result means: "the local port of a ready pipeline". */
module PipelineReturns {
  import opened Nodes
  import opened PipelineTable
  import opened PipelineSteps
  import opened PipelineInvariant
  import opened PipelineProof
  import opened PipelineTheorems
  import opened PipelineSweeps
  import opened PipelineReadiness
  import opened PipelineHealth

  /** In step i call c, launching or joining, sees /health answer 200 on the port. */
  ghost predicate SeesAnswer(base: int, run: seq<Action>, i: nat, c: nat, port: int) {
    && i < |run| && run[i].Go? && run[i].call == c && run[i].choice.answers
    && var s := StateAt(base, run, i);
       && c < |s.calls|
       && (s.calls[c].Launching? || s.calls[c].Joining?)
       && s.calls[c].probing && s.calls[c].pid < |s.procs| && s.procs[s.calls[c].pid].port == port
  }

  /** In step i call c looks its model up and finds it ready on the port. */
  ghost predicate FindsReady(base: int, run: seq<Action>, i: nat, c: nat, port: int) {
    && i < |run| && run[i].Go? && run[i].call == c
    && var s := StateAt(base, run, i);
       && c < |s.calls| && s.calls[c].EnsureStart? && ReadyPort(s.table, s.calls[c].model) == Some(port)
  }

  lemma PortStays(s: State, a: Action, pid: nat)
    requires pid < |s.procs|
    ensures pid < |Step(s, a).procs| && Step(s, a).procs[pid].port == s.procs[pid].port
  {
    if a.Go? && a.call < |s.calls| {
      CallKeepsIdentity(s, a.call, a.choice, pid);
    }
    hide GoOn;
    hide AfterReaper;
    hide Touched;
  }

  lemma {:induction false} PortStaysInRuns(base: int, run: seq<Action>, i: nat, j: nat, pid: nat)
    requires i <= j <= |run| && pid < |StateAt(base, run, i).procs|
    ensures pid < |StateAt(base, run, j).procs|
    ensures StateAt(base, run, j).procs[pid].port == StateAt(base, run, i).procs[pid].port
  {
    if j > i {
      PortStaysInRuns(base, run, i, j - 1, pid);
      PortStays(StateAt(base, run, j - 1), run[j - 1], pid);
      hide Step;
    }
  }

  /** A joining call waits for a process of its model. */
  ghost predicate JoinersMatch(s: State) {
    forall c :: 0 <= c < |s.calls| && s.calls[c].Joining? ==>
      s.calls[c].pid < |s.procs| && s.procs[s.calls[c].pid].model == s.calls[c].model
  }

  lemma CallJoins(s: State, c: nat, choice: Choice)
    requires c < |s.calls| && |GoOn(s, c, choice).calls| == |s.calls| && GoOn(s, c, choice).calls[c].Joining?
    ensures var pc, next := s.calls[c], GoOn(s, c, choice).calls[c];
            || (pc.Joining? && next.pid == pc.pid && next.model == pc.model)
            || (pc.EnsureStart? && next.model == pc.model && pc.model in s.table && next.pid == s.table[pc.model].pid)
  {
    if s.calls[c].EnsureStart? || s.calls[c].Relock? {
      LaunchReturnsNothing(s, c, s.calls[c].model, choice);
    }
    hide Launch;
    hide WithState;
    hide PipelineTable.Idle;
    hide TargetPids;
  }

  lemma CallKeepsJoiners(s: State, c: nat, choice: Choice)
    requires EntriesAreMapped(s) && JoinersMatch(s) && c < |s.calls|
    ensures JoinersMatch(GoOn(s, c, choice))
  {
    hide GoOn;
    hide EntriesAreMapped;
    var t := GoOn(s, c, choice);
    LaunchCall(s, c, choice);
    forall d | 0 <= d < |t.calls| && t.calls[d].Joining?
      ensures t.calls[d].pid < |t.procs| && t.procs[t.calls[d].pid].model == t.calls[d].model
    {
      if d == c {
        CallJoins(s, c, choice);
        if t.calls[c].model in s.table {
          EntryOfModel(s, t.calls[c].model);
        }
      }
      CallKeepsIdentity(s, c, choice, t.calls[d].pid);
    }
  }

  lemma EntryOfModel(s: State, m: string)
    requires EntriesAreMapped(s) && m in s.table
    ensures EntryIsMapped(s, m)
  {
  }

  lemma StepKeepsJoiners(s: State, a: Action)
    requires EntriesAreMapped(s) && JoinersMatch(s)
    ensures JoinersMatch(Step(s, a))
  {
    if a.Go? && a.call < |s.calls| {
      CallKeepsJoiners(s, a.call, a.choice);
    }
    hide GoOn;
    hide EntriesAreMapped;
    hide AfterReaper;
    hide Touched;
  }

  lemma RunStepKeepsJoiners(base: int, run: seq<Action>, k: nat)
    requires k < |run| && JoinersMatch(StateAt(base, run, k))
    ensures JoinersMatch(StateAt(base, run, k + 1))
  {
    TablesAlwaysMatch(base, run, k);
    StepKeepsJoiners(StateAt(base, run, k), run[k]);
    assert StateAt(base, run, k + 1) == Step(StateAt(base, run, k), run[k]);
    hide JoinersMatch;
    hide Step;
  }

  lemma {:induction false} JoinersAlwaysMatch(base: int, run: seq<Action>, k: nat)
    requires k <= |run|
    ensures JoinersMatch(StateAt(base, run, k))
  {
    hide *;
    if k == 0 {
      NobodyJoinsYet(base, run);
    } else {
      JoinersAlwaysMatch(base, run, k - 1);
      RunStepKeepsJoiners(base, run, k - 1);
    }
  }

  lemma NobodyJoinsYet(base: int, run: seq<Action>)
    ensures JoinersMatch(StateAt(base, run, 0))
  {
  }

  /** A call that comes to return a port has just found it ready, has just seen it answer as a
      joiner, or was about to set its own pipeline ready. */
  lemma CallReturns(s: State, c: nat, choice: Choice, port: int)
    requires c < |s.calls| && |GoOn(s, c, choice).calls| == |s.calls|
    requires GoOn(s, c, choice).calls[c] == Done(Returned(port)) && s.calls[c] != Done(Returned(port))
    ensures var pc := s.calls[c];
            || (pc.EnsureStart? && ReadyPort(s.table, pc.model) == Some(port))
            || (pc.Joining? && pc.probing && PortOf(s.procs, pc.pid) == port && choice.answers)
            || (pc.SettingReady? && PortOf(s.procs, pc.pid) == port)
  {
    if s.calls[c].EnsureStart? || s.calls[c].Relock? {
      LaunchReturnsNothing(s, c, s.calls[c].model, choice);
    }
    hide Launch;
    hide WithState;
    hide PipelineTable.Idle;
    hide TargetPids;
  }

  lemma LaunchReturnsNothing(s: State, c: nat, m: string, choice: Choice)
    requires c < |s.calls|
    ensures var t := Launch(s, c, m, choice);
            |t.calls| == |s.calls| && (t.calls[c] == Done(Failed) || t.calls[c].Launching?)
  {
    hide FreePort;
    hide HeldPorts;
    hide WithFate;
  }

  /** A call newly returning at k + 1 has its reason at k. */
  lemma StepReturns(base: int, run: seq<Action>, k: nat, c: nat, port: int)
    requires k < |run| && c < |StateAt(base, run, k + 1).calls|
    requires StateAt(base, run, k + 1).calls[c] == Done(Returned(port))
    ensures var s := StateAt(base, run, k);
            && c < |s.calls|
            && (|| s.calls[c] == Done(Returned(port))
                || FindsReady(base, run, k, c, port) || SeesAnswer(base, run, k, c, port)
                || (s.calls[c].SettingReady? && PortOf(s.procs, s.calls[c].pid) == port))
  {
    var s, a := StateAt(base, run, k), run[k];
    assert StateAt(base, run, k + 1) == Step(s, a);
    JoinersAlwaysMatch(base, run, k);
    hide StateAt;
    if a.Go? && a.call < |s.calls| {
      LaunchCall(s, a.call, a.choice);
      if a.call == c && s.calls[c] != Done(Returned(port)) {
        CallReturns(s, c, a.choice, port);
      }
      hide GoOn;
    }
  }

  /** Before it sets its pipeline ready a call has seen its port answer. */
  lemma SetterHasSeenAnswer(base: int, run: seq<Action>, k: nat, c: nat) returns (i: nat)
    requires k <= |run| && c < |StateAt(base, run, k).calls| && StateAt(base, run, k).calls[c].SettingReady?
    ensures var s := StateAt(base, run, k);
            i < k && SeesAnswer(base, run, i, c, PortOf(s.procs, s.calls[c].pid))
  {
    var s := StateAt(base, run, k);
    var pid := s.calls[c].pid;
    SettersAlwaysHaveProbed(base, run, k);
    LaunchesAlwaysMatch(base, run, k);
    HealthyMeansProbed(base, run, k, pid);
    i :| i < k && Probes(base, run, i, pid);
    PortStaysInRuns(base, run, i, k, pid);
    LauncherStaysInRuns(base, run, i, k, pid);
    hide StateAt;
  }

  lemma LauncherStays(s: State, a: Action, pid: nat)
    requires pid < |s.procs|
    ensures pid < |Step(s, a).procs| && Step(s, a).procs[pid].launcher == s.procs[pid].launcher
  {
    if a.Go? && a.call < |s.calls| {
      LaunchCall(s, a.call, a.choice);
    }
    hide GoOn;
    hide AfterReaper;
    hide Touched;
  }

  lemma {:induction false} LauncherStaysInRuns(base: int, run: seq<Action>, i: nat, j: nat, pid: nat)
    requires i <= j <= |run| && pid < |StateAt(base, run, i).procs|
    ensures pid < |StateAt(base, run, j).procs|
    ensures StateAt(base, run, j).procs[pid].launcher == StateAt(base, run, i).procs[pid].launcher
  {
    if j > i {
      LauncherStaysInRuns(base, run, i, j - 1, pid);
      LauncherStays(StateAt(base, run, j - 1), run[j - 1], pid);
      hide Step;
    }
  }

  /** Ensure returns a port only if the call itself has seen it answer, or found its model
      ready on it. */
  lemma {:induction false} ReturnedWasSeen(base: int, run: seq<Action>, k: nat, c: nat, port: int) returns (i: nat)
    requires k <= |run| && c < |StateAt(base, run, k).calls|
    requires StateAt(base, run, k).calls[c] == Done(Returned(port))
    ensures i < k && (SeesAnswer(base, run, i, c, port) || FindsReady(base, run, i, c, port))
  {
    hide *;
    NobodyHasReturnedYet(base, run);
    StepReturns(base, run, k - 1, c, port);
    if SeesAnswer(base, run, k - 1, c, port) || FindsReady(base, run, k - 1, c, port) {
      i := k - 1;
    } else if StateAt(base, run, k - 1).calls[c] == Done(Returned(port)) {
      i := ReturnedWasSeen(base, run, k - 1, c, port);
    } else {
      i := SetterHasSeenAnswer(base, run, k - 1, c);
    }
  }

  lemma NobodyHasReturnedYet(base: int, run: seq<Action>)
    ensures StateAt(base, run, 0).calls == []
  {
  }

  /** In runs where no launching call loses its loading entry, every port Ensure returns has
      answered a probe before. */
  lemma ReturnedHasAnswered(base: int, run: seq<Action>, k: nat, c: nat, port: int) returns (i: nat, d: nat)
    requires k <= |run| && CalmUpTo(base, run, k) && c < |StateAt(base, run, k).calls|
    requires StateAt(base, run, k).calls[c] == Done(Returned(port))
    ensures i < k && SeesAnswer(base, run, i, d, port)
  {
    hide *;
    i := ReturnedWasSeen(base, run, k, c, port);
    d := c;
    if !SeesAnswer(base, run, i, c, port) {
      CalmBefore(base, run, i, k);
      i, d := FoundHasAnswered(base, run, i, c, port);
    }
  }

  lemma CalmBefore(base: int, run: seq<Action>, i: nat, k: nat)
    requires i <= k <= |run| && CalmUpTo(base, run, k)
    ensures CalmUpTo(base, run, i)
  {
    hide Calm;
    hide StateAt;
  }

  lemma FoundHasAnswered(base: int, run: seq<Action>, k: nat, c: nat, port: int) returns (i: nat, d: nat)
    requires k <= |run| && CalmUpTo(base, run, k) && FindsReady(base, run, k, c, port)
    ensures i < k && SeesAnswer(base, run, i, d, port)
  {
    var s := StateAt(base, run, k);
    var m := s.calls[c].model;
    var pid := s.table[m].pid;
    ReadyMeansProbed(base, run, k, m);
    TablesAlwaysMatch(base, run, k);
    hide CalmUpTo;
    assert EntryIsMapped(s, m);
    hide TableMatches;
    i :| i < k && Probes(base, run, i, pid);
    d := run[i].call;
    PortStaysInRuns(base, run, i, k, pid);
    hide StateAt;
  }

  /** The launching call returns its own port, and what it returns is a ready pipeline at that
      moment exactly if its process is still in the table, whoever may have taken it out. */
  lemma LauncherReturnsExactly(base: int, run: seq<Action>, k: nat)
    requires k < |run| && run[k].Go? && run[k].call < |StateAt(base, run, k).calls|
    requires StateAt(base, run, k).calls[run[k].call].SettingReady?
    ensures var s, t := StateAt(base, run, k), StateAt(base, run, k + 1); var pc := s.calls[run[k].call];
            && pc.pid < |s.procs| && |t.calls| == |s.calls|
            && t.calls[run[k].call] == Done(Returned(s.procs[pc.pid].port))
            && (Holds(t, pc.model, pc.pid) && ReadyPort(t.table, pc.model) == Some(s.procs[pc.pid].port) <==>
                Holds(s, pc.model, pc.pid))
  {
    var s := StateAt(base, run, k);
    TablesAlwaysMatch(base, run, k);
    LaunchesAlwaysMatch(base, run, k);
    assert StateAt(base, run, k + 1) == Step(s, run[k]);
    hide StateAt;
    var m := s.calls[run[k].call].model;
    if m in s.table {
      assert EntryIsMapped(s, m);
    }
    hide TableMatches;
    hide Launch;
    hide LookUp;
  }

  /** It still is, in runs where no launching call loses its loading entry. */
  lemma LauncherReturnsReady(base: int, run: seq<Action>, k: nat)
    requires k < |run| && CalmUpTo(base, run, k) && run[k].Go? && run[k].call < |StateAt(base, run, k).calls|
    requires StateAt(base, run, k).calls[run[k].call].SettingReady?
    ensures var t, pc := StateAt(base, run, k + 1), StateAt(base, run, k).calls[run[k].call];
            && run[k].call < |t.calls| && t.calls[run[k].call].Done? && t.calls[run[k].call].result.Returned?
            && Holds(t, pc.model, pc.pid)
            && ReadyPort(t.table, pc.model) == Some(t.calls[run[k].call].result.port)
  {
    CalmRunsKeepCalm(base, run, k);
    LauncherReturnsExactly(base, run, k);
    hide StateAt;
    hide CalmUpTo;
  }

  lemma JoinerReturns(s: State, c: nat, choice: Choice)
    requires c < |s.calls| && s.calls[c].Joining? && s.calls[c].probing && choice.answers
    ensures GoOn(s, c, choice) == At(s, c, Done(Returned(PortOf(s.procs, s.calls[c].pid))))
  {
    hide Launch;
    hide LookUp;
  }

  /** A joining call returns the port of the process it found loading, and that is the port of
      the ready entry at that moment exactly if the process is still in the table and has
      been set ready, which its own launching call may not have done yet. */
  lemma JoinerReturnsExactly(base: int, run: seq<Action>, k: nat)
    requires k < |run| && run[k].Go? && run[k].choice.answers && run[k].call < |StateAt(base, run, k).calls|
    requires var pc := StateAt(base, run, k).calls[run[k].call]; pc.Joining? && pc.probing
    ensures var s, t := StateAt(base, run, k), StateAt(base, run, k + 1); var pc := s.calls[run[k].call];
            && pc.pid < |s.procs| && s.procs[pc.pid].model == pc.model && |t.calls| == |s.calls|
            && t.calls[run[k].call] == Done(Returned(s.procs[pc.pid].port))
            && (Holds(t, pc.model, pc.pid) && ReadyPort(t.table, pc.model) == Some(s.procs[pc.pid].port) <==>
                Holds(s, pc.model, pc.pid) && s.table[pc.model].state == Ready)
  {
    var s := StateAt(base, run, k);
    TablesAlwaysMatch(base, run, k);
    JoinersAlwaysMatch(base, run, k);
    assert StateAt(base, run, k + 1) == Step(s, run[k]);
    hide StateAt;
    JoinerReturns(s, run[k].call, run[k].choice);
    hide GoOn;
    var m := s.calls[run[k].call].model;
    if m in s.table {
      assert EntryIsMapped(s, m);
    }
    hide TableMatches;
  }

  /** In calm runs an error entry is of a process that has not answered its launching call. */
  ghost predicate ErrorsAreUnprobed(s: State) {
    forall m :: m in s.table && s.table[m].state == Error ==>
      s.table[m].pid < |s.procs| && !s.procs[s.table[m].pid].healthy
  }

  lemma CallKeepsUnprobed(s: State, c: nat, choice: Choice)
    requires TableMatches(s) && LaunchesMatch(s) && AllFit(s) && LaunchesHold(s) && ErrorsAreUnprobed(s)
    requires c < |s.calls|
    ensures ErrorsAreUnprobed(GoOn(s, c, choice))
  {
    hide GoOn;
    var t := GoOn(s, c, choice);
    LaunchCall(s, c, choice);
    forall m | m in t.table && t.table[m].state == Error
      ensures t.table[m].pid < |t.procs| && !t.procs[t.table[m].pid].healthy
    {
      CallEntries(s, c, choice, m);
      EntryOfModel(s, m);
      hide TableMatches;
      var pid := t.table[m].pid;
      assert FitsLauncher(s, s.procs[pid], pid);
      if t.procs[pid].healthy {
        CallProbes(s, c, choice, pid);
      }
    }
  }

  lemma StepKeepsUnprobed(s: State, a: Action)
    requires TableMatches(s) && LaunchesMatch(s) && AllFit(s) && LaunchesHold(s) && ErrorsAreUnprobed(s)
    ensures ErrorsAreUnprobed(Step(s, a))
  {
    if a.Go? && a.call < |s.calls| {
      CallKeepsUnprobed(s, a.call, a.choice);
    }
    hide GoOn;
    hide TableMatches;
    hide AllFit;
    hide LaunchesHold;
  }

  lemma CalmStepKeepsUnprobed(base: int, run: seq<Action>, k: nat)
    requires k < |run| && CalmInv(StateAt(base, run, k)) && ErrorsAreUnprobed(StateAt(base, run, k))
    ensures ErrorsAreUnprobed(StateAt(base, run, k + 1))
  {
    TablesAlwaysMatch(base, run, k);
    LaunchesAlwaysMatch(base, run, k);
    EveryRunKeepsAllFit(base, run, k);
    assert StateAt(base, run, k + 1) == Step(StateAt(base, run, k), run[k]);
    hide StateAt;
    hide TableMatches;
    hide LaunchesMatch;
    hide AllFit;
    hide ErrorsAreUnprobed;
    hide Step;
    StepKeepsUnprobed(StateAt(base, run, k), run[k]);
  }

  lemma NothingFailedYet(base: int, run: seq<Action>)
    ensures ErrorsAreUnprobed(StateAt(base, run, 0))
  {
  }

  lemma {:induction false} CalmRunsKeepUnprobed(base: int, run: seq<Action>, k: nat)
    requires k <= |run| && CalmUpTo(base, run, k)
    ensures ErrorsAreUnprobed(StateAt(base, run, k))
  {
    hide *;
    if k == 0 {
      NothingFailedYet(base, run);
    } else {
      CalmRunsWereCalm(base, run, k - 1);
      CalmRunsKeepUnprobed(base, run, k - 1);
      CalmRunsKeepCalm(base, run, k - 1);
      CalmStepKeepsUnprobed(base, run, k - 1);
    }
  }

  lemma LoadingAlwaysLaunching(base: int, run: seq<Action>, k: nat)
    requires k <= |run|
    ensures LoadingHasLauncher(StateAt(base, run, k))
  {
    EveryRunKeepsInv(base, run, k);
    hide StateAt;
    hide LoadingHasLauncher;
  }

  /** In runs where no launching call loses its loading entry, an entry is ready exactly if its
      launching call has returned. */
  lemma ReadyExactly(base: int, run: seq<Action>, k: nat, m: string)
    requires k <= |run| && CalmUpTo(base, run, k) && m in StateAt(base, run, k).table
    ensures var s := StateAt(base, run, k); var pid := s.table[m].pid;
            && pid < |s.procs| && s.procs[pid].launcher < |s.calls|
            && (s.table[m].state == Ready <==> s.calls[s.procs[pid].launcher].Done?)
  {
    var s := StateAt(base, run, k);
    CalmRunsKeepCalm(base, run, k);
    CalmRunsKeepUnprobed(base, run, k);
    TablesAlwaysMatch(base, run, k);
    LoadingAlwaysLaunching(base, run, k);
    EveryRunKeepsAllFit(base, run, k);
    hide StateAt;
    hide CalmUpTo;
    EntryOfModel(s, m);
    hide TableMatches;
    assert FitsLauncher(s, s.procs[s.table[m].pid], s.table[m].pid);
  }

  /** So in such runs what a joining call returns is a ready pipeline at that moment exactly if
      its process is still in the table and the call that launched it has returned. */
  lemma JoinerReturnsReadyExactly(base: int, run: seq<Action>, k: nat)
    requires k < |run| && CalmUpTo(base, run, k)
    requires run[k].Go? && run[k].choice.answers && run[k].call < |StateAt(base, run, k).calls|
    requires var pc := StateAt(base, run, k).calls[run[k].call]; pc.Joining? && pc.probing
    ensures var s, t := StateAt(base, run, k), StateAt(base, run, k + 1); var pc := s.calls[run[k].call];
            && pc.pid < |s.procs| && s.procs[pc.pid].launcher < |s.calls|
            && (Holds(t, pc.model, pc.pid) && ReadyPort(t.table, pc.model) == Some(s.procs[pc.pid].port) <==>
                Holds(s, pc.model, pc.pid) && s.calls[s.procs[pc.pid].launcher].Done?)
  {
    var s := StateAt(base, run, k);
    var pc := s.calls[run[k].call];
    JoinerReturnsExactly(base, run, k);
    EveryRunKeepsAllFit(base, run, k);
    assert FitsLauncher(s, s.procs[pc.pid], pc.pid);
    if Holds(s, pc.model, pc.pid) {
      ReadyExactly(base, run, k, pc.model);
    }
    hide StateAt;
    hide CalmUpTo;
  }
}
