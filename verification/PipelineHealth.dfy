/** Exactly when a pipeline has been probed: the place of its launching call tells. */
module PipelineHealth {
  import opened Nodes
  import opened PipelineTable
  import opened PipelineSteps
  import opened PipelineInvariant
  import opened PipelineProof
  import opened PipelineTheorems
  import opened PipelineSweeps
  import opened PipelineReadiness

  /** A launching call that has seen its process answer. */
  predicate HasSeenAnswer(pc: Pc) {
    pc.SettingReady? || (pc.Done? && pc.result.Returned?)
  }

  /** A launching call that has not, and has not stopped its model yet. */
  predicate StillOwesAnswer(pc: Pc) {
    pc.Launching? || pc.SettingError? || pc.FailStop?
  }

  /** A process, with its fate and its health, fits the place of its launching call. */
  ghost predicate FitsLauncher(s: State, p: Proc, pid: nat) {
    && p.launcher < |s.calls|
    && var pc := s.calls[p.launcher];
       && HasLaunched(pc)
       && (pc.InLaunch() ==> pc.pid == pid && pc.model == p.model)
       && (pc.FailStop? ==> pc.model == p.model)
       && (p.healthy ==> HasSeenAnswer(pc))
       && (p.fate == Mapped ==> (if p.healthy then HasSeenAnswer(pc) else StillOwesAnswer(pc)))
  }

  ghost predicate AllFit(s: State) {
    forall pid: nat :: pid < |s.procs| ==> FitsLauncher(s, s.procs[pid], pid)
  }

  /** What a step may do to a process that another call launched: change its fate. */
  lemma OthersKeepFit(s: State, t: State, pid: nat)
    requires pid < |s.procs| && pid < |t.procs| && FitsLauncher(s, s.procs[pid], pid)
    requires t.procs[pid].launcher == s.procs[pid].launcher && t.procs[pid].model == s.procs[pid].model
    requires t.procs[pid].healthy == s.procs[pid].healthy
    requires t.procs[pid].fate == Mapped ==> s.procs[pid].fate == Mapped
    requires s.procs[pid].launcher < |t.calls| && t.calls[s.procs[pid].launcher] == s.calls[s.procs[pid].launcher]
    ensures FitsLauncher(t, t.procs[pid], pid)
  {
  }

  lemma LaunchKeepsIdentity(s: State, c: nat, m: string, choice: Choice, pid: nat)
    requires c < |s.calls| && pid < |s.procs|
    ensures pid < |Launch(s, c, m, choice).procs|
    ensures var p := Launch(s, c, m, choice).procs[pid]; p.model == s.procs[pid].model && p.port == s.procs[pid].port
  {
    hide FreePort;
    hide HeldPorts;
  }

  /** A process keeps its model and its port. */
  lemma CallKeepsIdentity(s: State, c: nat, choice: Choice, pid: nat)
    requires c < |s.calls| && pid < |s.procs|
    ensures pid < |GoOn(s, c, choice).procs|
    ensures var p := GoOn(s, c, choice).procs[pid]; p.model == s.procs[pid].model && p.port == s.procs[pid].port
  {
    var pc := s.calls[c];
    if pc.Relock? || (pc.EnsureStart? && pc.model !in s.table) {
      LaunchKeepsIdentity(s, c, pc.model, choice, pid);
    }
    hide Launch;
    hide Touched;
    hide WithState;
    hide PipelineTable.Idle;
    hide TargetPids;
  }

  lemma OtherCallKeepsFit(s: State, c: nat, choice: Choice, pid: nat)
    requires LaunchesMatch(s) && c < |s.calls| && pid < |s.procs| && s.procs[pid].launcher != c
    requires FitsLauncher(s, s.procs[pid], pid)
    ensures pid < |GoOn(s, c, choice).procs|
    ensures FitsLauncher(GoOn(s, c, choice), GoOn(s, c, choice).procs[pid], pid)
  {
    var t := GoOn(s, c, choice);
    assert Step(s, Go(c, choice)) == t;
    LaunchCall(s, c, choice);
    CallKeepsIdentity(s, c, choice, pid);
    FatesAreFinal(s, Go(c, choice), pid);
    hide GoOn;
    hide Step;
    if t.procs[pid].healthy {
      CallProbes(s, c, choice, pid);
    } else if s.procs[pid].healthy {
      CallKeepsHealth(s, c, choice, pid);
    }
    OthersKeepFit(s, t, pid);
  }

  /** The launching call's own step. */
  lemma WaitKeepsFit(s: State, c: nat, m: string, pid: nat, probing: bool, choice: Choice)
    requires c < |s.calls| && s.calls[c] == Launching(m, pid, probing) && pid < |s.procs|
    requires s.procs[pid].launcher == c && FitsLauncher(s, s.procs[pid], pid)
    ensures var t := Wait(s, c, m, pid, probing, choice);
            |t.procs| == |s.procs| && FitsLauncher(t, t.procs[pid], pid)
  {
  }

  lemma SetKeepsFit(s: State, c: nat, m: string, state: Lifecycle, next: Pc, pid: nat)
    requires c < |s.calls| && Sets(s.calls[c], m, state, next) && (next.Done? ==> next.result.Returned?)
    requires pid < |s.procs| && s.procs[pid].launcher == c && FitsLauncher(s, s.procs[pid], pid)
    ensures var t := SetAndMove(s, c, m, state, next); FitsLauncher(t, t.procs[pid], pid)
  {
  }

  lemma StopKeepsFit(s: State, c: nat, m: string, kill: Pc, skip: Pc, pid: nat)
    requires TableMatches(s) && c < |s.calls| && s.calls[c] == FailStop(m) && StopContinuation(s, c, m, kill, skip)
    requires pid < |s.procs| && s.procs[pid].launcher == c && FitsLauncher(s, s.procs[pid], pid)
    ensures var t := StopThen(s, c, m, kill, skip);
            |t.procs| == |s.procs| && FitsLauncher(t, t.procs[pid], pid)
  {
    if s.procs[pid].fate == Mapped {
      assert Holds(s, m, pid);
    }
    hide TableMatches;
  }

  lemma KillKeepsFit(s: State, c: nat, victim: nat, pid: nat)
    requires c < |s.calls| && s.calls[c] == FailKill(victim)
    requires pid < |s.procs| && s.procs[pid].launcher == c && FitsLauncher(s, s.procs[pid], pid)
    ensures var t := KillThen(s, c, victim, Done(Failed));
            |t.procs| == |s.procs| && FitsLauncher(t, t.procs[pid], pid)
  {
  }

  lemma OwnCallKeepsFit(s: State, c: nat, choice: Choice, pid: nat)
    requires TableMatches(s) && c < |s.calls| && pid < |s.procs| && s.procs[pid].launcher == c
    requires FitsLauncher(s, s.procs[pid], pid)
    ensures pid < |GoOn(s, c, choice).procs|
    ensures FitsLauncher(GoOn(s, c, choice), GoOn(s, c, choice).procs[pid], pid)
  {
    match s.calls[c]
    case Launching(m, p, probing) => WaitKeepsFit(s, c, m, p, probing, choice);
    case SettingReady(m, p) => SetKeepsFit(s, c, m, Ready, Done(Returned(PortOf(s.procs, p))), pid);
    case SettingError(m, _) => SetKeepsFit(s, c, m, Error, FailStop(m), pid);
    case FailStop(m) => StopKeepsFit(s, c, m, FailKill(PidOf(s.table, m)), Done(Failed), pid);
    case FailKill(v) => KillKeepsFit(s, c, v, pid);
    case _ =>
    hide FitsLauncher;
    hide TableMatches;
    hide Launch;
    hide LookUp;
    hide Wait;
    hide StopThen;
    hide KillThen;
  }

  lemma LaunchedFits(s: State, c: nat, m: string, choice: Choice, pid: nat)
    requires c < |s.calls| && |s.procs| <= pid < |Launch(s, c, m, choice).procs|
    ensures FitsLauncher(Launch(s, c, m, choice), Launch(s, c, m, choice).procs[pid], pid)
  {
    hide FreePort;
    hide HeldPorts;
  }

  lemma NewProcessFits(s: State, c: nat, choice: Choice, pid: nat)
    requires c < |s.calls| && |s.procs| <= pid < |GoOn(s, c, choice).procs|
    ensures FitsLauncher(GoOn(s, c, choice), GoOn(s, c, choice).procs[pid], pid)
  {
    var pc := s.calls[c];
    if pc.Relock? || (pc.EnsureStart? && pc.model !in s.table) {
      LaunchedFits(s, c, pc.model, choice, pid);
    }
    hide FitsLauncher;
    hide Launch;
    hide Touched;
    hide WithState;
    hide PipelineTable.Idle;
    hide TargetPids;
  }

  lemma CallKeepsAllFit(s: State, c: nat, choice: Choice)
    requires TableMatches(s) && LaunchesMatch(s) && AllFit(s) && c < |s.calls|
    ensures AllFit(GoOn(s, c, choice))
  {
    hide GoOn;
    hide FitsLauncher;
    hide TableMatches;
    hide LaunchesMatch;
    var t := GoOn(s, c, choice);
    forall pid: nat | pid < |t.procs|
      ensures FitsLauncher(t, t.procs[pid], pid)
    {
      if pid >= |s.procs| {
        NewProcessFits(s, c, choice, pid);
      } else if s.procs[pid].launcher == c {
        OwnCallKeepsFit(s, c, choice, pid);
      } else {
        OtherCallKeepsFit(s, c, choice, pid);
      }
    }
  }

  lemma StepKeepsAllFit(s: State, a: Action)
    requires TableMatches(s) && LaunchesMatch(s) && AllFit(s)
    ensures AllFit(Step(s, a))
  {
    if a.Go? && a.call < |s.calls| {
      CallKeepsAllFit(s, a.call, a.choice);
    }
    hide GoOn;
    hide TableMatches;
    hide LaunchesMatch;
  }

  lemma RunStepKeepsAllFit(base: int, run: seq<Action>, k: nat)
    requires k < |run| && AllFit(StateAt(base, run, k))
    ensures AllFit(StateAt(base, run, k + 1))
  {
    hide AllFit;
    hide Step;
    hide TableMatches;
    hide LaunchesMatch;
    TablesAlwaysMatch(base, run, k);
    LaunchesAlwaysMatch(base, run, k);
    StepKeepsAllFit(StateAt(base, run, k), run[k]);
    assert StateAt(base, run, k + 1) == Step(StateAt(base, run, k), run[k]);
  }

  lemma RunsStartFit(base: int, run: seq<Action>)
    ensures AllFit(StateAt(base, run, 0))
  {
  }

  /** In every run every process fits its launching call. */
  lemma {:induction false} EveryRunKeepsAllFit(base: int, run: seq<Action>, k: nat)
    requires k <= |run|
    ensures AllFit(StateAt(base, run, k))
  {
    hide *;
    if k == 0 {
      RunsStartFit(base, run);
    } else {
      EveryRunKeepsAllFit(base, run, k - 1);
      RunStepKeepsAllFit(base, run, k - 1);
    }
  }

  lemma {:induction false} HealthStaysInRuns(base: int, run: seq<Action>, i: nat, j: nat, pid: nat)
    requires i <= j <= |run| && pid < |StateAt(base, run, i).procs| && StateAt(base, run, i).procs[pid].healthy
    ensures pid < |StateAt(base, run, j).procs| && StateAt(base, run, j).procs[pid].healthy
  {
    if j > i {
      HealthStaysInRuns(base, run, i, j - 1, pid);
      HealthStays(StateAt(base, run, j - 1), run[j - 1], pid);
      hide Step;
    }
  }

  lemma ProbeMakesHealthy(base: int, run: seq<Action>, i: nat, pid: nat)
    requires Probes(base, run, i, pid)
    ensures pid < |StateAt(base, run, i + 1).procs| && StateAt(base, run, i + 1).procs[pid].healthy
  {
    assert StateAt(base, run, i + 1) == Step(StateAt(base, run, i), run[i]);
    hide StateAt;
    hide Launch;
    hide LookUp;
  }

  /** The record of health is what it says: a process is healthy exactly if its launching call
      has seen its port answer. */
  lemma HealthyExactly(base: int, run: seq<Action>, k: nat, pid: nat)
    requires k <= |run| && pid < |StateAt(base, run, k).procs|
    ensures StateAt(base, run, k).procs[pid].healthy <==> exists i: nat :: i < k && Probes(base, run, i, pid)
  {
    hide *;
    if StateAt(base, run, k).procs[pid].healthy {
      HealthyMeansProbed(base, run, k, pid);
    }
    if i: nat :| i < k && Probes(base, run, i, pid) {
      ProbeMakesHealthy(base, run, i, pid);
      HealthStaysInRuns(base, run, i + 1, k, pid);
    }
  }

  /** In every run, the process of an entry has been probed exactly if its launching call is
      about to set Ready or has returned its port. */
  lemma EntryProbedExactly(base: int, run: seq<Action>, k: nat, m: string)
    requires k <= |run| && m in StateAt(base, run, k).table
    ensures var s := StateAt(base, run, k); var pid := s.table[m].pid;
            && pid < |s.procs| && s.procs[pid].launcher < |s.calls|
            && ((exists i: nat :: i < k && Probes(base, run, i, pid)) <==>
                HasSeenAnswer(s.calls[s.procs[pid].launcher]))
            && (HasSeenAnswer(s.calls[s.procs[pid].launcher]) <==> !StillOwesAnswer(s.calls[s.procs[pid].launcher]))
  {
    TablesAlwaysMatch(base, run, k);
    EveryRunKeepsAllFit(base, run, k);
    var s := StateAt(base, run, k);
    hide StateAt;
    hide Probes;
    assert EntryIsMapped(s, m);
    assert FitsLauncher(s, s.procs[s.table[m].pid], s.table[m].pid);
    HealthyExactly(base, run, k, s.table[m].pid);
  }

  lemma SettingChangesTheState(s: State, c: nat, choice: Choice)
    requires c < |s.calls| && s.calls[c].SettingReady?
    ensures var m := s.calls[c].model;
            GoOn(s, c, choice).table == if m in s.table then s.table[m := s.table[m].(state := Ready)] else s.table
  {
    hide Launch;
    hide LookUp;
  }

  lemma ProbersAreLaunching(base: int, run: seq<Action>, k: nat, pid: nat)
    requires Probes(base, run, k, pid)
    ensures run[k].Go? && run[k].call < |StateAt(base, run, k).calls|
            && StateAt(base, run, k).calls[run[k].call].Launching?
  {
    hide StateAt;
  }

  /** Exactly when setState marks a pipeline ready that has not been probed: when the entry
      under its model's name is of a process whose launching call is still waiting for its
      answer, or has failed and not yet stopped the model. */
  lemma UnprobedExactly(base: int, run: seq<Action>, k: nat, m: string)
    requires k < |run| && m in StateAt(base, run, k).table
    requires run[k].Go? && run[k].call < |StateAt(base, run, k).calls|
    requires var pc := StateAt(base, run, k).calls[run[k].call]; pc.SettingReady? && pc.model == m
    ensures var s, t := StateAt(base, run, k), StateAt(base, run, k + 1); var pid := s.table[m].pid;
            && t.table == s.table[m := s.table[m].(state := Ready)]
            && pid < |s.procs| && s.procs[pid].launcher < |s.calls|
            && (!(exists i: nat :: i < k + 1 && Probes(base, run, i, pid)) <==>
                StillOwesAnswer(s.calls[s.procs[pid].launcher]))
  {
    hide Probes;
    hide GoOn;
    EntryProbedExactly(base, run, k, m);
    var s := StateAt(base, run, k);
    assert StateAt(base, run, k + 1) == Step(s, run[k]);
    hide StateAt;
    SettingChangesTheState(s, run[k].call, run[k].choice);
    if Probes(base, run, k, s.table[m].pid) {
      ProbersAreLaunching(base, run, k, s.table[m].pid);
    }
  }

  /** Action k of the run is setState(m, Ready). */
  ghost predicate SetsReady(base: int, run: seq<Action>, k: nat, m: string) {
    && k < |run| && run[k].Go?
    && var s := StateAt(base, run, k);
       run[k].call < |s.calls| && s.calls[run[k].call].SettingReady? && s.calls[run[k].call].model == m
  }

  /** Action k is setState(m, Ready), and the entry under m is of a process whose launching
      call has not seen an answer. */
  ghost predicate SetsUnprobed(base: int, run: seq<Action>, k: nat, m: string) {
    && SetsReady(base, run, k, m)
    && var s := StateAt(base, run, k);
       m in s.table && s.table[m].pid < |s.procs| && s.procs[s.table[m].pid].launcher < |s.calls|
       && StillOwesAnswer(s.calls[s.procs[s.table[m].pid].launcher])
  }

  /** Exactly when an entry that was not ready before becomes ready without having been
      probed, over all actions of all runs. The call that sets it has then lost its own
      process from the table. */
  lemma TurnsUnprobedExactly(base: int, run: seq<Action>, k: nat, m: string)
    requires k < |run| && m in StateAt(base, run, k + 1).table
    requires m in StateAt(base, run, k).table ==> StateAt(base, run, k).table[m].state != Ready
    ensures var t := StateAt(base, run, k + 1);
            t.table[m].state == Ready && !(exists i: nat :: i < k + 1 && Probes(base, run, i, t.table[m].pid)) <==>
            SetsUnprobed(base, run, k, m)
    ensures SetsUnprobed(base, run, k, m) ==>
              run[k].Go? && run[k].call < |StateAt(base, run, k).calls|
              && StateAt(base, run, k).calls[run[k].call].InLaunch()
              && !IsMapped(StateAt(base, run, k), StateAt(base, run, k).calls[run[k].call].pid)
  {
    var s, t := StateAt(base, run, k), StateAt(base, run, k + 1);
    hide StateAt;
    hide Probes;
    hide IsMapped;
    var pid := t.table[m].pid;
    EntryProbedExactly(base, run, k + 1, m);
    HealthyExactly(base, run, k + 1, pid);
    if t.table[m].state == Ready && !(exists i: nat :: i < k + 1 && Probes(base, run, i, pid)) {
      UnprobedNeedsALostLaunch(base, run, k, m);
      SettersSet(base, run, k, m);
      UnprobedExactly(base, run, k, m);
    }
    if SetsReady(base, run, k, m) {
      SettersSet(base, run, k, m);
      if m in s.table {
        UnprobedExactly(base, run, k, m);
      }
    }
  }

  lemma SettersSet(base: int, run: seq<Action>, k: nat, m: string)
    requires k < |run|
    ensures SetsReady(base, run, k, m) <==>
            && run[k].Go? && run[k].call < |StateAt(base, run, k).calls|
            && StateAt(base, run, k).calls[run[k].call].SettingReady?
            && StateAt(base, run, k).calls[run[k].call].model == m
    ensures SetsReady(base, run, k, m) && m !in StateAt(base, run, k).table ==> m !in StateAt(base, run, k + 1).table
  {
    var s := StateAt(base, run, k);
    assert StateAt(base, run, k + 1) == Step(s, run[k]);
    hide StateAt;
    hide GoOn;
    if SetsReady(base, run, k, m) {
      SettingChangesTheState(s, run[k].call, run[k].choice);
    }
  }
}
