/** When Ready means healthy. setState goes by model name, so a call may mark an entry ready
    that it did not launch; that cannot happen as long as no loading entry disappears under
    its own launching call. */
module PipelineReadiness {
  import opened Nodes
  import opened PipelineTable
  import opened PipelineSteps
  import opened PipelineInvariant
  import opened PipelineProof
  import opened PipelineTheorems

  /** The step removes or replaces no loading entry, unless its own launching call does. */
  ghost predicate Calm(s: State, a: Action) {
    forall m :: m in s.table && s.table[m].state == Loading ==>
      || Holds(Step(s, a), m, s.table[m].pid)
      || (a.Go? && s.table[m].pid < |s.procs| && a.call == s.procs[s.table[m].pid].launcher)
  }

  ghost predicate CalmUpTo(base: int, run: seq<Action>, k: nat)
    requires k <= |run|
  {
    forall i :: 0 <= i < k ==> Calm(StateAt(base, run, i), run[i])
  }

  /** Every launching call still has its entry, still loading. */
  ghost predicate LaunchesHold(s: State) {
    forall c :: 0 <= c < |s.calls| && s.calls[c].InLaunch() ==>
      Holds(s, s.calls[c].model, s.calls[c].pid) && s.table[s.calls[c].model].state == Loading
  }

  /** A call about to set Ready has seen its own process answer. */
  ghost predicate SettersHaveProbed(s: State) {
    forall c :: 0 <= c < |s.calls| && s.calls[c].SettingReady? ==>
      s.calls[c].pid < |s.procs| && s.procs[s.calls[c].pid].healthy
  }

  ghost predicate ReadyAreHealthy(s: State) {
    forall m :: m in s.table && s.table[m].state == Ready ==>
      s.table[m].pid < |s.procs| && s.procs[s.table[m].pid].healthy
  }

  ghost predicate CalmInv(s: State) {
    LaunchesHold(s) && SettersHaveProbed(s) && ReadyAreHealthy(s)
  }

  /** Two launching calls never share a model: each would hold its entry. */
  lemma OneLaunchPerModel(s: State, c: nat, d: nat)
    requires LaunchesMatch(s) && LaunchesHold(s)
    requires c < |s.calls| && d < |s.calls| && s.calls[c].InLaunch() && s.calls[d].InLaunch()
    requires s.calls[c].model == s.calls[d].model
    ensures c == d
  {
  }

  /** Call c sets model m to the given state in its next step. */
  predicate SetsTo(pc: Pc, m: string, state: Lifecycle) {
    (pc.SettingReady? && pc.model == m && state == Ready) || (pc.SettingError? && pc.model == m && state == Error)
  }

  /** An entry after a call's step was there before, in the same state unless the call has
      just set it, or the call has just inserted it. */
  ghost predicate EntryFrom(s: State, t: State, c: nat, m: string)
    requires c < |s.calls| && c < |t.calls| && m in t.table
  {
    || (m in s.table && t.table[m].pid == s.table[m].pid
        && (t.table[m].state == s.table[m].state || SetsTo(s.calls[c], m, t.table[m].state)))
    || (t.calls[c] == Launching(m, |s.procs|, false) && t.table[m].pid == |s.procs| && t.table[m].state == Loading)
  }

  lemma LaunchEntries(s: State, c: nat, model: string, choice: Choice, m: string)
    requires c < |s.calls| && m in Launch(s, c, model, choice).table
    ensures EntryFrom(s, Launch(s, c, model, choice), c, m)
  {
    hide FreePort;
    hide HeldPorts;
    hide WithFate;
  }

  lemma CallEntries(s: State, c: nat, choice: Choice, m: string)
    requires c < |s.calls| && m in GoOn(s, c, choice).table
    ensures |GoOn(s, c, choice).calls| == |s.calls|
    ensures EntryFrom(s, GoOn(s, c, choice), c, m)
  {
    LaunchCall(s, c, choice);
    var pc := s.calls[c];
    if pc.Relock? || (pc.EnsureStart? && pc.model !in s.table) {
      LaunchEntries(s, c, pc.model, choice, m);
    }
    hide Launch;
    hide PipelineTable.Idle;
    hide TargetPids;
    hide WithFate;
  }

  /** Where the moving call is in its launch after its step. */
  ghost predicate LaunchFrom(s: State, t: State, c: nat)
    requires c < |s.calls| && c < |t.calls|
  {
    && (t.calls[c].InLaunch() ==>
          || (s.calls[c].Launching? && t.calls[c].model == s.calls[c].model && t.calls[c].pid == s.calls[c].pid
              && t.table == s.table)
          || (Holds(t, t.calls[c].model, t.calls[c].pid) && t.table[t.calls[c].model].state == Loading))
    && (t.calls[c].SettingReady? ==> t.calls[c].pid < |t.procs| && t.procs[t.calls[c].pid].healthy)
  }

  lemma LaunchHolds(s: State, c: nat, model: string, choice: Choice)
    requires c < |s.calls|
    ensures |Launch(s, c, model, choice).calls| == |s.calls|
    ensures LaunchFrom(s, Launch(s, c, model, choice), c)
  {
    hide FreePort;
    hide HeldPorts;
    hide WithFate;
  }

  lemma CallLaunches(s: State, c: nat, choice: Choice)
    requires c < |s.calls|
    ensures |GoOn(s, c, choice).calls| == |s.calls|
    ensures s.calls[c].SettingReady? || s.calls[c].SettingError? ==> !GoOn(s, c, choice).calls[c].InLaunch()
    ensures LaunchFrom(s, GoOn(s, c, choice), c)
  {
    var pc := s.calls[c];
    if pc.Relock? || (pc.EnsureStart? && pc.model !in s.table) {
      LaunchHolds(s, c, pc.model, choice);
    }
    hide Launch;
    hide WithFate;
    hide Touched;
    hide WithState;
    hide PipelineTable.Idle;
    hide TargetPids;
  }

  lemma LaunchKeepsHealth(s: State, c: nat, m: string, choice: Choice, p: nat)
    requires c < |s.calls| && p < |s.procs| && s.procs[p].healthy
    ensures p < |Launch(s, c, m, choice).procs| && Launch(s, c, m, choice).procs[p].healthy
  {
    hide FreePort;
    hide HeldPorts;
  }

  lemma CallKeepsHealth(s: State, c: nat, choice: Choice, p: nat)
    requires c < |s.calls| && p < |s.procs| && s.procs[p].healthy
    ensures p < |GoOn(s, c, choice).procs| && GoOn(s, c, choice).procs[p].healthy
  {
    var pc := s.calls[c];
    if pc.Relock? || (pc.EnsureStart? && pc.model !in s.table) {
      LaunchKeepsHealth(s, c, pc.model, choice, p);
    }
    hide Launch;
    hide Touched;
    hide WithState;
    hide PipelineTable.Idle;
    hide TargetPids;
  }

  lemma HealthStays(s: State, a: Action, p: nat)
    requires p < |s.procs| && s.procs[p].healthy
    ensures p < |Step(s, a).procs| && Step(s, a).procs[p].healthy
  {
    if a.Go? && a.call < |s.calls| {
      CallKeepsHealth(s, a.call, a.choice, p);
    }
    hide GoOn;
    hide Touched;
    hide AfterReaper;
  }

  /** The other calls' launches survive a calm step of call c. */
  lemma OtherLaunchHolds(s: State, c: nat, choice: Choice, d: nat)
    requires LaunchesMatch(s) && LaunchesHold(s) && Calm(s, Go(c, choice))
    requires c < |s.calls| && d < |s.calls| && d != c && s.calls[d].InLaunch()
    ensures var t := GoOn(s, c, choice);
            Holds(t, s.calls[d].model, s.calls[d].pid) && t.table[s.calls[d].model].state == Loading
  {
    var m := s.calls[d].model;
    assert Step(s, Go(c, choice)) == GoOn(s, c, choice);
    assert Holds(GoOn(s, c, choice), m, s.calls[d].pid);
    CallEntries(s, c, choice, m);
    if SetsTo(s.calls[c], m, GoOn(s, c, choice).table[m].state) {
      OneLaunchPerModel(s, c, d);
    }
    hide GoOn;
  }

  lemma CallKeepsLaunches(s: State, c: nat, choice: Choice)
    requires c < |s.calls| && LaunchesMatch(s) && LaunchesHold(s) && Calm(s, Go(c, choice))
    ensures LaunchesHold(GoOn(s, c, choice))
  {
    hide GoOn;
    var t := GoOn(s, c, choice);
    LaunchCall(s, c, choice);
    forall d | 0 <= d < |t.calls| && t.calls[d].InLaunch()
      ensures Holds(t, t.calls[d].model, t.calls[d].pid) && t.table[t.calls[d].model].state == Loading
    {
      if d != c {
        OtherLaunchHolds(s, c, choice, d);
      } else {
        CallLaunches(s, c, choice);
      }
    }
  }

  lemma CallKeepsSetters(s: State, c: nat, choice: Choice)
    requires c < |s.calls| && SettersHaveProbed(s)
    ensures SettersHaveProbed(GoOn(s, c, choice))
  {
    hide GoOn;
    var t := GoOn(s, c, choice);
    LaunchCall(s, c, choice);
    CallLaunches(s, c, choice);
    forall d | 0 <= d < |t.calls| && t.calls[d].SettingReady?
      ensures t.calls[d].pid < |t.procs| && t.procs[t.calls[d].pid].healthy
    {
      if d != c {
        CallKeepsHealth(s, c, choice, s.calls[d].pid);
      }
    }
  }

  lemma CallKeepsReady(s: State, c: nat, choice: Choice)
    requires c < |s.calls| && CalmInv(s)
    ensures ReadyAreHealthy(GoOn(s, c, choice))
  {
    hide GoOn;
    var t := GoOn(s, c, choice);
    forall m | m in t.table && t.table[m].state == Ready
      ensures t.table[m].pid < |t.procs| && t.procs[t.table[m].pid].healthy
    {
      CallEntries(s, c, choice, m);
      if m in s.table {
        var p := s.table[m].pid;
        if p < |s.procs| && s.procs[p].healthy {
          CallKeepsHealth(s, c, choice, p);
        }
      }
    }
  }

  lemma OtherActionKeepsCalm(s: State, a: Action)
    requires Inv(s) && CalmInv(s) && Calm(s, a) && !a.Go?
    ensures CalmInv(Step(s, a))
  {
    hide TableInv;
    hide KillInv;
    hide GoOn;
  }

  lemma StepKeepsCalm(s: State, a: Action)
    requires Inv(s) && CalmInv(s) && Calm(s, a)
    ensures CalmInv(Step(s, a))
  {
    if a.Go? && a.call < |s.calls| {
      CallKeepsLaunches(s, a.call, a.choice);
      CallKeepsSetters(s, a.call, a.choice);
      CallKeepsReady(s, a.call, a.choice);
      hide GoOn;
      hide TableInv;
      hide KillInv;
    } else if !a.Go? {
      OtherActionKeepsCalm(s, a);
      hide Step;
    }
  }

  lemma CalmRunsWereCalm(base: int, run: seq<Action>, k: nat)
    requires k < |run| && CalmUpTo(base, run, k + 1)
    ensures CalmUpTo(base, run, k) && Calm(StateAt(base, run, k), run[k])
  {
    hide Calm;
    hide StateAt;
  }

  lemma CalmStepKeepsCalm(base: int, run: seq<Action>, k: nat)
    requires k < |run| && CalmInv(StateAt(base, run, k)) && Calm(StateAt(base, run, k), run[k])
    ensures CalmInv(StateAt(base, run, k + 1))
  {
    hide Inv;
    hide CalmInv;
    hide Calm;
    hide Step;
    EveryRunKeepsInv(base, run, k);
    StepKeepsCalm(StateAt(base, run, k), run[k]);
    assert StateAt(base, run, k + 1) == Step(StateAt(base, run, k), run[k]);
  }

  lemma RunsStartCalm(base: int, run: seq<Action>)
    ensures CalmInv(StateAt(base, run, 0))
  {
  }

  lemma {:induction false} CalmRunsKeepCalm(base: int, run: seq<Action>, k: nat)
    requires k <= |run| && CalmUpTo(base, run, k)
    ensures CalmInv(StateAt(base, run, k))
  {
    hide *;
    if k == 0 {
      RunsStartCalm(base, run);
    } else {
      CalmRunsWereCalm(base, run, k - 1);
      CalmRunsKeepCalm(base, run, k - 1);
      CalmStepKeepsCalm(base, run, k - 1);
    }
  }

  /** The step by which the launching call of pid sees /health answer 200 on its port. */
  ghost predicate Probes(base: int, run: seq<Action>, i: nat, pid: nat) {
    && i < |run| && run[i].Go? && run[i].choice.answers
    && var s := StateAt(base, run, i); var c := run[i].call;
       && c < |s.calls| && s.calls[c].Launching? && s.calls[c].pid == pid && s.calls[c].probing
       && pid < |s.procs| && s.procs[pid].launcher == c && s.procs[pid].model == s.calls[c].model
  }

  lemma LaunchProbes(s: State, c: nat, m: string, choice: Choice, pid: nat)
    requires c < |s.calls| && pid < |Launch(s, c, m, choice).procs| && Launch(s, c, m, choice).procs[pid].healthy
    ensures pid < |s.procs| && s.procs[pid].healthy
  {
    hide FreePort;
    hide HeldPorts;
  }

  lemma CallProbes(s: State, c: nat, choice: Choice, pid: nat)
    requires c < |s.calls| && pid < |GoOn(s, c, choice).procs| && GoOn(s, c, choice).procs[pid].healthy
    ensures pid < |s.procs|
    ensures || s.procs[pid].healthy
            || (choice.answers && s.calls[c].Launching? && s.calls[c].pid == pid && s.calls[c].probing)
  {
    var pc := s.calls[c];
    if pc.Relock? || (pc.EnsureStart? && pc.model !in s.table) {
      LaunchProbes(s, c, pc.model, choice, pid);
    }
    hide Launch;
    hide Touched;
    hide WithState;
    hide PipelineTable.Idle;
    hide TargetPids;
  }

  lemma StepProbes(base: int, run: seq<Action>, i: nat, pid: nat)
    requires i < |run| && pid < |StateAt(base, run, i + 1).procs| && StateAt(base, run, i + 1).procs[pid].healthy
    ensures || (pid < |StateAt(base, run, i).procs| && StateAt(base, run, i).procs[pid].healthy)
            || Probes(base, run, i, pid)
  {
    var s, a := StateAt(base, run, i), run[i];
    assert StateAt(base, run, i + 1) == Step(s, a);
    LaunchesAlwaysMatch(base, run, i);
    hide StateAt;
    if a.Go? && a.call < |s.calls| {
      CallProbes(s, a.call, a.choice, pid);
      hide GoOn;
    }
  }

  lemma LaunchesAlwaysMatch(base: int, run: seq<Action>, k: nat)
    requires k <= |run|
    ensures LaunchesMatch(StateAt(base, run, k))
  {
    EveryRunKeepsInv(base, run, k);
    hide StateAt;
    hide LaunchesMatch;
  }

  /** A process counts as healthy only after its own launching call saw it answer. */
  lemma {:induction false} HealthyMeansProbed(base: int, run: seq<Action>, k: nat, pid: nat)
    requires k <= |run| && pid < |StateAt(base, run, k).procs| && StateAt(base, run, k).procs[pid].healthy
    ensures exists i: nat :: i < k && Probes(base, run, i, pid)
  {
    if k > 0 {
      StepProbes(base, run, k - 1, pid);
      if !Probes(base, run, k - 1, pid) {
        HealthyMeansProbed(base, run, k - 1, pid);
      }
    }
  }

  /** In a run where no loading entry is lost by its own launching call, an entry is ready
      only after that call saw its own port answer. */
  lemma ReadyMeansProbed(base: int, run: seq<Action>, k: nat, m: string)
    requires k <= |run| && CalmUpTo(base, run, k)
    requires m in StateAt(base, run, k).table && StateAt(base, run, k).table[m].state == Ready
    ensures exists i: nat :: i < k && Probes(base, run, i, StateAt(base, run, k).table[m].pid)
  {
    CalmRunsKeepCalm(base, run, k);
    HealthyMeansProbed(base, run, k, StateAt(base, run, k).table[m].pid);
  }

  /** Port then hands out only the port of a process that has been probed. */
  lemma PortIsProbed(base: int, run: seq<Action>, k: nat, m: string)
    requires k <= |run| && CalmUpTo(base, run, k)
    requires ReadyPort(StateAt(base, run, k).table, m).Some?
    ensures var s := StateAt(base, run, k);
            exists pid: nat, i: nat :: i < k && Probes(base, run, i, pid)
              && IsMapped(s, pid) && s.procs[pid].model == m && s.procs[pid].port == ReadyPort(s.table, m).value
  {
    var s := StateAt(base, run, k);
    ReadyMeansProbed(base, run, k, m);
    EveryRunKeepsInv(base, run, k);
    assert EntryIsMapped(s, m);
    var pid := s.table[m].pid;
    var i: nat :| i < k && Probes(base, run, i, pid);
    assert IsMapped(s, pid);
  }

  lemma {:induction false} SettersAlwaysHaveProbed(base: int, run: seq<Action>, k: nat)
    requires k <= |run|
    ensures SettersHaveProbed(StateAt(base, run, k))
  {
    if k > 0 {
      SettersAlwaysHaveProbed(base, run, k - 1);
      StepKeepsSetters(StateAt(base, run, k - 1), run[k - 1]);
    }
  }

  lemma StepKeepsSetters(s: State, a: Action)
    requires SettersHaveProbed(s)
    ensures SettersHaveProbed(Step(s, a))
  {
    if a.Go? && a.call < |s.calls| {
      CallKeepsSetters(s, a.call, a.choice);
    }
    hide GoOn;
  }

  /** In any run, an entry turns ready with its process unprobed only by the hand of a call
      for the same model whose own process has already left the table. */
  lemma UnprobedNeedsALostLaunch(base: int, run: seq<Action>, k: nat, m: string)
    requires k < |run| && m in StateAt(base, run, k + 1).table
    requires var t := StateAt(base, run, k + 1); var e := t.table[m];
             e.state == Ready && e.pid < |t.procs| && !t.procs[e.pid].healthy
    requires m in StateAt(base, run, k).table ==> StateAt(base, run, k).table[m].state != Ready
    ensures var s := StateAt(base, run, k);
            && run[k].Go? && run[k].call < |s.calls| && s.calls[run[k].call].SettingReady?
            && s.calls[run[k].call].model == m
            && !IsMapped(s, s.calls[run[k].call].pid)
  {
    var s, a := StateAt(base, run, k), run[k];
    EveryRunKeepsInv(base, run, k);
    SettersAlwaysHaveProbed(base, run, k);
    hide StateAt;
    hide KillInv;
    if a.Go? && a.call < |s.calls| {
      CallEntries(s, a.call, a.choice, m);
      var q := s.table[m].pid;
      if q < |s.procs| && s.procs[q].healthy {
        HealthStays(s, a, q);
      }
      hide GoOn;
    } else {
      hide GoOn;
    }
  }
}
