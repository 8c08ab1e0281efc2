/** Dead pipelines: what a reaper leaves in the table, for how long, and who can see it. */
module PipelineReaping {
  import opened Nodes
  import opened PipelineTable
  import opened PipelineSteps
  import opened PipelineInvariant
  import opened PipelineProof
  import opened PipelineTheorems
  import opened PipelineSweeps
  import opened PipelineReadiness
  import opened PipelineHealth

  lemma LaunchReapsNothing(s: State, c: nat, m: string, choice: Choice, p: nat)
    requires c < |s.calls| && p < |Launch(s, c, m, choice).procs| && Launch(s, c, m, choice).procs[p].reaped
    ensures p < |s.procs| && s.procs[p].reaped
  {
    hide FreePort;
    hide HeldPorts;
  }

  lemma CallReapsNothing(s: State, c: nat, choice: Choice, p: nat)
    requires c < |s.calls| && p < |GoOn(s, c, choice).procs| && GoOn(s, c, choice).procs[p].reaped
    ensures p < |s.procs| && s.procs[p].reaped
  {
    var pc := s.calls[c];
    if pc.Relock? || (pc.EnsureStart? && pc.model !in s.table) {
      LaunchReapsNothing(s, c, pc.model, choice, p);
    }
    hide Launch;
    hide Touched;
    hide WithState;
    hide PipelineTable.Idle;
    hide TargetPids;
  }

  /** The entry of m is of a process that has been reaped. */
  ghost predicate IsDead(s: State, m: string) {
    m in s.table && s.table[m].pid < |s.procs| && s.procs[s.table[m].pid].reaped
  }

  /** A dead entry has some call between its setError and its stop. */
  ghost predicate DeadHaveFailedCall(s: State) {
    forall m :: IsDead(s, m) ==> exists c: nat :: FailedCall(s, m, c)
  }

  /** A call's failure stays pending until it stops the model. */
  lemma FailureStaysPending(s: State, c: nat, choice: Choice, m: string, d: nat)
    requires c < |s.calls| && FailedCall(s, m, d) && m in s.table
    ensures FailedCall(GoOn(s, c, choice), m, d) || m !in GoOn(s, c, choice).table
  {
    LaunchCall(s, c, choice);
    hide Launch;
    hide LookUp;
  }

  lemma CallKeepsAttended(s: State, c: nat, choice: Choice)
    requires c < |s.calls| && DeadHaveFailedCall(s)
    ensures DeadHaveFailedCall(GoOn(s, c, choice))
  {
    hide GoOn;
    var t := GoOn(s, c, choice);
    forall m | IsDead(t, m)
      ensures exists d: nat :: FailedCall(t, m, d)
    {
      CallEntries(s, c, choice, m);
      CallReapsNothing(s, c, choice, t.table[m].pid);
      assert IsDead(s, m);
      var d: nat :| FailedCall(s, m, d);
      FailureStaysPending(s, c, choice, m, d);
    }
  }

  /** A reaper leaves only entries in state Error. */
  lemma ReapKeepsAttended(s: State, pid: nat)
    requires EntriesAreMapped(s) && ErrorHasFailedCall(s) && DeadHaveFailedCall(s)
    ensures DeadHaveFailedCall(ReapStep(s, pid))
  {
    var t := ReapStep(s, pid);
    forall m | IsDead(t, m)
      ensures exists d: nat :: FailedCall(t, m, d)
    {
      assert EntryIsMapped(s, m);
      assert IsDead(s, m) || s.table[m].state == Error;
      var d: nat :| FailedCall(s, m, d);
      assert FailedCall(t, m, d);
    }
  }

  lemma OthersKeepAttended(s: State, t: State)
    requires DeadHaveFailedCall(s) && OnlyMoves(s, t, |s.calls|)
    requires forall m :: IsDead(t, m) ==> IsDead(s, m)
    ensures DeadHaveFailedCall(t)
  {
    forall m | IsDead(t, m)
      ensures exists d: nat :: FailedCall(t, m, d)
    {
      var d: nat :| FailedCall(s, m, d);
      assert FailedCall(t, m, d);
    }
  }

  lemma StepKeepsAttended(s: State, a: Action)
    requires EntriesAreMapped(s) && ErrorHasFailedCall(s) && DeadHaveFailedCall(s)
    ensures DeadHaveFailedCall(Step(s, a))
  {
    hide EntriesAreMapped;
    hide ErrorHasFailedCall;
    hide DeadHaveFailedCall;
    hide GoOn;
    hide ReapStep;
    if a.Go? && a.call < |s.calls| {
      CallKeepsAttended(s, a.call, a.choice);
    } else if a.Reap? {
      ReapKeepsAttended(s, a.pid);
    } else {
      OthersKeepAttended(s, Step(s, a));
    }
  }

  lemma ErrorsAlwaysAttended(base: int, run: seq<Action>, k: nat)
    requires k <= |run|
    ensures ErrorHasFailedCall(StateAt(base, run, k))
  {
    EveryRunKeepsInv(base, run, k);
    hide StateAt;
    hide ErrorHasFailedCall;
  }

  lemma RunStepKeepsAttended(base: int, run: seq<Action>, k: nat)
    requires k < |run| && DeadHaveFailedCall(StateAt(base, run, k))
    ensures DeadHaveFailedCall(StateAt(base, run, k + 1))
  {
    TablesAlwaysMatch(base, run, k);
    ErrorsAlwaysAttended(base, run, k);
    hide DeadHaveFailedCall;
    hide ErrorHasFailedCall;
    hide Step;
    StepKeepsAttended(StateAt(base, run, k), run[k]);
    assert StateAt(base, run, k + 1) == Step(StateAt(base, run, k), run[k]);
  }

  lemma NothingIsDeadYet(base: int, run: seq<Action>)
    ensures DeadHaveFailedCall(StateAt(base, run, 0))
  {
  }

  /** In every run a dead entry, whatever its state, has some call between its setError and
      its stop. */
  lemma {:induction false} DeadAreAttended(base: int, run: seq<Action>, k: nat)
    requires k <= |run|
    ensures DeadHaveFailedCall(StateAt(base, run, k))
  {
    hide *;
    if k == 0 {
      NothingIsDeadYet(base, run);
    } else {
      DeadAreAttended(base, run, k - 1);
      RunStepKeepsAttended(base, run, k - 1);
    }
  }

  /** In step i the reaper of pid runs and finds its entry under m in state Error. */
  ghost predicate ReapedInError(base: int, run: seq<Action>, i: nat, m: string, pid: nat) {
    && i < |run| && run[i] == Reap(pid)
    && var s := StateAt(base, run, i);
       && pid < |s.procs| && s.procs[pid].exited && !s.procs[pid].reaped
       && Holds(s, m, pid) && s.table[m].state == Error
  }

  lemma CallKeepsReaped(s: State, c: nat, choice: Choice, p: nat)
    requires c < |s.calls| && p < |s.procs| && s.procs[p].reaped
    ensures p < |GoOn(s, c, choice).procs| && GoOn(s, c, choice).procs[p].reaped
  {
    var pc := s.calls[c];
    if pc.Relock? || (pc.EnsureStart? && pc.model !in s.table) {
      LaunchKeepsReaped(s, c, pc.model, choice, p);
    }
    hide Launch;
    hide Touched;
    hide WithState;
    hide PipelineTable.Idle;
    hide TargetPids;
  }

  lemma LaunchKeepsReaped(s: State, c: nat, m: string, choice: Choice, p: nat)
    requires c < |s.calls| && p < |s.procs| && s.procs[p].reaped
    ensures p < |Launch(s, c, m, choice).procs| && Launch(s, c, m, choice).procs[p].reaped
  {
    hide FreePort;
    hide HeldPorts;
  }

  lemma StepKeepsReaped(s: State, a: Action, p: nat)
    requires p < |s.procs| && s.procs[p].reaped
    ensures p < |Step(s, a).procs| && Step(s, a).procs[p].reaped
  {
    if a.Go? && a.call < |s.calls| {
      CallKeepsReaped(s, a.call, a.choice, p);
    }
    hide GoOn;
    hide AfterReaper;
    hide Touched;
  }

  lemma {:induction false} ReapedStays(base: int, run: seq<Action>, i: nat, j: nat, p: nat)
    requires i <= j <= |run| && p < |StateAt(base, run, i).procs| && StateAt(base, run, i).procs[p].reaped
    ensures p < |StateAt(base, run, j).procs| && StateAt(base, run, j).procs[p].reaped
  {
    if j > i {
      ReapedStays(base, run, i, j - 1, p);
      StepKeepsReaped(StateAt(base, run, j - 1), run[j - 1], p);
      hide Step;
    }
  }

  /** A process that becomes reaped and keeps its entry had it in state Error. */
  lemma StepReaps(s: State, a: Action, m: string, pid: nat)
    requires EntriesAreMapped(s) && pid < |Step(s, a).procs| && Step(s, a).procs[pid].reaped
    requires Holds(Step(s, a), m, pid)
    ensures pid < |s.procs|
    ensures || s.procs[pid].reaped
            || (a == Reap(pid) && s.procs[pid].exited && Holds(s, m, pid) && s.table[m].state == Error)
  {
    if a.Go? && a.call < |s.calls| {
      CallReapsNothing(s, a.call, a.choice, pid);
    }
    if m in s.table {
      assert EntryIsMapped(s, m);
    }
    hide GoOn;
    hide EntriesAreMapped;
    hide Touched;
  }

  lemma RunStepReaps(base: int, run: seq<Action>, k: nat, m: string, pid: nat)
    requires k < |run| && Holds(StateAt(base, run, k + 1), m, pid)
    requires pid < |StateAt(base, run, k + 1).procs| && StateAt(base, run, k + 1).procs[pid].reaped
    ensures var s := StateAt(base, run, k);
            pid < |s.procs| && ((s.procs[pid].reaped && Holds(s, m, pid)) || ReapedInError(base, run, k, m, pid))
  {
    var s := StateAt(base, run, k);
    TablesAlwaysMatch(base, run, k);
    TablesAlwaysMatch(base, run, k + 1);
    assert StateAt(base, run, k + 1) == Step(s, run[k]);
    hide StateAt;
    hide Step;
    StepReaps(s, run[k], m, pid);
    MappedBefore(s, run[k], m, pid);
    hide TableMatches;
  }

  lemma MappedBefore(s: State, a: Action, m: string, pid: nat)
    requires TableMatches(s) && TableMatches(Step(s, a)) && pid < |s.procs| && Holds(Step(s, a), m, pid)
    ensures Holds(s, m, pid)
  {
    FatesAreFinal(s, a, pid);
    ModelStays(s, a, pid);
    assert EntryIsMapped(Step(s, a), m);
    hide Step;
  }

  lemma ModelStays(s: State, a: Action, pid: nat)
    requires pid < |s.procs|
    ensures pid < |Step(s, a).procs| && Step(s, a).procs[pid].model == s.procs[pid].model
  {
    if a.Go? && a.call < |s.calls| {
      CallKeepsIdentity(s, a.call, a.choice, pid);
    }
    hide GoOn;
    hide AfterReaper;
    hide Touched;
  }

  lemma {:induction false} DeadWasReapedInError(base: int, run: seq<Action>, k: nat, m: string, pid: nat)
    returns (i: nat)
    requires k <= |run| && Holds(StateAt(base, run, k), m, pid)
    requires pid < |StateAt(base, run, k).procs| && StateAt(base, run, k).procs[pid].reaped
    ensures i < k && ReapedInError(base, run, i, m, pid)
  {
    hide *;
    NothingStartedYet(base, run);
    RunStepReaps(base, run, k - 1, m, pid);
    if ReapedInError(base, run, k - 1, m, pid) {
      i := k - 1;
    } else {
      i := DeadWasReapedInError(base, run, k - 1, m, pid);
    }
  }

  lemma NothingStartedYet(base: int, run: seq<Action>)
    ensures StateAt(base, run, 0).procs == []
  {
  }

  lemma ReapingReaps(base: int, run: seq<Action>, i: nat, m: string, pid: nat)
    requires ReapedInError(base, run, i, m, pid)
    ensures pid < |StateAt(base, run, i + 1).procs| && StateAt(base, run, i + 1).procs[pid].reaped
  {
    assert StateAt(base, run, i + 1) == Step(StateAt(base, run, i), run[i]);
    hide StateAt;
    hide AfterReaper;
  }

  /** Exactly when a dead pipeline is in the table, in any state of any run: when its reaper
      has run and found its entry in state Error. */
  lemma DeadExactly(base: int, run: seq<Action>, k: nat, m: string)
    requires k <= |run| && m in StateAt(base, run, k).table
    ensures IsDead(StateAt(base, run, k), m) <==>
            exists i: nat :: i < k && ReapedInError(base, run, i, m, StateAt(base, run, k).table[m].pid)
  {
    hide *;
    if IsDead(StateAt(base, run, k), m) {
      var i := DeadEntryWasReaped(base, run, k, m);
    }
    if i: nat :| i < k && ReapedInError(base, run, i, m, StateAt(base, run, k).table[m].pid) {
      ReapedEntryIsDead(base, run, i, k, m);
    }
  }

  lemma DeadEntryWasReaped(base: int, run: seq<Action>, k: nat, m: string) returns (i: nat)
    requires k <= |run| && IsDead(StateAt(base, run, k), m)
    ensures i < k && m in StateAt(base, run, k).table
    ensures ReapedInError(base, run, i, m, StateAt(base, run, k).table[m].pid)
  {
    hide StateAt;
    hide ReapedInError;
    i := DeadWasReapedInError(base, run, k, m, StateAt(base, run, k).table[m].pid);
  }

  lemma ReapedEntryIsDead(base: int, run: seq<Action>, i: nat, k: nat, m: string)
    requires i < k <= |run| && m in StateAt(base, run, k).table
    requires ReapedInError(base, run, i, m, StateAt(base, run, k).table[m].pid)
    ensures IsDead(StateAt(base, run, k), m)
  {
    hide StateAt;
    hide ReapedInError;
    ReapingReaps(base, run, i, m, StateAt(base, run, k).table[m].pid);
    ReapedStays(base, run, i + 1, k, StateAt(base, run, k).table[m].pid);
  }

  /** An entry whose process has been reaped is in state Error, waiting for its stop. */
  ghost predicate DeadAreFailed(s: State) {
    forall m :: m in s.table && s.table[m].pid < |s.procs| && s.procs[s.table[m].pid].reaped ==>
      s.table[m].state == Error
  }

  lemma CallKeepsDead(s: State, c: nat, choice: Choice)
    requires c < |s.calls| && LaunchesHold(s) && DeadAreFailed(s)
    ensures DeadAreFailed(GoOn(s, c, choice))
  {
    hide GoOn;
    var t := GoOn(s, c, choice);
    forall m | m in t.table && t.table[m].pid < |t.procs| && t.procs[t.table[m].pid].reaped
      ensures t.table[m].state == Error
    {
      CallEntries(s, c, choice, m);
      CallReapsNothing(s, c, choice, t.table[m].pid);
    }
  }

  lemma StepKeepsDead(s: State, a: Action)
    requires EntriesAreMapped(s) && LaunchesHold(s) && DeadAreFailed(s)
    ensures DeadAreFailed(Step(s, a))
  {
    if a.Go? && a.call < |s.calls| {
      CallKeepsDead(s, a.call, a.choice);
    }
    hide GoOn;
  }

  lemma CalmStepKeepsDead(base: int, run: seq<Action>, k: nat)
    requires k < |run| && CalmInv(StateAt(base, run, k)) && DeadAreFailed(StateAt(base, run, k))
    ensures DeadAreFailed(StateAt(base, run, k + 1))
  {
    EveryRunKeepsInv(base, run, k);
    StepKeepsDead(StateAt(base, run, k), run[k]);
    assert StateAt(base, run, k + 1) == Step(StateAt(base, run, k), run[k]);
    hide Step;
    hide DeadAreFailed;
  }

  lemma RunsStartAlive(base: int, run: seq<Action>)
    ensures DeadAreFailed(StateAt(base, run, 0))
  {
  }

  lemma {:induction false} CalmRunsKeepDead(base: int, run: seq<Action>, k: nat)
    requires k <= |run| && CalmUpTo(base, run, k)
    ensures DeadAreFailed(StateAt(base, run, k))
  {
    hide *;
    if k == 0 {
      RunsStartAlive(base, run);
    } else {
      CalmRunsWereCalm(base, run, k - 1);
      CalmRunsKeepDead(base, run, k - 1);
      CalmRunsKeepCalm(base, run, k - 1);
      CalmStepKeepsDead(base, run, k - 1);
    }
  }

  lemma CalmReadyIsAlive(base: int, run: seq<Action>, k: nat, m: string)
    requires k <= |run| && CalmUpTo(base, run, k)
    requires m in StateAt(base, run, k).table && StateAt(base, run, k).table[m].state == Ready
    ensures !IsDead(StateAt(base, run, k), m)
  {
    CalmRunsKeepDead(base, run, k);
    hide StateAt;
  }

  /** A ready entry is dead only while some call is between its setError and its stop of that
      model, and never in runs where no launching call loses its loading entry. */
  lemma ReadyIsNotReaped(base: int, run: seq<Action>, k: nat, m: string)
    requires k <= |run| && m in StateAt(base, run, k).table && StateAt(base, run, k).table[m].state == Ready
    ensures IsDead(StateAt(base, run, k), m) ==>
              (exists c: nat :: FailedCall(StateAt(base, run, k), m, c)) && !CalmUpTo(base, run, k)
  {
    DeadAreAttended(base, run, k);
    if CalmUpTo(base, run, k) {
      CalmReadyIsAlive(base, run, k, m);
    }
    hide StateAt;
    hide IsDead;
    hide CalmUpTo;
  }

  /** Whenever no Ensure is in flight every pipeline in the table is what it says: ready, seen
      answering by the call that launched it, and not reaped. In every run, however many
      launches have crashed, been stopped or been overwritten before. */
  lemma QuietMeansServing(base: int, run: seq<Action>, k: nat, m: string)
    requires k <= |run| && m in StateAt(base, run, k).table
    requires forall c :: 0 <= c < |StateAt(base, run, k).calls| ==> !StateAt(base, run, k).calls[c].InEnsure()
    ensures var s := StateAt(base, run, k);
            && s.table[m].state == Ready && !IsDead(s, m)
            && exists i: nat :: i < k && Probes(base, run, i, s.table[m].pid)
  {
    var s := StateAt(base, run, k);
    QuietMeansReady(base, run, k, m);
    DeadAreAttended(base, run, k);
    EntryProbedExactly(base, run, k, m);
    hide StateAt;
    hide IsDead;
    hide Probes;
    assert forall c: nat :: FailedCall(s, m, c) ==> s.calls[c].InEnsure();
  }
}
