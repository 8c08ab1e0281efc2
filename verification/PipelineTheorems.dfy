/** What the pipeline manager guarantees in every run, over all interleavings. */
module PipelineTheorems {
  import opened Nodes
  import opened PipelineTable
  import opened PipelineSteps
  import opened PipelineInvariant
  import opened PipelineProof

  /** A loading entry has its own launching call in flight; an error entry has some call
      between its setError and its stop. */
  lemma EntriesAreAttended(base: int, run: seq<Action>, k: nat, m: string)
    requires k <= |run| && m in StateAt(base, run, k).table
    ensures var s := StateAt(base, run, k); var e := s.table[m];
            && (e.state == Loading ==> LaunchInFlight(s, e.pid) && s.procs[e.pid].model == m)
            && (e.state == Error ==> exists c: nat :: FailedCall(s, m, c))
  {
    EveryRunKeepsInv(base, run, k);
  }

  /** No zombies: whenever no Ensure is in flight, every entry is ready. */
  lemma QuietMeansReady(base: int, run: seq<Action>, k: nat, m: string)
    requires k <= |run| && m in StateAt(base, run, k).table
    requires forall c :: 0 <= c < |StateAt(base, run, k).calls| ==> !StateAt(base, run, k).calls[c].InEnsure()
    ensures StateAt(base, run, k).table[m].state == Ready
  {
    EntriesAreAttended(base, run, k, m);
    var s := StateAt(base, run, k);
    hide StateAt;
    assert forall c: nat :: FailedCall(s, m, c) ==> s.calls[c].InEnsure();
  }

  ghost predicate IsMapped(s: State, pid: nat) {
    pid < |s.procs| && Holds(s, s.procs[pid].model, pid)
  }

  /** Removed by one stop, whose kill is pending in exactly one call or has been sent. */
  ghost predicate IsStopped(s: State, pid: nat) {
    pid < |s.procs| && ((exists c: nat :: KillPending(s, pid, c)) || s.procs[pid].kills == 1)
  }

  /** Process conservation: every started process is in exactly one of four classes, and the
      observable ones say what they promise: mapped processes are those in the table, stopped
      ones have a single kill pending or sent, the others were never sent one, and whatever a
      reaper removed had exited. */
  lemma ProcessesAreConserved(base: int, run: seq<Action>, k: nat, pid: nat)
    requires k <= |run| && pid < |StateAt(base, run, k).procs|
    ensures var s := StateAt(base, run, k); var p := s.procs[pid];
            && (p.fate == Mapped <==> IsMapped(s, pid))
            && (p.fate == Stopped <==> IsStopped(s, pid))
            && (p.fate == ReapedOut ==> p.exited && p.reaped)
            && p.kills <= 1
            && (forall c: nat, d: nat :: KillPending(s, pid, c) && KillPending(s, pid, d) ==> c == d && p.kills == 0)
  {
    EveryRunKeepsInv(base, run, k);
    var s := StateAt(base, run, k);
    hide StateAt;
    hide PortsDistinct;
    hide SweepsMatch;
    hide LaunchInv;
    assert forall c: nat :: KillPending(s, pid, c) ==> s.calls[c].AboutToKill();
  }

  /** Leaks: a process that is alive is neither in the table nor killed nor about to be exactly
      if it has been overwritten. */
  lemma OnlyOverwritingLeaks(base: int, run: seq<Action>, k: nat, pid: nat)
    requires k <= |run| && pid < |StateAt(base, run, k).procs| && !StateAt(base, run, k).procs[pid].exited
    ensures var s := StateAt(base, run, k);
            !IsMapped(s, pid) && !IsStopped(s, pid) <==> s.procs[pid].fate == Overwritten
  {
    ProcessesAreConserved(base, run, k, pid);
  }

  /** A call past a relaunch's stop finds pid under its model, has a free port, and its own
      process starts. */
  ghost predicate RelaunchesOver(s: State, a: Action, pid: nat) {
    && a.Go? && a.call < |s.calls| && s.calls[a.call].Relock?
    && Holds(s, s.calls[a.call].model, pid)
    && a.choice.starts && FreePort(s.base, a.choice.foreign + HeldPorts(s.procs)).Some?
  }

  lemma StepOverwritesExactly(s: State, a: Action, pid: nat)
    requires TableMatches(s) && GapsMatch(s) && pid < |s.procs| && s.procs[pid].fate != Overwritten
    ensures pid < |Step(s, a).procs|
    ensures Step(s, a).procs[pid].fate == Overwritten <==> RelaunchesOver(s, a, pid)
  {
    ProcessesAreNeverForgotten(s, a);
    if Step(s, a).procs[pid].fate == Overwritten {
      OverwriteStep(s, a, pid);
    }
    if a.Go? && a.call < |s.calls| && s.calls[a.call].Relock? {
      LaunchOverwritesExactly(s, a.call, s.calls[a.call].model, a.choice, pid);
    }
    hide Launch;
    hide LookUp;
    hide FreePort;
    hide HeldPorts;
  }

  lemma LaunchOverwritesExactly(s: State, c: nat, m: string, choice: Choice, pid: nat)
    requires c < |s.calls| && pid < |s.procs| && s.procs[pid].fate != Overwritten
    ensures pid < |Launch(s, c, m, choice).procs|
    ensures Launch(s, c, m, choice).procs[pid].fate == Overwritten <==>
            Holds(s, m, pid) && choice.starts && FreePort(s.base, choice.foreign + HeldPorts(s.procs)).Some?
  {
    hide FreePort;
    hide HeldPorts;
  }

  /** Overwriting happens only on the relaunch path, when another call has inserted a process
      for the same model since this one stopped the failed entry; the path taken when the
      model is absent never overwrites. */
  lemma OverwritingNeedsARace(base: int, run: seq<Action>, k: nat, pid: nat)
    requires k < |run| && pid < |StateAt(base, run, k).procs|
    requires StateAt(base, run, k).procs[pid].fate != Overwritten
    requires StateAt(base, run, k + 1).procs[pid].fate == Overwritten
    ensures var s := StateAt(base, run, k); var m := s.procs[pid].model;
            && run[k].Go? && run[k].call < |s.calls|
            && s.calls[run[k].call].Relock? && s.calls[run[k].call].model == m
            && Holds(s, m, pid) && pid >= s.calls[run[k].call].since
  {
    ProcessesAreNeverForgotten(StateAt(base, run, k), run[k]);
    hide Step;
    hide TableMatches;
    hide GapsMatch;
    EveryRunKeepsInv(base, run, k);
    OverwriteStep(StateAt(base, run, k), run[k], pid);
  }

  lemma ProcessesAreNeverForgotten(s: State, a: Action)
    ensures |s.procs| <= |Step(s, a).procs|
  {
    if a.Go? && a.call < |s.calls| {
      LaunchCall(s, a.call, a.choice);
      hide GoOn;
    }
  }

  lemma OverwriteStep(s: State, a: Action, pid: nat)
    requires TableMatches(s) && GapsMatch(s) && pid < |s.procs| && s.procs[pid].fate != Overwritten
    requires pid < |Step(s, a).procs| && Step(s, a).procs[pid].fate == Overwritten
    ensures a.Go? && a.call < |s.calls|
            && s.calls[a.call].Relock? && s.calls[a.call].model == s.procs[pid].model
            && Holds(s, s.procs[pid].model, pid) && pid >= s.calls[a.call].since
  {
    if a.Go? && a.call < |s.calls| {
      var pc := s.calls[a.call];
      if pc.Relock? || pc.EnsureStart? {
        LaunchOverwrites(s, a.call, pc.model, a.choice, pid);
        hide Launch;
      } else {
        OtherCallsDoNotOverwrite(s, a.call, a.choice, pid);
        hide GoOn;
      }
    } else {
      hide GoOn;
    }
  }

  lemma LaunchOverwrites(s: State, c: nat, m: string, choice: Choice, pid: nat)
    requires c < |s.calls| && pid < |s.procs|
    ensures pid < |Launch(s, c, m, choice).procs|
    ensures Launch(s, c, m, choice).procs[pid].fate != s.procs[pid].fate ==> Holds(s, m, pid)
  {
    hide FreePort;
    hide HeldPorts;
  }

  lemma OtherCallsDoNotOverwrite(s: State, c: nat, choice: Choice, pid: nat)
    requires c < |s.calls| && pid < |s.procs| && !s.calls[c].EnsureStart? && !s.calls[c].Relock?
    ensures pid < |GoOn(s, c, choice).procs|
    ensures GoOn(s, c, choice).procs[pid].fate in {s.procs[pid].fate, Stopped}
  {
    hide Launch;
    hide LookUp;
    hide PipelineTable.Idle;
    hide TargetPids;
  }

  /** Whoever is overwritten was launched by another call, after the relaunch's stop. */
  lemma OverwrittenBelongsToAnother(base: int, run: seq<Action>, k: nat, pid: nat)
    requires k < |run| && pid < |StateAt(base, run, k).procs|
    requires StateAt(base, run, k).procs[pid].fate != Overwritten
    requires StateAt(base, run, k + 1).procs[pid].fate == Overwritten
    ensures run[k].Go? && StateAt(base, run, k).procs[pid].launcher != run[k].call
  {
    OverwritingNeedsARace(base, run, k, pid);
    LaunchersDoNotRelaunch(base, run, k, pid);
  }

  /** A call at or past its only launch. */
  predicate HasLaunched(pc: Pc) {
    pc.InLaunch() || pc.FailStop? || pc.FailKill? || pc.Done?
  }

  /** A call launches at most once: having launched, it is never again before its launch. */
  lemma {:induction false} LaunchersDoNotRelaunch(base: int, run: seq<Action>, k: nat, pid: nat)
    requires k <= |run| && pid < |StateAt(base, run, k).procs|
    ensures var s := StateAt(base, run, k); var c := s.procs[pid].launcher;
            c < |s.calls| && HasLaunched(s.calls[c])
  {
    var s := StateAt(base, run, k - 1);
    if pid < |s.procs| {
      LaunchersDoNotRelaunch(base, run, k - 1, pid);
    }
    LaunchStep(s, run[k - 1], pid);
  }

  lemma LaunchStep(s: State, a: Action, pid: nat)
    requires pid < |s.procs| ==> s.procs[pid].launcher < |s.calls| && HasLaunched(s.calls[s.procs[pid].launcher])
    requires pid < |Step(s, a).procs|
    ensures var t := Step(s, a); var c := t.procs[pid].launcher;
            c < |t.calls| && HasLaunched(t.calls[c])
  {
    if a.Go? && a.call < |s.calls| {
      LaunchCall(s, a.call, a.choice);
      hide GoOn;
    }
  }

  /** One call's step moves no other call, keeps launchers, and launches only for itself. */
  lemma LaunchCall(s: State, c: nat, choice: Choice)
    requires c < |s.calls|
    ensures var t := GoOn(s, c, choice);
            && |t.calls| == |s.calls| && |s.procs| <= |t.procs|
            && (forall d :: 0 <= d < |s.calls| && d != c ==> t.calls[d] == s.calls[d])
            && (forall p :: 0 <= p < |s.procs| ==> t.procs[p].launcher == s.procs[p].launcher)
            && (forall p :: |s.procs| <= p < |t.procs| ==> t.procs[p].launcher == c && HasLaunched(t.calls[c]))
            && (HasLaunched(s.calls[c]) ==> HasLaunched(t.calls[c]))
  {
    var pc := s.calls[c];
    if pc.EnsureStart? || pc.Relock? {
      LaunchSection(s, c, pc.model, choice);
      hide Launch;
      hide Touched;
    } else {
      hide Launch;
      hide LookUp;
      hide PipelineTable.Idle;
      hide TargetPids;
      hide WithState;
    }
  }

  lemma LaunchSection(s: State, c: nat, m: string, choice: Choice)
    requires c < |s.calls|
    ensures var t := Launch(s, c, m, choice);
            && |t.calls| == |s.calls| && |s.procs| <= |t.procs|
            && (forall d :: 0 <= d < |s.calls| && d != c ==> t.calls[d] == s.calls[d])
            && (forall p :: 0 <= p < |s.procs| ==> t.procs[p].launcher == s.procs[p].launcher)
            && (forall p :: |s.procs| <= p < |t.procs| ==> t.procs[p].launcher == c)
            && HasLaunched(t.calls[c])
  {
    hide FreePort;
    hide HeldPorts;
  }

  /** Exactly when a process is overwritten, in any step of any run; another call has then
      started it since the relaunch's stop. */
  lemma OverwritingExactly(base: int, run: seq<Action>, k: nat, pid: nat)
    requires k < |run| && pid < |StateAt(base, run, k).procs|
    requires StateAt(base, run, k).procs[pid].fate != Overwritten
    ensures pid < |StateAt(base, run, k + 1).procs|
    ensures StateAt(base, run, k + 1).procs[pid].fate == Overwritten <==>
            RelaunchesOver(StateAt(base, run, k), run[k], pid)
    ensures RelaunchesOver(StateAt(base, run, k), run[k], pid) ==>
              && StateAt(base, run, k).procs[pid].launcher != run[k].call
              && pid >= StateAt(base, run, k).calls[run[k].call].since
  {
    ProcessesAreNeverForgotten(StateAt(base, run, k), run[k]);
    hide Step;
    hide TableMatches;
    hide GapsMatch;
    hide RelaunchesOver;
    EveryRunKeepsInv(base, run, k);
    StepOverwritesExactly(StateAt(base, run, k), run[k], pid);
    if StateAt(base, run, k + 1).procs[pid].fate == Overwritten {
      OverwritingNeedsARace(base, run, k, pid);
      OverwrittenBelongsToAnother(base, run, k, pid);
    }
  }

  /** Port separation: no two processes that have not exited share a port, and every port is
      in the range. */
  lemma PortsAreSeparate(base: int, run: seq<Action>, k: nat, p: nat, q: nat)
    requires k <= |run| && p < q < |StateAt(base, run, k).procs|
    requires !StateAt(base, run, k).procs[p].exited && !StateAt(base, run, k).procs[q].exited
    ensures StateAt(base, run, k).procs[p].port != StateAt(base, run, k).procs[q].port
    ensures base <= StateAt(base, run, k).procs[p].port < base + 100
  {
    EveryRunKeepsInv(base, run, k);
    BaseIsFixed(base, run, k);
  }

  lemma {:induction false} BaseIsFixed(base: int, run: seq<Action>, k: nat)
    requires k <= |run|
    ensures StateAt(base, run, k).base == base
  {
    if k > 0 {
      BaseIsFixed(base, run, k - 1);
      StepKeepsBase(StateAt(base, run, k - 1), run[k - 1]);
    }
  }

  lemma StepKeepsBase(s: State, a: Action)
    ensures Step(s, a).base == s.base
  {
  }
}
