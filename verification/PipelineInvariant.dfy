/** What holds in every state of every run of the pipeline manager. */
module PipelineInvariant {
  import opened Nodes
  import opened PipelineTable
  import opened PipelineSteps

  ghost predicate Holds(s: State, m: string, pid: nat) {
    m in s.table && s.table[m].pid == pid
  }

  /** Every entry belongs to a process that is mapped under it. */
  ghost predicate EntriesAreMapped(s: State) {
    forall m :: m in s.table ==> EntryIsMapped(s, m)
  }

  ghost predicate EntryIsMapped(s: State, m: string)
    requires m in s.table
  {
    var pid := s.table[m].pid;
    pid < |s.procs| && s.procs[pid].model == m && s.procs[pid].port == s.table[m].port
    && s.procs[pid].fate == Mapped
  }

  /** Every mapped process has its entry. */
  ghost predicate MappedHaveEntries(s: State) {
    forall p: nat :: p < |s.procs| && s.procs[p].fate == Mapped ==> Holds(s, s.procs[p].model, p)
  }

  /** The table and the processes agree on who is mapped. */
  ghost predicate TableMatches(s: State) {
    EntriesAreMapped(s) && MappedHaveEntries(s)
  }

  /** A launching call belongs to the process it started. */
  ghost predicate LaunchesMatch(s: State) {
    forall c :: 0 <= c < |s.calls| && s.calls[c].InLaunch() ==>
      var pid := s.calls[c].pid;
      pid < |s.procs| && s.procs[pid].model == s.calls[c].model && s.procs[pid].launcher == c
  }

  ghost predicate LaunchInFlight(s: State, pid: nat) {
    && pid < |s.procs|
    && s.procs[pid].launcher < |s.calls|
    && s.calls[s.procs[pid].launcher].InLaunch()
    && s.calls[s.procs[pid].launcher].pid == pid
  }

  /** A loading entry has its own launching call still in flight. */
  ghost predicate LoadingHasLauncher(s: State) {
    forall m :: m in s.table && s.table[m].state == Loading ==> LaunchInFlight(s, s.table[m].pid)
  }

  ghost predicate FailedCall(s: State, m: string, c: nat) {
    c < |s.calls| && s.calls[c] == FailStop(m)
  }

  /** An error entry has some call between its setError and its stop. */
  ghost predicate ErrorHasFailedCall(s: State) {
    forall m :: m in s.table && s.table[m].state == Error ==> exists c: nat :: FailedCall(s, m, c)
  }

  /** A kill pending in some call is for a process removed by stop that has not been sent
      one, and no other call is about to send it. */
  ghost predicate PendingKillsMatch(s: State) {
    && (forall c :: 0 <= c < |s.calls| && s.calls[c].AboutToKill() ==>
          var p := s.calls[c].victim;
          p < |s.procs| && s.procs[p].fate == Stopped && s.procs[p].kills == 0)
    && (forall c, d :: 0 <= c < d < |s.calls| && s.calls[c].AboutToKill() && s.calls[d].AboutToKill() ==>
          s.calls[c].victim != s.calls[d].victim)
  }

  /** Only processes removed by stop are sent a kill, and never two. */
  ghost predicate SentKillsMatch(s: State) {
    forall p :: 0 <= p < |s.procs| ==> s.procs[p].kills <= if s.procs[p].fate == Stopped then 1 else 0
  }

  ghost predicate KillPending(s: State, pid: nat, c: nat) {
    c < |s.calls| && s.calls[c].AboutToKill() && s.calls[c].victim == pid
  }

  /** A process removed by stop has been sent a kill or some call is about to. */
  ghost predicate StoppedGetKilled(s: State) {
    forall p: nat :: p < |s.procs| && s.procs[p].fate == Stopped && s.procs[p].kills == 0 ==>
      exists c: nat :: KillPending(s, p, c)
  }

  ghost predicate ReapedHaveExited(s: State) {
    forall p: nat :: p < |s.procs| && (s.procs[p].reaped || s.procs[p].fate == ReapedOut) ==>
      s.procs[p].exited && s.procs[p].reaped
  }

  /** Between a relaunch's stop and its insertion, only newer processes enter the table. */
  ghost predicate GapsMatch(s: State) {
    forall c :: 0 <= c < |s.calls| && s.calls[c].InRelaunch() ==>
      var m, since := s.calls[c].model, s.calls[c].since;
      since <= |s.procs| && (m in s.table ==> s.table[m].pid >= since)
  }

  /** No two processes that have not exited share a port, and all ports are in the range. */
  ghost predicate PortsDistinct(s: State) {
    && (forall p :: 0 <= p < |s.procs| ==> s.base <= s.procs[p].port < s.base + PORT_RANGE)
    && (forall p, q :: 0 <= p < q < |s.procs| && !s.procs[p].exited && !s.procs[q].exited ==>
          s.procs[p].port != s.procs[q].port)
  }

  ghost predicate SweepMatches(s: State, w: Sweep) {
    && w.mark <= |s.procs|
    && (forall p :: p in w.targets ==> p < |s.procs| && (s.procs[p].fate == Mapped ==> s.procs[p].model in w.todo))
    && (w.all ==> forall p: nat :: p < w.mark && s.procs[p].fate == Mapped ==> p in w.targets)
  }

  /** What a sweep found and has not stopped yet is still on its list. */
  ghost predicate SweepsMatch(s: State) {
    forall c: nat :: c < |s.calls| && s.calls[c].InSweep() ==> SweepMatches(s, s.calls[c].sweep)
  }

  /** What concerns the table and the processes alone. */
  ghost predicate TableInv(s: State) {
    TableMatches(s) && ReapedHaveExited(s) && SentKillsMatch(s) && PortsDistinct(s)
  }

  /** What ties launching and relaunching calls to the table. */
  ghost predicate LaunchInv(s: State) {
    LaunchesMatch(s) && LoadingHasLauncher(s) && ErrorHasFailedCall(s) && GapsMatch(s)
  }

  /** What ties kills and sweeps to the processes. */
  ghost predicate KillInv(s: State) {
    PendingKillsMatch(s) && StoppedGetKilled(s) && SweepsMatch(s)
  }

  ghost predicate Inv(s: State) {
    TableInv(s) && LaunchInv(s) && KillInv(s)
  }

  /** At most call x has moved, and only forward. */
  ghost predicate OnlyMoves(s: State, t: State, x: nat) {
    |s.calls| <= |t.calls| && forall c :: 0 <= c < |s.calls| && c != x ==> t.calls[c] == s.calls[c]
  }

  /** Error entries keep their failed call, unless that is the call that moved. */
  lemma ErrorsKept(s: State, t: State, x: nat)
    requires ErrorHasFailedCall(s) && OnlyMoves(s, t, x)
    requires forall m :: m in t.table && t.table[m].state == Error ==>
               FailedCall(t, m, x) || (m in s.table && s.table[m].state == Error && !FailedCall(s, m, x))
    ensures ErrorHasFailedCall(t)
  {
    forall m | m in t.table && t.table[m].state == Error
      ensures exists c: nat :: FailedCall(t, m, c)
    {
      if !FailedCall(t, m, x) {
        var c: nat :| FailedCall(s, m, c);
        assert FailedCall(t, m, c);
      }
    }
  }

  /** Stopped processes keep their pending kill, unless that is the call that moved. */
  lemma KillsKept(s: State, t: State, x: nat)
    requires StoppedGetKilled(s) && OnlyMoves(s, t, x)
    requires forall p: nat :: p < |t.procs| && t.procs[p].fate == Stopped && t.procs[p].kills == 0 ==>
               KillPending(t, p, x)
               || (p < |s.procs| && s.procs[p].fate == Stopped && s.procs[p].kills == 0 && !KillPending(s, p, x))
    ensures StoppedGetKilled(t)
  {
    forall p: nat | p < |t.procs| && t.procs[p].fate == Stopped && t.procs[p].kills == 0
      ensures exists c: nat :: KillPending(t, p, c)
    {
      if !KillPending(t, p, x) {
        var c: nat :| KillPending(s, p, c);
        assert KillPending(t, p, c);
      }
    }
  }
}
