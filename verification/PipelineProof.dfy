/** Every step of the pipeline manager keeps the invariant. */
module PipelineProof {
  import opened Nodes
  import opened PipelineTable
  import opened PipelineSteps
  import opened PipelineInvariant

  function Called(s: State, pc: Pc): State {
    s.(calls := s.calls + [pc])
  }

  lemma NewCallKeepsLaunches(s: State, pc: Pc)
    requires LaunchInv(s) && (pc.EnsureStart? || pc.SweepScan?)
    ensures LaunchInv(Called(s, pc))
  {
    ErrorsKept(s, Called(s, pc), |s.calls|);
  }

  lemma NewCallKeepsKills(s: State, pc: Pc)
    requires KillInv(s) && (pc.EnsureStart? || pc.SweepScan?)
    ensures KillInv(Called(s, pc))
  {
    KillsKept(s, Called(s, pc), |s.calls|);
  }

  lemma NewCallKeepsInv(s: State, pc: Pc)
    requires Inv(s) && (pc.EnsureStart? || pc.SweepScan?)
    ensures Inv(Called(s, pc))
  {
    NewCallKeepsLaunches(s, pc);
    NewCallKeepsKills(s, pc);
    hide LaunchInv;
    hide KillInv;
  }

  function TouchedState(s: State, m: string): State {
    s.(table := Touched(s.table, m, s.now))
  }

  lemma TouchKeepsTable(s: State, m: string)
    requires TableInv(s)
    ensures TableInv(TouchedState(s, m))
  {
  }

  lemma TouchKeepsLaunches(s: State, m: string)
    requires LaunchInv(s)
    ensures LaunchInv(TouchedState(s, m))
  {
    ErrorsKept(s, TouchedState(s, m), |s.calls|);
  }

  lemma TouchKeepsKills(s: State, m: string)
    requires KillInv(s)
    ensures KillInv(TouchedState(s, m))
  {
    KillsKept(s, TouchedState(s, m), |s.calls|);
  }

  lemma TickKeepsInv(s: State, elapsed: nat)
    requires Inv(s)
    ensures Inv(s.(now := s.now + elapsed))
  {
    var t := s.(now := s.now + elapsed);
    ErrorsKept(s, t, |s.calls|);
    KillsKept(s, t, |s.calls|);
  }

  function Exited(s: State, pid: nat): State
    requires pid < |s.procs|
  {
    s.(procs := s.procs[pid := s.procs[pid].(exited := true)])
  }

  lemma ExitKeepsTable(s: State, pid: nat)
    requires TableInv(s) && pid < |s.procs|
    ensures TableInv(Exited(s, pid))
  {
  }

  lemma ExitKeepsLaunches(s: State, pid: nat)
    requires LaunchInv(s) && pid < |s.procs|
    ensures LaunchInv(Exited(s, pid))
  {
    ErrorsKept(s, Exited(s, pid), |s.calls|);
    hide ErrorHasFailedCall;
  }

  lemma ExitKeepsKills(s: State, pid: nat)
    requires KillInv(s) && pid < |s.procs|
    ensures KillInv(Exited(s, pid))
  {
    KillsKept(s, Exited(s, pid), |s.calls|);
    hide StoppedGetKilled;
  }

  lemma ExitKeepsInv(s: State, pid: nat)
    requires Inv(s) && pid < |s.procs|
    ensures Inv(Exited(s, pid))
  {
    ExitKeepsTable(s, pid);
    ExitKeepsLaunches(s, pid);
    ExitKeepsKills(s, pid);
    hide Exited;
  }

  lemma ReapKeepsTable(s: State, pid: nat)
    requires TableInv(s)
    ensures TableInv(ReapStep(s, pid))
  {
  }

  lemma ReapKeepsLaunches(s: State, pid: nat)
    requires TableInv(s) && LaunchInv(s)
    ensures LaunchInv(ReapStep(s, pid))
  {
    ErrorsKept(s, ReapStep(s, pid), |s.calls|);
  }

  lemma ReapKeepsKills(s: State, pid: nat)
    requires TableInv(s) && KillInv(s)
    ensures KillInv(ReapStep(s, pid))
  {
    KillsKept(s, ReapStep(s, pid), |s.calls|);
  }

  /** A call that holds nothing may move on to a place that needs nothing. */
  predicate HoldsNothing(pc: Pc) {
    pc.EnsureStart? || pc.ErrorStop? || pc.Joining? || pc.SweepScan? || pc.Done?
  }

  lemma MoveKeepsLaunches(s: State, c: nat, pc: Pc)
    requires LaunchInv(s) && c < |s.calls| && HoldsNothing(pc)
    requires HoldsNothing(s.calls[c]) || s.calls[c].Relock?
    ensures LaunchInv(At(s, c, pc))
  {
    ErrorsKept(s, At(s, c, pc), c);
  }

  lemma MoveKeepsKills(s: State, c: nat, pc: Pc)
    requires KillInv(s) && c < |s.calls| && HoldsNothing(pc)
    requires HoldsNothing(s.calls[c]) || s.calls[c].Relock?
    ensures KillInv(At(s, c, pc))
  {
    KillsKept(s, At(s, c, pc), c);
  }

  lemma MoveKeepsInv(s: State, c: nat, pc: Pc)
    requires Inv(s) && c < |s.calls| && HoldsNothing(pc)
    requires HoldsNothing(s.calls[c]) || s.calls[c].Relock?
    ensures Inv(At(s, c, pc))
  {
    MoveKeepsLaunches(s, c, pc);
    MoveKeepsKills(s, c, pc);
    hide LaunchInv;
    hide KillInv;
  }

  /** The pcs a caller of stop may continue with: to the kill if there was an entry, past it
      if not. A relaunch notes how many processes there are, a sweep crosses the model off. */
  ghost predicate StopContinuation(s: State, c: nat, m: string, kill: Pc, skip: Pc)
    requires c < |s.calls|
  {
    match s.calls[c]
    case ErrorStop(n) => n == m && kill == ErrorKill(m, PidOf(s.table, m), |s.procs|) && skip == Relock(m, |s.procs|)
    case FailStop(n) => n == m && kill == FailKill(PidOf(s.table, m)) && skip == Done(Failed)
    case Sweeping(w) =>
      var rest := w.(todo := w.todo - {m});
      kill == SweepKill(PidOf(s.table, m), rest) && skip == Sweeping(rest)
    case _ => false
  }

  lemma EntrySurvivesStop(s: State, c: nat, m: string, kill: Pc, skip: Pc, n: string)
    requires EntriesAreMapped(s) && c < |s.calls| && n in StopThen(s, c, m, kill, skip).table
    ensures EntryIsMapped(StopThen(s, c, m, kill, skip), n)
  {
    assert EntryIsMapped(s, n);
    if m in s.table {
      assert EntryIsMapped(s, m);
      assert s.table[n].pid != s.table[m].pid;
    }
  }

  lemma StopKeepsEntries(s: State, c: nat, m: string, kill: Pc, skip: Pc)
    requires EntriesAreMapped(s) && c < |s.calls|
    ensures EntriesAreMapped(StopThen(s, c, m, kill, skip))
  {
    var t := StopThen(s, c, m, kill, skip);
    forall n | n in t.table
      ensures EntryIsMapped(t, n)
    {
      EntrySurvivesStop(s, c, m, kill, skip, n);
    }
  }

  lemma StopKeepsMapped(s: State, c: nat, m: string, kill: Pc, skip: Pc)
    requires TableMatches(s) && c < |s.calls|
    ensures MappedHaveEntries(StopThen(s, c, m, kill, skip))
  {
    var t := StopThen(s, c, m, kill, skip);
    forall p: nat | p < |t.procs| && t.procs[p].fate == Mapped
      ensures Holds(t, t.procs[p].model, p)
    {
      assert Holds(s, s.procs[p].model, p);
    }
  }

  lemma StopKeepsProcesses(s: State, c: nat, m: string, kill: Pc, skip: Pc)
    requires TableMatches(s) && ReapedHaveExited(s) && SentKillsMatch(s) && c < |s.calls|
    ensures var t := StopThen(s, c, m, kill, skip); ReapedHaveExited(t) && SentKillsMatch(t)
  {
  }

  lemma StopMovesNoPort(s: State, c: nat, m: string, kill: Pc, skip: Pc)
    requires c < |s.calls|
    ensures var t := StopThen(s, c, m, kill, skip);
            && t.base == s.base && |t.procs| == |s.procs|
            && forall p :: 0 <= p < |s.procs| ==>
                 t.procs[p].port == s.procs[p].port && t.procs[p].exited == s.procs[p].exited
  {
  }

  lemma StopKeepsPorts(s: State, c: nat, m: string, kill: Pc, skip: Pc)
    requires PortsDistinct(s) && c < |s.calls|
    ensures PortsDistinct(StopThen(s, c, m, kill, skip))
  {
    StopMovesNoPort(s, c, m, kill, skip);
    hide StopThen;
  }

  lemma StopKeepsTable(s: State, c: nat, m: string, kill: Pc, skip: Pc)
    requires TableInv(s) && c < |s.calls|
    ensures TableInv(StopThen(s, c, m, kill, skip))
  {
    StopKeepsEntries(s, c, m, kill, skip);
    StopKeepsMapped(s, c, m, kill, skip);
    StopKeepsProcesses(s, c, m, kill, skip);
    StopKeepsPorts(s, c, m, kill, skip);
    hide StopThen;
  }

  lemma StopKeepsLaunching(s: State, c: nat, m: string, kill: Pc, skip: Pc)
    requires LaunchesMatch(s) && LoadingHasLauncher(s) && c < |s.calls| && StopContinuation(s, c, m, kill, skip)
    ensures var t := StopThen(s, c, m, kill, skip); LaunchesMatch(t) && LoadingHasLauncher(t)
  {
  }

  lemma StopKeepsErrors(s: State, c: nat, m: string, kill: Pc, skip: Pc)
    requires ErrorHasFailedCall(s) && c < |s.calls| && StopContinuation(s, c, m, kill, skip)
    ensures ErrorHasFailedCall(StopThen(s, c, m, kill, skip))
  {
    ErrorsKept(s, StopThen(s, c, m, kill, skip), c);
  }

  lemma StopKeepsGaps(s: State, c: nat, m: string, kill: Pc, skip: Pc)
    requires GapsMatch(s) && c < |s.calls| && StopContinuation(s, c, m, kill, skip)
    ensures GapsMatch(StopThen(s, c, m, kill, skip))
  {
  }

  lemma StopKeepsPending(s: State, c: nat, m: string, kill: Pc, skip: Pc)
    requires TableMatches(s) && SentKillsMatch(s) && PendingKillsMatch(s)
    requires c < |s.calls| && StopContinuation(s, c, m, kill, skip)
    ensures PendingKillsMatch(StopThen(s, c, m, kill, skip))
  {
  }

  lemma StopKeepsStopped(s: State, c: nat, m: string, kill: Pc, skip: Pc)
    requires TableMatches(s) && StoppedGetKilled(s) && c < |s.calls| && StopContinuation(s, c, m, kill, skip)
    ensures StoppedGetKilled(StopThen(s, c, m, kill, skip))
  {
    KillsKept(s, StopThen(s, c, m, kill, skip), c);
  }

  lemma StopKeepsSweeps(s: State, c: nat, m: string, kill: Pc, skip: Pc)
    requires TableMatches(s) && SweepsMatch(s) && c < |s.calls| && StopContinuation(s, c, m, kill, skip)
    ensures SweepsMatch(StopThen(s, c, m, kill, skip))
  {
  }

  ghost predicate KillContinuation(pc: Pc, next: Pc) {
    match pc
    case ErrorKill(m, _, since) => next == Relock(m, since)
    case FailKill(_) => next == Done(Failed)
    case SweepKill(_, w) => next == Sweeping(w)
    case _ => false
  }

  lemma KillKeepsTable(s: State, c: nat, pid: nat, next: Pc)
    requires TableInv(s) && KillInv(s) && c < |s.calls|
    requires KillContinuation(s.calls[c], next) && s.calls[c].victim == pid
    ensures TableInv(KillThen(s, c, pid, next))
  {
  }

  lemma KillKeepsLaunches(s: State, c: nat, pid: nat, next: Pc)
    requires LaunchInv(s) && c < |s.calls|
    requires KillContinuation(s.calls[c], next) && s.calls[c].victim == pid
    ensures LaunchInv(KillThen(s, c, pid, next))
  {
    ErrorsKept(s, KillThen(s, c, pid, next), c);
  }

  lemma KillKeepsPending(s: State, c: nat, pid: nat, next: Pc)
    requires PendingKillsMatch(s) && c < |s.calls|
    requires KillContinuation(s.calls[c], next) && s.calls[c].victim == pid
    ensures PendingKillsMatch(KillThen(s, c, pid, next))
  {
  }

  lemma KillKeepsStopped(s: State, c: nat, pid: nat, next: Pc)
    requires PendingKillsMatch(s) && StoppedGetKilled(s) && c < |s.calls|
    requires KillContinuation(s.calls[c], next) && s.calls[c].victim == pid
    ensures StoppedGetKilled(KillThen(s, c, pid, next))
  {
    KillsKept(s, KillThen(s, c, pid, next), c);
  }

  lemma KillKeepsSweeps(s: State, c: nat, pid: nat, next: Pc)
    requires SweepsMatch(s) && c < |s.calls|
    requires KillContinuation(s.calls[c], next) && s.calls[c].victim == pid
    ensures SweepsMatch(KillThen(s, c, pid, next))
  {
  }

  lemma ScanKeepsLaunches(s: State, c: nat, all: bool)
    requires LaunchInv(s) && c < |s.calls| && s.calls[c] == SweepScan(all)
    ensures LaunchInv(Scan(s, c, all))
  {
    ErrorsKept(s, Scan(s, c, all), c);
  }

  lemma ScanKeepsKills(s: State, c: nat, all: bool)
    requires TableMatches(s) && KillInv(s) && c < |s.calls| && s.calls[c] == SweepScan(all)
    ensures KillInv(Scan(s, c, all))
  {
    KillsKept(s, Scan(s, c, all), c);
  }

  lemma WaitKeepsTable(s: State, c: nat, m: string, pid: nat, probing: bool, choice: Choice)
    requires TableInv(s) && c < |s.calls|
    ensures TableInv(Wait(s, c, m, pid, probing, choice))
  {
  }

  lemma WaitKeepsLaunches(s: State, c: nat, m: string, pid: nat, probing: bool, choice: Choice)
    requires LaunchInv(s) && c < |s.calls| && s.calls[c] == Launching(m, pid, probing)
    ensures LaunchInv(Wait(s, c, m, pid, probing, choice))
  {
    ErrorsKept(s, Wait(s, c, m, pid, probing, choice), c);
  }

  lemma WaitKeepsPending(s: State, c: nat, m: string, pid: nat, probing: bool, choice: Choice)
    requires PendingKillsMatch(s) && c < |s.calls| && s.calls[c] == Launching(m, pid, probing)
    ensures PendingKillsMatch(Wait(s, c, m, pid, probing, choice))
  {
  }

  lemma WaitKeepsStopped(s: State, c: nat, m: string, pid: nat, probing: bool, choice: Choice)
    requires StoppedGetKilled(s) && c < |s.calls| && s.calls[c] == Launching(m, pid, probing)
    ensures StoppedGetKilled(Wait(s, c, m, pid, probing, choice))
  {
    KillsKept(s, Wait(s, c, m, pid, probing, choice), c);
  }

  lemma WaitKeepsSweeps(s: State, c: nat, m: string, pid: nat, probing: bool, choice: Choice)
    requires SweepsMatch(s) && c < |s.calls| && s.calls[c] == Launching(m, pid, probing)
    ensures SweepsMatch(Wait(s, c, m, pid, probing, choice))
  {
  }

  function SetAndMove(s: State, c: nat, m: string, state: Lifecycle, next: Pc): State
    requires c < |s.calls|
  {
    At(s.(table := WithState(s.table, m, state)), c, next)
  }

  /** setState and setError, by whichever call gets there. */
  ghost predicate Sets(pc: Pc, m: string, state: Lifecycle, next: Pc) {
    || (pc.SettingReady? && pc.model == m && state == Ready && next.Done?)
    || (pc.SettingError? && pc.model == m && state == Error && next == FailStop(m))
  }

  lemma SetKeepsTable(s: State, c: nat, m: string, state: Lifecycle, next: Pc)
    requires TableInv(s) && c < |s.calls|
    ensures TableInv(SetAndMove(s, c, m, state, next))
  {
  }

  lemma SetKeepsLaunches(s: State, c: nat, m: string, state: Lifecycle, next: Pc)
    requires TableInv(s) && LaunchInv(s) && c < |s.calls| && Sets(s.calls[c], m, state, next)
    ensures LaunchInv(SetAndMove(s, c, m, state, next))
  {
    ErrorsKept(s, SetAndMove(s, c, m, state, next), c);
  }

  lemma SetKeepsKills(s: State, c: nat, m: string, state: Lifecycle, next: Pc)
    requires KillInv(s) && c < |s.calls| && Sets(s.calls[c], m, state, next)
    ensures KillInv(SetAndMove(s, c, m, state, next))
  {
    KillsKept(s, SetAndMove(s, c, m, state, next), c);
  }

  /** What Launch does when it finds a port and the process starts. */
  function Launched(s: State, c: nat, m: string, port: int): State
    requires c < |s.calls|
  {
    var pid := |s.procs|;
    var procs := if m in s.table then WithFate(s.procs, s.table[m].pid, Overwritten) else s.procs;
    At(s.(table := s.table[m := Entry(pid, port, Loading, s.now)],
          procs := procs + [Proc(m, port, c, false, false, 0, false, Mapped)]),
       c, Launching(m, pid, false))
  }

  lemma LaunchCases(s: State, c: nat, m: string, choice: Choice)
    requires c < |s.calls|
    ensures var port := FreePort(s.base, choice.foreign + HeldPorts(s.procs));
            Launch(s, c, m, choice) ==
              if port.None? || !choice.starts then At(s, c, Done(Failed)) else Launched(s, c, m, port.value)
  {
  }

  lemma LaunchKeepsTable(s: State, c: nat, m: string, port: int)
    requires TableMatches(s) && ReapedHaveExited(s) && SentKillsMatch(s) && c < |s.calls|
    ensures var t := Launched(s, c, m, port); TableMatches(t) && ReapedHaveExited(t) && SentKillsMatch(t)
  {
  }

  lemma LaunchKeepsPorts(s: State, c: nat, m: string, port: int)
    requires PortsDistinct(s) && c < |s.calls|
    requires s.base <= port < s.base + PORT_RANGE && port !in HeldPorts(s.procs)
    ensures PortsDistinct(Launched(s, c, m, port))
  {
  }

  lemma LaunchKeepsLaunching(s: State, c: nat, m: string, port: int)
    requires TableMatches(s) && LaunchesMatch(s) && LoadingHasLauncher(s) && c < |s.calls|
    requires s.calls[c].EnsureStart? || s.calls[c].Relock?
    ensures LaunchesMatch(Launched(s, c, m, port)) && LoadingHasLauncher(Launched(s, c, m, port))
  {
  }

  lemma LaunchKeepsErrors(s: State, c: nat, m: string, port: int)
    requires ErrorHasFailedCall(s) && GapsMatch(s) && c < |s.calls|
    requires s.calls[c].EnsureStart? || s.calls[c].Relock?
    ensures ErrorHasFailedCall(Launched(s, c, m, port)) && GapsMatch(Launched(s, c, m, port))
  {
    ErrorsKept(s, Launched(s, c, m, port), c);
  }

  lemma LaunchKeepsPending(s: State, c: nat, m: string, port: int)
    requires TableMatches(s) && PendingKillsMatch(s) && StoppedGetKilled(s) && c < |s.calls|
    requires s.calls[c].EnsureStart? || s.calls[c].Relock?
    ensures PendingKillsMatch(Launched(s, c, m, port)) && StoppedGetKilled(Launched(s, c, m, port))
  {
    KillsKept(s, Launched(s, c, m, port), c);
  }

  lemma LaunchKeepsSweeps(s: State, c: nat, m: string, port: int)
    requires TableMatches(s) && SweepsMatch(s) && c < |s.calls|
    requires s.calls[c].EnsureStart? || s.calls[c].Relock?
    ensures SweepsMatch(Launched(s, c, m, port))
  {
  }

  lemma LaunchKeepsInv(s: State, c: nat, m: string, choice: Choice)
    requires Inv(s) && c < |s.calls|
    requires s.calls[c].EnsureStart? || s.calls[c].Relock?
    ensures Inv(Launch(s, c, m, choice))
  {
    var port := FreePort(s.base, choice.foreign + HeldPorts(s.procs));
    LaunchCases(s, c, m, choice);
    hide Launch;
    FreePortIsLeast(s.base, choice.foreign + HeldPorts(s.procs));
    hide FreePort;
    if port.None? || !choice.starts {
      MoveKeepsInv(s, c, Done(Failed));
    } else {
      var p := port.value;
      LaunchKeepsTable(s, c, m, p);
      LaunchKeepsPorts(s, c, m, p);
      LaunchKeepsLaunching(s, c, m, p);
      LaunchKeepsErrors(s, c, m, p);
      LaunchKeepsPending(s, c, m, p);
      LaunchKeepsSweeps(s, c, m, p);
      Assemble(Launched(s, c, m, p));
    }
  }

  lemma Assemble(t: State)
    requires TableMatches(t) && ReapedHaveExited(t) && SentKillsMatch(t) && PortsDistinct(t)
    requires LaunchesMatch(t) && LoadingHasLauncher(t) && ErrorHasFailedCall(t) && GapsMatch(t)
    requires PendingKillsMatch(t) && StoppedGetKilled(t) && SweepsMatch(t)
    ensures Inv(t)
  {
  }

  lemma StopKeepsInv(s: State, c: nat, m: string, kill: Pc, skip: Pc)
    requires Inv(s) && c < |s.calls| && StopContinuation(s, c, m, kill, skip)
    ensures Inv(StopThen(s, c, m, kill, skip))
  {
    StopKeepsTable(s, c, m, kill, skip);
    StopKeepsLaunching(s, c, m, kill, skip);
    StopKeepsErrors(s, c, m, kill, skip);
    StopKeepsGaps(s, c, m, kill, skip);
    StopKeepsPending(s, c, m, kill, skip);
    StopKeepsStopped(s, c, m, kill, skip);
    StopKeepsSweeps(s, c, m, kill, skip);
    hide StopThen;
  }

  lemma KillKeepsInv(s: State, c: nat, pid: nat, next: Pc)
    requires Inv(s) && c < |s.calls|
    requires KillContinuation(s.calls[c], next) && s.calls[c].victim == pid
    ensures Inv(KillThen(s, c, pid, next))
  {
    KillKeepsTable(s, c, pid, next);
    KillKeepsLaunches(s, c, pid, next);
    KillKeepsPending(s, c, pid, next);
    KillKeepsStopped(s, c, pid, next);
    KillKeepsSweeps(s, c, pid, next);
    hide KillThen;
  }

  lemma WaitKeepsInv(s: State, c: nat, m: string, pid: nat, probing: bool, choice: Choice)
    requires Inv(s) && c < |s.calls| && s.calls[c] == Launching(m, pid, probing)
    ensures Inv(Wait(s, c, m, pid, probing, choice))
  {
    WaitKeepsTable(s, c, m, pid, probing, choice);
    WaitKeepsLaunches(s, c, m, pid, probing, choice);
    WaitKeepsPending(s, c, m, pid, probing, choice);
    WaitKeepsStopped(s, c, m, pid, probing, choice);
    WaitKeepsSweeps(s, c, m, pid, probing, choice);
    hide Wait;
  }

  lemma SetKeepsInv(s: State, c: nat, m: string, state: Lifecycle, next: Pc)
    requires Inv(s) && c < |s.calls| && Sets(s.calls[c], m, state, next)
    ensures Inv(SetAndMove(s, c, m, state, next))
  {
    SetKeepsTable(s, c, m, state, next);
    SetKeepsLaunches(s, c, m, state, next);
    SetKeepsKills(s, c, m, state, next);
    hide SetAndMove;
  }

  lemma TouchKeepsInv(s: State, m: string)
    requires Inv(s)
    ensures Inv(TouchedState(s, m))
  {
    TouchKeepsTable(s, m);
    TouchKeepsLaunches(s, m);
    TouchKeepsKills(s, m);
    hide TouchedState;
  }

  lemma ReapKeepsInv(s: State, pid: nat)
    requires Inv(s)
    ensures Inv(ReapStep(s, pid))
  {
    ReapKeepsTable(s, pid);
    ReapKeepsLaunches(s, pid);
    ReapKeepsKills(s, pid);
    hide ReapStep;
  }

  lemma ScanKeepsInv(s: State, c: nat, all: bool)
    requires Inv(s) && c < |s.calls| && s.calls[c] == SweepScan(all)
    ensures Inv(Scan(s, c, all))
  {
    ScanKeepsLaunches(s, c, all);
    ScanKeepsKills(s, c, all);
    hide LaunchInv;
    hide KillInv;
  }

  lemma LookUpKeepsInv(s: State, c: nat, m: string, choice: Choice)
    requires Inv(s) && c < |s.calls| && s.calls[c] == EnsureStart(m)
    ensures Inv(LookUp(s, c, m, choice))
  {
    hide Inv;
    if m !in s.table {
      LaunchKeepsInv(s, c, m, choice);
    } else {
      TouchKeepsInv(s, m);
      var touched := TouchedState(s, m);
      match s.table[m].state
      case Ready => MoveKeepsInv(touched, c, Done(Returned(s.table[m].port)));
      case Loading => MoveKeepsInv(touched, c, Joining(m, s.table[m].pid, false));
      case Error => MoveKeepsInv(touched, c, ErrorStop(m));
    }
  }

  lemma JoinKeepsInv(s: State, c: nat, m: string, pid: nat, probing: bool, choice: Choice)
    requires Inv(s) && c < |s.calls| && s.calls[c] == Joining(m, pid, probing)
    ensures Inv(JoinWait(s, c, m, pid, probing, choice))
  {
    hide Inv;
    MoveKeepsInv(s, c, Done(Failed));
    MoveKeepsInv(s, c, Done(Returned(PortOf(s.procs, pid))));
    MoveKeepsInv(s, c, Joining(m, pid, true));
    MoveKeepsInv(s, c, Joining(m, pid, false));
  }

  lemma SweepKeepsInv(s: State, c: nat, w: Sweep, choice: Choice)
    requires Inv(s) && c < |s.calls| && s.calls[c] == Sweeping(w)
    ensures Inv(SweepOn(s, c, w, choice))
  {
    if w.todo == {} {
      EndOfSweepKeepsInv(s, c);
    } else if choice.next in w.todo {
      var rest := w.(todo := w.todo - {choice.next});
      StopKeepsInv(s, c, choice.next, SweepKill(PidOf(s.table, choice.next), rest), Sweeping(rest));
    }
  }

  lemma EndOfSweepKeepsInv(s: State, c: nat)
    requires Inv(s) && c < |s.calls| && s.calls[c].Sweeping?
    ensures Inv(At(s, c, Done(Finished)))
  {
    ErrorsKept(s, At(s, c, Done(Finished)), c);
    KillsKept(s, At(s, c, Done(Finished)), c);
    hide ErrorHasFailedCall;
    hide StoppedGetKilled;
  }

  lemma CallKeepsInv(s: State, c: nat, choice: Choice)
    requires Inv(s) && c < |s.calls|
    ensures Inv(GoOn(s, c, choice))
  {
    hide Inv;
    match s.calls[c]
    case EnsureStart(m) => LookUpKeepsInv(s, c, m, choice);
    case ErrorStop(m) =>
      StopKeepsInv(s, c, m, ErrorKill(m, PidOf(s.table, m), |s.procs|), Relock(m, |s.procs|));
    case ErrorKill(m, v, since) => KillKeepsInv(s, c, v, Relock(m, since));
    case Relock(m, _) => LaunchKeepsInv(s, c, m, choice);
    case Launching(m, pid, probing) => WaitKeepsInv(s, c, m, pid, probing, choice);
    case SettingReady(m, pid) => SetKeepsInv(s, c, m, Ready, Done(Returned(PortOf(s.procs, pid))));
    case SettingError(m, _) => SetKeepsInv(s, c, m, Error, FailStop(m));
    case FailStop(m) => StopKeepsInv(s, c, m, FailKill(PidOf(s.table, m)), Done(Failed));
    case FailKill(v) => KillKeepsInv(s, c, v, Done(Failed));
    case Joining(m, pid, probing) => JoinKeepsInv(s, c, m, pid, probing, choice);
    case SweepScan(all) => ScanKeepsInv(s, c, all);
    case Sweeping(w) => SweepKeepsInv(s, c, w, choice);
    case SweepKill(v, w) => KillKeepsInv(s, c, v, Sweeping(w));
    case Done(_) =>
  }

  lemma StepKeepsInv(s: State, a: Action)
    requires Inv(s)
    ensures Inv(Step(s, a))
  {
    hide Inv;
    match a
    case CallEnsure(m) => NewCallKeepsInv(s, EnsureStart(m));
    case CallCollect => NewCallKeepsInv(s, SweepScan(false));
    case CallStopAll => NewCallKeepsInv(s, SweepScan(true));
    case Touch(m) => TouchKeepsInv(s, m);
    case Tick(elapsed) => TickKeepsInv(s, elapsed);
    case Exit(pid) =>
      if pid < |s.procs| {
        ExitKeepsInv(s, pid);
      }
    case Reap(pid) => ReapKeepsInv(s, pid);
    case Go(c, choice) =>
      if c < |s.calls| {
        CallKeepsInv(s, c, choice);
      }
  }

  /** The invariant holds in every state of every run, whatever the interleaving. */
  lemma {:induction false} EveryRunKeepsInv(base: int, run: seq<Action>, k: nat)
    requires k <= |run|
    ensures Inv(StateAt(base, run, k))
  {
    if k > 0 {
      EveryRunKeepsInv(base, run, k - 1);
      StepKeepsInv(StateAt(base, run, k - 1), run[k - 1]);
    }
  }
}
