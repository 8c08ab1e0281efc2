/** The rpc-server of a worker node (internal/split/worker.go): Ensure, Stop, Running and one
    reaper per process, interleaved in any order. Every critical section is one step; a
    process may exit at any time. */
module WorkerProcess {
  import opened Nodes

  /** What Ensure's critical section leaves in w.cmd, given whether a start succeeds. */
  function AfterEnsure(cmd: Option<nat>, started: Option<nat>): Option<nat> {
    if cmd.Some? then cmd else started
  }

  /** What the reaper of process p leaves in w.cmd. */
  function AfterReap(cmd: Option<nat>, p: nat): Option<nat> {
    if cmd == Some(p) then None else cmd
  }

  datatype EnsureResult = NotInstalled | AlreadyRunning | StartFailed | Started(p: nat)

  /** The object behind the mutex; each method is one critical section. */
  class Worker {
    const installed: bool
    var cmd: Option<nat>

    constructor (installed: bool)
      ensures this.installed == installed && cmd == None
    {
      this.installed := installed;
      cmd := None;
    }

    method Running() returns (b: bool)
      ensures b == cmd.Some?
    {
      b := cmd.Some?;
    }

    /** `started` is the process the operating system starts, if it does. */
    method EnsureSection(started: Option<nat>) returns (r: EnsureResult)
      modifies this
      ensures !installed ==> r.NotInstalled? && cmd == old(cmd)
      ensures installed ==> cmd == AfterEnsure(old(cmd), started)
      ensures r.Started? <==> installed && old(cmd) == None && started.Some?
      ensures r.Started? ==> cmd == Some(r.p)
      ensures r.AlreadyRunning? <==> installed && old(cmd).Some?
    {
      if !installed {
        return NotInstalled;
      }
      if cmd.Some? {
        return AlreadyRunning;
      }
      match started
      case None => r := StartFailed;
      case Some(p) =>
        cmd := started;
        r := Started(p);
    }

    method ReapSection(p: nat)
      modifies this
      ensures cmd == AfterReap(old(cmd), p)
    {
      if cmd == Some(p) {
        cmd := None;
      }
    }

    /** Stop reads the process under the lock and kills it after releasing the lock. */
    method StopSection() returns (target: Option<nat>)
      ensures target == cmd
    {
      target := cmd;
    }
  }

  /** exited: the process is gone; reaped: its reaper has run; killed: a signal reached it. */
  datatype Proc = Proc(exited: bool, reaped: bool, killed: bool)

  /** Processes are numbered in the order they start; stops holds, for each Stop call, the
      process it has read and not yet killed. */
  datatype State = State(cmd: Option<nat>, procs: seq<Proc>, stops: seq<Option<nat>>)

  datatype Action =
    | Ensure(starts: bool)
    | StopRead
    | StopKill(call: nat)
    | Exit(p: nat)
    | Reap(p: nat)

  const INIT := State(None, [], [])

  predicate Enabled(s: State, a: Action) {
    match a
    case Ensure(_) => true
    case StopRead => true
    case StopKill(call) => call < |s.stops| && s.stops[call].Some? && s.stops[call].value < |s.procs|
    case Exit(p) => p < |s.procs| && !s.procs[p].exited
    case Reap(p) => p < |s.procs| && s.procs[p].exited && !s.procs[p].reaped
  }

  /** An action that is not enabled leaves the state alone, so every sequence of actions is a
      run. */
  function Step(s: State, a: Action): State {
    if !Enabled(s, a) then s else
      match a
      case Ensure(starts) =>
        if s.cmd.None? && starts then
          s.(cmd := AfterEnsure(s.cmd, Some(|s.procs|)), procs := s.procs + [Proc(false, false, false)])
        else s
      case StopRead => s.(stops := s.stops + [s.cmd])
      case StopKill(call) =>
        var p := s.stops[call].value;
        var proc := s.procs[p];
        s.(stops := s.stops[call := None], procs := s.procs[p := proc.(killed := proc.killed || !proc.exited)])
      case Exit(p) => s.(procs := s.procs[p := s.procs[p].(exited := true)])
      case Reap(p) =>
        s.(procs := s.procs[p := s.procs[p].(reaped := true)], cmd := AfterReap(s.cmd, p))
  }

  /** The state after the first k actions of a run. */
  function StateAt(run: seq<Action>, k: nat): State
    requires k <= |run|
  {
    if k == 0 then INIT else Step(StateAt(run, k - 1), run[k - 1])
  }

  /** w.cmd is exactly the process that has been started and not yet reaped. */
  ghost predicate Inv(s: State) {
    && (forall p: nat :: s.cmd == Some(p) <==> p < |s.procs| && !s.procs[p].reaped)
    && (forall p :: 0 <= p < |s.procs| && s.procs[p].reaped ==> s.procs[p].exited)
    && (forall i :: 0 <= i < |s.stops| && s.stops[i].Some? ==> s.stops[i].value < |s.procs|)
  }

  lemma StepKeepsInv(s: State, a: Action)
    requires Inv(s)
    ensures Inv(Step(s, a))
  {
  }

  lemma {:induction false} EveryRunKeepsInv(run: seq<Action>, k: nat)
    requires k <= |run|
    ensures Inv(StateAt(run, k))
  {
    if k > 0 {
      EveryRunKeepsInv(run, k - 1);
      StepKeepsInv(StateAt(run, k - 1), run[k - 1]);
    }
  }

  /** At most one rpc-server is alive at any time, and it is the one in w.cmd. */
  lemma AtMostOneAlive(run: seq<Action>, k: nat, p: nat, q: nat)
    requires k <= |run|
    requires var s := StateAt(run, k); p < |s.procs| && q < |s.procs| && !s.procs[p].exited && !s.procs[q].exited
    ensures p == q && StateAt(run, k).cmd == Some(p)
  {
    EveryRunKeepsInv(run, k);
    hide StateAt;
    assert StateAt(run, k).cmd == Some(p) && StateAt(run, k).cmd == Some(q);
  }

  /** A new process starts only after every earlier one has exited and been reaped. */
  lemma StartsAfterReap(run: seq<Action>, k: nat, p: nat)
    requires k < |run| && |StateAt(run, k + 1).procs| > |StateAt(run, k).procs|
    requires p < |StateAt(run, k).procs|
    ensures StateAt(run, k).procs[p].exited && StateAt(run, k).procs[p].reaped
  {
    EveryRunKeepsInv(run, k);
    assert StateAt(run, k).cmd != Some(p);
  }

  /** A process with a successor has exited and been reaped. */
  lemma {:induction false} SupersededIsReaped(run: seq<Action>, k: nat, p: nat, q: nat)
    requires k <= |run| && p < q < |StateAt(run, k).procs|
    ensures StateAt(run, k).procs[p].exited && StateAt(run, k).procs[p].reaped
  {
    if |StateAt(run, k - 1).procs| < |StateAt(run, k).procs| {
      StartsAfterReap(run, k - 1, p);
    } else {
      SupersededIsReaped(run, k - 1, p, q);
    }
  }

  /** A delayed Stop never signals a newer process: it changes no process but the one it
      read, and once a newer one has started its signal reaches nothing at all. */
  lemma DelayedStopIsHarmless(run: seq<Action>, k: nat, call: nat, p: nat, q: nat)
    requires k < |run| && run[k] == StopKill(call)
    requires var s := StateAt(run, k); call < |s.stops| && s.stops[call] == Some(p) && q < |s.procs| && q != p
    ensures var s, t := StateAt(run, k), StateAt(run, k + 1);
            t.procs[q] == s.procs[q] && (p < q ==> t.procs == s.procs)
  {
    EveryRunKeepsInv(run, k);
    if p < q {
      SupersededIsReaped(run, k, p, q);
    }
  }

  /** A Stop that gets to its kill while the process it read is alive kills it. */
  lemma StopKills(run: seq<Action>, k: nat, call: nat, p: nat)
    requires k < |run| && run[k] == StopKill(call)
    requires var s := StateAt(run, k); call < |s.stops| && s.stops[call] == Some(p)
    ensures p < |StateAt(run, k).procs| && p < |StateAt(run, k + 1).procs|
    ensures !StateAt(run, k).procs[p].exited ==> StateAt(run, k + 1).procs[p].killed
  {
    EveryRunKeepsInv(run, k);
  }

  /** A Stop that reads while a process is alive reads exactly that one; it reads nothing
      exactly if every started process has exited and been reaped. */
  lemma StopReadsTheLiveOne(run: seq<Action>, k: nat)
    requires k < |run| && run[k] == StopRead
    ensures var s, t := StateAt(run, k), StateAt(run, k + 1); var call := |s.stops|;
            && |t.stops| == call + 1 && t.procs == s.procs && t.cmd == s.cmd
            && (forall p: nat :: p < |s.procs| && !s.procs[p].exited ==> t.stops[call] == Some(p))
            && (t.stops[call].None? <==> forall p :: 0 <= p < |s.procs| ==> s.procs[p].exited && s.procs[p].reaped)
  {
    EveryRunKeepsInv(run, k);
    RunningMeansUnreaped(run, k);
    var s := StateAt(run, k);
    assert StateAt(run, k + 1) == Step(s, run[k]);
    hide StateAt;
    assert forall p: nat :: p < |s.procs| && !s.procs[p].exited ==> s.cmd == Some(p);
  }

  /** In step i the Stop call number `call` reads process p, which is w.cmd. */
  ghost predicate ReadsCmd(run: seq<Action>, i: nat, call: nat, p: nat) {
    i < |run| && run[i] == StopRead && |StateAt(run, i).stops| == call && StateAt(run, i).cmd == Some(p)
  }

  /** Whatever a Stop is about to kill was w.cmd when it read it. */
  lemma {:induction false} TargetsWereCmd(run: seq<Action>, k: nat, call: nat, p: nat) returns (i: nat)
    requires k <= |run| && call < |StateAt(run, k).stops| && StateAt(run, k).stops[call] == Some(p)
    ensures i < k && ReadsCmd(run, i, call, p)
  {
    var s := StateAt(run, k - 1);
    if call < |s.stops| && s.stops[call] == Some(p) {
      i := TargetsWereCmd(run, k - 1, call, p);
    } else {
      i := k - 1;
    }
  }

  /** In step j the Stop call number `call` kills process p, which is alive. */
  ghost predicate Kills(run: seq<Action>, j: nat, call: nat, p: nat) {
    && j < |run| && run[j] == StopKill(call)
    && var s := StateAt(run, j); call < |s.stops| && s.stops[call] == Some(p) && p < |s.procs| && !s.procs[p].exited
  }

  /** A process is killed exactly if some Stop has read it while it was w.cmd and got to its
      kill while it was alive. */
  lemma KilledExactly(run: seq<Action>, k: nat, p: nat)
    requires k <= |run| && p < |StateAt(run, k).procs|
    ensures StateAt(run, k).procs[p].killed <==>
            exists i: nat, j: nat, call: nat :: i < j < k && ReadsCmd(run, i, call, p) && Kills(run, j, call, p)
  {
    hide StateAt;
    hide ReadsCmd;
    hide Kills;
    if StateAt(run, k).procs[p].killed {
      var j, call := KilledByStop(run, k, p);
      var i := KillerReadCmd(run, j, call, p);
    }
    if i: nat, j: nat, call: nat :| i < j < k && ReadsCmd(run, i, call, p) && Kills(run, j, call, p) {
      KillingStays(run, j, k, call, p);
    }
  }

  lemma KillerReadCmd(run: seq<Action>, j: nat, call: nat, p: nat) returns (i: nat)
    requires Kills(run, j, call, p)
    ensures i < j && ReadsCmd(run, i, call, p)
  {
    i := TargetsWereCmd(run, j, call, p);
  }

  lemma {:induction false} KilledByStop(run: seq<Action>, k: nat, p: nat) returns (j: nat, call: nat)
    requires k <= |run| && p < |StateAt(run, k).procs| && StateAt(run, k).procs[p].killed
    ensures j < k && Kills(run, j, call, p)
  {
    var s := StateAt(run, k - 1);
    if p < |s.procs| && s.procs[p].killed {
      j, call := KilledByStop(run, k - 1, p);
    } else {
      j := k - 1;
      call := run[j].call;
    }
  }

  lemma {:induction false} KillingStays(run: seq<Action>, j: nat, k: nat, call: nat, p: nat)
    requires j < k <= |run| && Kills(run, j, call, p)
    ensures p < |StateAt(run, k).procs| && StateAt(run, k).procs[p].killed
  {
    if k > j + 1 {
      KillingStays(run, j, k - 1, call, p);
    }
  }

  /** After a crash the worker can be started again: from any state of any run with a process
      under way, its exit, its reaping and an Ensure whose start succeeds leave a new process
      running, alive and in w.cmd. */
  lemma RestartAfterCrash(run: seq<Action>, k: nat, p: nat)
    requires k <= |run| && StateAt(run, k).cmd == Some(p)
    ensures var s := StateAt(run, k); var t := Step(Step(Step(s, Exit(p)), Reap(p)), Ensure(true)); var q := |s.procs|;
            && p < q && t.cmd == Some(q) && t.stops == s.stops
            && t.procs == s.procs[p := s.procs[p].(exited := true, reaped := true)] + [Proc(false, false, false)]
  {
    EveryRunKeepsInv(run, k);
    hide StateAt;
  }

  /** An Ensure starts a process exactly if its start succeeds and every earlier one has exited
      and been reaped; otherwise it changes nothing. */
  lemma EnsureStartsExactly(run: seq<Action>, k: nat)
    requires k < |run| && run[k].Ensure?
    ensures var s, t := StateAt(run, k), StateAt(run, k + 1);
            if run[k].starts && forall p :: 0 <= p < |s.procs| ==> s.procs[p].exited && s.procs[p].reaped
            then t.procs == s.procs + [Proc(false, false, false)] && t.cmd == Some(|s.procs|) && t.stops == s.stops
            else t == s
  {
    RunningMeansUnreaped(run, k);
    assert StateAt(run, k + 1) == Step(StateAt(run, k), run[k]);
    hide StateAt;
  }

  /** Running is false exactly when every started process has exited and been reaped. */
  lemma RunningMeansUnreaped(run: seq<Action>, k: nat)
    requires k <= |run|
    ensures var s := StateAt(run, k);
            s.cmd.None? <==> forall p :: 0 <= p < |s.procs| ==> s.procs[p].exited && s.procs[p].reaped
  {
    EveryRunKeepsInv(run, k);
    var s := StateAt(run, k);
    hide StateAt;
    if s.cmd.Some? {
      assert s.cmd == Some(s.cmd.value);
    } else {
      forall p | 0 <= p < |s.procs|
        ensures s.procs[p].exited && s.procs[p].reaped
      {
        assert s.cmd != Some(p);
      }
    }
  }
}
