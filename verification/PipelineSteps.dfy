/** internal/split/pipeline.go as a step system: any number of Ensure calls, collector sweeps
    and StopAll calls, one reaper per llama-server, and processes that may exit at any time.
    Each critical section under the manager's mutex is one step; kills and health probes,
    which happen outside it, are steps of their own. */
module PipelineSteps {
  import opened Nodes
  import opened PipelineTable

  /** How a process left the table, if it did. */
  datatype Fate = Mapped | Stopped | ReapedOut | Overwritten

  /** A started llama-server. kills counts the signals stop has sent it; healthy says that a
      probe of its port has answered 200 to the Ensure call that launched it. */
  datatype Proc = Proc(
    model: string,
    port: int,
    launcher: nat,
    exited: bool,
    reaped: bool,
    kills: nat,
    healthy: bool,
    fate: Fate)

  /** A sweep under way: the models still to stop, and, for reference, the processes it found
      and how many had been started when it took its list. */
  datatype Sweep = Sweep(all: bool, todo: set<string>, targets: set<nat>, mark: nat)

  /** How a call ended: a sweep returns nothing, Ensure an error or the port of a pipeline. */
  datatype CallResult = Finished | Failed | Returned(port: int)

  /** Where a call stands. The `since` of a relaunch is the number of processes started when
      it stopped the failed one. */
  datatype Pc =
    | EnsureStart(model: string)
    | ErrorStop(model: string)
    | ErrorKill(model: string, victim: nat, since: nat)
    | Relock(model: string, since: nat)
    | Launching(model: string, pid: nat, probing: bool)
    | SettingReady(model: string, pid: nat)
    | SettingError(model: string, pid: nat)
    | FailStop(model: string)
    | FailKill(victim: nat)
    | Joining(model: string, pid: nat, probing: bool)
    | SweepScan(all: bool)
    | Sweeping(sweep: Sweep)
    | SweepKill(victim: nat, sweep: Sweep)
    | Done(result: CallResult)
  {
    predicate InEnsure() {
      !SweepScan? && !Sweeping? && !SweepKill? && !Done?
    }

    /** Between inserting its process and recording how the launch ended. */
    predicate InLaunch() {
      Launching? || SettingReady? || SettingError?
    }

    /** Between relaunch's stop and its insertion. */
    predicate InRelaunch() {
      ErrorKill? || Relock?
    }

    /** About to kill a process that stop has just removed. */
    predicate AboutToKill() {
      ErrorKill? || FailKill? || SweepKill?
    }

    predicate InSweep() {
      Sweeping? || SweepKill?
    }
  }

  /** Processes and calls are numbered in the order they start. */
  datatype State = State(base: int, now: int, table: Table, procs: seq<Proc>, calls: seq<Pc>)

  function Init(base: int): State {
    State(base, 0, map[], [], [])
  }

  /** What the environment decides in a call's step: ports held by strangers, whether the
      process starts, whether a probe answers 200, whether the caller's context or the
      deadline ends the wait, and which model a sweep turns to next. */
  datatype Choice = Choice(foreign: set<int>, starts: bool, answers: bool, givesUp: bool, next: string)

  datatype Action =
    | CallEnsure(model: string)
    | CallCollect
    | CallStopAll
    | Touch(model: string)
    | Tick(elapsed: nat)
    | Exit(pid: nat)
    | Reap(pid: nat)
    | Go(call: nat, choice: Choice)

  function At(s: State, c: nat, pc: Pc): State
    requires c < |s.calls|
  {
    s.(calls := s.calls[c := pc])
  }

  /** Every child holds its port from start until exit. */
  function HeldPorts(procs: seq<Proc>): set<int> {
    set p | 0 <= p < |procs| && !procs[p].exited :: procs[p].port
  }

  function WithFate(procs: seq<Proc>, pid: nat, fate: Fate): seq<Proc> {
    if pid < |procs| then procs[pid := procs[pid].(fate := fate)] else procs
  }

  /** stop's critical section and what its caller does next. */
  function StopThen(s: State, c: nat, model: string, kill: Pc, skip: Pc): State
    requires c < |s.calls|
  {
    if model in s.table then
      At(s.(table := s.table - {model}, procs := WithFate(s.procs, s.table[model].pid, Stopped)), c, kill)
    else At(s, c, skip)
  }

  /** The process stop would return for a model; irrelevant if there is none. */
  function PidOf(t: Table, model: string): nat {
    if model in t then t[model].pid else 0
  }

  /** The port a process was started on; irrelevant if there is no such process. */
  function PortOf(procs: seq<Proc>, pid: nat): int {
    if pid < |procs| then procs[pid].port else 0
  }

  /** p.cmd.Process.Kill() */
  function KillThen(s: State, c: nat, pid: nat, next: Pc): State
    requires c < |s.calls|
  {
    if pid < |s.procs| then
      At(s.(procs := s.procs[pid := s.procs[pid].(kills := s.procs[pid].kills + 1)]), c, next)
    else s
  }

  /** The launching section of Ensure: whatever is in the table under the name is replaced. */
  function Launch(s: State, c: nat, model: string, choice: Choice): State
    requires c < |s.calls|
  {
    var port := FreePort(s.base, choice.foreign + HeldPorts(s.procs));
    if port.None? || !choice.starts then At(s, c, Done(Failed)) else
      var pid := |s.procs|;
      var procs := if model in s.table then WithFate(s.procs, s.table[model].pid, Overwritten) else s.procs;
      At(s.(table := s.table[model := Entry(pid, port.value, Loading, s.now)],
            procs := procs + [Proc(model, port.value, c, false, false, 0, false, Mapped)]),
         c, Launching(model, pid, false))
  }

  function LookUp(s: State, c: nat, model: string, choice: Choice): State
    requires c < |s.calls|
  {
    if model !in s.table then Launch(s, c, model, choice) else
      var touched := s.(table := Touched(s.table, model, s.now));
      match s.table[model].state
      case Ready => At(touched, c, Done(Returned(s.table[model].port)))
      case Loading => At(touched, c, Joining(model, s.table[model].pid, false))
      case Error => At(touched, c, ErrorStop(model))
  }

  /** One round of waitReady by the launching call: give up, or see whether the model still
      has an entry and then probe the port. */
  function Wait(s: State, c: nat, model: string, pid: nat, probing: bool, choice: Choice): State
    requires c < |s.calls|
  {
    if !probing then
      if choice.givesUp || model !in s.table then At(s, c, SettingError(model, pid))
      else At(s, c, Launching(model, pid, true))
    else if choice.answers && pid < |s.procs| then
      At(s.(procs := s.procs[pid := s.procs[pid].(healthy := true)]), c, SettingReady(model, pid))
    else At(s, c, Launching(model, pid, false))
  }

  /** The same by a call that found the model loading; it reports the outcome and no more. */
  function JoinWait(s: State, c: nat, model: string, pid: nat, probing: bool, choice: Choice): State
    requires c < |s.calls|
  {
    if !probing then
      if choice.givesUp || model !in s.table then At(s, c, Done(Failed))
      else At(s, c, Joining(model, pid, true))
    else if choice.answers then At(s, c, Done(Returned(PortOf(s.procs, pid))))
    else At(s, c, Joining(model, pid, false))
  }

  function TargetPids(t: Table, models: set<string>): set<nat> {
    set m | m in models && m in t :: t[m].pid
  }

  function Scan(s: State, c: nat, all: bool): State
    requires c < |s.calls|
  {
    var todo := if all then s.table.Keys else Idle(s.table, s.now);
    At(s, c, Sweeping(Sweep(all, todo, TargetPids(s.table, todo), |s.procs|)))
  }

  function SweepOn(s: State, c: nat, w: Sweep, choice: Choice): State
    requires c < |s.calls|
  {
    if w.todo == {} then At(s, c, Done(Finished))
    else if choice.next !in w.todo then s
    else
      var rest := w.(todo := w.todo - {choice.next});
      StopThen(s, c, choice.next, SweepKill(PidOf(s.table, choice.next), rest), Sweeping(rest))
  }

  function GoOn(s: State, c: nat, choice: Choice): State
    requires c < |s.calls|
  {
    match s.calls[c]
    case EnsureStart(m) => LookUp(s, c, m, choice)
    case ErrorStop(m) =>
      var since := |s.procs|;
      StopThen(s, c, m, ErrorKill(m, PidOf(s.table, m), since), Relock(m, since))
    case ErrorKill(m, v, since) => KillThen(s, c, v, Relock(m, since))
    case Relock(m, _) => Launch(s, c, m, choice)
    case Launching(m, pid, probing) => Wait(s, c, m, pid, probing, choice)
    case SettingReady(m, pid) => At(s.(table := WithState(s.table, m, Ready)), c, Done(Returned(PortOf(s.procs, pid))))
    case SettingError(m, _) => At(s.(table := WithState(s.table, m, Error)), c, FailStop(m))
    case FailStop(m) => StopThen(s, c, m, FailKill(PidOf(s.table, m)), Done(Failed))
    case FailKill(v) => KillThen(s, c, v, Done(Failed))
    case Joining(m, pid, probing) => JoinWait(s, c, m, pid, probing, choice)
    case SweepScan(all) => Scan(s, c, all)
    case Sweeping(w) => SweepOn(s, c, w, choice)
    case SweepKill(v, w) => KillThen(s, c, v, Sweeping(w))
    case Done(_) => s
  }

  function ReapStep(s: State, pid: nat): State {
    if pid < |s.procs| && s.procs[pid].exited && !s.procs[pid].reaped then
      var p := s.procs[pid];
      var table := AfterReaper(s.table, p.model, pid);
      s.(table := table,
         procs := s.procs[pid := p.(reaped := true, fate := if table == s.table then p.fate else ReapedOut)])
    else s
  }

  /** An action that is not possible leaves the state alone, so every sequence of actions is a
      run. */
  function Step(s: State, a: Action): State {
    match a
    case CallEnsure(m) => s.(calls := s.calls + [EnsureStart(m)])
    case CallCollect => s.(calls := s.calls + [SweepScan(false)])
    case CallStopAll => s.(calls := s.calls + [SweepScan(true)])
    case Touch(m) => s.(table := Touched(s.table, m, s.now))
    case Tick(elapsed) => s.(now := s.now + elapsed)
    case Exit(pid) =>
      if pid < |s.procs| then s.(procs := s.procs[pid := s.procs[pid].(exited := true)]) else s
    case Reap(pid) => ReapStep(s, pid)
    case Go(c, choice) => if c < |s.calls| then GoOn(s, c, choice) else s
  }

  /** The state after the first k actions of a run. */
  function StateAt(base: int, run: seq<Action>, k: nat): State
    requires k <= |run|
  {
    if k == 0 then Init(base) else Step(StateAt(base, run, k - 1), run[k - 1])
  }
}
