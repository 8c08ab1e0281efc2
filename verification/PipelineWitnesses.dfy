/** Runs of the pipeline manager that show which promises it does not keep: a llama-server
    that leaks, a pipeline marked ready without having been probed, and a pipeline collected
    right after it was used. Each fixes the interleaving and leaves the model and the ports
    open. */
module PipelineWitnesses {
  import opened Nodes
  import opened PipelineTable
  import opened PipelineSteps
  import opened PipelineInvariant
  import opened PipelineProof
  import opened PipelineTheorems
  import opened PipelineSweeps
  import opened PipelineReadiness
  import opened PipelineReaping

  const PLAIN := Choice({}, true, false, false, "")
  const ANSWER := Choice({}, true, true, false, "")
  const GIVE_UP := Choice({}, true, false, true, "")

  function Pick(m: string): Choice {
    Choice({}, true, false, false, m)
  }

  lemma Next(base: int, run: seq<Action>, k: nat, s: State, t: State)
    requires k < |run| && StateAt(base, run, k) == s && Step(s, run[k]) == t
    ensures StateAt(base, run, k + 1) == t
  {
  }

  /** With at most two processes there is a port left. */
  lemma PortLeft(base: int, procs: seq<Proc>)
    requires |procs| <= 2
    ensures FreePort(base, {} + HeldPorts(procs)).Some?
  {
    FreePortIsLeast(base, {} + HeldPorts(procs));
    hide FreePort;
    var held := {} + HeldPorts(procs);
    assert base !in held || base + 1 !in held || base + 2 !in held;
  }

  function NextPort(s: State): int {
    var port := FreePort(s.base, {} + HeldPorts(s.procs));
    if port.Some? then port.value else 0
  }

  /** A launch that finds a port and starts its process. */
  lemma Launches(s: State, c: nat, m: string)
    requires c < |s.calls| && |s.procs| <= 2
    ensures Launch(s, c, m, PLAIN) == Launched(s, c, m, NextPort(s))
  {
    PortLeft(s.base, s.procs);
    LaunchCases(s, c, m, PLAIN);
    hide FreePort;
    hide HeldPorts;
  }

  function Started(m: string, port: int, launcher: nat): Proc {
    Proc(m, port, launcher, false, false, 0, false, Mapped)
  }

  /** The first launch of a model, as all three runs begin. */
  lemma FirstLaunch(base: int, run: seq<Action>, m: string) returns (s: State, port: int)
    requires 2 <= |run| && run[0] == CallEnsure(m) && run[1] == Go(0, PLAIN)
    ensures StateAt(base, run, 2) == s
    ensures s == State(base, 0, map[m := Entry(0, port, Loading, 0)], [Started(m, port, 0)], [Launching(m, 0, false)])
  {
    var s0 := Init(base);
    var s1 := s0.(calls := [EnsureStart(m)]);
    Next(base, run, 0, s0, s1);
    Launches(s1, 0, m);
    port := NextPort(s1);
    s := State(base, 0, map[m := Entry(0, port, Loading, 0)], [Started(m, port, 0)], [Launching(m, 0, false)]);
    hide Launch;
    hide NextPort;
    Next(base, run, 1, s1, s);
  }

  /** Call 0 fails; calls 1 and 2 both find the error entry; 1 stops it and relaunches; 2,
      which found nothing left to stop, relaunches over it; 1 has its process answer. */
  function LeakRun(m: string): seq<Action> {
    [CallEnsure(m), Go(0, PLAIN), Go(0, GIVE_UP), Go(0, PLAIN),
     CallEnsure(m), CallEnsure(m), Go(1, PLAIN), Go(2, PLAIN),
     Go(1, PLAIN), Go(2, PLAIN), Go(1, PLAIN), Go(1, PLAIN), Go(2, PLAIN),
     Go(1, PLAIN), Go(1, ANSWER), Go(1, PLAIN)]
  }

  lemma LeakBothSeeTheError(base: int, m: string) returns (s: State, port: int)
    ensures StateAt(base, LeakRun(m), 8) == s
    ensures s == State(base, 0, map[m := Entry(0, port, Error, 0)], [Started(m, port, 0)],
                       [FailStop(m), ErrorStop(m), ErrorStop(m)])
  {
    hide StateAt;
    var run := LeakRun(m);
    var s2;
    s2, port := FirstLaunch(base, run, m);
    var s3 := s2.(calls := [SettingError(m, 0)]);
    Next(base, run, 2, s2, s3);
    var s4 := s3.(table := map[m := Entry(0, port, Error, 0)], calls := [FailStop(m)]);
    Next(base, run, 3, s3, s4);
    var s5 := s4.(calls := [FailStop(m), EnsureStart(m)]);
    Next(base, run, 4, s4, s5);
    var s6 := s4.(calls := [FailStop(m), EnsureStart(m), EnsureStart(m)]);
    Next(base, run, 5, s5, s6);
    var s7 := s4.(calls := [FailStop(m), ErrorStop(m), EnsureStart(m)]);
    Next(base, run, 6, s6, s7);
    s := s4.(calls := [FailStop(m), ErrorStop(m), ErrorStop(m)]);
    Next(base, run, 7, s7, s);
  }

  lemma LeakBothRelock(base: int, m: string) returns (s: State, port: int)
    ensures StateAt(base, LeakRun(m), 11) == s
    ensures s == State(base, 0, map[], [Started(m, port, 0).(kills := 1, fate := Stopped)],
                       [FailStop(m), Relock(m, 1), Relock(m, 1)])
  {
    hide StateAt;
    var run := LeakRun(m);
    var s8;
    s8, port := LeakBothSeeTheError(base, m);
    var s9 := State(base, 0, map[], [Started(m, port, 0).(fate := Stopped)],
                    [FailStop(m), ErrorKill(m, 0, 1), ErrorStop(m)]);
    Next(base, run, 8, s8, s9);
    var s10 := s9.(calls := [FailStop(m), ErrorKill(m, 0, 1), Relock(m, 1)]);
    Next(base, run, 9, s9, s10);
    s := State(base, 0, map[], [Started(m, port, 0).(kills := 1, fate := Stopped)],
               [FailStop(m), Relock(m, 1), Relock(m, 1)]);
    Next(base, run, 10, s10, s);
  }

  lemma LeakOverwrites(base: int, m: string) returns (s: State, p0: Proc, port1: int, port2: int)
    ensures StateAt(base, LeakRun(m), 13) == s
    ensures s == State(base, 0, map[m := Entry(2, port2, Loading, 0)],
                       [p0, Started(m, port1, 1).(fate := Overwritten), Started(m, port2, 2)],
                       [FailStop(m), Launching(m, 1, false), Launching(m, 2, false)])
  {
    hide StateAt;
    var run := LeakRun(m);
    var s11, port := LeakBothRelock(base, m);
    p0 := Started(m, port, 0).(kills := 1, fate := Stopped);
    Launches(s11, 1, m);
    port1 := NextPort(s11);
    var s12 := State(base, 0, map[m := Entry(1, port1, Loading, 0)], [p0, Started(m, port1, 1)],
                     [FailStop(m), Launching(m, 1, false), Relock(m, 1)]);
    hide Launch;
    hide NextPort;
    Next(base, run, 11, s11, s12);
    Launches(s12, 2, m);
    port2 := NextPort(s12);
    s := State(base, 0, map[m := Entry(2, port2, Loading, 0)],
               [p0, Started(m, port1, 1).(fate := Overwritten), Started(m, port2, 2)],
               [FailStop(m), Launching(m, 1, false), Launching(m, 2, false)]);
    Next(base, run, 12, s12, s);
  }

  /** Not every live llama-server is in the table: process 1 is alive, unmapped, and no call
      has killed it or is about to. */
  lemma LiveServerLeaks(base: int, m: string)
    ensures var s := StateAt(base, LeakRun(m), 13);
            && |s.procs| == 3 && !s.procs[1].exited && s.procs[1].fate == Overwritten
            && !IsMapped(s, 1) && !IsStopped(s, 1)
  {
    var s, p0, port1, port2 := LeakOverwrites(base, m);
    hide StateAt;
    assert forall c: nat :: !KillPending(s, 1, c);
  }

  /** Its launching call may even return its port: the pipeline it hands out is the leaked
      one, while the entry it has marked ready is the other's. */
  lemma LeakedPortIsReturned(base: int, m: string)
    ensures var s := StateAt(base, LeakRun(m), 16);
            && |s.procs| == 3 && |s.calls| == 3 && s.procs[1].fate == Overwritten
            && s.calls[1] == Done(Returned(s.procs[1].port))
            && Holds(s, m, 2) && s.table[m].state == Ready && !s.procs[2].healthy
  {
    hide StateAt;
    var run := LeakRun(m);
    var s13, p0, port1, port2 := LeakOverwrites(base, m);
    var p1, p2 := Started(m, port1, 1).(fate := Overwritten), Started(m, port2, 2);
    var s14 := s13.(calls := [FailStop(m), Launching(m, 1, true), Launching(m, 2, false)]);
    Next(base, run, 13, s13, s14);
    var s15 := s13.(procs := [p0, p1.(healthy := true), p2],
                    calls := [FailStop(m), SettingReady(m, 1), Launching(m, 2, false)]);
    Next(base, run, 14, s14, s15);
    var s16 := s15.(table := map[m := Entry(2, port2, Ready, 0)],
                    calls := [FailStop(m), Done(Returned(port1)), Launching(m, 2, false)]);
    Next(base, run, 15, s15, s16);
  }

  /** Call 0 launches and waits; StopAll removes its process; call 2 launches anew; call 0
      sees an entry under the name, has its own old process answer, and marks the new entry. */
  function UnprobedRun(m: string): seq<Action> {
    [CallEnsure(m), Go(0, PLAIN), CallStopAll, Go(1, PLAIN), Go(1, Pick(m)),
     CallEnsure(m), Go(2, PLAIN), Go(0, PLAIN), Go(0, ANSWER), Go(0, PLAIN)]
  }

  /** Both this run and the next begin like this. */
  ghost predicate StartsWithStop(run: seq<Action>, m: string) {
    && 6 <= |run| && run[0] == CallEnsure(m) && run[1] == Go(0, PLAIN) && run[2] == CallStopAll
    && run[3] == Go(1, PLAIN) && run[4] == Go(1, Pick(m)) && run[5] == CallEnsure(m)
  }

  lemma FirstListed(base: int, run: seq<Action>, m: string) returns (s: State, port: int, w: Sweep)
    requires StartsWithStop(run, m)
    ensures StateAt(base, run, 4) == s && w.todo == {m}
    ensures s == State(base, 0, map[m := Entry(0, port, Loading, 0)], [Started(m, port, 0)],
                       [Launching(m, 0, false), Sweeping(w)])
  {
    hide StateAt;
    var s2;
    s2, port := FirstLaunch(base, run, m);
    var s3 := s2.(calls := [Launching(m, 0, false), SweepScan(true)]);
    Next(base, run, 2, s2, s3);
    w := Sweep(true, {m}, TargetPids(s3.table, {m}), 1);
    s := s2.(calls := [Launching(m, 0, false), Sweeping(w)]);
    assert s3.table.Keys == {m};
    Next(base, run, 3, s3, s);
  }

  lemma FirstStopped(base: int, run: seq<Action>, m: string) returns (s: State, port: int, pc: Pc)
    requires StartsWithStop(run, m)
    ensures StateAt(base, run, 6) == s
    ensures s == State(base, 0, map[], [Started(m, port, 0).(fate := Stopped)],
                       [Launching(m, 0, false), pc, EnsureStart(m)])
  {
    hide StateAt;
    var s4, w;
    s4, port, w := FirstListed(base, run, m);
    pc := SweepKill(0, w.(todo := {}));
    assert w.todo - {m} == {};
    var s5 := State(base, 0, map[], [Started(m, port, 0).(fate := Stopped)], [Launching(m, 0, false), pc]);
    Next(base, run, 4, s4, s5);
    s := s5.(calls := [Launching(m, 0, false), pc, EnsureStart(m)]);
    Next(base, run, 5, s5, s);
  }

  lemma UnprobedLaunched(base: int, m: string) returns (s: State, p0: Proc, port: int, pc: Pc)
    ensures StateAt(base, UnprobedRun(m), 7) == s && p0.fate == Stopped
    ensures s == State(base, 0, map[m := Entry(1, port, Loading, 0)], [p0, Started(m, port, 2)],
                       [Launching(m, 0, false), pc, Launching(m, 1, false)])
  {
    hide StateAt;
    var run := UnprobedRun(m);
    var s6, port0;
    s6, port0, pc := FirstStopped(base, run, m);
    p0 := Started(m, port0, 0).(fate := Stopped);
    Launches(s6, 2, m);
    port := NextPort(s6);
    s := State(base, 0, map[m := Entry(1, port, Loading, 0)], [p0, Started(m, port, 2)],
               [Launching(m, 0, false), pc, Launching(m, 1, false)]);
    hide Launch;
    hide NextPort;
    Next(base, run, 6, s6, s);
  }

  /** Ready does not mean probed: the entry of process 1 is ready, Port hands out its port,
      and process 1 has never answered. Call 0 has returned the port of a process that StopAll
      has taken out of the table. */
  lemma ReadyWithoutProbe(base: int, m: string)
    ensures var s := StateAt(base, UnprobedRun(m), 10);
            && Holds(s, m, 1) && 1 < |s.procs| && !s.procs[1].healthy
            && ReadyPort(s.table, m) == Some(s.procs[1].port)
            && 0 < |s.calls| && s.calls[0] == Done(Returned(s.procs[0].port)) && s.procs[0].fate == Stopped
  {
    hide StateAt;
    var run := UnprobedRun(m);
    var s7, p0, port, pc := UnprobedLaunched(base, m);
    var s8 := s7.(calls := [Launching(m, 0, true), pc, Launching(m, 1, false)]);
    Next(base, run, 7, s7, s8);
    var s9 := s7.(procs := [p0.(healthy := true), Started(m, port, 2)],
                  calls := [SettingReady(m, 0), pc, Launching(m, 1, false)]);
    Next(base, run, 8, s8, s9);
    var s10 := s9.(table := map[m := Entry(1, port, Ready, 0)],
                   calls := [Done(Returned(p0.port)), pc, Launching(m, 1, false)]);
    Next(base, run, 9, s9, s10);
  }

  /** Call 0's process is stopped and call 2 launches anew, as before; call 2 sees its process
      answer; call 0 gives up and marks the new entry failed; the process exits and its reaper
      leaves the failed entry alone; call 2 sets it ready. */
  function DeadRun(m: string): seq<Action> {
    [CallEnsure(m), Go(0, PLAIN), CallStopAll, Go(1, PLAIN), Go(1, Pick(m)),
     CallEnsure(m), Go(2, PLAIN), Go(2, PLAIN), Go(2, ANSWER), Go(0, GIVE_UP), Go(0, PLAIN),
     Exit(1), Reap(1), Go(2, PLAIN)]
  }

  lemma DeadAnswered(base: int, m: string) returns (s: State, p0: Proc, port: int, pc: Pc)
    ensures StateAt(base, DeadRun(m), 9) == s
    ensures s == State(base, 0, map[m := Entry(1, port, Loading, 0)], [p0, Started(m, port, 2).(healthy := true)],
                       [Launching(m, 0, false), pc, SettingReady(m, 1)])
  {
    hide StateAt;
    var run := DeadRun(m);
    var s6, port0;
    s6, port0, pc := FirstStopped(base, run, m);
    p0 := Started(m, port0, 0).(fate := Stopped);
    Launches(s6, 2, m);
    port := NextPort(s6);
    var s7 := State(base, 0, map[m := Entry(1, port, Loading, 0)], [p0, Started(m, port, 2)],
                    [Launching(m, 0, false), pc, Launching(m, 1, false)]);
    hide Launch;
    hide NextPort;
    Next(base, run, 6, s6, s7);
    var s8 := s7.(calls := [Launching(m, 0, false), pc, Launching(m, 1, true)]);
    Next(base, run, 7, s7, s8);
    s := s7.(procs := [p0, Started(m, port, 2).(healthy := true)],
             calls := [Launching(m, 0, false), pc, SettingReady(m, 1)]);
    Next(base, run, 8, s8, s);
  }

  /** A dead pipeline can be offered: the entry is ready, Port hands out its port, call 2 has
      returned it, and the process has been reaped. */
  lemma DeadPipelineOffered(base: int, m: string)
    ensures var s := StateAt(base, DeadRun(m), 14);
            && IsDead(s, m) && Holds(s, m, 1) && ReadyPort(s.table, m) == Some(s.procs[1].port)
            && 2 < |s.calls| && s.calls[2] == Done(Returned(s.procs[1].port)) && FailedCall(s, m, 0)
  {
    hide StateAt;
    var run := DeadRun(m);
    var s9, p0, port, pc := DeadAnswered(base, m);
    var p1 := s9.procs[1];
    var s10 := s9.(calls := [SettingError(m, 0), pc, SettingReady(m, 1)]);
    Next(base, run, 9, s9, s10);
    var s11 := s9.(table := map[m := Entry(1, port, Error, 0)], calls := [FailStop(m), pc, SettingReady(m, 1)]);
    Next(base, run, 10, s10, s11);
    var s12 := s11.(procs := [p0, p1.(exited := true)]);
    Next(base, run, 11, s11, s12);
    var s13 := s11.(procs := [p0, p1.(exited := true, reaped := true)]);
    Next(base, run, 12, s12, s13);
    var s14 := s13.(table := map[m := Entry(1, port, Ready, 0)],
                    calls := [FailStop(m), pc, Done(Returned(port))]);
    Next(base, run, 13, s13, s14);
  }

  /** Call 1 joins call 0's launch and sees the entry there; call 0 gives up and stops its
      process; before the kill is sent, the process answers call 1. */
  function JoinerRun(m: string): seq<Action> {
    [CallEnsure(m), Go(0, PLAIN), CallEnsure(m), Go(1, PLAIN), Go(1, PLAIN),
     Go(0, GIVE_UP), Go(0, PLAIN), Go(0, PLAIN), Go(1, ANSWER)]
  }

  ghost predicate TakesNoLoadingEntry(s: State, a: Action, t: State) {
    forall m :: m in s.table && s.table[m].state == Loading ==>
      Holds(t, m, s.table[m].pid)
      || (a.Go? && s.table[m].pid < |s.procs| && a.call == s.procs[s.table[m].pid].launcher)
  }

  lemma StepIsCalm(s: State, a: Action, t: State)
    requires Step(s, a) == t && TakesNoLoadingEntry(s, a, t)
    ensures Calm(s, a)
  {
    hide Step;
  }

  lemma CalmGoesOn(base: int, run: seq<Action>, k: nat)
    requires k < |run| && CalmUpTo(base, run, k) && Calm(StateAt(base, run, k), run[k])
    ensures CalmUpTo(base, run, k + 1)
  {
    hide StateAt;
    hide Calm;
  }

  /** The next state, of a step that takes no loading entry from another call. */
  lemma NextCalm(base: int, run: seq<Action>, k: nat, s: State, t: State)
    requires k < |run| && StateAt(base, run, k) == s && Step(s, run[k]) == t && CalmUpTo(base, run, k)
    requires TakesNoLoadingEntry(s, run[k], t)
    ensures StateAt(base, run, k + 1) == t && CalmUpTo(base, run, k + 1)
  {
    hide *;
    Next(base, run, k, s, t);
    StepIsCalm(s, run[k], t);
    CalmGoesOn(base, run, k);
  }

  lemma JoinerStarts(base: int, m: string) returns (s: State, port: int)
    ensures StateAt(base, JoinerRun(m), 2) == s && CalmUpTo(base, JoinerRun(m), 2)
    ensures s == State(base, 0, map[m := Entry(0, port, Loading, 0)], [Started(m, port, 0)], [Launching(m, 0, false)])
  {
    var run := JoinerRun(m);
    s, port := FirstLaunch(base, run, m);
    assert StateAt(base, run, 0) == Init(base);
    assert StateAt(base, run, 1).table == map[];
    hide StateAt;
    assert Calm(StateAt(base, run, 0), run[0]) && Calm(StateAt(base, run, 1), run[1]);
    hide Calm;
  }

  lemma JoinerSeesEntry(base: int, m: string) returns (s: State, port: int)
    ensures StateAt(base, JoinerRun(m), 5) == s && CalmUpTo(base, JoinerRun(m), 5)
    ensures s == State(base, 0, map[m := Entry(0, port, Loading, 0)], [Started(m, port, 0)],
                       [Launching(m, 0, false), Joining(m, 0, true)])
  {
    hide StateAt;
    var run := JoinerRun(m);
    var s2;
    s2, port := JoinerStarts(base, m);
    hide CalmUpTo;
    var s3 := s2.(calls := [Launching(m, 0, false), EnsureStart(m)]);
    NextCalm(base, run, 2, s2, s3);
    var s4 := s2.(calls := [Launching(m, 0, false), Joining(m, 0, false)]);
    NextCalm(base, run, 3, s3, s4);
    s := s2.(calls := [Launching(m, 0, false), Joining(m, 0, true)]);
    NextCalm(base, run, 4, s4, s);
  }

  lemma JoinerIsLeftAlone(base: int, m: string) returns (s: State, port: int)
    ensures StateAt(base, JoinerRun(m), 7) == s && CalmUpTo(base, JoinerRun(m), 7)
    ensures s == State(base, 0, map[m := Entry(0, port, Error, 0)], [Started(m, port, 0)],
                       [FailStop(m), Joining(m, 0, true)])
  {
    hide StateAt;
    var run := JoinerRun(m);
    var s5;
    s5, port := JoinerSeesEntry(base, m);
    hide CalmUpTo;
    var s6 := s5.(calls := [SettingError(m, 0), Joining(m, 0, true)]);
    NextCalm(base, run, 5, s5, s6);
    s := s5.(table := map[m := Entry(0, port, Error, 0)], calls := [FailStop(m), Joining(m, 0, true)]);
    NextCalm(base, run, 6, s6, s);
  }

  /** A joining call may return a stopped pipeline even in a run where no launching call loses
      its loading entry: call 1 has returned the port of a process whose kill is pending, and
      the table is empty. */
  lemma JoinerReturnsStopped(base: int, m: string)
    ensures var s := StateAt(base, JoinerRun(m), 9);
            && CalmUpTo(base, JoinerRun(m), 9) && s.table == map[] && |s.procs| == 1
            && |s.calls| == 2 && s.calls[1] == Done(Returned(s.procs[0].port)) && KillPending(s, 0, 0)
  {
    hide StateAt;
    var run := JoinerRun(m);
    var s7, port := JoinerIsLeftAlone(base, m);
    hide CalmUpTo;
    var s8 := State(base, 0, map[], [Started(m, port, 0).(fate := Stopped)], [FailKill(0), Joining(m, 0, true)]);
    NextCalm(base, run, 7, s7, s8);
    var s9 := s8.(calls := [FailKill(0), Done(Returned(port))]);
    NextCalm(base, run, 8, s8, s9);
  }

  /** A pipeline becomes ready, idles past the limit, is listed by the collector, and is used
      again before the collector comes to stop it. */
  function CollectedRun(m: string): seq<Action> {
    [CallEnsure(m), Go(0, PLAIN), Go(0, PLAIN), Go(0, ANSWER), Go(0, PLAIN),
     Tick(IDLE_TIMEOUT + 1), CallCollect, Go(1, PLAIN), Touch(m), Go(1, Pick(m))]
  }

  lemma CollectedReady(base: int, m: string) returns (s: State, p: Proc)
    ensures StateAt(base, CollectedRun(m), 5) == s
    ensures s == State(base, 0, map[m := Entry(0, p.port, Ready, 0)], [p], [Done(Returned(p.port))])
    ensures p.kills == 0 && !p.exited
  {
    hide StateAt;
    var run := CollectedRun(m);
    var s2, port := FirstLaunch(base, run, m);
    var s3 := s2.(calls := [Launching(m, 0, true)]);
    Next(base, run, 2, s2, s3);
    p := Started(m, port, 0).(healthy := true);
    var s4 := s2.(procs := [p], calls := [SettingReady(m, 0)]);
    Next(base, run, 3, s3, s4);
    s := s4.(table := map[m := Entry(0, port, Ready, 0)], calls := [Done(Returned(port))]);
    Next(base, run, 4, s4, s);
  }

  lemma CollectedIdles(base: int, m: string) returns (s: State, p: Proc)
    ensures StateAt(base, CollectedRun(m), 7) == s
    ensures s == State(base, IDLE_TIMEOUT + 1, map[m := Entry(0, p.port, Ready, 0)], [p],
                       [Done(Returned(p.port)), SweepScan(false)])
    ensures p.kills == 0 && !p.exited
  {
    hide StateAt;
    var run := CollectedRun(m);
    var s5;
    s5, p := CollectedReady(base, m);
    var s6 := s5.(now := IDLE_TIMEOUT + 1);
    Next(base, run, 5, s5, s6);
    s := s6.(calls := [Done(Returned(p.port)), SweepScan(false)]);
    Next(base, run, 6, s6, s);
  }

  /** The collector may stop a pipeline that has just been used: one step before, its entry is
      ready and was used this very instant; one step later it is gone and its kill pending. */
  lemma TouchedIsCollected(base: int, m: string)
    ensures var s, t := StateAt(base, CollectedRun(m), 9), StateAt(base, CollectedRun(m), 10);
            && m in s.table && s.table[m].state == Ready && s.table[m].lastUsed == s.now
            && !IsIdle(s.table[m], s.now)
            && m !in t.table && KillPending(t, s.table[m].pid, 1)
  {
    hide StateAt;
    var run := CollectedRun(m);
    var s7, p := CollectedIdles(base, m);
    assert PipelineTable.Idle(s7.table, s7.now) == {m};
    var w := Sweep(false, {m}, TargetPids(s7.table, {m}), 1);
    var s8 := s7.(calls := [Done(Returned(p.port)), Sweeping(w)]);
    Next(base, run, 7, s7, s8);
    hide TargetPids;
    var s9 := s8.(table := map[m := Entry(0, p.port, Ready, s8.now)]);
    Next(base, run, 8, s8, s9);
    var t := s9.(table := map[], procs := [p.(fate := Stopped)],
                 calls := [Done(Returned(p.port)), SweepKill(0, w.(todo := w.todo - {m}))]);
    Next(base, run, 9, s9, t);
  }

  lemma OverwrittenStaysOneStep(base: int, run: seq<Action>, k: nat, pid: nat)
    requires k < |run| && pid < |StateAt(base, run, k).procs| && StateAt(base, run, k).procs[pid].fate == Overwritten
    ensures pid < |StateAt(base, run, k + 1).procs| && StateAt(base, run, k + 1).procs[pid].fate == Overwritten
  {
    hide TableMatches;
    hide Step;
    TablesAlwaysMatch(base, run, k);
    OverwrittenStays(StateAt(base, run, k), run[k], pid);
    assert StateAt(base, run, k + 1) == Step(StateAt(base, run, k), run[k]);
  }

  lemma {:induction false} OverwrittenStaysInRuns(base: int, run: seq<Action>, i: nat, j: nat, pid: nat)
    requires i <= j <= |run| && pid < |StateAt(base, run, i).procs|
    requires StateAt(base, run, i).procs[pid].fate == Overwritten
    ensures pid < |StateAt(base, run, j).procs| && StateAt(base, run, j).procs[pid].fate == Overwritten
  {
    hide *;
    if j > i {
      OverwrittenStaysInRuns(base, run, i, j - 1, pid);
      OverwrittenStaysOneStep(base, run, j - 1, pid);
    }
  }

  /** And leaks are for good: an overwritten process stays out of the table and is never sent
      a kill. */
  lemma LeakedForever(base: int, run: seq<Action>, i: nat, j: nat, pid: nat)
    requires i <= j <= |run| && pid < |StateAt(base, run, i).procs|
    requires StateAt(base, run, i).procs[pid].fate == Overwritten
    ensures pid < |StateAt(base, run, j).procs|
    ensures !IsMapped(StateAt(base, run, j), pid) && !IsStopped(StateAt(base, run, j), pid)
  {
    hide *;
    OverwrittenStaysInRuns(base, run, i, j, pid);
    ProcessesAreConserved(base, run, j, pid);
  }

  lemma OverwrittenStays(s: State, a: Action, pid: nat)
    requires TableMatches(s) && pid < |s.procs| && s.procs[pid].fate == Overwritten
    ensures pid < |Step(s, a).procs| && Step(s, a).procs[pid].fate == Overwritten
  {
    ProcessesAreNeverForgotten(s, a);
    if a.Go? && a.call < |s.calls| {
      var pc := s.calls[a.call];
      if pc.Relock? || pc.EnsureStart? {
        LaunchKeepsFates(s, a.call, pc.model, a.choice, pid);
        hide Launch;
      } else {
        CallKeepsOverwritten(s, a.call, a.choice, pid);
      }
    }
    hide GoOn;
  }

  lemma StopRemovesTheMapped(s: State, c: nat, m: string, kill: Pc, skip: Pc, pid: nat)
    requires EntriesAreMapped(s) && c < |s.calls| && pid < |s.procs| && s.procs[pid].fate == Overwritten
    ensures |StopThen(s, c, m, kill, skip).procs| == |s.procs|
    ensures StopThen(s, c, m, kill, skip).procs[pid].fate == Overwritten
  {
    if m in s.table {
      assert EntryIsMapped(s, m);
    }
    hide EntriesAreMapped;
  }

  lemma CallKeepsOverwritten(s: State, c: nat, choice: Choice, pid: nat)
    requires TableMatches(s) && c < |s.calls| && pid < |s.procs| && s.procs[pid].fate == Overwritten
    requires !s.calls[c].EnsureStart? && !s.calls[c].Relock?
    ensures pid < |GoOn(s, c, choice).procs| && GoOn(s, c, choice).procs[pid].fate == Overwritten
  {
    forall m, kill, skip
      ensures |StopThen(s, c, m, kill, skip).procs| == |s.procs|
      ensures StopThen(s, c, m, kill, skip).procs[pid].fate == Overwritten
    {
      StopRemovesTheMapped(s, c, m, kill, skip, pid);
    }
    hide StopThen;
    hide Launch;
    hide LookUp;
    hide PipelineTable.Idle;
    hide TargetPids;
    hide TableMatches;
  }
}
