/** What each call gets done, step by step, told by the call's place and the fields of the
    table and the processes. */
module PipelineProgress {
  import opened Nodes
  import opened PipelineTable
  import opened PipelineSteps
  import opened PipelineInvariant
  import opened PipelineProof

  /** A waiting call goes on to probe the port exactly if its own model is still in the table
      and its caller has not given up. Otherwise a launching call fails its launch and a
      joining one returns the failure. */
  lemma WaitersNoticeLoss(s: State, c: nat, choice: Choice)
    requires c < |s.calls| && (s.calls[c].Launching? || s.calls[c].Joining?) && !s.calls[c].probing
    ensures var t, pc := Step(s, Go(c, choice)), s.calls[c];
            && t.table == s.table && t.procs == s.procs && |t.calls| == |s.calls|
            && ((t.calls[c].Launching? || t.calls[c].Joining?) && t.calls[c].probing <==>
                pc.model in s.table && !choice.givesUp)
            && (pc.Launching? && !(pc.model in s.table && !choice.givesUp) ==>
                t.calls[c] == SettingError(pc.model, pc.pid))
            && (pc.Joining? && !(pc.model in s.table && !choice.givesUp) ==> t.calls[c] == Done(Failed))
            && (pc.model in s.table && !choice.givesUp ==> t.calls[c] == pc.(probing := true))
  {
    hide Launch;
    hide LookUp;
  }

  /** What the probe's answer decides. */
  lemma ProbeDecides(s: State, c: nat, choice: Choice)
    requires c < |s.calls| && (s.calls[c].Launching? || s.calls[c].Joining?) && s.calls[c].probing
    requires s.calls[c].pid < |s.procs|
    ensures var t, pc := Step(s, Go(c, choice)), s.calls[c];
            && t.table == s.table && |t.calls| == |s.calls| && |t.procs| == |s.procs|
            && (!choice.answers ==> t.procs == s.procs && t.calls[c] == pc.(probing := false))
            && (choice.answers && pc.Joining? ==>
                t.procs == s.procs && t.calls[c] == Done(Returned(s.procs[pc.pid].port)))
            && (choice.answers && pc.Launching? ==>
                t.procs == s.procs[pc.pid := s.procs[pc.pid].(healthy := true)]
                && t.calls[c] == SettingReady(pc.model, pc.pid))
  {
    hide Launch;
    hide LookUp;
  }

  /** Some port of the hundred is neither held by a stranger nor by a process of ours that has
      not exited. */
  ghost predicate PortIsFree(s: State, foreign: set<int>, port: int) {
    && s.base <= port < s.base + 100 && port !in foreign
    && forall p :: 0 <= p < |s.procs| && !s.procs[p].exited ==> s.procs[p].port != port
  }

  lemma HeldExactly(s: State, port: int)
    ensures port in HeldPorts(s.procs) <==>
            exists p :: 0 <= p < |s.procs| && !s.procs[p].exited && s.procs[p].port == port
  {
  }

  lemma LeastFreePort(s: State, choice: Choice)
    ensures match FreePort(s.base, choice.foreign + HeldPorts(s.procs))
            case Some(p) => PortIsFree(s, choice.foreign, p)
                            && forall q :: PortIsFree(s, choice.foreign, q) ==> p <= q
            case None => forall q :: !PortIsFree(s, choice.foreign, q)
  {
    FreePortIsLeast(s.base, choice.foreign + HeldPorts(s.procs));
    forall q
      ensures PortIsFree(s, choice.foreign, q) <==>
              s.base <= q < s.base + PORT_RANGE && q !in choice.foreign + HeldPorts(s.procs)
    {
      HeldExactly(s, q);
    }
    hide FreePort;
    hide HeldPorts;
    hide PortIsFree;
  }

  /** The place of a call that is about to launch its model. */
  ghost predicate AboutToLaunch(s: State, c: nat, m: string) {
    c < |s.calls| && ((s.calls[c].Relock? && s.calls[c].model == m) || (s.calls[c] == EnsureStart(m) && m !in s.table))
  }

  ghost predicate CanLaunch(s: State, choice: Choice) {
    choice.starts && exists port :: PortIsFree(s, choice.foreign, port)
  }

  lemma LaunchTakesLeastPort(s: State, c: nat, m: string, choice: Choice)
    requires AboutToLaunch(s, c, m)
    ensures var port := FreePort(s.base, choice.foreign + HeldPorts(s.procs));
            && (CanLaunch(s, choice) <==> choice.starts && port.Some?)
            && (CanLaunch(s, choice) ==>
                && PortIsFree(s, choice.foreign, port.value)
                && (forall q :: PortIsFree(s, choice.foreign, q) ==> port.value <= q)
                && Step(s, Go(c, choice)) == Launched(s, c, m, port.value))
            && (!CanLaunch(s, choice) ==> Step(s, Go(c, choice)) == At(s, c, Done(Failed)))
  {
    LeastFreePort(s, choice);
    LaunchCases(s, c, m, choice);
    hide Launch;
    hide FreePort;
    hide HeldPorts;
    hide PortIsFree;
    hide Launched;
  }

  /** Launching succeeds exactly if the process starts and a port is free. It takes the least
      free port, makes one loading entry, dated now, for the one new process, and leaves every
      other entry alone; failing, it changes nothing and returns the failure. */
  lemma LaunchExactly(s: State, c: nat, m: string, choice: Choice) returns (port: int)
    requires AboutToLaunch(s, c, m)
    ensures var t := Step(s, Go(c, choice)); var pid := |s.procs|;
            if CanLaunch(s, choice) then
              && PortIsFree(s, choice.foreign, port) && (forall q :: PortIsFree(s, choice.foreign, q) ==> port <= q)
              && |t.procs| == pid + 1 && t.procs[pid] == Proc(m, port, c, false, false, 0, false, Mapped)
              && t.table == s.table[m := Entry(pid, port, Loading, s.now)]
              && t.calls == s.calls[c := Launching(m, pid, false)] && t.now == s.now
            else t == s.(calls := s.calls[c := Done(Failed)])
  {
    LaunchTakesLeastPort(s, c, m, choice);
    var free := FreePort(s.base, choice.foreign + HeldPorts(s.procs));
    port := if free.Some? then free.value else 0;
    hide FreePort;
    hide HeldPorts;
    hide PortIsFree;
    hide CanLaunch;
    hide Step;
  }

  /** A lookup that finds an entry marks it used and changes nothing else. A ready one gives the
      port at once, a loading one is waited for, a failed one is stopped. */
  lemma LookUpExactly(s: State, c: nat, m: string, choice: Choice)
    requires c < |s.calls| && s.calls[c] == EnsureStart(m) && m in s.table
    ensures var t, e := Step(s, Go(c, choice)), s.table[m];
            && t.table == s.table[m := e.(lastUsed := s.now)] && t.procs == s.procs && t.now == s.now
            && t.calls == s.calls[c := if e.state == Ready then Done(Returned(e.port))
                                       else if e.state == Loading then Joining(m, e.pid, false)
                                       else ErrorStop(m)]
  {
    hide Launch;
  }

  /** The call's step number `count`, all by itself. */
  function Alone(s: State, c: nat, choices: seq<Choice>, count: nat): State
    requires count <= |choices|
  {
    if count == 0 then s else Step(Alone(s, c, choices, count - 1), Go(c, choices[count - 1]))
  }

  lemma Twice(s: State, c: nat, choices: seq<Choice>)
    requires |choices| >= 2
    ensures Alone(s, c, choices, 1) == Step(s, Go(c, choices[0]))
    ensures Alone(s, c, choices, 2) == Step(Alone(s, c, choices, 1), Go(c, choices[1]))
  {
    hide Step;
    assert Alone(s, c, choices, 0) == s;
  }

  lemma ThirdTime(s: State, c: nat, choices: seq<Choice>)
    requires |choices| >= 3
    ensures Alone(s, c, choices, 3) == Step(Alone(s, c, choices, 2), Go(c, choices[2]))
  {
    hide Step;
  }

  lemma FourthTime(s: State, c: nat, choices: seq<Choice>)
    requires |choices| >= 4
    ensures Alone(s, c, choices, 4) == Step(Alone(s, c, choices, 3), Go(c, choices[3]))
  {
    hide Step;
  }

  /** An Ensure that launches a model and whose probe is answered returns the port of a ready
      pipeline that has been probed. */
  lemma LoneEnsureSucceeds(s: State, c: nat, m: string, choices: seq<Choice>)
    requires AboutToLaunch(s, c, m) && |choices| >= 4
    requires CanLaunch(s, choices[0]) && !choices[1].givesUp && choices[2].answers
    ensures var t := Alone(s, c, choices, 4); var pid := |s.procs|;
            && |t.calls| == |s.calls| && |t.procs| == pid + 1 && t.procs[pid].healthy && !t.procs[pid].exited
            && t.calls[c] == Done(Returned(t.procs[pid].port)) && ReadyPort(t.table, m) == Some(t.procs[pid].port)
            && Holds(t, m, pid)
  {
    var port := LaunchExactly(s, c, m, choices[0]);
    Twice(s, c, choices);
    ThirdTime(s, c, choices);
    FourthTime(s, c, choices);
    hide Alone;
    hide CanLaunch;
    hide PortIsFree;
    WaitersNoticeLoss(Alone(s, c, choices, 1), c, choices[1]);
    ProbeDecides(Alone(s, c, choices, 2), c, choices[2]);
    SettingReadySets(Alone(s, c, choices, 3), c, choices[3]);
    hide Step;
  }

  /** setState(m, Ready) by a launching call, which then returns its own port. */
  lemma SettingReadySets(s: State, c: nat, choice: Choice)
    requires c < |s.calls| && s.calls[c].SettingReady? && s.calls[c].pid < |s.procs|
    ensures var t, m := Step(s, Go(c, choice)), s.calls[c].model;
            && t.table == (if m in s.table then s.table[m := s.table[m].(state := Ready)] else s.table)
            && t.procs == s.procs && t.calls == s.calls[c := Done(Returned(s.procs[s.calls[c].pid].port))]
  {
    hide Launch;
    hide LookUp;
  }

  /** setError(m) by a launching call. */
  lemma SettingErrorSets(s: State, c: nat, choice: Choice)
    requires c < |s.calls| && s.calls[c].SettingError?
    ensures var t, m := Step(s, Go(c, choice)), s.calls[c].model;
            && t.table == (if m in s.table then s.table[m := s.table[m].(state := Error)] else s.table)
            && t.procs == s.procs && t.calls == s.calls[c := FailStop(m)]
  {
    hide Launch;
    hide LookUp;
  }

  /** Stopping a model takes exactly its entry out and goes on to kill its process; if it has
      no entry, nothing changes and there is nothing to kill. */
  lemma StoppingStops(s: State, c: nat, choice: Choice)
    requires EntriesAreMapped(s) && c < |s.calls| && (s.calls[c].FailStop? || s.calls[c].ErrorStop?)
    ensures var t, pc := Step(s, Go(c, choice)), s.calls[c];
            && t.table == s.table - {pc.model} && |t.calls| == |s.calls| && |t.procs| == |s.procs|
            && (pc.model in s.table ==>
                && t.calls[c] == (if pc.FailStop? then FailKill(s.table[pc.model].pid)
                                  else ErrorKill(pc.model, s.table[pc.model].pid, |s.procs|))
                && t.procs == s.procs[s.table[pc.model].pid := s.procs[s.table[pc.model].pid].(fate := Stopped)])
            && (pc.model !in s.table ==>
                && t.calls[c] == (if pc.FailStop? then Done(Failed) else Relock(pc.model, |s.procs|))
                && t.procs == s.procs)
  {
    if s.calls[c].model in s.table {
      assert EntryIsMapped(s, s.calls[c].model);
    }
    hide EntriesAreMapped;
    hide Launch;
    hide LookUp;
  }

  lemma KillingKills(s: State, c: nat, choice: Choice)
    requires c < |s.calls| && (s.calls[c].FailKill? || s.calls[c].ErrorKill?) && s.calls[c].victim < |s.procs|
    ensures var t, pc := Step(s, Go(c, choice)), s.calls[c];
            && t.table == s.table
            && t.procs == s.procs[pc.victim := s.procs[pc.victim].(kills := s.procs[pc.victim].kills + 1)]
            && t.calls == s.calls[c := if pc.FailKill? then Done(Failed) else Relock(pc.model, pc.since)]
  {
    hide Launch;
    hide LookUp;
  }

  /** A failed launch, left alone, marks the entry failed, takes it out, kills its process and
      returns the failure. */
  lemma FailedLaunchCleansUp(s: State, c: nat, choices: seq<Choice>)
    requires EntriesAreMapped(s) && c < |s.calls| && s.calls[c].SettingError? && s.calls[c].model in s.table
    requires |choices| >= 3
    ensures var m := s.calls[c].model; var failed, t := Alone(s, c, choices, 1), Alone(s, c, choices, 3);
            && failed.table == s.table[m := s.table[m].(state := Error)]
            && t.table == s.table - {m} && |t.calls| == |s.calls| && t.calls[c] == Done(Failed)
            && var pid := s.table[m].pid;
               && pid < |s.procs|
               && t.procs == s.procs[pid := s.procs[pid].(fate := Stopped, kills := s.procs[pid].kills + 1)]
  {
    var m := s.calls[c].model;
    Twice(s, c, choices);
    ThirdTime(s, c, choices);
    hide Alone;
    assert EntryIsMapped(s, m);
    var s1, s2 := Alone(s, c, choices, 1), Alone(s, c, choices, 2);
    SettingErrorSets(s, c, choices[0]);
    ErrorKeepsEntries(s, m, s1);
    StoppingStops(s1, c, choices[1]);
    KillingKills(s2, c, choices[2]);
    hide Step;
    assert s1.table - {m} == s.table - {m};
  }

  lemma ErrorKeepsEntries(s: State, m: string, t: State)
    requires EntriesAreMapped(s) && m in s.table
    requires t.table == s.table[m := s.table[m].(state := Error)] && t.procs == s.procs
    ensures EntriesAreMapped(t)
  {
    forall n | n in t.table
      ensures EntryIsMapped(t, n)
    {
      assert EntryIsMapped(s, n);
    }
  }

  /** Ensure on a failed model, left alone, takes the failed entry out, kills its process and
      puts a new loading one in its place, if a port is free and the process starts. */
  lemma RelaunchReplaces(s: State, c: nat, choices: seq<Choice>) returns (port: int)
    requires EntriesAreMapped(s) && c < |s.calls| && s.calls[c].ErrorStop? && s.calls[c].model in s.table
    requires |choices| >= 3 && CanLaunch(Alone(s, c, choices, 2), choices[2])
    ensures var m, former := s.calls[c].model, s.table[s.calls[c].model].pid;
            var t := Alone(s, c, choices, 3); var pid := |s.procs|;
            && former < pid && |t.procs| == pid + 1 && t.procs[former].kills == s.procs[former].kills + 1
            && t.procs[former].fate == Stopped && t.procs[pid] == Proc(m, port, c, false, false, 0, false, Mapped)
            && t.table == s.table[m := Entry(pid, port, Loading, Alone(s, c, choices, 2).now)]
            && t.calls == s.calls[c := Launching(m, pid, false)]
  {
    var m := s.calls[c].model;
    Twice(s, c, choices);
    ThirdTime(s, c, choices);
    assert EntryIsMapped(s, m);
    var s1, s2 := Alone(s, c, choices, 1), Alone(s, c, choices, 2);
    hide Alone;
    hide CanLaunch;
    hide PortIsFree;
    StoppingStops(s, c, choices[0]);
    OthersStay(s, c, choices[0]);
    KillingKills(s1, c, choices[1]);
    LaunchTakesLeastPort(s2, c, m, choices[2]);
    port := FreePort(s2.base, choices[2].foreign + HeldPorts(s2.procs)).value;
    hide Step;
    hide FreePort;
    hide HeldPorts;
    assert (s.table - {m})[m := Entry(|s.procs|, port, Loading, s2.now)]
        == s.table[m := Entry(|s.procs|, port, Loading, s2.now)];
  }

  lemma OthersStay(s: State, c: nat, choice: Choice)
    requires c < |s.calls| && s.calls[c].ErrorStop?
    ensures var t := Step(s, Go(c, choice)); |t.calls| == |s.calls| && t.calls == s.calls[c := t.calls[c]]
  {
    hide Launch;
    hide LookUp;
  }

  /** A process that exits is reaped: its own entry goes, unless it is in state Error; no other
      entry and no other process changes. */
  lemma CrashIsReaped(s: State, m: string)
    requires EntriesAreMapped(s) && m in s.table && s.table[m].pid < |s.procs| && !s.procs[s.table[m].pid].reaped
    ensures var pid := s.table[m].pid; var t := Step(Step(s, Exit(pid)), Reap(pid)); var p := s.procs[pid];
            && t.calls == s.calls && t.now == s.now
            && t.table == (if s.table[m].state == Error then s.table else s.table - {m})
            && t.procs == s.procs[pid := p.(exited := true, reaped := true,
                                            fate := if s.table[m].state == Error then p.fate else ReapedOut)]
  {
    assert EntryIsMapped(s, m);
    hide EntriesAreMapped;
    hide GoOn;
  }
}
