/** The pipeline table of internal/split/pipeline.go and what each critical section of the
    manager does to it. */
module PipelineTable {
  import opened Nodes
  import opened Sorting

  datatype Lifecycle = Loading | Ready | Error

  /** What the table holds for a model: which process serves it, on which port. */
  datatype Entry = Entry(pid: nat, port: int, state: Lifecycle, lastUsed: int)

  type Table = map<string, Entry>

  const IDLE_TIMEOUT := 600 * SECOND

  /** freePort looks at this many ports. */
  const PORT_RANGE := 100

  function WithState(t: Table, model: string, s: Lifecycle): Table {
    if model in t then t[model := t[model].(state := s)] else t
  }

  function Touched(t: Table, model: string, now: int): Table {
    if model in t then t[model := t[model].(lastUsed := now)] else t
  }

  /** What the reaper of a process leaves: it removes its own entry, by identity, unless the
      entry is in state Error. */
  function AfterReaper(t: Table, model: string, pid: nat): Table {
    if model in t && t[model].pid == pid && t[model].state != Error then t - {model} else t
  }

  predicate IsIdle(e: Entry, now: int) {
    e.state == Ready && now - e.lastUsed > IDLE_TIMEOUT
  }

  function Idle(t: Table, now: int): set<string> {
    set m | m in t && IsIdle(t[m], now)
  }

  /** Port: the port of a ready pipeline. */
  function ReadyPort(t: Table, model: string): Option<int> {
    if model in t && t[model].state == Ready then Some(t[model].port) else None
  }

  /** p is the least free port of the range; None if all are taken. */
  ghost predicate IsFreePort(r: Option<int>, base: int, taken: set<int>) {
    match r
    case Some(p) => base <= p < base + 100 && p !in taken && forall q :: base <= q < p ==> q in taken
    case None => forall q :: base <= q < base + 100 ==> q in taken
  }

  function FirstFree(p: int, limit: int, taken: set<int>): Option<int>
    decreases limit - p
  {
    if p >= limit then None else if p !in taken then Some(p) else FirstFree(p + 1, limit, taken)
  }

  /** freePort: listening on a port succeeds exactly if nobody holds it. */
  function FreePort(base: int, taken: set<int>): (r: Option<int>)
  {
    FirstFree(base, base + PORT_RANGE, taken)
  }

  lemma {:induction false} FirstFreeIsLeast(p: int, limit: int, taken: set<int>)
    requires p <= limit
    ensures match FirstFree(p, limit, taken)
            case Some(r) => p <= r < limit && r !in taken && forall q :: p <= q < r ==> q in taken
            case None => forall q :: p <= q < limit ==> q in taken
    decreases limit - p
  {
    if p < limit && p in taken {
      FirstFreeIsLeast(p + 1, limit, taken);
    }
  }

  /** freePort returns the least free port of its range, and fails exactly if there is none. */
  lemma FreePortIsLeast(base: int, taken: set<int>)
    ensures IsFreePort(FreePort(base, taken), base, taken)
  {
    FirstFreeIsLeast(base, base + PORT_RANGE, taken);
  }

  /** The victims are the processes of the models stopped so far. */
  ghost predicate VictimsOf(victims: seq<nat>, t: Table, stopped: set<string>) {
    forall v :: v in victims <==> exists m :: m in t && m in stopped && t[m].pid == v
  }

  lemma OneMoreVictim(victims: seq<nat>, t: Table, stopped: set<string>, m: string)
    requires VictimsOf(victims, t, stopped) && m in t && m !in stopped
    ensures m in t - stopped && (t - stopped)[m] == t[m]
    ensures (t - stopped) - {m} == t - (stopped + {m})
    ensures VictimsOf(victims + [t[m].pid], t, stopped + {m})
  {
    forall v
      ensures v in victims + [t[m].pid] <==> exists n :: n in t && n in stopped + {m} && t[n].pid == v
    {
      assert v in victims + [t[m].pid] <==> v in victims || v == t[m].pid;
    }
  }

  /** One running llama-server. */
  class Pipeline {
    const model: string
    const pid: nat
    const port: int
    var state: Lifecycle
    var lastUsed: int

    constructor (model: string, pid: nat, port: int, now: int)
      ensures this.model == model && this.pid == pid && this.port == port
      ensures state == Loading && lastUsed == now
    {
      this.model, this.pid, this.port := model, pid, port;
      state, lastUsed := Loading, now;
    }

    function View(): Entry
      reads this
    {
      Entry(pid, port, state, lastUsed)
    }
  }

  datatype LookupResult = Missing | Found(state: Lifecycle, port: int)

  /** The manager; each method is one critical section under its mutex. */
  class Manager {
    const basePort: int
    var pipelines: map<string, Pipeline>

    /** Entries of different models are different objects. */
    ghost predicate Valid()
      reads this, pipelines.Values
    {
      forall m :: m in pipelines ==> pipelines[m].model == m
    }

    ghost function View(): Table
      reads this, pipelines.Values
    {
      map m | m in pipelines :: pipelines[m].View()
    }

    constructor (basePort: int)
      ensures Valid() && View() == map[] && this.basePort == basePort
    {
      this.basePort := basePort;
      pipelines := map[];
    }

    /** The first section of Ensure, up to the state switch. */
    method Lookup(model: string, now: int) returns (r: LookupResult)
      requires Valid()
      modifies pipelines.Values
      ensures Valid() && View() == Touched(old(View()), model, now)
      ensures r == if model in old(View()) then Found(old(View())[model].state, old(View())[model].port) else Missing
    {
      if model in pipelines {
        var p := pipelines[model];
        r := Found(p.state, p.port);
        p.lastUsed := now;
      } else {
        r := Missing;
      }
    }

    /** freePort's scan; `taken` are the ports on which listening fails. */
    method ScanPorts(taken: set<int>) returns (r: Option<int>)
      ensures r == FreePort(basePort, taken)
    {
      for p := basePort to basePort + PORT_RANGE
        invariant FreePort(basePort, taken) == FirstFree(p, basePort + PORT_RANGE, taken)
      {
        if p !in taken {
          return Some(p);
        }
      }
      r := None;
    }

    /** The launching section of Ensure: whatever was in the table under the name is replaced.
        `pid` is the process that starts, if one does. */
    method Launch(model: string, taken: set<int>, pid: Option<nat>, now: int) returns (port: Option<int>)
      requires Valid()
      modifies this
      ensures Valid()
      ensures var free := FreePort(basePort, taken);
              && port == (if pid.Some? then free else None)
              && View() == if pid.Some? && free.Some?
                           then old(View())[model := Entry(pid.value, free.value, Loading, now)] else old(View())
    {
      var free := ScanPorts(taken);
      if free.None? || pid.None? {
        return None;
      }
      var p := new Pipeline(model, pid.value, free.value, now);
      pipelines := pipelines[model := p];
      port := free;
    }

    /** The reaper's section for the object p. */
    method ReapSection(p: Pipeline)
      requires Valid()
      requires forall m :: m in pipelines && pipelines[m].pid == p.pid ==> pipelines[m] == p
      modifies this
      ensures Valid() && View() == AfterReaper(old(View()), p.model, p.pid)
    {
      if p.model in pipelines && pipelines[p.model] == p {
        if p.state != Error {
          pipelines := pipelines - {p.model};
        }
      }
    }

    method Touch(model: string, now: int)
      requires Valid()
      modifies pipelines.Values
      ensures Valid() && View() == Touched(old(View()), model, now)
    {
      if model in pipelines {
        pipelines[model].lastUsed := now;
      }
    }

    method Port(model: string) returns (r: Option<int>)
      requires Valid()
      ensures r == ReadyPort(View(), model)
    {
      if model !in pipelines || pipelines[model].state != Ready {
        return None;
      }
      r := Some(pipelines[model].port);
    }

    method Alive(model: string) returns (b: bool)
      requires Valid()
      ensures b <==> model in View()
    {
      b := model in pipelines;
    }

    method SetState(model: string, s: Lifecycle)
      requires Valid()
      modifies pipelines.Values
      ensures Valid() && View() == WithState(old(View()), model, s)
    {
      if model in pipelines {
        pipelines[model].state := s;
      }
    }

    /** stop's section; the process it returns is killed after the lock is released. */
    method Stop(model: string) returns (victim: Option<nat>)
      requires Valid()
      modifies this
      ensures Valid() && View() == old(View()) - {model}
      ensures victim == if model in old(View()) then Some(old(View())[model].pid) else None
    {
      if model in pipelines {
        victim := Some(pipelines[model].pid);
        pipelines := pipelines - {model};
      } else {
        victim := None;
      }
    }

    /** The list gcLoop takes under the lock, in any order. */
    method CollectIdle(now: int) returns (idle: seq<string>)
      requires Valid()
      ensures Distinct(idle)
      ensures forall m :: m in idle <==>
                m in View() && View()[m].state == Ready && now - View()[m].lastUsed > 600 * SECOND
      ensures forall m :: m in idle <==> m in Idle(View(), now)
    {
      idle := [];
      var rest := pipelines.Keys;
      while rest != {}
        invariant rest <= pipelines.Keys && Distinct(idle)
        invariant forall m :: m in idle <==> m in Idle(View(), now) && m !in rest
        decreases rest
      {
        var m :| m in rest;
        rest := rest - {m};
        if pipelines[m].state == Ready && now - pipelines[m].lastUsed > IDLE_TIMEOUT {
          idle := idle + [m];
        }
      }
    }

    /** StopAll when nothing else runs: every pipeline is stopped once. */
    method StopAll() returns (victims: seq<nat>)
      requires Valid()
      modifies this
      ensures Valid() && View() == map[]
      ensures |victims| == |old(View())|
      ensures VictimsOf(victims, old(View()), old(View()).Keys)
    {
      victims := [];
      var rest := pipelines.Keys;
      ghost var before, stopped := View(), {};
      assert before.Keys == rest;
      assert before - stopped == before;
      hide View;
      hide Valid;
      hide VictimsOf;
      while rest != {}
        invariant Valid() && View() == before - stopped
        invariant stopped <= before.Keys && rest == before.Keys - stopped && |victims| + |rest| == |before|
        invariant VictimsOf(victims, before, stopped)
        decreases rest
      {
        var m :| m in rest;
        OneMoreVictim(victims, before, stopped, m);
        var victim := Stop(m);
        victims := victims + [victim.value];
        stopped := stopped + {m};
        rest := rest - {m};
      }
      assert stopped == before.Keys;
      assert before - before.Keys == map[];
    }
  }
}
