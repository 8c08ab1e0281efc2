/** The agent's timed loops over the registry (internal/agent/agent.go): refreshSelf,
    pollPeers and the prune loop, as one run of events under the local clock. */
module Freshness {
  import opened Nodes
  import opened Registries
  import opened Pruning

  /** What one peer answered to a poll, and when it was stored. */
  datatype Answer = Unreachable | Reached(state: NodeState, at: int)

  /** pollPeers trusts neither the peer's idea of being itself nor its clock. */
  function Received(a: Answer): NodeState
    requires a.Reached?
  {
    a.state.(self := false, updatedAt := a.at)
  }

  predicate Answered(answers: map<string, Answer>, selfId: string, t: string) {
    t != selfId && t in answers && answers[t].Reached?
  }

  /** An entry after polling some targets: as before if none of them reported its ID, else
      what one of those that did answered. */
  ghost predicate Explained(before: map<string, NodeState>, after: map<string, NodeState>, polled: set<string>,
                            answers: map<string, Answer>, selfId: string, id: string)
    requires id in after
  {
    || (id in before && after[id] == before[id]
        && forall t :: t in polled && Answered(answers, selfId, t) ==> answers[t].state.id != id)
    || exists t :: t in polled && Answered(answers, selfId, t) && answers[t].state.id == id
                   && after[id] == Received(answers[t])
  }

  ghost predicate Polled(before: map<string, NodeState>, after: map<string, NodeState>, polled: set<string>,
                         answers: map<string, Answer>, selfId: string) {
    && (forall id :: id in before ==> id in after)
    && (forall t :: t in polled && Answered(answers, selfId, t) ==> answers[t].state.id in after)
    && (forall id :: id in after ==> Explained(before, after, polled, answers, selfId, id))
  }

  lemma PolledOneMore(before: map<string, NodeState>, after: map<string, NodeState>, polled: set<string>,
                      answers: map<string, Answer>, selfId: string, t: string)
    requires Polled(before, after, polled, answers, selfId)
    ensures !Answered(answers, selfId, t) ==> Polled(before, after, polled + {t}, answers, selfId)
    ensures Answered(answers, selfId, t) ==>
              Polled(before, after[answers[t].state.id := Received(answers[t])], polled + {t}, answers, selfId)
  {
    var next := if Answered(answers, selfId, t) then after[answers[t].state.id := Received(answers[t])] else after;
    forall id | id in next
      ensures Explained(before, next, polled + {t}, answers, selfId, id)
    {
      if !(Answered(answers, selfId, t) && id == answers[t].state.id) {
        assert Explained(before, after, polled, answers, selfId, id);
      }
    }
  }

  /** What polling changes, on the fields: an entry is as before, and then no polled peer other
      than this node has reported its ID, or it is what such a peer answered, marked not self
      and stamped locally; and nobody who answered is left out. */
  lemma PollChangesExactly(before: map<string, NodeState>, after: map<string, NodeState>, polled: set<string>,
                           answers: map<string, Answer>, selfId: string, id: string)
    requires Polled(before, after, polled, answers, selfId) && polled <= answers.Keys
    ensures id in after <==>
            id in before || exists t :: t in polled && t != selfId && answers[t].Reached? && answers[t].state.id == id
    ensures id in after ==>
            if exists t :: t in polled && t != selfId && answers[t].Reached? && answers[t].state.id == id then
              exists t :: t in polled && t != selfId && answers[t].Reached? && answers[t].state.id == id
                          && after[id] == answers[t].state.(self := false, updatedAt := answers[t].at)
            else after[id] == before[id]
  {
    if id in after {
      assert Explained(before, after, polled, answers, selfId, id);
    }
    if t :| t in polled && t != selfId && answers[t].Reached? && answers[t].state.id == id {
      assert Answered(answers, selfId, t);
    }
    assert forall t :: t in polled && Answered(answers, selfId, t) ==> t != selfId && answers[t].Reached?;
  }

  /** pollPeers: one pass over the known peers, in any order, skipping this node and the peers
      that do not answer. */
  method PollPeers(reg: Registry, selfId: string, targets: set<string>, answers: map<string, Answer>)
    requires targets <= answers.Keys
    modifies reg
    ensures Polled(old(reg.nodes), reg.nodes, targets, answers, selfId)
  {
    var rest := targets;
    while rest != {}
      invariant rest <= targets
      invariant Polled(old(reg.nodes), reg.nodes, targets - rest, answers, selfId)
      decreases rest
    {
      var id :| id in rest;
      PolledOneMore(old(reg.nodes), reg.nodes, targets - rest, answers, selfId, id);
      assert targets - (rest - {id}) == (targets - rest) + {id};
      rest := rest - {id};
      if id == selfId {
        continue;
      }
      match answers[id]
      case Unreachable =>
      case Reached(st, at) =>
        reg.Upsert(st.(self := false), at);
    }
    assert targets - rest == targets;
  }

  /** Refresh is refreshSelf's upsert, Poll one peer's, each stamped with the local clock. */
  datatype Event =
    | Advance(elapsed: nat)
    | Refresh(state: NodeState)
    | Poll(state: NodeState)
    | Prune

  datatype State = State(now: int, nodes: map<string, NodeState>, lastPrune: int)

  function Step(s: State, e: Event): State {
    match e
    case Advance(elapsed) => s.(now := s.now + elapsed)
    case Refresh(n) => s.(nodes := Upserted(s.nodes, n, s.now))
    case Poll(n) => s.(nodes := Upserted(s.nodes, n.(self := false), s.now))
    case Prune => s.(nodes := Pruned(s.nodes, s.now - PRUNE_TTL), lastPrune := s.now)
  }

  /** The state after the first k events of a run that starts with an empty registry. */
  function StateAt(start: int, run: seq<Event>, k: nat): State
    requires k <= |run|
  {
    if k == 0 then State(start, map[], start) else Step(StateAt(start, run, k - 1), run[k - 1])
  }

  /** Node IDs are unique: this node refreshes under its own, and no peer reports it. */
  ghost predicate OwnIds(run: seq<Event>, selfId: string) {
    forall i :: 0 <= i < |run| ==>
      (run[i].Refresh? ==> run[i].state.id == selfId && run[i].state.self)
      && (run[i].Poll? ==> run[i].state.id != selfId)
  }

  /** Prune ticks come at most five seconds apart. */
  ghost predicate PunctualUpTo(start: int, run: seq<Event>, k: nat)
    requires k <= |run|
  {
    forall i :: 0 <= i <= k ==> StateAt(start, run, i).now <= StateAt(start, run, i).lastPrune + 5 * SECOND
  }

  predicate Upserts(e: Event, id: string) {
    (e.Refresh? || e.Poll?) && e.state.id == id
  }

  /** Event i is the last among the first k that stores a state for id. */
  ghost predicate LastUpsert(run: seq<Event>, k: nat, id: string, i: nat)
    requires k <= |run|
  {
    i < k && Upserts(run[i], id) && forall j :: i < j < k ==> !Upserts(run[j], id)
  }

  lemma {:induction false} ClockIsMonotone(start: int, run: seq<Event>, i: nat, k: nat)
    requires i <= k <= |run|
    ensures StateAt(start, run, i).now <= StateAt(start, run, k).now
    ensures StateAt(start, run, i).lastPrune <= StateAt(start, run, k).lastPrune <= StateAt(start, run, k).now
  {
    if k > i {
      ClockIsMonotone(start, run, i, k - 1);
    } else if k > 0 {
      ClockIsMonotone(start, run, k - 1, k - 1);
    }
  }

  /** Every entry is what the last upsert of its ID stored, stamped with the clock of then. */
  lemma {:induction false} EntryIsLastUpsert(start: int, run: seq<Event>, k: nat, id: string) returns (i: nat)
    requires k <= |run| && id in StateAt(start, run, k).nodes
    ensures LastUpsert(run, k, id, i)
    ensures StateAt(start, run, k).nodes[id]
         == run[i].state.(self := run[i].Refresh? && run[i].state.self, updatedAt := StateAt(start, run, i).now)
  {
    if Upserts(run[k - 1], id) {
      i := k - 1;
    } else {
      i := EntryIsLastUpsert(start, run, k - 1, id);
    }
  }

  /** Whole-run freshness: whatever the scheduler may use at any point of any run was stored
      less than 20 seconds of the local clock before, by the last upsert of its ID. */
  lemma UsedNodesAreFresh(start: int, run: seq<Event>, k: nat, id: string) returns (i: nat)
    requires k <= |run|
    requires id in StateAt(start, run, k).nodes
    requires Eligible(StateAt(start, run, k).nodes[id], StateAt(start, run, k).now)
    ensures LastUpsert(run, k, id, i)
    ensures StateAt(start, run, k).nodes[id].updatedAt == StateAt(start, run, i).now
    ensures StateAt(start, run, i).now > StateAt(start, run, k).now - 20 * SECOND
  {
    i := EntryIsLastUpsert(start, run, k, id);
  }

  /** A peer last reached at time u is not used from u + 20 s on. */
  lemma SilentPeerIsNotUsed(start: int, run: seq<Event>, k: nat, id: string, i: nat)
    requires k <= |run| && LastUpsert(run, k, id, i)
    requires StateAt(start, run, k).now >= StateAt(start, run, i).now + 20 * SECOND
    ensures id in StateAt(start, run, k).nodes ==>
              !Eligible(StateAt(start, run, k).nodes[id], StateAt(start, run, k).now)
  {
    if id in StateAt(start, run, k).nodes {
      var j := EntryIsLastUpsert(start, run, k, id);
      assert j == i;
    }
  }

  /** No peer's entry is older than the last prune allows. */
  lemma {:induction false} PeersOutliveLastPruneByTtl(start: int, run: seq<Event>, k: nat, selfId: string, id: string)
    requires k <= |run| && OwnIds(run, selfId) && id != selfId
    requires id in StateAt(start, run, k).nodes
    ensures !StateAt(start, run, k).nodes[id].self
    ensures StateAt(start, run, k).nodes[id].updatedAt >= StateAt(start, run, k).lastPrune - 40 * SECOND
  {
    if Upserts(run[k - 1], id) {
      ClockIsMonotone(start, run, k - 1, k - 1);
    } else {
      PeersOutliveLastPruneByTtl(start, run, k - 1, selfId, id);
    }
  }

  /** A peer last reached at time u is gone after u + 45 s, if prune ticks are punctual. */
  lemma SilentPeerIsForgotten(start: int, run: seq<Event>, k: nat, selfId: string, id: string, i: nat)
    requires k <= |run| && OwnIds(run, selfId) && PunctualUpTo(start, run, k)
    requires id != selfId && LastUpsert(run, k, id, i)
    requires StateAt(start, run, k).now > StateAt(start, run, i).now + 45 * SECOND
    ensures id !in StateAt(start, run, k).nodes
  {
    if id in StateAt(start, run, k).nodes {
      var j := EntryIsLastUpsert(start, run, k, id);
      assert j == i;
      PeersOutliveLastPruneByTtl(start, run, k, selfId, id);
    }
  }

  /** A peer heard from within the last 40 seconds is never pruned. */
  lemma {:induction false} HeardPeerIsKept(start: int, run: seq<Event>, k: nat, id: string, i: nat)
    requires k <= |run| && LastUpsert(run, k, id, i)
    requires StateAt(start, run, k).now <= StateAt(start, run, i).now + 40 * SECOND
    ensures id in StateAt(start, run, k).nodes
  {
    if k > i + 1 {
      ClockIsMonotone(start, run, k - 1, k);
      HeardPeerIsKept(start, run, k - 1, id, i);
      var j := EntryIsLastUpsert(start, run, k - 1, id);
      assert j == i;
    }
  }

  /** The self entry is there from the first refresh on: it is never pruned. */
  lemma {:induction false} SelfIsNeverPruned(start: int, run: seq<Event>, k: nat, selfId: string, i: nat)
    requires i < k <= |run| && OwnIds(run, selfId) && run[i].Refresh?
    ensures selfId in StateAt(start, run, k).nodes && StateAt(start, run, k).nodes[selfId].self
  {
    if k > i + 1 {
      SelfIsNeverPruned(start, run, k - 1, selfId, i);
    }
  }
}
