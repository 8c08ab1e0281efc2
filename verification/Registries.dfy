/** The registry of internal/registry/registry.go: node ID to last-known state. Every method
    runs under the registry's lock, so each is one step; clock readings are arguments. */
module Registries {
  import opened Nodes
  import opened Sorting
  import Text

  ghost predicate KeyedById(nodes: map<string, NodeState>) {
    forall id :: id in nodes ==> nodes[id].id == id
  }

  /** The map after storing the latest state of a node. */
  function Upserted(nodes: map<string, NodeState>, s: NodeState, now: int): map<string, NodeState> {
    nodes[s.id := s.(updatedAt := now)]
  }

  /** What survives pruning: this node itself, and whatever is not older than the cutoff. */
  predicate Kept(n: NodeState, cutoff: int) {
    n.self || n.updatedAt >= cutoff
  }

  function Pruned(nodes: map<string, NodeState>, cutoff: int): map<string, NodeState> {
    map id | id in nodes && Kept(nodes[id], cutoff) :: nodes[id]
  }

  const SELF_FIRST: (NodeState, NodeState) -> bool :=
    (a: NodeState, b: NodeState) => if a.self != b.self then a.self else Text.Less(a.name, b.name)

  lemma SelfFirstIsOrder()
    ensures StrictWeakOrder(SELF_FIRST)
    ensures forall a, b :: Tied(a, b, SELF_FIRST) ==> a.name == b.name
  {
    Text.LessIsOrder();
    forall a, b | SELF_FIRST(a, b)
      ensures !SELF_FIRST(b, a)
    {
      if a.self == b.self {
        Text.Asymmetric(a.name, b.name);
      }
    }
    forall a, b, c
      ensures Separates(a, b, c, SELF_FIRST)
    {
      assert Separates(a.name, b.name, c.name, Text.LESS_THAN);
    }
    forall a, b | Tied(a, b, SELF_FIRST)
      ensures a.name == b.name
    {
      assert Tied(a.name, b.name, Text.LESS_THAN);
    }
  }

  /** s lists every entry of the registry once, self first and then by name. */
  ghost predicate SnapshotOf(s: seq<NodeState>, nodes: map<string, NodeState>) {
    && Sorted(s, SELF_FIRST)
    && Distinct(s)
    && forall n :: n in s <==> n.id in nodes && nodes[n.id] == n
  }

  class Registry {
    var nodes: map<string, NodeState>

    constructor ()
      ensures nodes == map[]
    {
      nodes := map[];
    }

    method Upsert(s: NodeState, now: int)
      modifies this
      ensures nodes == Upserted(old(nodes), s, now)
      ensures old(KeyedById(nodes)) ==> KeyedById(nodes)
    {
      nodes := nodes[s.id := s.(updatedAt := now)];
    }

    method Touch(id: string, now: int)
      modifies this
      ensures nodes == if id in old(nodes) then old(nodes)[id := old(nodes)[id].(updatedAt := now)] else old(nodes)
    {
      if id in nodes {
        nodes := nodes[id := nodes[id].(updatedAt := now)];
      }
    }

    method Remove(id: string)
      modifies this
      ensures nodes == old(nodes) - {id}
    {
      nodes := nodes - {id};
    }

    /** Removes the stale entries while ranging over the map, in any order. */
    method Prune(ttl: nat, now: int) returns (removed: seq<string>)
      modifies this
      ensures nodes == Pruned(old(nodes), now - ttl)
      ensures old(KeyedById(nodes)) ==> KeyedById(nodes)
      ensures Distinct(removed)
      ensures forall id :: id in removed <==> id in old(nodes) && !Kept(old(nodes)[id], now - ttl)
    {
      removed := [];
      var cutoff := now - ttl;
      ghost var before := nodes;
      var rest := nodes.Keys;
      while rest != {}
        invariant rest <= nodes.Keys && before == old(nodes)
        invariant nodes == map id | id in before && (id in rest || Kept(before[id], cutoff)) :: before[id]
        invariant Distinct(removed)
        invariant forall id :: id in removed <==> id in before && id !in rest && !Kept(before[id], cutoff)
        decreases rest
      {
        var id :| id in rest;
        rest := rest - {id};
        var n := nodes[id];
        if !n.self && n.updatedAt < cutoff {
          nodes := nodes - {id};
          removed := removed + [id];
        }
      }
    }

    method Snapshot() returns (out: seq<NodeState>)
      requires KeyedById(nodes)
      ensures SnapshotOf(out, nodes)
    {
      var unsorted: seq<NodeState> := [];
      var rest := nodes.Keys;
      while rest != {}
        invariant rest <= nodes.Keys
        invariant Distinct(unsorted)
        invariant forall n :: n in unsorted <==> n.id in nodes && n.id !in rest && nodes[n.id] == n
        decreases rest
      {
        var id :| id in rest;
        unsorted := unsorted + [nodes[id]];
        rest := rest - {id};
      }
      SelfFirstIsOrder();
      out := SortSlice(unsorted, SELF_FIRST);
      DistinctSelection(out, unsorted);
      SameMembers(out, unsorted);
    }

    method Get(id: string) returns (r: Option<NodeState>)
      ensures r == if id in nodes then Some(nodes[id]) else None
    {
      r := if id in nodes then Some(nodes[id]) else None;
    }
  }

  /** A snapshot determines its IDs: no node appears under two. */
  lemma SnapshotIds(s: seq<NodeState>, nodes: map<string, NodeState>)
    requires SnapshotOf(s, nodes)
    ensures DistinctIds(s)
  {
    forall i, j | 0 <= i < j < |s|
      ensures s[i].id != s[j].id
    {
      assert s[i] in s && s[j] in s;
    }
  }
}
