/** The node view of internal/registry/registry.go: what the pool knows about one node,
    reduced to the fields that routing, planning and pruning read. */
module Nodes {
  import opened Sizing

  datatype Option<+T> = None | Some(value: T)

  datatype Model = Model(name: string, size: uint64)

  datatype NodeState = NodeState(
    id: string,
    name: string,
    sharing: bool,
    ollamaOK: bool,
    memAvailable: uint64,
    models: seq<Model>,
    loaded: seq<string>,
    active: int,
    worker: bool,
    driver: bool,
    updatedAt: int,
    self: bool)
  {
    predicate HasModel(name: string) {
      exists m :: m in models && SameModel(m.name, name)
    }

    predicate HasLoaded(name: string) {
      exists l :: l in loaded && SameModel(l, name)
    }
  }

  /** Ollama treats "llama3.2" and "llama3.2:latest" as the same model. */
  predicate SameModel(a: string, b: string) {
    a == b || a == b + ":latest" || a + ":latest" == b
  }

  predicate DistinctIds(nodes: seq<NodeState>) {
    forall i, j :: 0 <= i < j < |nodes| ==> nodes[i].id != nodes[j].id
  }

  predicate DistinctNames(nodes: seq<NodeState>) {
    forall i, j :: 0 <= i < j < |nodes| ==> nodes[i].name != nodes[j].name
  }

  /** Times are nanoseconds, as in Go's time.Duration. */
  const SECOND := 1_000_000_000

  /** StaleAfter of internal/scheduler/scheduler.go */
  const STALE_AFTER := 20 * SECOND

  /** Whether the scheduler may use a node at time `now`. */
  predicate Eligible(n: NodeState, now: int) {
    n.sharing && n.ollamaOK && now - n.updatedAt < STALE_AFTER
  }
}
