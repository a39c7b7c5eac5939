/**
  Projections of the bipartite graph classes `BipartiteGraph` and
  `BipartiteDiGraph`: a one-mode graph in which two nodes are linked through
  each node of the other population that joins them.
*/
module Projections {
  import opened Wrappers
  import opened Graphs

  /** `self.adj[n]` of an undirected graph: the nodes sharing an edge with n (n itself if it has a self-loop). */
  function Neighbours(nodes: set<Node>, edges: multiset<Edge>, n: Node): set<Node>
  {
    set x | x in nodes && Canonical(n, x) in edges
  }

  /** `self.pred[n]` of a directed graph. */
  function Predecessors(nodes: set<Node>, edges: multiset<Edge>, n: Node): set<Node>
  {
    set u | u in nodes && (u, n) in edges
  }

  /** `self.succ[n]` of a directed graph. */
  function Successors(nodes: set<Node>, edges: multiset<Edge>, n: Node): set<Node>
  {
    set v | v in nodes && (n, v) in edges
  }

  /** The pairs one node links: two distinct neighbours, or a predecessor and a different successor. */
  function PairsThrough(directed: bool, nodes: set<Node>, edges: multiset<Edge>, n: Node): (r: set<Edge>)
    ensures forall e | e in r :: e.0 != e.1 && (directed || e.0 < e.1)
  {
    if directed then
      set u, v | u in Predecessors(nodes, edges, n) && v in Successors(nodes, edges, n) && u != v :: (u, v)
    else
      set a, b | a in Neighbours(nodes, edges, n) && b in Neighbours(nodes, edges, n) && a < b :: (a, b)
  }

  /** The pairs linked through some node of `through`. */
  function Linked(directed: bool, nodes: set<Node>, edges: multiset<Edge>, through: set<Node>): set<Edge>
  {
    set n, e | n in through && e in PairsThrough(directed, nodes, edges, n) :: e
  }

  /** The nodes of `through` that link the pair e. */
  function Connectors(directed: bool, nodes: set<Node>, edges: multiset<Edge>, through: set<Node>, e: Edge): set<Node>
  {
    set n | n in through && e in PairsThrough(directed, nodes, edges, n)
  }

  /** A pair is linked exactly when some node connects it. */
  lemma LinkedConnected(directed: bool, nodes: set<Node>, edges: multiset<Edge>, through: set<Node>, e: Edge)
    ensures e in Linked(directed, nodes, edges, through) <==> Connectors(directed, nodes, edges, through, e) != {}
  {
    if e in Linked(directed, nodes, edges, through) {
      var n :| n in through && e in PairsThrough(directed, nodes, edges, n);
      assert n in Connectors(directed, nodes, edges, through, e);
    }
  }

  /** The undirected projection links {a, b} exactly when a != b and some node of `through` neighbours both. */
  lemma UndirectedLinked(nodes: set<Node>, edges: multiset<Edge>, through: set<Node>, a: Node, b: Node)
    ensures Canonical(a, b) in Linked(false, nodes, edges, through) <==>
            a != b && exists n | n in through :: a in Neighbours(nodes, edges, n) && b in Neighbours(nodes, edges, n)
  {
    var e := Canonical(a, b);
    if e in Linked(false, nodes, edges, through) {
      var n :| n in through && e in PairsThrough(false, nodes, edges, n);
      assert a in Neighbours(nodes, edges, n) && b in Neighbours(nodes, edges, n);
    }
    if a != b && exists n | n in through :: a in Neighbours(nodes, edges, n) && b in Neighbours(nodes, edges, n) {
      var n :| n in through && a in Neighbours(nodes, edges, n) && b in Neighbours(nodes, edges, n);
      assert e in PairsThrough(false, nodes, edges, n);
    }
  }

  /** The directed projection links (u, v) exactly when u != v and some node of `through` has u before it and v after it. */
  lemma DirectedLinked(nodes: set<Node>, edges: multiset<Edge>, through: set<Node>, u: Node, v: Node)
    ensures (u, v) in Linked(true, nodes, edges, through) <==>
            u != v && exists n | n in through :: u in Predecessors(nodes, edges, n) && v in Successors(nodes, edges, n)
  {
    if (u, v) in Linked(true, nodes, edges, through) {
      var n :| n in through && (u, v) in PairsThrough(true, nodes, edges, n);
      assert u in Predecessors(nodes, edges, n) && v in Successors(nodes, edges, n);
    }
    if u != v && exists n | n in through :: u in Predecessors(nodes, edges, n) && v in Successors(nodes, edges, n) {
      var n :| n in through && u in Predecessors(nodes, edges, n) && v in Successors(nodes, edges, n);
      assert (u, v) in PairsThrough(true, nodes, edges, n);
    }
  }

  // ---------------------------------------------------------------------------
  // Steps of the loop over `nbunch`
  // ---------------------------------------------------------------------------

  lemma LinkedAdd(directed: bool, nodes: set<Node>, edges: multiset<Edge>, done: set<Node>, n: Node)
    ensures Linked(directed, nodes, edges, done + {n}) ==
            Linked(directed, nodes, edges, done) + PairsThrough(directed, nodes, edges, n)
  {
  }

  lemma EndsUnion(a: set<Edge>, b: set<Edge>)
    ensures Ends(a + b) == Ends(a) + Ends(b)
  {
  }

  lemma SupportAdd(m: multiset<Edge>, x: set<Edge>)
    ensures Support(m + multiset(x)) == Support(m) + x
  {
  }

  lemma DisjointUnion(x: set<Edge>, y: set<Edge>)
    requires x !! y
    ensures multiset(x + y) == multiset(x) + multiset(y)
  {
    forall e
      ensures multiset(x + y)[e] == (multiset(x) + multiset(y))[e]
    {
    }
  }

  /** Without parallel edges, adding the pairs of one more node adds the newly linked pairs that were absent. */
  lemma SimpleStep(a: set<Edge>, p: set<Edge>, base: multiset<Edge>, before: multiset<Edge>, after: multiset<Edge>)
    requires before == base + multiset(a - Support(base))
    requires after == before + multiset(p - Support(before))
    ensures after == base + multiset(a + p - Support(base))
  {
    var s := Support(base);
    SupportAdd(base, a - s);
    assert Support(before) == s + (a - s);
    assert a + p - s == (a - s) + (p - (s + (a - s)));
    DisjointUnion(a - s, p - (s + (a - s)));
  }

  /** One more node adds itself to the connectors of exactly the pairs it links. */
  lemma ConnectorsAdd(directed: bool, nodes: set<Node>, edges: multiset<Edge>, done: set<Node>, n: Node, e: Edge)
    requires n !in done
    ensures |Connectors(directed, nodes, edges, done + {n}, e)| ==
            |Connectors(directed, nodes, edges, done, e)| + (if e in PairsThrough(directed, nodes, edges, n) then 1 else 0)
  {
    var c := Connectors(directed, nodes, edges, done, e);
    if e in PairsThrough(directed, nodes, edges, n) {
      assert Connectors(directed, nodes, edges, done + {n}, e) == c + {n};
    } else {
      assert Connectors(directed, nodes, edges, done + {n}, e) == c;
    }
  }

  /** With parallel edges, each pair gains one copy for each more node that links it. */
  lemma MultiStep(directed: bool, nodes: set<Node>, edges: multiset<Edge>, done: set<Node>, n: Node,
                  base: multiset<Edge>, before: multiset<Edge>, after: multiset<Edge>)
    requires n !in done
    requires forall e :: before[e] == base[e] + |Connectors(directed, nodes, edges, done, e)|
    requires after == before + multiset(PairsThrough(directed, nodes, edges, n))
    ensures forall e :: after[e] == base[e] + |Connectors(directed, nodes, edges, done + {n}, e)|
  {
    forall e
      ensures after[e] == base[e] + |Connectors(directed, nodes, edges, done + {n}, e)|
    {
      ConnectorsAdd(directed, nodes, edges, done, n, e);
    }
  }

  /** The state after one round into a multigraph, on values. */
  lemma MultiRound(directed: bool, nodes: set<Node>, edges: multiset<Edge>, done: set<Node>, n: Node,
                   nodes0: set<Node>, base: multiset<Edge>, through: set<Node>,
                   nodesBefore: set<Node>, nodesAfter: set<Node>, before: multiset<Edge>, after: multiset<Edge>)
    requires n !in done
    requires nodesBefore == nodes0 + through + Ends(Linked(directed, nodes, edges, done))
    requires forall e :: before[e] == base[e] + |Connectors(directed, nodes, edges, done, e)|
    requires nodesAfter == nodesBefore + Ends(PairsThrough(directed, nodes, edges, n))
    requires after == before + Gained(true, before, PairsThrough(directed, nodes, edges, n))
    ensures nodesAfter == nodes0 + through + Ends(Linked(directed, nodes, edges, done + {n}))
    ensures forall e :: after[e] == base[e] + |Connectors(directed, nodes, edges, done + {n}, e)|
  {
    LinkedAdd(directed, nodes, edges, done, n);
    EndsUnion(Linked(directed, nodes, edges, done), PairsThrough(directed, nodes, edges, n));
    MultiStep(directed, nodes, edges, done, n, base, before, after);
  }

  /** The state after one round into a simple graph, on values. */
  lemma SimpleRound(directed: bool, nodes: set<Node>, edges: multiset<Edge>, done: set<Node>, n: Node,
                    nodes0: set<Node>, base: multiset<Edge>, through: set<Node>,
                    nodesBefore: set<Node>, nodesAfter: set<Node>, before: multiset<Edge>, after: multiset<Edge>)
    requires nodesBefore == nodes0 + through + Ends(Linked(directed, nodes, edges, done))
    requires before == base + multiset(Linked(directed, nodes, edges, done) - Support(base))
    requires nodesAfter == nodesBefore + Ends(PairsThrough(directed, nodes, edges, n))
    requires after == before + Gained(false, before, PairsThrough(directed, nodes, edges, n))
    ensures nodesAfter == nodes0 + through + Ends(Linked(directed, nodes, edges, done + {n}))
    ensures after == base + multiset(Linked(directed, nodes, edges, done + {n}) - Support(base))
  {
    var a := Linked(directed, nodes, edges, done);
    var p := PairsThrough(directed, nodes, edges, n);
    LinkedAdd(directed, nodes, edges, done, n);
    EndsUnion(a, p);
    SimpleStep(a, p, base, before, after);
  }

  // ---------------------------------------------------------------------------
  // `_project`, `project2top`, `project2bottom`
  // ---------------------------------------------------------------------------

  /**
    `_project`: add the nodes of `through` to `uni`, then, for each of them,
    the pairs it links. A multigraph ends up with one parallel edge per
    linking node and pair; otherwise duplicates collapse.
  */
  method Project(g: Graph, through: set<Node>, uni: Graph)
    requires g != uni && uni.Valid() && uni.directed == g.directed
    modifies uni
    ensures uni.Valid()
    ensures uni.nodes == old(uni.nodes) + through + Ends(Linked(g.directed, g.nodes, g.edges, through))
    ensures uni.multi ==>
              forall e :: uni.edges[e] == old(uni.edges)[e] + |Connectors(g.directed, g.nodes, g.edges, through, e)|
    ensures !uni.multi ==>
              uni.edges == old(uni.edges) + multiset(Linked(g.directed, g.nodes, g.edges, through) - Support(old(uni.edges)))
    ensures uni.pop == old(uni.pop) && uni.name == old(uni.name)
  {
    uni.AddNodesFrom(through);
    var done: set<Node> := {};
    while done != through
      invariant uni.Valid() && done <= through
      invariant uni.nodes == old(uni.nodes) + through + Ends(Linked(g.directed, g.nodes, g.edges, done))
      invariant uni.multi ==>
                  forall e :: uni.edges[e] == old(uni.edges)[e] + |Connectors(g.directed, g.nodes, g.edges, done, e)|
      invariant !uni.multi ==>
                  uni.edges == old(uni.edges) + multiset(Linked(g.directed, g.nodes, g.edges, done) - Support(old(uni.edges)))
      invariant uni.pop == old(uni.pop) && uni.name == old(uni.name)
      decreases through - done
    {
      Occupied(through - done);
      var n :| n in through - done;
      ProjectNode(uni, PairsThrough(g.directed, g.nodes, g.edges, n), g.directed, g.nodes, g.edges,
                  done, n, old(uni.nodes), old(uni.edges), through);
      done := done + {n};
    }
  }

  /**
    One round of the loop of `_project`: the pairs `p` node n links join the
    projection; `directed`, `nodes` and `edges` are those of the graph
    projected.
  */
  method ProjectNode(uni: Graph, p: set<Edge>, ghost directed: bool, ghost nodes: set<Node>, ghost edges: multiset<Edge>,
                     ghost done: set<Node>, ghost n: Node, ghost nodes0: set<Node>, ghost base: multiset<Edge>,
                     ghost through: set<Node>)
    requires uni.Valid() && uni.directed == directed && n !in done
    requires p == PairsThrough(directed, nodes, edges, n)
    requires uni.nodes == nodes0 + through + Ends(Linked(directed, nodes, edges, done))
    requires uni.multi ==> forall e :: uni.edges[e] == base[e] + |Connectors(directed, nodes, edges, done, e)|
    requires !uni.multi ==> uni.edges == base + multiset(Linked(directed, nodes, edges, done) - Support(base))
    modifies uni
    ensures uni.Valid()
    ensures uni.nodes == nodes0 + through + Ends(Linked(directed, nodes, edges, done + {n}))
    ensures uni.multi ==> forall e :: uni.edges[e] == base[e] + |Connectors(directed, nodes, edges, done + {n}, e)|
    ensures !uni.multi ==> uni.edges == base + multiset(Linked(directed, nodes, edges, done + {n}) - Support(base))
    ensures uni.pop == old(uni.pop) && uni.name == old(uni.name)
  {
    if uni.multi {
      ProjectNodeMulti(uni, p, directed, nodes, edges, done, n, nodes0, base, through);
    } else {
      ProjectNodeSimple(uni, p, directed, nodes, edges, done, n, nodes0, base, through);
    }
  }

  /** `ProjectNode` into a multigraph: one more copy of each pair n links. */
  method ProjectNodeMulti(uni: Graph, p: set<Edge>, ghost directed: bool, ghost nodes: set<Node>, ghost edges: multiset<Edge>,
                          ghost done: set<Node>, ghost n: Node, ghost nodes0: set<Node>, ghost base: multiset<Edge>,
                          ghost through: set<Node>)
    requires uni.Valid() && uni.multi && uni.directed == directed && n !in done
    requires p == PairsThrough(directed, nodes, edges, n)
    requires uni.nodes == nodes0 + through + Ends(Linked(directed, nodes, edges, done))
    requires forall e :: uni.edges[e] == base[e] + |Connectors(directed, nodes, edges, done, e)|
    modifies uni
    ensures uni.Valid() && uni.multi
    ensures uni.nodes == nodes0 + through + Ends(Linked(directed, nodes, edges, done + {n}))
    ensures forall e :: uni.edges[e] == base[e] + |Connectors(directed, nodes, edges, done + {n}, e)|
    ensures uni.pop == old(uni.pop) && uni.name == old(uni.name)
  {
    ghost var nodesBefore, before := uni.nodes, uni.edges;
    uni.AddEdgesFrom(p);
    MultiRound(directed, nodes, edges, done, n, nodes0, base, through, nodesBefore, uni.nodes, before, uni.edges);
  }

  /** `ProjectNode` into a simple graph: the pairs n links that are still absent. */
  method ProjectNodeSimple(uni: Graph, p: set<Edge>, ghost directed: bool, ghost nodes: set<Node>, ghost edges: multiset<Edge>,
                           ghost done: set<Node>, ghost n: Node, ghost nodes0: set<Node>, ghost base: multiset<Edge>,
                           ghost through: set<Node>)
    requires uni.Valid() && !uni.multi && uni.directed == directed && n !in done
    requires p == PairsThrough(directed, nodes, edges, n)
    requires uni.nodes == nodes0 + through + Ends(Linked(directed, nodes, edges, done))
    requires uni.edges == base + multiset(Linked(directed, nodes, edges, done) - Support(base))
    modifies uni
    ensures uni.Valid() && !uni.multi
    ensures uni.nodes == nodes0 + through + Ends(Linked(directed, nodes, edges, done + {n}))
    ensures uni.edges == base + multiset(Linked(directed, nodes, edges, done + {n}) - Support(base))
    ensures uni.pop == old(uni.pop) && uni.name == old(uni.name)
  {
    ghost var nodesBefore, before := uni.nodes, uni.edges;
    uni.AddEdgesFrom(p);
    SimpleRound(directed, nodes, edges, done, n, nodes0, base, through, nodesBefore, uni.nodes, before, uni.edges);
  }

  datatype ProjectionError = MissingPop   // the `KeyError` of `self.node[n]["pop"]`

  /** The nodes whose `pop` attribute is p. */
  function Population(nodes: set<Node>, pop: map<Node, int>, p: int): set<Node>
  {
    set n | n in nodes && n in pop && pop[n] == p
  }

  /**
    The body shared by `project2top` (through the nodes with pop -1) and
    `project2bottom` (through those with pop 1): a new graph of the same
    direction, a multigraph if asked, named after the original.
  */
  method Projection(g: Graph, multi: bool, p: int) returns (r: Result<Graph, ProjectionError>)
    ensures r.Err? <==> !(g.nodes <= g.pop.Keys)
    ensures r.Ok? ==> fresh(r.value) && r.value.Valid()
    ensures r.Ok? ==> r.value.directed == g.directed && r.value.multi == multi
    ensures r.Ok? ==> r.value.name == g.name + " projection" && r.value.pop == map[]
    ensures r.Ok? ==> var through := Population(g.nodes, g.pop, p);
                      r.value.nodes == through + Ends(Linked(g.directed, g.nodes, g.edges, through))
    ensures r.Ok? && multi ==> var through := Population(g.nodes, g.pop, p);
                      forall e :: r.value.edges[e] == |Connectors(g.directed, g.nodes, g.edges, through, e)|
    ensures r.Ok? && !multi ==> var through := Population(g.nodes, g.pop, p);
                      r.value.edges == multiset(Linked(g.directed, g.nodes, g.edges, through))
  {
    var uni := new Graph(g.name + " projection", g.directed, multi);
    if !(g.nodes <= g.pop.Keys) {
      return Err(MissingPop);
    }
    var through := Population(g.nodes, g.pop, p);
    Project(g, through, uni);
    return Ok(uni);
  }

  /** `project2top`: the projection through the nodes with pop -1. */
  method Project2Top(g: Graph, multi: bool) returns (r: Result<Graph, ProjectionError>)
    ensures r.Err? <==> !(g.nodes <= g.pop.Keys)
    ensures r.Ok? ==> fresh(r.value) && r.value.Valid() && r.value.directed == g.directed && r.value.multi == multi
    ensures r.Ok? ==> var through := Population(g.nodes, g.pop, -1);
                      r.value.nodes == through + Ends(Linked(g.directed, g.nodes, g.edges, through))
    ensures r.Ok? && multi ==> var through := Population(g.nodes, g.pop, -1);
                      forall e :: r.value.edges[e] == |Connectors(g.directed, g.nodes, g.edges, through, e)|
    ensures r.Ok? && !multi ==>
              r.value.edges == multiset(Linked(g.directed, g.nodes, g.edges, Population(g.nodes, g.pop, -1)))
  {
    r := Projection(g, multi, -1);
  }

  /** `project2bottom`: the projection through the nodes with pop 1. */
  method Project2Bottom(g: Graph, multi: bool) returns (r: Result<Graph, ProjectionError>)
    ensures r.Err? <==> !(g.nodes <= g.pop.Keys)
    ensures r.Ok? ==> fresh(r.value) && r.value.Valid() && r.value.directed == g.directed && r.value.multi == multi
    ensures r.Ok? ==> var through := Population(g.nodes, g.pop, 1);
                      r.value.nodes == through + Ends(Linked(g.directed, g.nodes, g.edges, through))
    ensures r.Ok? && multi ==> var through := Population(g.nodes, g.pop, 1);
                      forall e :: r.value.edges[e] == |Connectors(g.directed, g.nodes, g.edges, through, e)|
    ensures r.Ok? && !multi ==>
              r.value.edges == multiset(Linked(g.directed, g.nodes, g.edges, Population(g.nodes, g.pop, 1)))
  {
    r := Projection(g, multi, 1);
  }
}
