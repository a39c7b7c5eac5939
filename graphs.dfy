/**
  The part of a networkx graph the modelled code relies on: a name, whether it
  is directed and whether it allows parallel edges (the four classes Graph,
  DiGraph, MultiGraph and MultiDiGraph), its node set, the `pop` node attribute
  the bipartite helpers use, and its edges.

  Edges are kept as a multiset of pairs. An undirected edge is stored once, as
  the pair with the smaller end first; a simple graph holds each edge at most
  once. Node labels are integers.
*/
module Graphs {

  type Node = int
  type Edge = (Node, Node)

  /** The pair an undirected graph stores for {u, v}. */
  function Canonical(u: Node, v: Node): (e: Edge)
    ensures e == (u, v) || e == (v, u)
    ensures e.0 <= e.1
  {
    if u <= v then (u, v) else (v, u)
  }

  /** The distinct edges of an edge multiset. */
  function Support(edges: multiset<Edge>): set<Edge>
  {
    set e | e in edges
  }

  /** The multiplicity-one multiset of a simple graph holding `s`. */
  lemma {:induction false} SupportOfSet(s: set<Edge>)
    ensures Support(multiset(s)) == s
  {
  }

  /** The nodes at either end of some edges. */
  function Ends(es: set<Edge>): set<Node>
  {
    (set e | e in es :: e.0) + (set e | e in es :: e.1)
  }

  lemma EndsAdd(es: set<Edge>, e: Edge)
    ensures Ends(es + {e}) == Ends(es) + {e.0, e.1}
  {
  }

  /** What adding the pairs `es` in turn to the edges `base` adds: every pair, or only the absent ones when duplicates collapse. */
  function Gained(multi: bool, base: multiset<Edge>, es: set<Edge>): multiset<Edge>
  {
    if multi then multiset(es) else multiset(es - Support(base))
  }

  /**
    Adding e, not among the pairs `done` already added to `base`: e is
    present beforehand exactly when `base` held it, and then only a
    multigraph counts it again.
  */
  lemma AddedOnce(multi: bool, base: multiset<Edge>, done: set<Edge>, e: Edge)
    requires e !in done
    ensures e in base + Gained(multi, base, done) <==> e in base
    ensures multi || e !in base ==> Gained(multi, base, done + {e}) == Gained(multi, base, done) + multiset{e}
    ensures !multi && e in base ==> Gained(multi, base, done + {e}) == Gained(multi, base, done)
  {
    var S := Support(base);
    if e !in base {
      assert done + {e} - S == (done - S) + {e};
    } else {
      assert done + {e} - S == done - S;
    }
  }

  /** One `add_edge` of the pair e keeps the edges equal to the base plus what the added pairs gained. */
  lemma EdgeAdded(multi: bool, base: multiset<Edge>, done: set<Edge>, e: Edge,
                  before: multiset<Edge>, after: multiset<Edge>)
    requires e !in done && before == base + Gained(multi, base, done)
    requires multi ==> after == before + multiset{e}
    requires !multi && e in before ==> after == before
    requires !multi && e !in before ==> after == before + multiset{e}
    ensures after == base + Gained(multi, base, done + {e})
  {
    AddedOnce(multi, base, done, e);
  }

  /** A non-empty set of edges has an element. */
  lemma NonEmptyEdges(s: set<Edge>)
    requires s != {}
    ensures exists e :: e in s
  {
    if forall e :: e !in s {
      assert false;
    }
  }

  /** A non-empty set of nodes has an element (what `var x :| x in s` needs). */
  lemma Occupied(s: set<Node>)
    requires s != {}
    ensures exists x :: x in s
  {
    if forall x :: x !in s {
      assert false;
    }
  }

  class Graph {
    var name: string
    const directed: bool
    const multi: bool
    var nodes: set<Node>
    /** The `pop` node attribute, for the nodes that have one. */
    var pop: map<Node, int>
    var edges: multiset<Edge>

    ghost predicate Valid()
      reads this
    {
      (forall e | e in edges :: e.0 in nodes && e.1 in nodes) &&
      (!directed ==> forall e | e in edges :: e.0 <= e.1) &&
      (!multi ==> forall e | e in edges :: edges[e] == 1) &&
      pop.Keys <= nodes
    }

    /** The pair under which the edge from u to v is stored. */
    function Key(u: Node, v: Node): (e: Edge)
      reads this
      ensures directed ==> e == (u, v)
      ensures !directed ==> e == Canonical(u, v)
    {
      if directed then (u, v) else Canonical(u, v)
    }

    /** `v in graph[u]`: the adjacency test of networkx. */
    predicate HasEdge(u: Node, v: Node)
      reads this
    {
      Key(u, v) in edges
    }

    constructor (name: string, directed: bool, multi: bool)
      ensures Valid()
      ensures this.name == name && this.directed == directed && this.multi == multi
      ensures nodes == {} && pop == map[] && edges == multiset{}
    {
      this.name := name;
      this.directed := directed;
      this.multi := multi;
      nodes := {};
      pop := map[];
      edges := multiset{};
    }

    /** `add_node(n, pop=p)`: adds the node if missing and sets its attribute. */
    method AddNodeWithPop(n: Node, p: int)
      requires Valid()
      modifies this
      ensures Valid()
      ensures nodes == old(nodes) + {n} && pop == old(pop)[n := p]
      ensures edges == old(edges) && name == old(name)
    {
      nodes := nodes + {n};
      pop := pop[n := p];
    }

    /** `add_nodes_from(ns)`: adds the nodes that are missing, attributes untouched. */
    method AddNodesFrom(ns: set<Node>)
      requires Valid()
      modifies this
      ensures Valid()
      ensures nodes == old(nodes) + ns
      ensures pop == old(pop) && edges == old(edges) && name == old(name)
    {
      nodes := nodes + ns;
    }

    /** `add_nodes_from(ns, pop=p)`: adds the nodes that are missing and sets the attribute of each of them. */
    method AddNodesWithPop(ns: set<Node>, p: int)
      requires Valid()
      modifies this
      ensures Valid()
      ensures nodes == old(nodes) + ns
      ensures pop == old(pop) + map n | n in ns :: p
      ensures edges == old(edges) && name == old(name)
    {
      nodes := nodes + ns;
      pop := pop + map n | n in ns :: p;
    }

    /**
      `add_edge(u, v)`: adds both ends as nodes; a multigraph gains one more
      parallel edge, a simple graph gains the edge only if it was absent.
    */
    method AddEdge(u: Node, v: Node)
      requires Valid()
      modifies this
      ensures Valid()
      ensures nodes == old(nodes) + {u, v}
      ensures multi ==> edges == old(edges) + multiset{Key(u, v)}
      ensures !multi && Key(u, v) in old(edges) ==> edges == old(edges)
      ensures !multi && Key(u, v) !in old(edges) ==> edges == old(edges) + multiset{Key(u, v)}
      ensures pop == old(pop) && name == old(name)
    {
      nodes := nodes + {u, v};
      var e := Key(u, v);
      if multi || e !in edges {
        edges := edges + multiset{e};
      }
    }

    /**
      `add_edges_from(es)` for edges given as the pairs the graph stores:
      each is added in turn, so a multigraph gains every one and a simple
      graph the ones it lacked.
    */
    method AddEdgesFrom(es: set<Edge>)
      requires Valid() && forall e | e in es :: directed || e.0 <= e.1
      modifies this
      ensures Valid()
      ensures nodes == old(nodes) + Ends(es)
      ensures edges == old(edges) + Gained(multi, old(edges), es)
      ensures pop == old(pop) && name == old(name)
    {
      var done: set<Edge> := {};
      while done != es
        invariant Valid() && done <= es
        invariant nodes == old(nodes) + Ends(done)
        invariant edges == old(edges) + Gained(multi, old(edges), done)
        invariant pop == old(pop) && name == old(name)
        decreases es - done
      {
        NonEmptyEdges(es - done);
        var e :| e in es - done;
        EndsAdd(done, e);
        AddPair(e, done, old(edges));
        done := done + {e};
      }
    }

    /** One round of `add_edges_from`: the pair e joins the pairs `done` already added to `base`. */
    method AddPair(e: Edge, ghost done: set<Edge>, ghost base: multiset<Edge>)
      requires Valid() && (directed || e.0 <= e.1) && e !in done
      requires edges == base + Gained(multi, base, done)
      modifies this
      ensures Valid()
      ensures nodes == old(nodes) + {e.0, e.1}
      ensures edges == base + Gained(multi, base, done + {e})
      ensures pop == old(pop) && name == old(name)
    {
      ghost var before := edges;
      AddEdge(e.0, e.1);
      EdgeAdded(multi, base, done, e, before, edges);
    }

    /** `remove_edge(u, v)`: one copy of the edge goes; networkx raises if there is none. */
    method RemoveEdge(u: Node, v: Node)
      requires Valid() && HasEdge(u, v)
      modifies this
      ensures Valid()
      ensures edges == old(edges) - multiset{Key(u, v)}
      ensures nodes == old(nodes) && pop == old(pop) && name == old(name)
    {
      edges := edges - multiset{Key(u, v)};
    }

    /** `copy()`: a new graph with the same name, kind, nodes, attributes and edges. */
    method Copy() returns (g: Graph)
      requires Valid()
      ensures fresh(g) && g.Valid()
      ensures g.name == name && g.directed == directed && g.multi == multi
      ensures g.nodes == nodes && g.pop == pop && g.edges == edges
    {
      g := new Graph(name, directed, multi);
      g.nodes := nodes;
      g.pop := pop;
      g.edges := edges;
    }
  }
}
