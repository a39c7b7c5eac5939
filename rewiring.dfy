/**
  Degree-preserving randomisation of a simple directed graph by edge switches
  (Milo et al., Science 298:824-827, 2002).

  The edges are split into a unidirectional group, switched one edge at a time,
  and a bidirectional group, switched as reciprocal pairs. Each group is copied
  into an index-addressed array of rows that the switches overwrite in place,
  so the rows keep listing exactly the graph's edges.

  The random numbers become parameters: `order` is the order in which networkx
  lists the edges, and `draws(i)` supplies the category choice and the two row
  indices of the i-th attempt.
*/
module Rewiring {
  import opened Wrappers
  import opened Graphs
  import opened Seqs

  function Reverse(e: Edge): Edge
  {
    (e.1, e.0)
  }

  predicate NoSelfLoops(edges: set<Edge>)
  {
    forall e | e in edges :: e.0 != e.1
  }

  /** A simple graph holds each edge once. */
  predicate Simple(edges: multiset<Edge>)
  {
    forall e | e in edges :: edges[e] == 1
  }

  function OutDegree(edges: set<Edge>, x: Node): nat
  {
    |set e | e in edges && e.0 == x|
  }

  function InDegree(edges: set<Edge>, x: Node): nat
  {
    |set e | e in edges && e.1 == x|
  }

  /** Two edge sets of the same size in which every node has the same in- and out-degree. */
  ghost predicate SameDegrees(e1: set<Edge>, e2: set<Edge>)
  {
    |e1| == |e2| &&
    (forall x :: OutDegree(e1, x) == OutDegree(e2, x)) &&
    (forall x :: InDegree(e1, x) == InDegree(e2, x))
  }

  // ---------------------------------------------------------------------------
  // Edge groups
  // ---------------------------------------------------------------------------

  datatype RewiringError = MultiGraph | SelfLoops

  /** An edge group and the number of edges one switch moves in it. */
  datatype Category = Category(edges: seq<Edge>, arity: nat)

  /** Which grouping `randomise` uses: `standard_directed_groups` or `selflinks_directed_groups`. */
  datatype GroupMaker = Standard | SelfLinks

  /** The edge belongs to the bidirectional group: its reverse exists, and with `selfLinks` it is no self-loop. */
  predicate Reciprocated(edges: set<Edge>, e: Edge, selfLinks: bool)
  {
    Reverse(e) in edges && !(selfLinks && e.0 == e.1)
  }

  /** The edges of `order`, in order, that are bidirectional (`bi`) or unidirectional (`!bi`). */
  function Group(edges: set<Edge>, order: seq<Edge>, selfLinks: bool, bi: bool): seq<Edge>
  {
    if order == [] then []
    else
      var init := Group(edges, order[..|order| - 1], selfLinks, bi);
      var e := order[|order| - 1];
      if Reciprocated(edges, e, selfLinks) == bi then init + [e] else init
  }

  /** Each listed edge lands in exactly one group: the bidirectional one iff it is reciprocated. */
  lemma {:induction false} GroupsPartition(edges: set<Edge>, order: seq<Edge>, selfLinks: bool)
    ensures multiset(Group(edges, order, selfLinks, false)) + multiset(Group(edges, order, selfLinks, true)) == multiset(order)
    ensures forall e {:trigger e in Group(edges, order, selfLinks, true)} ::
      e in Group(edges, order, selfLinks, true) <==> e in order && Reciprocated(edges, e, selfLinks)
    ensures forall e {:trigger e in Group(edges, order, selfLinks, false)} ::
      e in Group(edges, order, selfLinks, false) <==> e in order && !Reciprocated(edges, e, selfLinks)
  {
    if order != [] {
      var init := order[..|order| - 1];
      GroupsPartition(edges, init, selfLinks);
      assert order == init + [order[|order| - 1]];
    }
  }

  /** The grouping loop shared by both builders: `bi` if reciprocated, else `uni`, in listing order. */
  method SplitByReciprocity(g: Graph, order: seq<Edge>, selfLinks: bool) returns (uni: seq<Edge>, bi: seq<Edge>)
    requires g.Valid() && g.directed
    ensures uni == Group(Support(g.edges), order, selfLinks, false)
    ensures bi == Group(Support(g.edges), order, selfLinks, true)
  {
    uni, bi := [], [];
    for i := 0 to |order|
      invariant uni == Group(Support(g.edges), order[..i], selfLinks, false)
      invariant bi == Group(Support(g.edges), order[..i], selfLinks, true)
    {
      var e := order[i];
      assert order[..i + 1][..i] == order[..i];
      if g.HasEdge(e.1, e.0) && !(selfLinks && e.0 == e.1) {
        bi := bi + [e];
      } else {
        uni := uni + [e];
      }
    }
    assert order[..|order|] == order;
  }

  /** `standard_directed_groups`: fails on a self-loop, otherwise the groups with arities 1 and 2. */
  method StandardDirectedGroups(g: Graph, order: seq<Edge>) returns (r: Result<seq<Category>, RewiringError>)
    requires g.Valid() && g.directed
    ensures r.Err? <==> exists e | e in g.edges :: e.0 == e.1
    ensures r.Err? ==> r.error == SelfLoops
    ensures r.Ok? ==> r.value == [Category(Group(Support(g.edges), order, false, false), 1),
                                  Category(Group(Support(g.edges), order, false, true), 2)]
  {
    if exists e | e in g.edges :: e.0 == e.1 {
      return Err(SelfLoops);
    }
    var uni, bi := SplitByReciprocity(g, order, false);
    return Ok([Category(uni, 1), Category(bi, 2)]);
  }

  /** `selflinks_directed_groups`: never fails; self-loops go to the unidirectional group. */
  method SelflinksDirectedGroups(g: Graph, order: seq<Edge>) returns (cats: seq<Category>)
    requires g.Valid() && g.directed
    ensures cats == [Category(Group(Support(g.edges), order, true, false), 1),
                     Category(Group(Support(g.edges), order, true, true), 2)]
  {
    var uni, bi := SplitByReciprocity(g, order, true);
    return [Category(uni, 1), Category(bi, 2)];
  }

  // ---------------------------------------------------------------------------
  // Legality of a switch
  // ---------------------------------------------------------------------------

  /** The two edges an (a, b), (c, d) switch creates: (a, d) and (c, b). */
  function NewFirst(first: Edge, second: Edge): Edge
  {
    (first.0, second.1)
  }

  function NewSecond(first: Edge, second: Edge): Edge
  {
    (second.0, first.1)
  }

  /**
    `check_standard`: a switch is refused for two equal edges, for a new edge
    that is a self-loop, and for a new edge that exists already or whose
    reverse does; every other switch is allowed.
  */
  function CheckStandard(edges: set<Edge>, first: Edge, second: Edge): (ok: bool)
    ensures ok <==>
      var n1, n2 := NewFirst(first, second), NewSecond(first, second);
      first != second && n1.0 != n1.1 && n2.0 != n2.1 &&
      n1 !in edges && n2 !in edges && Reverse(n1) !in edges && Reverse(n2) !in edges
  {
    if first == second then false
    else if first.0 == second.1 then false
    else if second.0 == first.1 then false
    else if (first.0, second.1) in edges then false
    else if (second.0, first.1) in edges then false
    else if (second.1, first.0) in edges then false
    else if (first.1, second.0) in edges then false
    else true
  }

  /** What an allowed switch of two present edges implies about their end points. */
  lemma AcceptedEnds(edges: set<Edge>, first: Edge, second: Edge)
    requires first in edges && second in edges && CheckStandard(edges, first, second)
    ensures first.0 != second.0 && first.1 != second.1
    ensures first.0 != second.1 && second.0 != first.1
    ensures NewFirst(first, second) != NewSecond(first, second)
  {
  }

  /** E without (a, b) and (c, d), with (a, d) and (c, b). */
  function SingleSwitch(edges: set<Edge>, first: Edge, second: Edge): set<Edge>
  {
    edges - {first, second} + {NewFirst(first, second), NewSecond(first, second)}
  }

  /** E without both reciprocal pairs, with (a, d), (d, a), (c, b) and (b, c). */
  function DoubleSwitch(edges: set<Edge>, first: Edge, second: Edge): set<Edge>
  {
    var n1, n2 := NewFirst(first, second), NewSecond(first, second);
    edges - {first, Reverse(first), second, Reverse(second)} + {n1, n2, Reverse(n2), Reverse(n1)}
  }

  // ---------------------------------------------------------------------------
  // Degrees under switches
  // ---------------------------------------------------------------------------

  /** Trading a present edge for an absent one with the same source keeps the size and all out-degrees. */
  lemma ReplaceSameSource(edges: set<Edge>, r: Edge, s: Edge)
    requires r in edges && s !in edges && r.0 == s.0
    ensures |edges - {r} + {s}| == |edges|
    ensures forall x :: OutDegree(edges - {r} + {s}, x) == OutDegree(edges, x)
  {
    forall x
      ensures OutDegree(edges - {r} + {s}, x) == OutDegree(edges, x)
    {
      ReplaceOut(edges, r, s, x);
    }
  }

  lemma ReplaceOut(edges: set<Edge>, r: Edge, s: Edge, x: Node)
    requires r in edges && s !in edges && r.0 == s.0
    ensures OutDegree(edges - {r} + {s}, x) == OutDegree(edges, x)
  {
    var before := set e | e in edges && e.0 == x;
    var after := set e | e in edges - {r} + {s} && e.0 == x;
    if x == r.0 {
      assert after == before - {r} + {s};
    } else {
      assert after == before;
    }
  }

  /** Trading a present edge for an absent one with the same target keeps the size and all in-degrees. */
  lemma ReplaceSameTarget(edges: set<Edge>, r: Edge, s: Edge)
    requires r in edges && s !in edges && r.1 == s.1
    ensures |edges - {r} + {s}| == |edges|
    ensures forall x :: InDegree(edges - {r} + {s}, x) == InDegree(edges, x)
  {
    forall x
      ensures InDegree(edges - {r} + {s}, x) == InDegree(edges, x)
    {
      ReplaceIn(edges, r, s, x);
    }
  }

  lemma ReplaceIn(edges: set<Edge>, r: Edge, s: Edge, x: Node)
    requires r in edges && s !in edges && r.1 == s.1
    ensures InDegree(edges - {r} + {s}, x) == InDegree(edges, x)
  {
    var before := set e | e in edges && e.1 == x;
    var after := set e | e in edges - {r} + {s} && e.1 == x;
    if x == r.1 {
      assert after == before - {r} + {s};
    } else {
      assert after == before;
    }
  }

  /** An allowed single switch keeps every degree and the edge count, and creates no self-loop. */
  lemma SingleSwitchDegrees(edges: set<Edge>, first: Edge, second: Edge)
    requires first in edges && second in edges && CheckStandard(edges, first, second)
    ensures SameDegrees(SingleSwitch(edges, first, second), edges)
    ensures NoSelfLoops(edges) ==> NoSelfLoops(SingleSwitch(edges, first, second))
  {
    AcceptedEnds(edges, first, second);
    var n1, n2 := NewFirst(first, second), NewSecond(first, second);
    var out1 := edges - {first} + {n1};
    ReplaceSameSource(edges, first, n1);
    ReplaceSameSource(out1, second, n2);
    assert out1 - {second} + {n2} == SingleSwitch(edges, first, second);
    var in1 := edges - {first} + {n2};
    ReplaceSameTarget(edges, first, n2);
    ReplaceSameTarget(in1, second, n1);
    assert in1 - {second} + {n1} == SingleSwitch(edges, first, second);
  }

  /** An allowed double switch of two reciprocal pairs keeps every degree and the edge count. */
  lemma DoubleSwitchDegrees(edges: set<Edge>, first: Edge, second: Edge)
    requires first in edges && second in edges && Reverse(first) in edges && Reverse(second) in edges
    requires first.0 != first.1 && second.0 != second.1
    requires CheckStandard(edges, first, second)
    ensures SameDegrees(DoubleSwitch(edges, first, second), edges)
    ensures NoSelfLoops(edges) ==> NoSelfLoops(DoubleSwitch(edges, first, second))
  {
    AcceptedEnds(edges, first, second);
    DoubleSwitchOut(edges, first, second);
    DoubleSwitchIn(edges, first, second);
  }

  /** The out-degree half: (a, b) -> (a, d), (b, a) -> (b, c), (c, d) -> (c, b), (d, c) -> (d, a). */
  lemma DoubleSwitchOut(edges: set<Edge>, first: Edge, second: Edge)
    requires first in edges && second in edges && Reverse(first) in edges && Reverse(second) in edges
    requires first.0 != first.1 && second.0 != second.1
    requires CheckStandard(edges, first, second)
    requires first.0 != second.0 && first.1 != second.1
    ensures |DoubleSwitch(edges, first, second)| == |edges|
    ensures forall x :: OutDegree(DoubleSwitch(edges, first, second), x) == OutDegree(edges, x)
  {
    var n1, n2 := NewFirst(first, second), NewSecond(first, second);
    var f, g := Reverse(first), Reverse(second);
    var o1 := edges - {first} + {n1};
    ReplaceSameSource(edges, first, n1);
    var o2 := o1 - {f} + {Reverse(n2)};
    ReplaceSameSource(o1, f, Reverse(n2));
    var o3 := o2 - {second} + {n2};
    ReplaceSameSource(o2, second, n2);
    ReplaceSameSource(o3, g, Reverse(n1));
    assert o3 - {g} + {Reverse(n1)} == DoubleSwitch(edges, first, second);
  }

  /** The in-degree half: (a, b) -> (c, b), (b, a) -> (d, a), (c, d) -> (a, d), (d, c) -> (b, c). */
  lemma DoubleSwitchIn(edges: set<Edge>, first: Edge, second: Edge)
    requires first in edges && second in edges && Reverse(first) in edges && Reverse(second) in edges
    requires first.0 != first.1 && second.0 != second.1
    requires CheckStandard(edges, first, second)
    requires first.0 != second.0 && first.1 != second.1
    ensures forall x :: InDegree(DoubleSwitch(edges, first, second), x) == InDegree(edges, x)
  {
    var n1, n2 := NewFirst(first, second), NewSecond(first, second);
    var f, g := Reverse(first), Reverse(second);
    var i1 := edges - {first} + {n2};
    ReplaceSameTarget(edges, first, n2);
    var i2 := i1 - {f} + {Reverse(n1)};
    ReplaceSameTarget(i1, f, Reverse(n1));
    var i3 := i2 - {second} + {n1};
    ReplaceSameTarget(i2, second, n1);
    ReplaceSameTarget(i3, g, Reverse(n2));
    assert i3 - {g} + {Reverse(n2)} == DoubleSwitch(edges, first, second);
  }

  // ---------------------------------------------------------------------------
  // Group rows in step with the graph
  // ---------------------------------------------------------------------------

  /** Every bidirectional row is no self-loop and its reverse is a row too. */
  predicate Closed(bi: seq<Edge>)
  {
    forall i | 0 <= i < |bi| :: bi[i].0 != bi[i].1 && Reverse(bi[i]) in bi
  }

  /** The rows of both groups list the graph's edges, each once, and the bidirectional rows come in pairs. */
  predicate Synced(edges: multiset<Edge>, uni: seq<Edge>, bi: seq<Edge>)
  {
    multiset(uni) + multiset(bi) == edges && Closed(bi)
  }

  lemma {:induction false} SimpleRowsDistinct(s: seq<Edge>)
    requires forall e | e in multiset(s) :: multiset(s)[e] <= 1
    ensures Distinct(s)
  {
    if s != [] {
      var t := s[1..];
      assert s == [s[0]] + t;
      assert multiset(s) == multiset{s[0]} + multiset(t);
      forall e | e in multiset(t)
        ensures multiset(t)[e] <= 1
      {
        assert multiset(s)[e] == multiset{s[0]}[e] + multiset(t)[e];
      }
      SimpleRowsDistinct(t);
      assert multiset(s)[s[0]] == 1 + multiset(t)[s[0]];
      assert s[0] !in multiset(t);
      forall i, j | 0 <= i < j < |s|
        ensures s[i] != s[j]
      {
        if i > 0 {
          assert s[i] == t[i - 1] && s[j] == t[j - 1];
        } else {
          assert s[j] == t[j - 1];
        }
      }
    }
  }

  /** The rows the builders return are in step with a simple graph listed by `order`. */
  lemma GroupsSynced(edges: multiset<Edge>, order: seq<Edge>, selfLinks: bool)
    requires Simple(edges) && multiset(order) == edges
    requires !selfLinks ==> NoSelfLoops(Support(edges))
    ensures Synced(edges, Group(Support(edges), order, selfLinks, false), Group(Support(edges), order, selfLinks, true))
  {
    var s := Support(edges);
    var bi := Group(s, order, selfLinks, true);
    GroupsPartition(s, order, selfLinks);
    forall i | 0 <= i < |bi|
      ensures bi[i].0 != bi[i].1 && Reverse(bi[i]) in bi
    {
      var e := bi[i];
      assert e in bi;
      assert Reverse(e) in s;
      assert Reverse(e) in order;
      assert Reciprocated(s, Reverse(e), selfLinks);
    }
  }

  /** After an allowed single switch of rows u and v of the unidirectional group, the rows are still in step. */
  lemma SingleSwitchSynced(edges: multiset<Edge>, uni: seq<Edge>, bi: seq<Edge>, u: int, v: int)
    requires Simple(edges) && Synced(edges, uni, bi)
    requires 0 <= u < |uni| && 0 <= v < |uni|
    requires CheckStandard(Support(edges), uni[u], uni[v])
    ensures var first, second := uni[u], uni[v];
      var edges' := edges + multiset{NewFirst(first, second), NewSecond(first, second)} - multiset{first, second};
      Simple(edges') && Synced(edges', uni[u := NewFirst(first, second)][v := NewSecond(first, second)], bi) &&
      Support(edges') == SingleSwitch(Support(edges), first, second)
  {
    var first, second := uni[u], uni[v];
    var n1, n2 := NewFirst(first, second), NewSecond(first, second);
    assert first in multiset(uni) && second in multiset(uni);
    AcceptedEnds(Support(edges), first, second);
    var edges' := edges + multiset{n1, n2} - multiset{first, second};
    var uni' := uni[u := n1][v := n2];
    assert u != v;
    assert multiset(uni') == multiset(uni) - multiset{first, second} + multiset{n1, n2};
    assert Support(edges') == SingleSwitch(Support(edges), first, second);
  }

  /** The facts a switch in the bidirectional group needs about the row it draws. */
  lemma BiRow(edges: multiset<Edge>, uni: seq<Edge>, bi: seq<Edge>, i: int)
    requires Synced(edges, uni, bi) && 0 <= i < |bi|
    ensures bi[i] in edges && Reverse(bi[i]) in edges && bi[i].0 != bi[i].1
  {
    assert bi[i] in multiset(bi);
    assert Reverse(bi[i]) in multiset(bi);
  }

  lemma UniRow(edges: multiset<Edge>, uni: seq<Edge>, bi: seq<Edge>, i: int)
    requires Synced(edges, uni, bi) && 0 <= i < |uni|
    ensures uni[i] in edges
  {
    assert uni[i] in multiset(uni);
  }

  /** The rows of a simple graph's groups hold no edge twice. */
  lemma SyncedDistinct(edges: multiset<Edge>, uni: seq<Edge>, bi: seq<Edge>)
    requires Simple(edges) && Synced(edges, uni, bi)
    ensures Distinct(bi)
  {
    forall e | e in multiset(bi)
      ensures multiset(bi)[e] <= 1
    {
      assert edges[e] == multiset(uni)[e] + multiset(bi)[e];
    }
    SimpleRowsDistinct(bi);
  }

  /** An allowed double switch keeps the graph simple and its edge set is `DoubleSwitch`. */
  lemma DoubleSwitchSupport(edges: multiset<Edge>, first: Edge, second: Edge)
    requires Simple(edges)
    requires first in edges && second in edges && Reverse(first) in edges && Reverse(second) in edges
    requires first.0 != first.1 && second.0 != second.1
    requires CheckStandard(Support(edges), first, second)
    ensures var n1, n2 := NewFirst(first, second), NewSecond(first, second);
      var edges' := edges + multiset{n1, n2, Reverse(n2), Reverse(n1)} - multiset{first, Reverse(first), second, Reverse(second)};
      Simple(edges') && Support(edges') == DoubleSwitch(Support(edges), first, second)
  {
    AcceptedEnds(Support(edges), first, second);
  }

  /** Where the rows of the reverse edges are unique, the writes of a double switch are four updates. */
  lemma DoubleRowsUpdate(bi: seq<Edge>, u: int, v: int, x: int, y: int)
    requires Distinct(bi) && 0 <= u < |bi| && 0 <= v < |bi| && 0 <= x < |bi| && 0 <= y < |bi|
    requires bi[x] == Reverse(bi[u]) && bi[y] == Reverse(bi[v])
    requires bi[u].0 != bi[u].1 && bi[v].0 != bi[v].1 && bi[u] != bi[v] && bi[u] != Reverse(bi[v])
    ensures u != v && u != x && u != y && v != x && v != y && x != y
    ensures var n1, n2 := NewFirst(bi[u], bi[v]), NewSecond(bi[u], bi[v]);
      DoubleRows(bi, bi[u], bi[v], u, v) == bi[u := n1][v := n2][x := Reverse(n2)][y := Reverse(n1)]
  {
  }

  /** The four writes of a double switch trade the two removed pairs for the two added pairs. */
  lemma DoubleRowsCount(edges: multiset<Edge>, uni: seq<Edge>, bi: seq<Edge>, u: int, v: int, x: int, y: int)
    requires multiset(uni) + multiset(bi) == edges
    requires 0 <= u < |bi| && 0 <= v < |bi| && 0 <= x < |bi| && 0 <= y < |bi|
    requires u != v && u != x && u != y && v != x && v != y && x != y
    requires bi[x] == Reverse(bi[u]) && bi[y] == Reverse(bi[v])
    ensures var first, second := bi[u], bi[v];
      var n1, n2 := NewFirst(first, second), NewSecond(first, second);
      multiset(uni) + multiset(bi[u := n1][v := n2][x := Reverse(n2)][y := Reverse(n1)]) ==
        edges + multiset{n1, n2, Reverse(n2), Reverse(n1)} - multiset{first, Reverse(first), second, Reverse(second)}
  {
    var first, second := bi[u], bi[v];
    var n1, n2 := NewFirst(first, second), NewSecond(first, second);
    var bi' := bi[u := n1][v := n2][x := Reverse(n2)][y := Reverse(n1)];
    var added := multiset{n1, n2, Reverse(n2), Reverse(n1)};
    FourUpdates(bi, u, v, x, y, n1, n2, Reverse(n2), Reverse(n1));
    FourSum(first, second, Reverse(first), Reverse(second));
    FourSum(first, Reverse(first), second, Reverse(second));
    Rebalance(multiset(uni), multiset(bi), multiset(bi'), edges, added,
      multiset{first}, multiset{second}, multiset{Reverse(first)}, multiset{Reverse(second)});
  }

  /** Replacing rows of one group: what the group gave up leaves the whole, what it took joins it. */
  lemma Rebalance(uni: multiset<Edge>, bi: multiset<Edge>, bi': multiset<Edge>, edges: multiset<Edge>, added: multiset<Edge>,
                  p: multiset<Edge>, q: multiset<Edge>, r: multiset<Edge>, t: multiset<Edge>)
    requires uni + bi == edges
    requires bi' + (p + q + r + t) == bi + added
    ensures uni + bi' == edges + added - (p + r + q + t)
  {
    forall e
      ensures (uni + bi' + (p + r + q + t))[e] == (edges + added)[e]
    {
      assert (uni + bi)[e] == edges[e];
      assert (bi' + (p + q + r + t))[e] == (bi + added)[e];
    }
    assert uni + bi' + (p + r + q + t) == edges + added;
    Shift(uni + bi', p + r + q + t, edges + added);
  }

  /** After an allowed double switch every bidirectional row still has its reverse among the rows. */
  lemma DoubleRowsClosed(bi: seq<Edge>, u: int, v: int, x: int, y: int)
    requires Distinct(bi) && Closed(bi)
    requires 0 <= u < |bi| && 0 <= v < |bi| && 0 <= x < |bi| && 0 <= y < |bi|
    requires u != v && u != x && u != y && v != x && v != y && x != y
    requires bi[x] == Reverse(bi[u]) && bi[y] == Reverse(bi[v])
    requires var n1 := NewFirst(bi[u], bi[v]); n1.0 != n1.1
    requires var n2 := NewSecond(bi[u], bi[v]); n2.0 != n2.1
    ensures var n1, n2 := NewFirst(bi[u], bi[v]), NewSecond(bi[u], bi[v]);
      Closed(bi[u := n1][v := n2][x := Reverse(n2)][y := Reverse(n1)])
  {
    var n1, n2 := NewFirst(bi[u], bi[v]), NewSecond(bi[u], bi[v]);
    var bi' := bi[u := n1][v := n2][x := Reverse(n2)][y := Reverse(n1)];
    forall i | 0 <= i < |bi'|
      ensures bi'[i].0 != bi'[i].1 && Reverse(bi'[i]) in bi'
    {
      if i == u {
        assert bi'[y] == Reverse(bi'[i]);
      } else if i == v {
        assert bi'[x] == Reverse(bi'[i]);
      } else if i == x {
        assert bi'[v] == Reverse(bi'[i]);
      } else if i == y {
        assert bi'[u] == Reverse(bi'[i]);
      } else {
        assert bi'[i] == bi[i];
        assert Reverse(bi[i]) in bi;
        var k :| 0 <= k < |bi| && bi[k] == Reverse(bi[i]);
        assert k != u && k != v && k != x && k != y;
        assert bi'[k] == Reverse(bi'[i]);
      }
    }
  }

  /** After an allowed double switch of rows u and v of the bidirectional group, the rows are still in step. */
  lemma DoubleSwitchSynced(edges: multiset<Edge>, uni: seq<Edge>, bi: seq<Edge>, u: int, v: int)
    requires Simple(edges) && Synced(edges, uni, bi)
    requires 0 <= u < |bi| && 0 <= v < |bi|
    requires CheckStandard(Support(edges), bi[u], bi[v])
    ensures var first, second := bi[u], bi[v];
      var n1, n2 := NewFirst(first, second), NewSecond(first, second);
      var edges' := edges + multiset{n1, n2, Reverse(n2), Reverse(n1)} - multiset{first, Reverse(first), second, Reverse(second)};
      Simple(edges') && Synced(edges', uni, DoubleRows(bi, first, second, u, v)) &&
      Support(edges') == DoubleSwitch(Support(edges), first, second)
  {
    var first, second := bi[u], bi[v];
    var n1, n2 := NewFirst(first, second), NewSecond(first, second);
    BiRow(edges, uni, bi, u);
    BiRow(edges, uni, bi, v);
    AcceptedEnds(Support(edges), first, second);
    DoubleSwitchSupport(edges, first, second);
    SyncedDistinct(edges, uni, bi);
    assert Reverse(first) in bi && Reverse(second) in bi;
    var x :| 0 <= x < |bi| && bi[x] == Reverse(first);
    var y :| 0 <= y < |bi| && bi[y] == Reverse(second);
    DoubleRowsUpdate(bi, u, v, x, y);
    DoubleRowsClosed(bi, u, v, x, y);
    DoubleRowsCount(edges, uni, bi, u, v, x, y);
  }

  /** The edges whose reverse is an edge too: the bidirectional links. */
  function Reciprocal(edges: set<Edge>): set<Edge>
  {
    set e | e in edges && Reverse(e) in edges
  }

  /** No unidirectional row has its reverse in the graph. */
  predicate Unreciprocated(edges: multiset<Edge>, uni: seq<Edge>)
  {
    forall i | 0 <= i < |uni| :: Reverse(uni[i]) !in edges
  }

  /** The standard grouping puts no reciprocated edge among the unidirectional rows. */
  lemma GroupsUnreciprocated(edges: multiset<Edge>, order: seq<Edge>)
    requires multiset(order) == edges
    ensures Unreciprocated(edges, Group(Support(edges), order, false, false))
  {
    var uni := Group(Support(edges), order, false, false);
    GroupsPartition(Support(edges), order, false);
    forall i | 0 <= i < |uni|
      ensures Reverse(uni[i]) !in edges
    {
      assert uni[i] in uni;
    }
  }

  /** In step with the rows, the bidirectional links of the graph are exactly the bidirectional rows. */
  lemma ReciprocalRows(edges: multiset<Edge>, uni: seq<Edge>, bi: seq<Edge>)
    requires Simple(edges) && Synced(edges, uni, bi) && Unreciprocated(edges, uni)
    ensures Reciprocal(Support(edges)) == Elements(bi)
    ensures |Reciprocal(Support(edges))| == |bi|
  {
    forall e | e in Reciprocal(Support(edges))
      ensures e in Elements(bi)
    {
      assert e in multiset(uni) + multiset(bi);
    }
    forall e | e in Elements(bi)
      ensures e in Reciprocal(Support(edges))
    {
      var i :| 0 <= i < |bi| && bi[i] == e;
      BiRow(edges, uni, bi, i);
    }
    SyncedDistinct(edges, uni, bi);
    DistinctCardinality(bi);
  }

  /** Without self-loops, an allowed single switch creates no bidirectional link. */
  lemma SingleSwitchUnreciprocated(edges: multiset<Edge>, uni: seq<Edge>, bi: seq<Edge>, u: int, v: int)
    requires Simple(edges) && Synced(edges, uni, bi) && Unreciprocated(edges, uni)
    requires NoSelfLoops(Support(edges))
    requires 0 <= u < |uni| && 0 <= v < |uni|
    requires CheckStandard(Support(edges), uni[u], uni[v])
    ensures var first, second := uni[u], uni[v];
      var n1, n2 := NewFirst(first, second), NewSecond(first, second);
      var edges' := edges + multiset{n1, n2} - multiset{first, second};
      Unreciprocated(edges', uni[u := n1][v := n2])
  {
    var first, second := uni[u], uni[v];
    var n1, n2 := NewFirst(first, second), NewSecond(first, second);
    var edges' := edges + multiset{n1, n2} - multiset{first, second};
    var uni' := uni[u := n1][v := n2];
    SingleSwitchSynced(edges, uni, bi, u, v);
    UniRow(edges, uni, bi, u);
    assert first.0 != first.1;
    forall i | 0 <= i < |uni'|
      ensures Reverse(uni'[i]) !in Support(edges')
    {
      if i != u && i != v {
        UniRow(edges, uni, bi, i);
      }
    }
  }

  /** An allowed double switch creates no reverse of a unidirectional row. */
  lemma DoubleSwitchUnreciprocated(edges: multiset<Edge>, uni: seq<Edge>, bi: seq<Edge>, u: int, v: int)
    requires Simple(edges) && Synced(edges, uni, bi) && Unreciprocated(edges, uni)
    requires 0 <= u < |bi| && 0 <= v < |bi|
    requires CheckStandard(Support(edges), bi[u], bi[v])
    ensures var first, second := bi[u], bi[v];
      var n1, n2 := NewFirst(first, second), NewSecond(first, second);
      var edges' := edges + multiset{n1, n2, Reverse(n2), Reverse(n1)} - multiset{first, Reverse(first), second, Reverse(second)};
      Unreciprocated(edges', uni)
  {
    var first, second := bi[u], bi[v];
    var n1, n2 := NewFirst(first, second), NewSecond(first, second);
    var edges' := edges + multiset{n1, n2, Reverse(n2), Reverse(n1)} - multiset{first, Reverse(first), second, Reverse(second)};
    BiRow(edges, uni, bi, u);
    BiRow(edges, uni, bi, v);
    DoubleSwitchSupport(edges, first, second);
    forall i | 0 <= i < |uni|
      ensures Reverse(uni[i]) !in Support(edges')
    {
      UniRow(edges, uni, bi, i);
    }
  }

  /** Overwriting one position trades the old entry for the new one. */
  lemma OneUpdate(s: seq<Edge>, i: int, a: Edge)
    requires 0 <= i < |s|
    ensures multiset(s[i := a]) + multiset{s[i]} == multiset(s) + multiset{a}
  {
    assert s == s[..i] + [s[i]] + s[i + 1..];
    assert s[i := a] == s[..i] + [a] + s[i + 1..];
  }

  /** Overwriting four distinct positions trades the four old entries for the four new ones. */
  lemma FourUpdates(s: seq<Edge>, u: int, v: int, x: int, y: int, a: Edge, b: Edge, c: Edge, d: Edge)
    requires 0 <= u < |s| && 0 <= v < |s| && 0 <= x < |s| && 0 <= y < |s|
    requires u != v && u != x && u != y && v != x && v != y && x != y
    ensures multiset(s[u := a][v := b][x := c][y := d]) + multiset{s[u], s[v], s[x], s[y]} ==
      multiset(s) + multiset{a, b, c, d}
  {
    var s1 := s[u := a];
    var s2 := s1[v := b];
    var s3 := s2[x := c];
    OneUpdate(s, u, a);
    OneUpdate(s1, v, b);
    OneUpdate(s2, x, c);
    OneUpdate(s3, y, d);
    assert s1[v] == s[v] && s2[x] == s[x] && s3[y] == s[y];
    TradeChain(multiset(s), multiset(s1), multiset(s2), multiset(s3), multiset(s3[y := d]),
      multiset{s[u]}, multiset{s[v]}, multiset{s[x]}, multiset{s[y]},
      multiset{a}, multiset{b}, multiset{c}, multiset{d});
    FourSum(s[u], s[v], s[x], s[y]);
    FourSum(a, b, c, d);
  }

  /** Four trades, one after the other, add up to one trade. */
  lemma TradeChain(m0: multiset<Edge>, m1: multiset<Edge>, m2: multiset<Edge>, m3: multiset<Edge>, m4: multiset<Edge>,
                   p: multiset<Edge>, q: multiset<Edge>, r: multiset<Edge>, t: multiset<Edge>,
                   a: multiset<Edge>, b: multiset<Edge>, c: multiset<Edge>, d: multiset<Edge>)
    requires m1 + p == m0 + a
    requires m2 + q == m1 + b
    requires m3 + r == m2 + c
    requires m4 + t == m3 + d
    ensures m4 + (p + q + r + t) == m0 + (a + b + c + d)
  {
    forall e
      ensures (m4 + (p + q + r + t))[e] == (m0 + (a + b + c + d))[e]
    {
      assert (m1 + p)[e] == (m0 + a)[e];
      assert (m2 + q)[e] == (m1 + b)[e];
      assert (m3 + r)[e] == (m2 + c)[e];
      assert (m4 + t)[e] == (m3 + d)[e];
    }
  }

  /** A four-element multiset is the sum of its singletons. */
  lemma FourSum(p: Edge, q: Edge, r: Edge, t: Edge)
    ensures multiset{p, q, r, t} == multiset{p} + multiset{q} + multiset{r} + multiset{t}
  {
  }

  /** Taking back what was added. */
  lemma Shift(m: multiset<Edge>, r: multiset<Edge>, n: multiset<Edge>)
    requires m + r == n
    ensures m == n - r
  {
  }

  lemma SameDegreesRefl(e: set<Edge>)
    ensures SameDegrees(e, e)
  {
  }

  lemma SameDegreesTrans(e1: set<Edge>, e2: set<Edge>, e3: set<Edge>)
    requires SameDegrees(e1, e2) && SameDegrees(e2, e3)
    ensures SameDegrees(e1, e3)
  {
  }

  /** The share `successes / expected` that `randomise` reports. */
  function Ratio(successes: int, expected: int): real
    requires expected > 0
  {
    successes as real / expected as real
  }

  /** A share of successes out of a positive number of expected switches lies in [0, 1]. */
  lemma Share(successes: int, expected: int)
    requires 0 <= successes <= expected && expected > 0
    ensures 0.0 <= Ratio(successes, expected) <= 1.0
  {
  }

  // ---------------------------------------------------------------------------
  // The rewiring object
  // ---------------------------------------------------------------------------

  /** A row of `track`: expected switches, attempts left, successful switches, last row index. */
  datatype TrackRow = TrackRow(expected: int, left: int, successes: int, last: int)

  /** One attempt's random numbers: the category draw and the two row draws. */
  datatype Draw = Draw(choice: nat, u: nat, v: nat)

  /** The setup of one category: `flip * arity * size` attempts, only when the group has more rows than its arity. */
  function Budget(flip: int, arity: nat, size: nat): (t: TrackRow)
    ensures t.left == t.expected && t.successes == 0
    ensures size > arity ==> t.expected == flip * arity * size && t.last == size - 1
    ensures size <= arity ==> t == TrackRow(0, 0, 0, 0)
    ensures arity > 0 ==> (t.left > 0 <==> flip > 0 && size > arity)
  {
    if size > arity then TrackRow(flip * arity * size, flip * arity * size, 0, size - 1)
    else TrackRow(0, 0, 0, 0)
  }

  /**
    The category the i-th attempt switches in. Its probability in the source is
    proportional to its attempts left, so exactly the categories with attempts
    left can be drawn; `choice` says which.
  */
  function Pick(track: seq<TrackRow>, choice: nat): (j: nat)
    requires |track| == 2 && track[0].left + track[1].left > 0
    ensures j < 2 && track[j].left > 0
    ensures track[0].left > 0 && track[1].left > 0 ==> j == choice % 2
  {
    if track[0].left > 0 && track[1].left > 0 then choice % 2
    else if track[0].left > 0 then 0
    else 1
  }

  /** A row of `track` during the loop, against its row at the start: the budget and range stay, attempts are only spent. */
  predicate Tracked(t: TrackRow, t0: TrackRow)
  {
    t.expected == t0.expected && t.last == t0.last &&
    0 <= t.successes && 0 <= t.left <= t0.left && t.successes + t.left <= t.expected
  }

  /** The expected number of switches over both categories of a graph listed by `order`. */
  function Expected(flip: int, edges: set<Edge>, order: seq<Edge>, selfLinks: bool): int
  {
    Budget(flip, 1, |Group(edges, order, selfLinks, false)|).expected +
    Budget(flip, 2, |Group(edges, order, selfLinks, true)|).expected
  }

  /** One attempt of the loop: its category, the two rows drawn, and whether `check_standard` allowed the switch. */
  datatype Attempted = Attempted(j: Kind, first: Edge, second: Edge, ok: bool)

  /** The two categories of the loop: 0 unidirectional, 1 bidirectional. */
  type Kind = k: nat | k < 2

  /**
    The trade of a switch of category j on two rows: the single trade of
    `_switch_single`, or the trade of both reciprocal pairs of `_switch_double`.
  */
  function Traded(j: Kind, first: Edge, second: Edge, edges: multiset<Edge>): multiset<Edge>
  {
    var n1, n2 := NewFirst(first, second), NewSecond(first, second);
    if j == 0 then edges + multiset{n1, n2} - multiset{first, second}
    else edges + multiset{n1, n2, Reverse(n2), Reverse(n1)}
         - multiset{first, Reverse(first), second, Reverse(second)}
  }

  /** The edges after an attempt: its trade when it was allowed, otherwise unchanged. */
  function Outcome(a: Attempted, edges: multiset<Edge>): multiset<Edge>
  {
    if a.ok then Traded(a.j, a.first, a.second, edges) else edges
  }

  /** The edges after the attempts of a trace, made in order from `edges`. */
  function Replay(edges: multiset<Edge>, trace: seq<Attempted>): multiset<Edge>
  {
    if trace == [] then edges
    else Outcome(trace[|trace| - 1], Replay(edges, trace[..|trace| - 1]))
  }

  /** Every verdict of the trace is `check_standard`'s on the edges of its time. */
  predicate Faithful(edges: multiset<Edge>, trace: seq<Attempted>)
  {
    trace == [] ||
    var n := |trace| - 1;
    Faithful(edges, trace[..n]) &&
    trace[n].ok == CheckStandard(Support(Replay(edges, trace[..n])), trace[n].first, trace[n].second)
  }

  /** How many attempts of category k in the trace were allowed. */
  function Accepted(trace: seq<Attempted>, k: nat): nat
  {
    if trace == [] then 0
    else
      var n := |trace| - 1;
      Accepted(trace[..n], k) + if trace[n].j == k && trace[n].ok then 1 else 0
  }

  /** The switches of a trace that were allowed, over both categories. */
  function AcceptedAll(trace: seq<Attempted>): nat
  {
    Accepted(trace, 0) + Accepted(trace, 1)
  }

  /**
    An attempt on two present edges, judged by `check_standard`, changes the
    graph exactly when it was allowed: an allowed switch always creates an
    edge that was absent.
  */
  lemma OutcomeChanges(a: Attempted, edges: multiset<Edge>)
    requires a.first in edges && a.second in edges
    requires a.ok == CheckStandard(Support(edges), a.first, a.second)
    ensures Outcome(a, edges) != edges <==> a.ok
  {
    if a.ok {
      var n1 := NewFirst(a.first, a.second);
      AcceptedEnds(Support(edges), a.first, a.second);
      assert n1 !in edges;
      assert n1 != a.first && n1 != a.second;
      if a.j != 0 {
        assert n1 != Reverse(a.first) && n1 != Reverse(a.second);
      }
      assert n1 in Outcome(a, edges);
    }
  }

  /** Every attempt of a trace is counted in at most one category. */
  lemma {:induction false} AcceptedBound(trace: seq<Attempted>)
    ensures AcceptedAll(trace) <= |trace|
  {
    if trace != [] {
      AcceptedBound(trace[..|trace| - 1]);
    }
  }

  /** A trace whose attempts were all refused leaves the edges as they were. */
  lemma {:induction false} NoneAccepted(edges: multiset<Edge>, trace: seq<Attempted>)
    requires AcceptedAll(trace) == 0
    ensures Replay(edges, trace) == edges
  {
    if trace != [] {
      var n := |trace| - 1;
      NoneAccepted(edges, trace[..n]);
    }
  }

  /**
    Booking one attempt: if the graph and the successes were those of a
    faithful trace before it, and the attempt's verdict is `check_standard`'s
    on that graph, they are those of the trace extended by it afterwards.
  */
  lemma BookAttempt(e0: multiset<Edge>, trace: seq<Attempted>, a: Attempted, before: multiset<Edge>, after: multiset<Edge>,
                    t: seq<TrackRow>, t': seq<TrackRow>)
    requires |t| == 2
    requires before == Replay(e0, trace) && Faithful(e0, trace)
    requires a.ok == CheckStandard(Support(before), a.first, a.second) && after == Outcome(a, before)
    requires t[0].successes == Accepted(trace, 0) && t[1].successes == Accepted(trace, 1)
    requires t' == Book(t, a.j, if a.ok then 1 else 0)
    ensures after == Replay(e0, trace + [a]) && Faithful(e0, trace + [a])
    ensures t'[0].successes == Accepted(trace + [a], 0) && t'[1].successes == Accepted(trace + [a], 1)
  {
    ReplaySnoc(e0, trace, a);
    BookCount(trace, a, t, t');
  }

  /** Booking one attempt adds it to the successes of its category when it was allowed. */
  lemma BookCount(trace: seq<Attempted>, a: Attempted, t: seq<TrackRow>, t': seq<TrackRow>)
    requires |t| == 2
    requires t[0].successes == Accepted(trace, 0) && t[1].successes == Accepted(trace, 1)
    requires t' == Book(t, a.j, if a.ok then 1 else 0)
    ensures |t'| == 2
    ensures t'[0].successes == Accepted(trace + [a], 0) && t'[1].successes == Accepted(trace + [a], 1)
  {
    AcceptedSnoc(trace, a, 0);
    AcceptedSnoc(trace, a, 1);
    if a.j == 0 {
      assert t'[1] == t[1];
    } else {
      assert t'[0] == t[0];
    }
  }

  /** Replaying and judging a trace extended by one attempt. */
  lemma ReplaySnoc(edges: multiset<Edge>, trace: seq<Attempted>, a: Attempted)
    ensures Replay(edges, trace + [a]) == Outcome(a, Replay(edges, trace))
    ensures Faithful(edges, trace + [a]) <==>
              Faithful(edges, trace) && a.ok == CheckStandard(Support(Replay(edges, trace)), a.first, a.second)
  {
    assert (trace + [a])[..|trace|] == trace;
  }

  /** Counting the allowed attempts of a trace extended by one attempt. */
  lemma AcceptedSnoc(trace: seq<Attempted>, a: Attempted, k: nat)
    ensures Accepted(trace + [a], k) == Accepted(trace, k) + if a.j == k && a.ok then 1 else 0
  {
    assert (trace + [a])[..|trace|] == trace;
  }

  /** The attempt was made on the rows the draw d picks out of `rows`, its category's group. */
  predicate Drew(a: Attempted, d: Draw, rows: seq<Edge>)
  {
    0 < |rows| && a.first == rows[d.u % |rows|] && a.second == rows[d.v % |rows|]
  }

  /** Booking an attempt of category j with outcome s: one attempt fewer left, s more successes. */
  function Book(track: seq<TrackRow>, j: nat, s: int): seq<TrackRow>
    requires j < |track|
  {
    track[j := track[j].(left := track[j].left - 1, successes := track[j].successes + s)]
  }

  /** The state the rewiring loop keeps: a simple directed graph whose edges the two row arrays list. */
  ghost predicate Rewirable(g: Graph, uni: seq<Edge>, bi: seq<Edge>)
    reads g
  {
    g.Valid() && g.directed && !g.multi && Synced(g.edges, uni, bi)
  }

  /** The indices of the rows holding `e`, ascending, as the `nonzero` lookups of `_switch_double` find them. */
  method FindRows(group: array<Edge>, e: Edge) returns (rows: seq<int>)
    ensures forall i :: i in rows <==> 0 <= i < group.Length && group[i] == e
    ensures forall k | 0 <= k < |rows| - 1 :: rows[k] < rows[k + 1]
  {
    rows := [];
    for i := 0 to group.Length
      invariant forall k :: k in rows <==> 0 <= k < i && group[k] == e
      invariant forall k | 0 <= k < |rows| :: rows[k] < i
      invariant forall k | 0 <= k < |rows| - 1 :: rows[k] < rows[k + 1]
    {
      if group[i] == e {
        rows := rows + [i];
      }
    }
  }

  /** The rows after `bunch[rows] = e`: every listed row holds e, the others are kept. */
  function Overwrite(s: seq<Edge>, rows: seq<int>, e: Edge): (t: seq<Edge>)
    ensures |t| == |s|
    ensures forall i | 0 <= i < |s| :: t[i] == if i in rows then e else s[i]
  {
    seq(|s|, i requires 0 <= i < |s| => if i in rows then e else s[i])
  }

  lemma OverwriteOne(s: seq<Edge>, i: int, e: Edge)
    requires 0 <= i < |s|
    ensures Overwrite(s, [i], e) == s[i := e]
  {
  }

  /** The intermediate edge multisets of an allowed single switch: both adds insert, both removes find their edge. */
  lemma SingleSwitchSteps(e0: multiset<Edge>, first: Edge, second: Edge)
    requires first in e0 && second in e0 && CheckStandard(Support(e0), first, second)
    ensures var n1, n2 := NewFirst(first, second), NewSecond(first, second);
      n1 !in e0 && n2 !in e0 + multiset{n1} &&
      first in e0 + multiset{n1} + multiset{n2} &&
      second in e0 + multiset{n1} + multiset{n2} - multiset{first} &&
      e0 + multiset{n1} + multiset{n2} - multiset{first} - multiset{second} == e0 + multiset{n1, n2} - multiset{first, second}
  {
    AcceptedEnds(Support(e0), first, second);
  }

  /**
    The rows after an allowed double switch of rows u and v: u and v get (a, d)
    and (c, b), then every row that held (b, a) gets (b, c) and every row that
    held (d, c) gets (d, a), in the order `_switch_double` writes them.
  */
  function DoubleRows(s: seq<Edge>, first: Edge, second: Edge, u: int, v: int): (t: seq<Edge>)
    ensures |t| == |s|
  {
    var n1, n2 := NewFirst(first, second), NewSecond(first, second);
    seq(|s|, i requires 0 <= i < |s| =>
      if s[i] == Reverse(second) then Reverse(n1)
      else if s[i] == Reverse(first) then Reverse(n2)
      else if i == v then n2
      else if i == u then n1
      else s[i])
  }

  /** The four row writes of `_switch_double` compose to `DoubleRows`. */
  lemma DoubleRowsSteps(s: seq<Edge>, first: Edge, second: Edge, u: int, v: int, x: seq<int>, y: seq<int>)
    requires 0 <= u < |s| && 0 <= v < |s|
    requires forall i :: i in x <==> 0 <= i < |s| && s[i] == Reverse(first)
    requires forall i :: i in y <==> 0 <= i < |s| && s[i] == Reverse(second)
    ensures var n1, n2 := NewFirst(first, second), NewSecond(first, second);
      Overwrite(Overwrite(s[u := n1][v := n2], x, Reverse(n2)), y, Reverse(n1)) == DoubleRows(s, first, second, u, v)
  {
  }

  /** The four adds of an allowed double switch each insert a new edge. */
  lemma DoubleAddSteps(e0: multiset<Edge>, first: Edge, second: Edge)
    requires first in e0 && second in e0 && Reverse(first) in e0 && Reverse(second) in e0
    requires first.0 != first.1 && second.0 != second.1
    requires CheckStandard(Support(e0), first, second)
    ensures var n1, n2 := NewFirst(first, second), NewSecond(first, second);
      n1 !in e0 && n2 !in e0 + multiset{n1} && Reverse(n2) !in e0 + multiset{n1} + multiset{n2} &&
      Reverse(n1) !in e0 + multiset{n1} + multiset{n2} + multiset{Reverse(n2)} &&
      e0 + multiset{n1} + multiset{n2} + multiset{Reverse(n2)} + multiset{Reverse(n1)} ==
        e0 + multiset{n1, n2, Reverse(n2), Reverse(n1)}
  {
    AcceptedEnds(Support(e0), first, second);
  }

  /** The four removes of a double switch each find their edge when the four are distinct and present. */
  lemma DoubleRemoveSteps(a: multiset<Edge>, first: Edge, second: Edge)
    requires first in a && second in a && Reverse(first) in a && Reverse(second) in a
    requires first.0 != first.1 && second.0 != second.1
    requires first != second && first != Reverse(second)
    ensures Reverse(first) in a - multiset{first} &&
      second in a - multiset{first} - multiset{Reverse(first)} &&
      Reverse(second) in a - multiset{first} - multiset{Reverse(first)} - multiset{second} &&
      a - multiset{first} - multiset{Reverse(first)} - multiset{second} - multiset{Reverse(second)} ==
        a - multiset{first, Reverse(first), second, Reverse(second)}
  {
  }

  class NetworkRewiring {
    var graph: Graph?
    var makeGroups: GroupMaker

    /**
      What the rewiring loop keeps after the attempts of `trace` from the
      edges e0: the rows still list a simple graph with e0's degrees, no
      self-loop appears, no reciprocal link appears among the unidirectional
      rows of a clean start, and the graph and the successes are those the
      trace gives.
    */
    ghost predicate Kept(uniRows: array<Edge>, biRows: array<Edge>, track0: seq<TrackRow>, track: seq<TrackRow>,
                         e0: multiset<Edge>, clean: bool, trace: seq<Attempted>)
      reads this, graph, uniRows, biRows
    {
      graph != null && Rewirable(graph, uniRows[..], biRows[..]) &&
      SameDegrees(Support(graph.edges), Support(e0)) &&
      (NoSelfLoops(Support(e0)) ==> NoSelfLoops(Support(graph.edges))) &&
      (clean ==> NoSelfLoops(Support(e0)) && Unreciprocated(graph.edges, uniRows[..])) &&
      |track0| == 2 && |track| == 2 && Tracked(track[0], track0[0]) && Tracked(track[1], track0[1]) &&
      graph.edges == Replay(e0, trace) && Faithful(e0, trace) &&
      track[0].successes == Accepted(trace, 0) && track[1].successes == Accepted(trace, 1)
    }

    /** The standard legality test and the standard grouping, no graph yet. */
    constructor ()
      ensures graph == null && makeGroups == Standard
    {
      graph := null;
      makeGroups := Standard;
    }

    /** `_add_edge`: adds the edge to the graph and writes it into the given rows. */
    method AddEdge(src: Node, tar: Node, bunch: array<Edge>, rows: seq<int>)
      requires graph != null && graph.Valid() && graph.directed && !graph.multi
      requires forall i | i in rows :: 0 <= i < bunch.Length
      modifies graph, bunch
      ensures graph.Valid() && graph.nodes == old(graph.nodes) + {src, tar}
      ensures src in old(graph.nodes) && tar in old(graph.nodes) ==> graph.nodes == old(graph.nodes)
      ensures (src, tar) in old(graph.edges) ==> graph.edges == old(graph.edges)
      ensures (src, tar) !in old(graph.edges) ==> graph.edges == old(graph.edges) + multiset{(src, tar)}
      ensures bunch[..] == Overwrite(old(bunch[..]), rows, (src, tar))
    {
      graph.AddEdge(src, tar);
      for k := 0 to |rows|
        modifies bunch
        invariant forall i | 0 <= i < bunch.Length :: bunch[i] == if i in rows[..k] then (src, tar) else old(bunch[i])
      {
        assert rows[..k + 1] == rows[..k] + [rows[k]];
        assert rows[k] in rows;
        bunch[rows[k]] := (src, tar);
      }
      assert rows[..|rows|] == rows;
      assert bunch[..] == Overwrite(old(bunch[..]), rows, (src, tar));
    }

    /** `_remove_edge`: networkx raises for a missing edge, so the edge must be there; the rows stay as they are. */
    method RemoveEdge(src: Node, tar: Node, bunch: array<Edge>)
      requires graph != null && graph.Valid() && graph.directed && (src, tar) in graph.edges
      modifies graph
      ensures graph.Valid() && graph.nodes == old(graph.nodes)
      ensures graph.edges == old(graph.edges) - multiset{(src, tar)}
      ensures bunch[..] == old(bunch[..])
    {
      graph.RemoveEdge(src, tar);
    }

    /** `_switch_single` on rows u and v: an allowed switch rewires the graph and both rows and returns 1. */
    method SwitchSingle(first: Edge, second: Edge, group: array<Edge>, u: int, v: int) returns (switched: int)
      requires graph != null && graph.Valid() && graph.directed && !graph.multi
      requires 0 <= u < group.Length && 0 <= v < group.Length && group[u] == first && group[v] == second
      requires first in graph.edges && second in graph.edges
      modifies graph, group
      ensures graph.Valid() && graph.nodes == old(graph.nodes)
      ensures switched == if CheckStandard(Support(old(graph.edges)), first, second) then 1 else 0
      ensures switched == 1 ==>
        graph.edges == old(graph.edges) + multiset{NewFirst(first, second), NewSecond(first, second)} - multiset{first, second}
      ensures switched == 1 ==> group[..] == old(group[..])[u := NewFirst(first, second)][v := NewSecond(first, second)]
      ensures switched == 0 ==> graph.edges == old(graph.edges) && group[..] == old(group[..])
    {
      if CheckStandard(Support(graph.edges), first, second) {
        ghost var e0, rows0 := graph.edges, group[..];
        var n1, n2 := NewFirst(first, second), NewSecond(first, second);
        SingleSwitchSteps(e0, first, second);
        assert first.0 in graph.nodes && first.1 in graph.nodes && second.0 in graph.nodes && second.1 in graph.nodes;
        AddEdge(first.0, second.1, group, [u]);
        AddEdge(second.0, first.1, group, [v]);
        OverwriteOne(rows0, u, n1);
        OverwriteOne(rows0[u := n1], v, n2);
        ghost var rows2 := group[..];
        assert rows2 == rows0[u := n1][v := n2];
        RemoveEdge(first.0, first.1, group);
        RemoveEdge(second.0, second.1, group);
        return 1;
      } else {
        return 0;
      }
    }

    /**
      `_switch_double` on rows u and v of the bidirectional group: the rows of
      the two reverse edges are looked up first; an allowed switch replaces
      both reciprocal pairs in the graph and in the rows and returns 1.
    */
    method SwitchDouble(first: Edge, second: Edge, group: array<Edge>, u: int, v: int) returns (switched: int)
      requires graph != null && graph.Valid() && graph.directed && !graph.multi
      requires 0 <= u < group.Length && 0 <= v < group.Length && group[u] == first && group[v] == second
      requires first in graph.edges && second in graph.edges
      requires Reverse(first) in graph.edges && Reverse(second) in graph.edges
      requires first.0 != first.1 && second.0 != second.1
      modifies graph, group
      ensures graph.Valid() && graph.nodes == old(graph.nodes)
      ensures switched == if CheckStandard(Support(old(graph.edges)), first, second) then 1 else 0
      ensures switched == 1 ==>
        var n1, n2 := NewFirst(first, second), NewSecond(first, second);
        graph.edges == old(graph.edges) + multiset{n1, n2, Reverse(n2), Reverse(n1)}
          - multiset{first, Reverse(first), second, Reverse(second)}
      ensures switched == 1 ==> group[..] == DoubleRows(old(group[..]), first, second, u, v)
      ensures switched == 0 ==> graph.edges == old(graph.edges) && group[..] == old(group[..])
    {
      ghost var rows0 := group[..];
      var x := FindRows(group, Reverse(first));
      var y := FindRows(group, Reverse(second));
      assert forall i :: i in x <==> 0 <= i < |rows0| && rows0[i] == Reverse(first);
      assert forall i :: i in y <==> 0 <= i < |rows0| && rows0[i] == Reverse(second);
      if CheckStandard(Support(graph.edges), first, second) {
        ghost var e0 := graph.edges;
        AcceptedEnds(Support(e0), first, second);
        AddSwitchedPairs(first, second, group, u, v, x, y);
        DoubleRowsSteps(rows0, first, second, u, v, x, y);
        RemoveSwitchedPairs(first, second, group);
        return 1;
      } else {
        return 0;
      }
    }

    /** The four `_add_edge` calls of an allowed double switch: rows u, v, then the rows x and y of the reverse edges. */
    method AddSwitchedPairs(first: Edge, second: Edge, group: array<Edge>, u: int, v: int, x: seq<int>, y: seq<int>)
      requires graph != null && graph.Valid() && graph.directed && !graph.multi
      requires 0 <= u < group.Length && 0 <= v < group.Length
      requires forall i | i in x :: 0 <= i < group.Length
      requires forall i | i in y :: 0 <= i < group.Length
      requires first in graph.edges && second in graph.edges
      requires Reverse(first) in graph.edges && Reverse(second) in graph.edges
      requires first.0 != first.1 && second.0 != second.1
      requires CheckStandard(Support(graph.edges), first, second)
      modifies graph, group
      ensures graph.Valid() && graph.nodes == old(graph.nodes)
      ensures var n1, n2 := NewFirst(first, second), NewSecond(first, second);
        graph.edges == old(graph.edges) + multiset{n1, n2, Reverse(n2), Reverse(n1)} &&
        group[..] == Overwrite(Overwrite(old(group[..])[u := n1][v := n2], x, Reverse(n2)), y, Reverse(n1))
    {
      ghost var rows0 := group[..];
      var n1, n2 := NewFirst(first, second), NewSecond(first, second);
      DoubleAddSteps(graph.edges, first, second);
      assert first.0 in graph.nodes && first.1 in graph.nodes && second.0 in graph.nodes && second.1 in graph.nodes;
      AddEdge(first.0, second.1, group, [u]);
      AddEdge(second.0, first.1, group, [v]);
      AddEdge(first.1, second.0, group, x);
      AddEdge(second.1, first.0, group, y);
      OverwriteOne(rows0, u, n1);
      OverwriteOne(rows0[u := n1], v, n2);
    }

    /** The four `_remove_edge` calls of a double switch: both old reciprocal pairs go, the rows stay. */
    method RemoveSwitchedPairs(first: Edge, second: Edge, group: array<Edge>)
      requires graph != null && graph.Valid() && graph.directed
      requires first in graph.edges && second in graph.edges
      requires Reverse(first) in graph.edges && Reverse(second) in graph.edges
      requires first.0 != first.1 && second.0 != second.1
      requires first != second && first != Reverse(second)
      modifies graph
      ensures graph.Valid() && graph.nodes == old(graph.nodes)
      ensures graph.edges == old(graph.edges) - multiset{first, Reverse(first), second, Reverse(second)}
      ensures group[..] == old(group[..])
    {
      DoubleRemoveSteps(graph.edges, first, second);
      RemoveEdge(first.0, first.1, group);
      RemoveEdge(first.1, first.0, group);
      RemoveEdge(second.0, second.1, group);
      RemoveEdge(second.1, second.0, group);
    }

    /**
      One attempt of the rewiring loop in category j: rows u and v of the
      unidirectional group are switched singly, those of the bidirectional
      group doubly. The rows stay in step with the graph and the degrees stay
      as they were; the graph is the outcome of the drawn attempt `a`, and
      the result is 1 exactly when `check_standard` allowed it.
    */
    method Attempt(j: nat, u: nat, v: nat, uniRows: array<Edge>, biRows: array<Edge>)
      returns (s: int, ghost a: Attempted)
      requires j < 2 && graph != null && uniRows != biRows
      requires Rewirable(graph, uniRows[..], biRows[..])
      requires j == 0 ==> u < uniRows.Length && v < uniRows.Length
      requires j == 1 ==> u < biRows.Length && v < biRows.Length
      modifies graph, uniRows, biRows
      ensures Rewirable(graph, uniRows[..], biRows[..]) && graph.nodes == old(graph.nodes)
      ensures SameDegrees(Support(graph.edges), Support(old(graph.edges)))
      ensures NoSelfLoops(Support(old(graph.edges))) ==> NoSelfLoops(Support(graph.edges))
      ensures NoSelfLoops(Support(old(graph.edges))) && Unreciprocated(old(graph.edges), old(uniRows[..])) ==>
        Unreciprocated(graph.edges, uniRows[..])
      ensures a.j == j
      ensures j == 0 ==> a.first == old(uniRows[..])[u] && a.second == old(uniRows[..])[v]
      ensures j == 1 ==> a.first == old(biRows[..])[u] && a.second == old(biRows[..])[v]
      ensures a.ok == CheckStandard(Support(old(graph.edges)), a.first, a.second)
      ensures s == if a.ok then 1 else 0
      ensures graph.edges == Outcome(a, old(graph.edges))
    {
      if j == 0 {
        ghost var rows := uniRows[..];
        ghost var first, second := rows[u], rows[v];
        assert first == uniRows[u] && second == uniRows[v];
        s := AttemptSingle(u, v, uniRows, biRows);
        a := Attempted(0, first, second, s == 1);
      } else {
        ghost var rows := biRows[..];
        ghost var first, second := rows[u], rows[v];
        assert first == biRows[u] && second == biRows[v];
        s := AttemptDouble(u, v, uniRows, biRows);
        a := Attempted(1, first, second, s == 1);
      }
    }

    /** An attempt in the unidirectional group. */
    method AttemptSingle(u: nat, v: nat, uniRows: array<Edge>, biRows: array<Edge>) returns (s: int)
      requires graph != null && uniRows != biRows
      requires Rewirable(graph, uniRows[..], biRows[..])
      requires u < uniRows.Length && v < uniRows.Length
      modifies graph, uniRows
      ensures Rewirable(graph, uniRows[..], biRows[..]) && graph.nodes == old(graph.nodes)
      ensures SameDegrees(Support(graph.edges), Support(old(graph.edges)))
      ensures NoSelfLoops(Support(old(graph.edges))) ==> NoSelfLoops(Support(graph.edges))
      ensures NoSelfLoops(Support(old(graph.edges))) && Unreciprocated(old(graph.edges), old(uniRows[..])) ==>
        Unreciprocated(graph.edges, uniRows[..])
      ensures s == if CheckStandard(Support(old(graph.edges)), old(uniRows[u]), old(uniRows[v])) then 1 else 0
      ensures graph.edges == if s == 1 then Traded(0, old(uniRows[u]), old(uniRows[v]), old(graph.edges)) else old(graph.edges)
    {
      ghost var e0, uni0, bi0 := graph.edges, uniRows[..], biRows[..];
      var first, second := uniRows[u], uniRows[v];
      UniRow(e0, uni0, bi0, u);
      UniRow(e0, uni0, bi0, v);
      s := SwitchSingle(first, second, uniRows, u, v);
      assert biRows[..] == bi0;
      if s == 1 {
        var n1, n2 := NewFirst(first, second), NewSecond(first, second);
        assert graph.edges == e0 + multiset{n1, n2} - multiset{first, second};
        assert uniRows[..] == uni0[u := n1][v := n2];
        SingleSwitchSynced(e0, uni0, bi0, u, v);
        SingleSwitchDegrees(Support(e0), first, second);
        if NoSelfLoops(Support(e0)) && Unreciprocated(e0, uni0) {
          SingleSwitchUnreciprocated(e0, uni0, bi0, u, v);
        }
      }
    }

    /** An attempt in the bidirectional group. */
    method AttemptDouble(u: nat, v: nat, uniRows: array<Edge>, biRows: array<Edge>) returns (s: int)
      requires graph != null && uniRows != biRows
      requires Rewirable(graph, uniRows[..], biRows[..])
      requires u < biRows.Length && v < biRows.Length
      modifies graph, biRows
      ensures Rewirable(graph, uniRows[..], biRows[..]) && graph.nodes == old(graph.nodes)
      ensures SameDegrees(Support(graph.edges), Support(old(graph.edges)))
      ensures NoSelfLoops(Support(old(graph.edges))) ==> NoSelfLoops(Support(graph.edges))
      ensures Unreciprocated(old(graph.edges), uniRows[..]) ==> Unreciprocated(graph.edges, uniRows[..])
      ensures s == if CheckStandard(Support(old(graph.edges)), old(biRows[u]), old(biRows[v])) then 1 else 0
      ensures graph.edges == if s == 1 then Traded(1, old(biRows[u]), old(biRows[v]), old(graph.edges)) else old(graph.edges)
    {
      ghost var e0, uni0, bi0 := graph.edges, uniRows[..], biRows[..];
      var first, second := biRows[u], biRows[v];
      BiRow(e0, uni0, bi0, u);
      BiRow(e0, uni0, bi0, v);
      s := SwitchDouble(first, second, biRows, u, v);
      assert uniRows[..] == uni0;
      if s == 1 {
        var n1, n2 := NewFirst(first, second), NewSecond(first, second);
        assert graph.edges == e0 + multiset{n1, n2, Reverse(n2), Reverse(n1)}
          - multiset{first, Reverse(first), second, Reverse(second)};
        assert biRows[..] == DoubleRows(bi0, first, second, u, v);
        DoubleSwitchSynced(e0, uni0, bi0, u, v);
        DoubleSwitchDegrees(Support(e0), first, second);
        if Unreciprocated(e0, uni0) {
          DoubleSwitchUnreciprocated(e0, uni0, bi0, u, v);
        }
      }
    }

    /** `self.make_groups(self.graph)`: the two groups of the chosen grouping, or the standard grouping's self-loop error. */
    method MakeGroups(g: Graph, order: seq<Edge>) returns (r: Result<(seq<Edge>, seq<Edge>), RewiringError>)
      requires g.Valid() && g.directed
      ensures r.Err? <==> makeGroups == Standard && exists e | e in g.edges :: e.0 == e.1
      ensures r.Err? ==> r.error == SelfLoops
      ensures r.Ok? ==> r.value == (Group(Support(g.edges), order, makeGroups == SelfLinks, false),
                                    Group(Support(g.edges), order, makeGroups == SelfLinks, true))
    {
      if makeGroups == Standard {
        var cats := StandardDirectedGroups(g, order);
        if cats.Err? {
          return Err(cats.error);
        }
        return Ok((cats.value[0].edges, cats.value[1].edges));
      } else {
        var cats := SelflinksDirectedGroups(g, order);
        return Ok((cats[0].edges, cats[1].edges));
      }
    }

    /**
      The rewiring loop: `attempts` draws, each picking a category with
      attempts left, two of its rows, and trying a switch there. The attempt
      counts fall by one per draw. The graph is the replay of the attempts
      made, the trace, and each category's successes are the attempts of it
      that `check_standard` allowed.
    */
    method Run(uniRows: array<Edge>, biRows: array<Edge>, track0: seq<TrackRow>, attempts: nat, draws: nat -> Draw)
      returns (track: seq<TrackRow>, ghost trace: seq<Attempted>)
      requires graph != null && uniRows != biRows
      requires Rewirable(graph, uniRows[..], biRows[..])
      requires |track0| == 2 && track0[0].left + track0[1].left == attempts
      requires forall k | 0 <= k < 2 :: track0[k].successes == 0 && 0 <= track0[k].left == track0[k].expected
      requires track0[0].left > 0 ==> 0 < track0[0].last + 1 == uniRows.Length
      requires track0[1].left > 0 ==> 0 < track0[1].last + 1 == biRows.Length
      modifies graph, uniRows, biRows
      ensures Rewirable(graph, uniRows[..], biRows[..]) && graph.nodes == old(graph.nodes)
      ensures SameDegrees(Support(graph.edges), Support(old(graph.edges)))
      ensures NoSelfLoops(Support(old(graph.edges))) ==> NoSelfLoops(Support(graph.edges))
      ensures NoSelfLoops(Support(old(graph.edges))) && Unreciprocated(old(graph.edges), old(uniRows[..])) ==>
        Unreciprocated(graph.edges, uniRows[..])
      ensures |track| == 2 && track[0].left == 0 && track[1].left == 0
      ensures Tracked(track[0], track0[0]) && Tracked(track[1], track0[1])
      ensures |trace| == attempts
      ensures graph.edges == Replay(old(graph.edges), trace) && Faithful(old(graph.edges), trace)
      ensures track[0].successes == Accepted(trace, 0) && track[1].successes == Accepted(trace, 1)
    {
      ghost var e0 := graph.edges;
      ghost var clean := NoSelfLoops(Support(e0)) && Unreciprocated(e0, uniRows[..]);
      track := track0;
      trace := [];
      for i := 0 to attempts
        invariant Kept(uniRows, biRows, track0, track, e0, clean, trace) && graph.nodes == old(graph.nodes)
        invariant track[0].left + track[1].left == attempts - i && |trace| == i
      {
        ghost var a;
        var s;
        track, s, a := Step(uniRows, biRows, track0, track, draws(i), e0, clean, trace);
        trace := trace + [a];
      }
    }

    /**
      One pass of the loop body: pick a category with attempts left, draw two
      of its rows, attempt a switch, book it. The attempt `a` is the category
      and the two rows drawn; the graph is its outcome, and one success is
      booked exactly when `check_standard` allowed it.
    */
    method Step(uniRows: array<Edge>, biRows: array<Edge>, track0: seq<TrackRow>, track: seq<TrackRow>, d: Draw,
                ghost e0: multiset<Edge>, ghost clean: bool, ghost trace: seq<Attempted>)
      returns (track': seq<TrackRow>, s: int, ghost a: Attempted)
      requires uniRows != biRows && Kept(uniRows, biRows, track0, track, e0, clean, trace)
      requires track[0].left + track[1].left > 0
      requires track0[0].left > 0 ==> 0 < track0[0].last + 1 == uniRows.Length
      requires track0[1].left > 0 ==> 0 < track0[1].last + 1 == biRows.Length
      modifies graph, uniRows, biRows
      ensures Kept(uniRows, biRows, track0, track', e0, clean, trace + [a]) && graph.nodes == old(graph.nodes)
      ensures track'[0].left + track'[1].left == track[0].left + track[1].left - 1
      ensures a.j == Pick(track, d.choice) && 0 < track[a.j].last + 1
      ensures a.j == 0 ==> Drew(a, d, old(uniRows[..]))
      ensures a.j == 1 ==> Drew(a, d, old(biRows[..]))
      ensures a.ok == CheckStandard(Support(old(graph.edges)), a.first, a.second)
      ensures s == if a.ok then 1 else 0
      ensures graph.edges == Outcome(a, old(graph.edges))
      ensures track' == Book(track, a.j, s)
    {
      var j := Pick(track, d.choice);
      var n := track[j].last + 1;
      assert n == if j == 0 then uniRows.Length else biRows.Length;
      var u, v := d.u % n, d.v % n;
      ghost var before := graph.edges;
      s, a := Attempt(j, u, v, uniRows, biRows);
      track' := Book(track, j, s);
      SameDegreesTrans(Support(graph.edges), Support(before), Support(e0));
      BookAttempt(e0, trace, a, before, graph.edges, track, track');
    }

    /**
      `randomise`: refuses multigraphs, works on a copy of the template or on
      the template itself, and returns the rewired graph with the share of
      expected switches that succeeded.
    */
    method Randomise(template: Graph, flip: int, copy: bool, order: seq<Edge>, draws: nat -> Draw)
      returns (r: Result<(Graph, real), RewiringError>, ghost trace: seq<Attempted>)
      requires template.Valid() && template.directed && multiset(order) == template.edges
      modifies this, template
      ensures makeGroups == old(makeGroups)
      ensures r == Err(MultiGraph) <==> template.multi
      ensures r == Err(SelfLoops) <==> !template.multi && makeGroups == Standard && exists e | e in old(template.edges) :: e.0 == e.1
      ensures r.Err? || copy ==> unchanged(template)
      ensures r.Ok? ==> graph == r.value.0 && graph.Valid() && graph.directed && !graph.multi
      ensures r.Ok? && copy ==> fresh(graph)
      ensures r.Ok? && !copy ==> graph == template
      ensures r.Ok? ==> graph.nodes == old(template.nodes)
      ensures r.Ok? ==> SameDegrees(Support(graph.edges), Support(old(template.edges)))
      ensures r.Ok? && makeGroups == Standard ==> NoSelfLoops(Support(graph.edges))
      ensures r.Ok? && makeGroups == Standard ==> |Reciprocal(Support(graph.edges))| == |Reciprocal(Support(old(template.edges)))|
      ensures r.Ok? ==> 0.0 <= r.value.1 <= 1.0
      ensures r.Ok? && Expected(flip, Support(old(template.edges)), order, makeGroups == SelfLinks) <= 0 ==>
        r.value.1 == 0.0 && graph.edges == old(template.edges)
      ensures r.Ok? ==> graph.edges == Replay(old(template.edges), trace) && Faithful(old(template.edges), trace)
      ensures var expected := Expected(flip, Support(old(template.edges)), order, makeGroups == SelfLinks);
        r.Ok? && expected > 0 ==> r.value.1 == Ratio(AcceptedAll(trace), expected)
    {
      trace := [];
      if template.multi {
        return Err(MultiGraph), trace;
      }
      var g: Graph;
      if copy {
        g := template.Copy();
      } else {
        g := template;
      }
      graph := g;
      var ratio;
      ratio, trace := RandomiseGraph(flip, order, draws);
      if ratio.Err? {
        return Err(ratio.error), trace;
      }
      return Ok((g, ratio.value)), trace;
    }

    /** `randomise` from the moment `self.graph` is set: `graph` is rewired in place. */
    method RandomiseGraph(flip: int, order: seq<Edge>, draws: nat -> Draw)
      returns (r: Result<real, RewiringError>, ghost trace: seq<Attempted>)
      requires graph != null && graph.Valid() && graph.directed && !graph.multi && multiset(order) == graph.edges
      modifies graph
      ensures r.Err? <==> makeGroups == Standard && exists e | e in old(graph.edges) :: e.0 == e.1
      ensures r.Err? ==> r.error == SelfLoops && unchanged(graph)
      ensures graph.Valid() && graph.nodes == old(graph.nodes)
      ensures r.Ok? ==> SameDegrees(Support(graph.edges), Support(old(graph.edges)))
      ensures r.Ok? && makeGroups == Standard ==> NoSelfLoops(Support(graph.edges))
      ensures r.Ok? && makeGroups == Standard ==> |Reciprocal(Support(graph.edges))| == |Reciprocal(Support(old(graph.edges)))|
      ensures r.Ok? ==> 0.0 <= r.value <= 1.0
      ensures r.Ok? && Expected(flip, Support(old(graph.edges)), order, makeGroups == SelfLinks) <= 0 ==>
        r.value == 0.0 && graph.edges == old(graph.edges)
      ensures r.Ok? ==> graph.edges == Replay(old(graph.edges), trace) && Faithful(old(graph.edges), trace)
      ensures var expected := Expected(flip, Support(old(graph.edges)), order, makeGroups == SelfLinks);
        r.Ok? && expected > 0 ==> r.value == Ratio(AcceptedAll(trace), expected)
    {
      trace := [];
      SameDegreesRefl(Support(graph.edges));
      if |graph.edges| == 0 {
        assert AcceptedAll(trace) == 0;
        return Ok(0.0), trace;
      }
      var groups := MakeGroups(graph, order);
      if groups.Err? {
        return Err(groups.error), trace;
      }
      var (uni, bi) := groups.value;
      var ratio;
      ratio, trace := RewireGroups(order, uni, bi, flip, draws);
      return Ok(ratio), trace;
    }

    /**
      The body of `randomise` once the groups are known: copy them into row
      arrays, set up the budgets, run the attempts and report the share of
      expected switches that succeeded.
    */
    method RewireGroups(order: seq<Edge>, uni: seq<Edge>, bi: seq<Edge>, flip: int, draws: nat -> Draw)
      returns (ratio: real, ghost trace: seq<Attempted>)
      requires graph != null && graph.Valid() && graph.directed && !graph.multi && multiset(order) == graph.edges
      requires makeGroups == Standard ==> NoSelfLoops(Support(graph.edges))
      requires uni == Group(Support(graph.edges), order, makeGroups == SelfLinks, false)
      requires bi == Group(Support(graph.edges), order, makeGroups == SelfLinks, true)
      modifies graph
      ensures graph.Valid() && graph.directed && !graph.multi && graph.nodes == old(graph.nodes)
      ensures SameDegrees(Support(graph.edges), Support(old(graph.edges)))
      ensures makeGroups == Standard ==> NoSelfLoops(Support(graph.edges))
      ensures makeGroups == Standard ==> |Reciprocal(Support(graph.edges))| == |Reciprocal(Support(old(graph.edges)))|
      ensures 0.0 <= ratio <= 1.0
      ensures Expected(flip, Support(old(graph.edges)), order, makeGroups == SelfLinks) <= 0 ==>
        ratio == 0.0 && graph.edges == old(graph.edges)
      ensures graph.edges == Replay(old(graph.edges), trace) && Faithful(old(graph.edges), trace)
      ensures var expected := Expected(flip, Support(old(graph.edges)), order, makeGroups == SelfLinks);
        expected > 0 ==> |trace| == expected && ratio == Ratio(AcceptedAll(trace), expected)
    {
      ghost var selfLinks := makeGroups == SelfLinks;
      GroupsSynced(graph.edges, order, selfLinks);
      if !selfLinks {
        GroupsUnreciprocated(graph.edges, order);
        ReciprocalRows(graph.edges, uni, bi);
      }
      ghost var expected := Expected(flip, Support(graph.edges), order, selfLinks);
      assert expected == Budget(flip, 1, |uni|).expected + Budget(flip, 2, |bi|).expected;
      ratio, trace := RewireLists(uni, bi, flip, draws);
    }

    /** The groups copied into row arrays, rewired there. */
    method RewireLists(uni: seq<Edge>, bi: seq<Edge>, flip: int, draws: nat -> Draw)
      returns (ratio: real, ghost trace: seq<Attempted>)
      requires graph != null && Rewirable(graph, uni, bi)
      modifies graph
      ensures graph.Valid() && graph.directed && !graph.multi && graph.nodes == old(graph.nodes)
      ensures SameDegrees(Support(graph.edges), Support(old(graph.edges)))
      ensures NoSelfLoops(Support(old(graph.edges))) ==> NoSelfLoops(Support(graph.edges))
      ensures NoSelfLoops(Support(old(graph.edges))) && Unreciprocated(old(graph.edges), uni) ==>
        |Reciprocal(Support(graph.edges))| == |bi|
      ensures 0.0 <= ratio <= 1.0
      ensures Budget(flip, 1, |uni|).expected + Budget(flip, 2, |bi|).expected <= 0 ==>
        ratio == 0.0 && graph.edges == old(graph.edges)
      ensures graph.edges == Replay(old(graph.edges), trace) && Faithful(old(graph.edges), trace)
      ensures var expected := Budget(flip, 1, |uni|).expected + Budget(flip, 2, |bi|).expected;
        expected > 0 ==> |trace| == expected && ratio == Ratio(AcceptedAll(trace), expected)
    {
      var uniRows := Rows(uni);
      var biRows := Rows(bi);
      ratio, trace := RewireRows(uniRows, biRows, flip, draws);
    }

    /** `numpy.array(group)`: the rows of a group as a new array. */
    static method Rows(s: seq<Edge>) returns (a: array<Edge>)
      ensures fresh(a) && a[..] == s
    {
      a := new Edge[|s|](i requires 0 <= i < |s| => s[i]);
      assert a[..] == s;
    }

    /** The budgets, the attempts and the share of expected switches that succeeded, on the row arrays. */
    method RewireRows(uniRows: array<Edge>, biRows: array<Edge>, flip: int, draws: nat -> Draw)
      returns (ratio: real, ghost trace: seq<Attempted>)
      requires graph != null && uniRows != biRows && Rewirable(graph, uniRows[..], biRows[..])
      modifies graph, uniRows, biRows
      ensures graph.Valid() && graph.directed && !graph.multi && graph.nodes == old(graph.nodes)
      ensures SameDegrees(Support(graph.edges), Support(old(graph.edges)))
      ensures NoSelfLoops(Support(old(graph.edges))) ==> NoSelfLoops(Support(graph.edges))
      ensures NoSelfLoops(Support(old(graph.edges))) && Unreciprocated(old(graph.edges), old(uniRows[..])) ==>
        |Reciprocal(Support(graph.edges))| == biRows.Length
      ensures 0.0 <= ratio <= 1.0
      ensures Budget(flip, 1, uniRows.Length).expected + Budget(flip, 2, biRows.Length).expected <= 0 ==>
        ratio == 0.0 && graph.edges == old(graph.edges)
      ensures graph.edges == Replay(old(graph.edges), trace) && Faithful(old(graph.edges), trace)
      ensures var expected := Budget(flip, 1, uniRows.Length).expected + Budget(flip, 2, biRows.Length).expected;
        expected > 0 ==> |trace| == expected && ratio == Ratio(AcceptedAll(trace), expected)
    {
      trace := [];
      var track := [Budget(flip, 1, uniRows.Length), Budget(flip, 2, biRows.Length)];
      var totalLeft := track[0].left + track[1].left;
      assert totalLeft == track[0].expected + track[1].expected;
      if totalLeft <= 0 {
        // No attempts: a zero total is the source's division by zero, a
        // negative one (negative flip) runs no attempt and divides 0 by it.
        SameDegreesRefl(Support(graph.edges));
        if NoSelfLoops(Support(graph.edges)) && Unreciprocated(graph.edges, uniRows[..]) {
          ReciprocalRows(graph.edges, uniRows[..], biRows[..]);
        }
        assert graph.edges == Replay(graph.edges, trace) && Faithful(graph.edges, trace);
        return 0.0, trace;
      }
      ratio, trace := RunRatio(uniRows, biRows, track, totalLeft, draws);
    }

    /** The attempts of a positive budget, and the share of them that succeeded. */
    method RunRatio(uniRows: array<Edge>, biRows: array<Edge>, track0: seq<TrackRow>, attempts: nat, draws: nat -> Draw)
      returns (ratio: real, ghost trace: seq<Attempted>)
      requires graph != null && uniRows != biRows
      requires Rewirable(graph, uniRows[..], biRows[..])
      requires |track0| == 2 && 0 < attempts == track0[0].left + track0[1].left
      requires forall k | 0 <= k < 2 :: track0[k].successes == 0 && 0 <= track0[k].left == track0[k].expected
      requires track0[0].left > 0 ==> 0 < track0[0].last + 1 == uniRows.Length
      requires track0[1].left > 0 ==> 0 < track0[1].last + 1 == biRows.Length
      modifies graph, uniRows, biRows
      ensures graph.Valid() && graph.directed && !graph.multi && graph.nodes == old(graph.nodes)
      ensures SameDegrees(Support(graph.edges), Support(old(graph.edges)))
      ensures NoSelfLoops(Support(old(graph.edges))) ==> NoSelfLoops(Support(graph.edges))
      ensures NoSelfLoops(Support(old(graph.edges))) && Unreciprocated(old(graph.edges), old(uniRows[..])) ==>
        |Reciprocal(Support(graph.edges))| == biRows.Length
      ensures graph.edges == Replay(old(graph.edges), trace) && Faithful(old(graph.edges), trace)
      ensures |trace| == attempts && ratio == Ratio(AcceptedAll(trace), attempts) && 0.0 <= ratio <= 1.0
    {
      ghost var clean := NoSelfLoops(Support(graph.edges)) && Unreciprocated(graph.edges, uniRows[..]);
      ghost var e0 := graph.edges;
      var track;
      track, trace := Run(uniRows, biRows, track0, attempts, draws);
      assert graph.edges == Replay(e0, trace) && Faithful(e0, trace);
      if clean {
        ReciprocalRows(graph.edges, uniRows[..], biRows[..]);
      }
      var successes := track[0].successes + track[1].successes;
      var expected := track[0].expected + track[1].expected;
      assert successes == AcceptedAll(trace) && expected == attempts;
      AcceptedBound(trace);
      Share(successes, expected);
      ratio := Ratio(successes, expected);
    }
  }
}
