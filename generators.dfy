/**
  `rbp_network`: a random bipartite graph in the manner of Erdos and Renyi.
  Every (bottom, top) pair is linked, bottom to top, when its draw from the
  uniform distribution falls below p; a directed graph then gets a second
  pass, top to bottom. The draws are the parameter `uniform`: the k-th call
  of `numpy.random.random_sample` returns `uniform(k)`.
*/
module Generators {
  import opened Graphs
  import opened Seqs
  import opened Sorting

  /** The argument `top` or `bottom`: a number of nodes (`int(top)`) or an iterable of labels. */
  datatype Side = Count(k: int) | Labels(labels: set<Node>)

  /** `range(lo, hi)` as a set. */
  function Range(lo: int, hi: int): set<Node>
    decreases hi - lo
  {
    if lo < hi then {lo} + Range(lo + 1, hi) else {}
  }

  /** `range(lo, hi)` holds the labels from lo up to, not including, hi. */
  lemma {:induction false} RangeMembers(lo: int, hi: int, n: Node)
    ensures n in Range(lo, hi) <==> lo <= n < hi
    decreases hi - lo
  {
    if lo < hi {
      RangeMembers(lo + 1, hi, n);
    }
  }

  lemma {:induction false} RangeSize(lo: int, hi: int)
    ensures |Range(lo, hi)| == if lo <= hi then hi - lo else 0
    decreases hi - lo
  {
    if lo < hi {
      RangeMembers(lo + 1, hi, lo);
      RangeSize(lo + 1, hi);
    }
  }

  /** The top population: `range(int(top))`, or `set(top)`. */
  function TopNodes(top: Side): set<Node>
  {
    match top
    case Count(k) => Range(0, k)
    case Labels(ls) => ls
  }

  /** The bottom population as the code builds it: a count starts at `len(top)`. */
  function WrittenBottomNodes(top: Side, bottom: Side): set<Node>
  {
    match bottom
    case Count(k) => Range(|TopNodes(top)|, |TopNodes(top)| + k)
    case Labels(ls) => ls
  }

  /** The first label above every label of `ns` (0 for none). */
  function Next(ns: set<Node>): (r: int)
    ensures forall n | n in ns :: n < r
  {
    if ns == {} then 0 else Max(ns) + 1
  }

  /** The bottom population with a count starting above the top labels. */
  function BottomNodes(top: Side, bottom: Side): set<Node>
  {
    match bottom
    case Count(k) => Range(Next(TopNodes(top)), Next(TopNodes(top)) + k)
    case Labels(ls) => ls
  }

  /** `range(k)` has k labels when k is positive and none otherwise. */
  lemma TopCount(k: int)
    ensures |TopNodes(Count(k))| == if k > 0 then k else 0
  {
    RangeSize(0, k);
  }

  /** With a count for `bottom`, the two populations never share a label. */
  lemma CountsDisjoint(top: Side, k: int)
    ensures TopNodes(top) !! BottomNodes(top, Count(k))
  {
    var t := TopNodes(top);
    var r := Next(t);
    assert BottomNodes(top, Count(k)) == Range(r, r + k);
    forall n | n in Range(r, r + k)
      ensures n !in t
    {
      RangeMembers(r, r + k, n);
      assert n in t ==> n < r;
    }
  }

  /** When `top` is a count the corrected bottom is the one the code builds. */
  lemma BottomAgrees(k: int, bottom: Side)
    ensures BottomNodes(Count(k), bottom) == WrittenBottomNodes(Count(k), bottom)
  {
    var t := TopNodes(Count(k));
    TopCount(k);
    if k > 0 {
      var m := Max(t);
      RangeMembers(0, k, k - 1);
      RangeMembers(0, k, m);
      assert Next(t) == m + 1 == k;
    } else {
      assert t == {};
    }
  }

  /** The node attributes: `pop=1` for the top population, then `pop=-1` for the bottom one. */
  function Pops(tn: set<Node>, bn: set<Node>): map<Node, int>
  {
    (map n | n in tn :: 1) + (map n | n in bn :: -1)
  }

  // ---------------------------------------------------------------------------
  // The draws and the edges they give
  // ---------------------------------------------------------------------------

  /** How the graph stores the link from u to v. */
  function Pair(directed: bool, u: Node, v: Node): (e: Edge)
    ensures directed ==> e == (u, v)
    ensures !directed ==> e == Canonical(u, v)
  {
    if directed then (u, v) else Canonical(u, v)
  }

  /** The number of the draw for the j-th source of the i-th target of a pass starting at draw `first`. */
  function Index(first: nat, i: nat, width: nat, j: nat): nat
  {
    first + i * width + j
  }

  /** The links `for src in srcs` draws towards tar, the draws numbered from `first`. */
  function RowDrawn(directed: bool, tar: Node, srcs: seq<Node>, p: real, uniform: nat -> real, first: nat): set<Edge>
  {
    if srcs == [] then {}
    else
      var j := |srcs| - 1;
      RowDrawn(directed, tar, srcs[..j], p, uniform, first) +
      (if uniform(first + j) < p then {Pair(directed, srcs[j], tar)} else {})
  }

  /** The links of a whole pass, `for tar in tars: for src in srcs`. */
  function Drawn(directed: bool, tars: seq<Node>, srcs: seq<Node>, p: real, uniform: nat -> real, first: nat): set<Edge>
  {
    if tars == [] then {}
    else
      var i := |tars| - 1;
      Drawn(directed, tars[..i], srcs, p, uniform, first) +
      RowDrawn(directed, tars[i], srcs, p, uniform, Index(first, i, |srcs|, 0))
  }

  /** The links of `rbp_network` for populations listed as ts and bs. */
  function Links(directed: bool, ts: seq<Node>, bs: seq<Node>, p: real, uniform: nat -> real): set<Edge>
  {
    Drawn(directed, ts, bs, p, uniform, 0) +
    (if directed then Drawn(directed, bs, ts, p, uniform, |ts| * |bs|) else {})
  }

  /** A row links tar to each source whose draw is below p. */
  lemma {:induction false} RowHas(directed: bool, tar: Node, srcs: seq<Node>, p: real, uniform: nat -> real,
                                  first: nat, j: nat)
    requires j < |srcs| && uniform(first + j) < p
    ensures Pair(directed, srcs[j], tar) in RowDrawn(directed, tar, srcs, p, uniform, first)
  {
    var k := |srcs| - 1;
    if j < k {
      assert srcs[..k][j] == srcs[j];
      RowHas(directed, tar, srcs[..k], p, uniform, first, j);
    }
  }

  /** Every link of a row comes from a source whose draw is below p. */
  lemma {:induction false} RowFrom(directed: bool, tar: Node, srcs: seq<Node>, p: real, uniform: nat -> real,
                                   first: nat, e: Edge)
    requires e in RowDrawn(directed, tar, srcs, p, uniform, first)
    ensures exists j | 0 <= j < |srcs| :: uniform(first + j) < p && e == Pair(directed, srcs[j], tar)
  {
    var k := |srcs| - 1;
    var init := srcs[..k];
    if e in RowDrawn(directed, tar, init, p, uniform, first) {
      RowFrom(directed, tar, init, p, uniform, first, e);
      var j :| 0 <= j < |init| && uniform(first + j) < p && e == Pair(directed, init[j], tar);
      assert srcs[j] == init[j];
    } else {
      assert uniform(first + k) < p && e == Pair(directed, srcs[k], tar);
    }
  }

  /** A pass links each pair whose draw is below p. */
  lemma {:induction false} DrawnHas(directed: bool, tars: seq<Node>, srcs: seq<Node>, p: real, uniform: nat -> real,
                                    first: nat, i: nat, j: nat)
    requires i < |tars| && j < |srcs| && uniform(Index(first, i, |srcs|, j)) < p
    ensures Pair(directed, srcs[j], tars[i]) in Drawn(directed, tars, srcs, p, uniform, first)
  {
    var k := |tars| - 1;
    if i < k {
      assert tars[..k][i] == tars[i];
      DrawnHas(directed, tars[..k], srcs, p, uniform, first, i, j);
    } else {
      RowHas(directed, tars[k], srcs, p, uniform, Index(first, k, |srcs|, 0), j);
    }
  }

  /** Every link of a pass comes from a pair whose draw is below p. */
  lemma {:induction false} DrawnFrom(directed: bool, tars: seq<Node>, srcs: seq<Node>, p: real, uniform: nat -> real,
                                     first: nat, e: Edge)
    requires e in Drawn(directed, tars, srcs, p, uniform, first)
    ensures exists i, j | 0 <= i < |tars| && 0 <= j < |srcs| ::
              uniform(Index(first, i, |srcs|, j)) < p && e == Pair(directed, srcs[j], tars[i])
  {
    var k := |tars| - 1;
    var init := tars[..k];
    if e in Drawn(directed, init, srcs, p, uniform, first) {
      DrawnFrom(directed, init, srcs, p, uniform, first, e);
      var i, j :| 0 <= i < |init| && 0 <= j < |srcs| &&
                  uniform(Index(first, i, |srcs|, j)) < p && e == Pair(directed, srcs[j], init[i]);
      assert tars[i] == init[i];
    } else {
      RowFrom(directed, tars[k], srcs, p, uniform, Index(first, k, |srcs|, 0), e);
      var j :| 0 <= j < |srcs| && uniform(Index(first, k, |srcs|, 0) + j) < p && e == Pair(directed, srcs[j], tars[k]);
      assert Index(first, k, |srcs|, 0) + j == Index(first, k, |srcs|, j);
    }
  }

  /** Two stored undirected pairs from one set to a disjoint one are equal only when their ends are. */
  lemma CanonicalSides(a: Node, b: Node, c: Node, d: Node, xs: set<Node>, ys: set<Node>)
    requires xs !! ys && a in xs && c in xs && b in ys && d in ys
    requires Canonical(a, b) == Canonical(c, d)
    ensures a == c && b == d
  {
  }

  /** A link of a pass runs from a source label to a target label; undirected, it joins one of each. */
  lemma DrawnEnds(directed: bool, tars: seq<Node>, srcs: seq<Node>, p: real, uniform: nat -> real, first: nat, e: Edge)
    requires e in Drawn(directed, tars, srcs, p, uniform, first)
    ensures directed ==> e.0 in Elements(srcs) && e.1 in Elements(tars)
    ensures (e.0 in Elements(srcs) && e.1 in Elements(tars)) || (e.0 in Elements(tars) && e.1 in Elements(srcs))
  {
    DrawnFrom(directed, tars, srcs, p, uniform, first, e);
    var i, j :| 0 <= i < |tars| && 0 <= j < |srcs| &&
                uniform(Index(first, i, |srcs|, j)) < p && e == Pair(directed, srcs[j], tars[i]);
    assert srcs[j] in Elements(srcs) && tars[i] in Elements(tars);
  }

  /** A link whose source is a bottom label is not one of the second pass, which starts at top labels. */
  lemma NotSecondPass(ts: seq<Node>, bs: seq<Node>, p: real, uniform: nat -> real, first: nat, e: Edge)
    requires Elements(ts) !! Elements(bs) && e.0 in Elements(bs)
    ensures e !in Drawn(true, bs, ts, p, uniform, first)
  {
    if e in Drawn(true, bs, ts, p, uniform, first) {
      DrawnEnds(true, bs, ts, p, uniform, first, e);
    }
  }

  /**
    With two disjoint populations listed without repeats, bottom label bs[j]
    is linked to top label ts[i] exactly when the draw of that pair in the
    first pass falls below p.
  */
  lemma FirstPassIff(directed: bool, ts: seq<Node>, bs: seq<Node>, p: real, uniform: nat -> real, i: nat, j: nat)
    requires Distinct(ts) && Distinct(bs) && Elements(ts) !! Elements(bs)
    requires i < |ts| && j < |bs|
    ensures Pair(directed, bs[j], ts[i]) in Links(directed, ts, bs, p, uniform) <==>
            uniform(Index(0, i, |bs|, j)) < p
  {
    var e := Pair(directed, bs[j], ts[i]);
    if uniform(Index(0, i, |bs|, j)) < p {
      DrawnHas(directed, ts, bs, p, uniform, 0, i, j);
    }
    if directed {
      NotSecondPass(ts, bs, p, uniform, |ts| * |bs|, e);
    }
    if e in Drawn(directed, ts, bs, p, uniform, 0) {
      DrawnFrom(directed, ts, bs, p, uniform, 0, e);
      var i', j' :| 0 <= i' < |ts| && 0 <= j' < |bs| &&
                    uniform(Index(0, i', |bs|, j')) < p && e == Pair(directed, bs[j'], ts[i']);
      if !directed {
        CanonicalSides(bs[j'], ts[i'], bs[j], ts[i], Elements(bs), Elements(ts));
      }
      assert bs[j'] == bs[j] && ts[i'] == ts[i];
    }
  }

  /**
    In a directed graph, top label ts[j] is linked to bottom label bs[i]
    exactly when the draw of that pair in the second pass falls below p.
  */
  lemma SecondPassIff(ts: seq<Node>, bs: seq<Node>, p: real, uniform: nat -> real, i: nat, j: nat)
    requires Distinct(ts) && Distinct(bs) && Elements(ts) !! Elements(bs)
    requires i < |bs| && j < |ts|
    ensures (ts[j], bs[i]) in Links(true, ts, bs, p, uniform) <==> uniform(Index(|ts| * |bs|, i, |ts|, j)) < p
  {
    var e := (ts[j], bs[i]);
    if uniform(Index(|ts| * |bs|, i, |ts|, j)) < p {
      DrawnHas(true, bs, ts, p, uniform, |ts| * |bs|, i, j);
    }
    if e in Drawn(true, ts, bs, p, uniform, 0) {
      DrawnEnds(true, ts, bs, p, uniform, 0, e);
    }
    if e in Drawn(true, bs, ts, p, uniform, |ts| * |bs|) {
      DrawnFrom(true, bs, ts, p, uniform, |ts| * |bs|, e);
      var i', j' :| 0 <= i' < |bs| && 0 <= j' < |ts| &&
                    uniform(Index(|ts| * |bs|, i', |ts|, j')) < p && e == Pair(true, ts[j'], bs[i']);
      assert ts[j'] == ts[j] && bs[i'] == bs[i];
    }
  }

  /** Each link joins a top label and a bottom label; with disjoint populations their `pop` differ. */
  lemma Bipartite(directed: bool, ts: seq<Node>, bs: seq<Node>, p: real, uniform: nat -> real, e: Edge)
    requires e in Links(directed, ts, bs, p, uniform)
    ensures (e.0 in Elements(ts) && e.1 in Elements(bs)) || (e.0 in Elements(bs) && e.1 in Elements(ts))
    ensures Elements(ts) !! Elements(bs) ==>
              var pop := Pops(Elements(ts), Elements(bs));
              e.0 in pop && e.1 in pop && pop[e.0] != pop[e.1]
  {
    if e in Drawn(directed, ts, bs, p, uniform, 0) {
      DrawnEnds(directed, ts, bs, p, uniform, 0, e);
    } else {
      DrawnEnds(directed, bs, ts, p, uniform, |ts| * |bs|, e);
    }
  }

  /** The number of draws `rbp_network` makes: one per pair, twice over when directed. */
  function Draws(directed: bool, nt: nat, nb: nat): nat
  {
    if directed then 2 * (nt * nb) else nt * nb
  }

  lemma {:induction false} RowUses(directed: bool, tar: Node, srcs: seq<Node>, p: real, u1: nat -> real, u2: nat -> real,
                                   first: nat)
    requires forall k: nat | first <= k < first + |srcs| :: u1(k) == u2(k)
    ensures RowDrawn(directed, tar, srcs, p, u1, first) == RowDrawn(directed, tar, srcs, p, u2, first)
  {
    if srcs != [] {
      RowUses(directed, tar, srcs[..|srcs| - 1], p, u1, u2, first);
    }
  }

  lemma {:induction false} DrawnUses(directed: bool, tars: seq<Node>, srcs: seq<Node>, p: real, u1: nat -> real,
                                     u2: nat -> real, first: nat)
    requires forall k: nat | first <= k < first + |tars| * |srcs| :: u1(k) == u2(k)
    ensures Drawn(directed, tars, srcs, p, u1, first) == Drawn(directed, tars, srcs, p, u2, first)
  {
    if tars != [] {
      var i := |tars| - 1;
      assert first + i * |srcs| + |srcs| == first + |tars| * |srcs|;
      DrawnUses(directed, tars[..i], srcs, p, u1, u2, first);
      RowUses(directed, tars[i], srcs, p, u1, u2, Index(first, i, |srcs|, 0));
    }
  }

  /** The links depend on the first `Draws` draws only. */
  lemma LinksUseDraws(directed: bool, ts: seq<Node>, bs: seq<Node>, p: real, u1: nat -> real, u2: nat -> real)
    requires forall k: nat | k < Draws(directed, |ts|, |bs|) :: u1(k) == u2(k)
    ensures Links(directed, ts, bs, p, u1) == Links(directed, ts, bs, p, u2)
  {
    DrawnUses(directed, ts, bs, p, u1, u2, 0);
    if directed {
      assert |bs| * |ts| == |ts| * |bs|;
      DrawnUses(directed, bs, ts, p, u1, u2, |ts| * |bs|);
    }
  }

  /** A first-pass pair whose draw is below p is linked. */
  lemma FirstPassLinked(directed: bool, ts: seq<Node>, bs: seq<Node>, p: real, uniform: nat -> real, i: nat, j: nat)
    requires i < |ts| && j < |bs| && uniform(Index(0, i, |bs|, j)) < p
    ensures Pair(directed, bs[j], ts[i]) in Links(directed, ts, bs, p, uniform)
  {
    DrawnHas(directed, ts, bs, p, uniform, 0, i, j);
  }

  /** The populations of top {t} and a bottom count k, as the code builds them, share t when 1 <= t <= k. */
  lemma WrittenBottomShares(t: Node, k: int)
    requires 1 <= t <= k
    ensures var tn, bn := TopNodes(Labels({t})), WrittenBottomNodes(Labels({t}), Count(k));
            t in tn * bn && Pops(tn, bn)[t] == -1
  {
    RangeMembers(1, 1 + k, t);
  }

  /**
    As written, a counted bottom shares a label with the top exactly when
    some top label lies in `range(len(top), len(top) + k)`; a counted top
    never does, its labels all lying below `len(top)`.
  */
  lemma WrittenOverlap(top: Side, k: int)
    ensures TopNodes(top) !! WrittenBottomNodes(top, Count(k)) <==>
            forall n | n in TopNodes(top) :: !(|TopNodes(top)| <= n < |TopNodes(top)| + k)
    ensures top.Count? ==> TopNodes(top) !! WrittenBottomNodes(top, Count(k))
  {
    var t := TopNodes(top);
    var lo := |t|;
    forall n | n in t
      ensures n in Range(lo, lo + k) <==> lo <= n < lo + k
    {
      RangeMembers(lo, lo + k, n);
    }
    if top.Count? {
      BottomAgrees(top.k, Count(k));
      CountsDisjoint(top, k);
    }
  }

  /** A label in both populations gets a self-loop when its draw is below p. */
  lemma SharedSelfLoop(ts: seq<Node>, bs: seq<Node>, t: Node, p: real, uniform: nat -> real)
    requires Elements(ts) == {t} && t in Elements(bs) && forall n: nat :: uniform(n) < p
    ensures Canonical(t, t) in Links(false, ts, bs, p, uniform)
  {
    assert ts[0] in Elements(ts);
    var j :| 0 <= j < |bs| && bs[j] == t;
    FirstPassLinked(false, ts, bs, p, uniform, 0, j);
  }

  /**
    The code as written: an iterable `top` whose labels reach `len(top)`
    shares labels with a counted `bottom`. With top {t} and a bottom count
    k >= t >= 1 (top {1} and bottom 2, say) label t is in both populations,
    ends with pop -1, and, when every draw is below p, gets a self-loop.
  */
  lemma WrittenBottomCollides(t: Node, k: int, p: real, uniform: nat -> real)
    requires 1 <= t <= k && forall n: nat :: uniform(n) < p
    ensures var tn, bn := TopNodes(Labels({t})), WrittenBottomNodes(Labels({t}), Count(k));
            t in tn * bn && Pops(tn, bn)[t] == -1 &&
            Canonical(t, t) in Links(false, Ascending(tn), Ascending(bn), p, uniform)
  {
    var tn, bn := TopNodes(Labels({t})), WrittenBottomNodes(Labels({t}), Count(k));
    WrittenBottomShares(t, k);
    SharedSelfLoop(Ascending(tn), Ascending(bn), t, p, uniform);
  }

  // ---------------------------------------------------------------------------
  // `rbp_network`
  // ---------------------------------------------------------------------------

  /** `add_edge` on a simple graph: the stored pair is present afterwards, whether or not it was before. */
  lemma Stored(before: multiset<Edge>, after: multiset<Edge>, e: Edge)
    requires e in before ==> after == before
    requires e !in before ==> after == before + multiset{e}
    ensures Support(after) == Support(before) + {e}
  {
  }

  /** `network.add_edge(src, tar)` between two nodes of a simple graph. */
  method Link(g: Graph, src: Node, tar: Node)
    requires g.Valid() && !g.multi && src in g.nodes && tar in g.nodes
    modifies g
    ensures g.Valid() && g.nodes == old(g.nodes) && g.pop == old(g.pop) && g.name == old(g.name)
    ensures Support(g.edges) == Support(old(g.edges)) + {Pair(g.directed, src, tar)}
  {
    g.AddEdge(src, tar);
    Stored(old(g.edges), g.edges, Pair(g.directed, src, tar));
  }

  /** One draw of a row, on values: the links so far grow by the drawn one. */
  lemma RowStep(directed: bool, tar: Node, srcs: seq<Node>, p: real, uniform: nat -> real, first: nat, j: nat,
                base: set<Edge>, before: set<Edge>, after: set<Edge>)
    requires j < |srcs| && before == base + RowDrawn(directed, tar, srcs[..j], p, uniform, first)
    requires uniform(first + j) < p ==> after == before + {Pair(directed, srcs[j], tar)}
    requires !(uniform(first + j) < p) ==> after == before
    ensures after == base + RowDrawn(directed, tar, srcs[..j + 1], p, uniform, first)
  {
    assert srcs[..j + 1][..j] == srcs[..j];
  }

  /** `for src in srcs: if uniform() < p: add_edge(src, tar)`, the draws numbered from `first`. */
  method Row(g: Graph, tar: Node, srcs: seq<Node>, p: real, uniform: nat -> real, first: nat)
    requires g.Valid() && !g.multi && tar in g.nodes && Elements(srcs) <= g.nodes
    modifies g
    ensures g.Valid() && g.nodes == old(g.nodes) && g.pop == old(g.pop) && g.name == old(g.name)
    ensures Support(g.edges) == Support(old(g.edges)) + RowDrawn(g.directed, tar, srcs, p, uniform, first)
  {
    for j := 0 to |srcs|
      invariant g.Valid() && g.nodes == old(g.nodes) && g.pop == old(g.pop) && g.name == old(g.name)
      invariant Support(g.edges) == Support(old(g.edges)) + RowDrawn(g.directed, tar, srcs[..j], p, uniform, first)
    {
      ghost var before := Support(g.edges);
      if uniform(first + j) < p {
        assert srcs[j] in Elements(srcs);
        Link(g, srcs[j], tar);
      }
      RowStep(g.directed, tar, srcs, p, uniform, first, j, Support(old(g.edges)), before, Support(g.edges));
    }
    assert srcs[..|srcs|] == srcs;
  }

  /** `for tar in tars: for src in srcs: ...`, one pass over all pairs. */
  method Pass(g: Graph, tars: seq<Node>, srcs: seq<Node>, p: real, uniform: nat -> real, first: nat)
    requires g.Valid() && !g.multi && Elements(tars) <= g.nodes && Elements(srcs) <= g.nodes
    modifies g
    ensures g.Valid() && g.nodes == old(g.nodes) && g.pop == old(g.pop) && g.name == old(g.name)
    ensures Support(g.edges) == Support(old(g.edges)) + Drawn(g.directed, tars, srcs, p, uniform, first)
  {
    for i := 0 to |tars|
      invariant g.Valid() && g.nodes == old(g.nodes) && g.pop == old(g.pop) && g.name == old(g.name)
      invariant Support(g.edges) == Support(old(g.edges)) + Drawn(g.directed, tars[..i], srcs, p, uniform, first)
    {
      assert tars[..i + 1][..i] == tars[..i];
      assert tars[i] in Elements(tars);
      Row(g, tars[i], srcs, p, uniform, Index(first, i, |srcs|, 0));
    }
    assert tars[..|tars|] == tars;
  }

  /** The graph of the given kind holding both populations, `pop` 1 on top and then -1 at the bottom, and no edge. */
  method Populations(directed: bool, tn: set<Node>, bn: set<Node>) returns (g: Graph)
    ensures fresh(g) && g.Valid() && g.directed == directed && !g.multi
    ensures g.name == if directed then "rbp directed graph" else "rbp undirected graph"
    ensures g.nodes == tn + bn && g.pop == Pops(tn, bn) && g.edges == multiset{}
  {
    g := new Graph(if directed then "rbp directed graph" else "rbp undirected graph", directed, false);
    g.AddNodesWithPop(tn, 1);
    g.AddNodesWithPop(bn, -1);
  }

  /** Both passes of draws over an edgeless graph holding ts and bs. */
  method Passes(g: Graph, ts: seq<Node>, bs: seq<Node>, p: real, uniform: nat -> real) returns (used: nat)
    requires g.Valid() && !g.multi && g.edges == multiset{} && Elements(ts) <= g.nodes && Elements(bs) <= g.nodes
    modifies g
    ensures g.Valid() && g.nodes == old(g.nodes) && g.pop == old(g.pop) && g.name == old(g.name)
    ensures Support(g.edges) == Links(g.directed, ts, bs, p, uniform)
    ensures used == Draws(g.directed, |ts|, |bs|)
  {
    assert Support(g.edges) == {};
    Pass(g, ts, bs, p, uniform, 0);
    used := |ts| * |bs|;
    if g.directed {
      Pass(g, bs, ts, p, uniform, used);
      used := used + |bs| * |ts|;
    }
  }

  /**
    `rbp_network(top, bottom, p, directed)` as written: a simple graph,
    named after its kind, holding both populations with their `pop`, linked
    by the draws; `used` is the number of draws made. A counted bottom is
    numbered from `len(top)`, so it may share labels with an iterable top
    (see `WrittenOverlap`). Both populations are iterated in increasing
    label order.
  */
  method RbpNetwork(top: Side, bottom: Side, p: real, directed: bool, uniform: nat -> real)
    returns (g: Graph, used: nat)
    ensures fresh(g) && g.Valid() && g.directed == directed && !g.multi
    ensures g.name == if directed then "rbp directed graph" else "rbp undirected graph"
    ensures var tn, bn := TopNodes(top), WrittenBottomNodes(top, bottom);
            g.nodes == tn + bn && g.pop == Pops(tn, bn) &&
            Support(g.edges) == Links(directed, Ascending(tn), Ascending(bn), p, uniform) &&
            used == Draws(directed, |tn|, |bn|)
  {
    var tn, bn := TopNodes(top), WrittenBottomNodes(top, bottom);
    var ts, bs := Ascending(tn), Ascending(bn);
    g := Populations(directed, tn, bn);
    used := Passes(g, ts, bs, p, uniform);
  }
}
