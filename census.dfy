/**
  The triad census of Batagelj and Mrvar over a directed graph with node set
  `nodes` and link set `edges` (self-loops allowed; they take part in no
  triad). `rank` orders the nodes: the identity for the plain counters, the
  user's map `m` for the mapped ones.

  Each adjacent pair (v, u) with rank[v] < rank[u] is visited once, and every
  third node w adjacent to v or u is counted under the triple (v, u, w) when
  rank[u] < rank[w], or when rank[v] < rank[w] < rank[u] and w is not adjacent
  to v. For an injective rank this visits every weakly connected three-node set
  exactly once, whatever the rank.
*/
module TriadCensus {
  import opened Wrappers
  import opened Graphs
  import opened Triads
  import opened Seqs
  import MathFuncs

  type Triple = (Node, Node, Node)
  type Rank = map<Node, int>

  /** `set(graph.pred[x]) | set(graph.succ[x])` */
  function Neighbours(nodes: set<Node>, edges: set<Edge>, x: Node): (ns: set<Node>)
    ensures forall y :: y in ns <==> y in nodes && Adjacent(edges, x, y)
  {
    set y | y in nodes && Adjacent(edges, x, y)
  }

  /** The rank holds both ends of every link: the nodes the mapped counters look up. */
  predicate RankCovers(edges: set<Edge>, rank: Rank)
  {
    forall e | e in edges :: e.0 in rank && e.1 in rank
  }

  /** No two nodes share a rank. */
  predicate Injective(nodes: set<Node>, rank: Rank)
  {
    forall x, y | x in nodes && y in nodes && x in rank && y in rank && x != y :: rank[x] != rank[y]
  }

  /** The rank of the plain counters: every node is its own rank. */
  function IdentityRank(nodes: set<Node>): (rank: Rank)
    ensures rank.Keys == nodes && Injective(nodes, rank)
  {
    map x | x in nodes :: x
  }

  /** The triple (v, u, w) is counted when the pair (v, u) is visited. */
  predicate Counts(nodes: set<Node>, edges: set<Edge>, rank: Rank, v: Node, u: Node, w: Node)
  {
    v in nodes && u in nodes && w in nodes && v in rank && u in rank && w in rank &&
    Adjacent(edges, v, u) && rank[v] < rank[u] && w != u && w != v &&
    (Adjacent(edges, v, w) || Adjacent(edges, u, w)) &&
    (rank[u] < rank[w] || (rank[v] < rank[w] && rank[w] < rank[u] && !Adjacent(edges, v, w)))
  }

  /** The triples counted under class `name`. */
  function Counted(nodes: set<Node>, edges: set<Edge>, rank: Rank, name: string): set<Triple>
  {
    set v, u, w | v in nodes && u in nodes && w in nodes && Counts(nodes, edges, rank, v, u, w) &&
      TriadClass(edges, v, u, w) == name :: (v, u, w)
  }

  function Members(t: Triple): set<Node>
  {
    {t.0, t.1, t.2}
  }

  /** The weakly connected three-node sets of class `name`; no rank is involved. */
  function ConnectedTriads(nodes: set<Node>, edges: set<Edge>, name: string): set<set<Node>>
  {
    set v, u, w | v in nodes && u in nodes && w in nodes && v != u && v != w && u != w &&
      Connected(edges, v, u, w) && TriadClass(edges, v, u, w) == name :: {v, u, w}
  }

  /** A counted triple is three distinct, weakly connected nodes. */
  lemma CountedIsConnected(nodes: set<Node>, edges: set<Edge>, rank: Rank, v: Node, u: Node, w: Node)
    requires Counts(nodes, edges, rank, v, u, w)
    ensures v != u && v != w && u != w && Connected(edges, v, u, w)
  {
  }

  /**
    The ordering of a weakly connected set that the counters count: with
    a, b, c by increasing rank, (a, b, c) when a and b are adjacent, else (a, c, b).
  */
  lemma CountedOrderExists(nodes: set<Node>, edges: set<Edge>, rank: Rank, x: Node, y: Node, z: Node)
    requires x in nodes && y in nodes && z in nodes && x in rank && y in rank && z in rank
    requires x != y && x != z && y != z && Injective(nodes, rank)
    requires Connected(edges, x, y, z)
    ensures exists t: Triple :: Members(t) == {x, y, z} && Counts(nodes, edges, rank, t.0, t.1, t.2)
  {
    var a, b, c := Sort3(rank, x, y, z);
    assert rank[a] < rank[b] < rank[c];
    assert {a, b, c} == {x, y, z};
    assert Connected(edges, a, b, c) by { ConnectedPermutes(edges, x, y, z, a, b, c); }
    if Adjacent(edges, a, b) {
      assert Counts(nodes, edges, rank, a, b, c);
      assert Members((a, b, c)) == {x, y, z};
    } else {
      assert Counts(nodes, edges, rank, a, c, b);
      assert Members((a, c, b)) == {x, y, z};
    }
  }

  /** Three distinct ranked nodes in increasing rank. */
  lemma Sort3(rank: Rank, x: Node, y: Node, z: Node) returns (a: Node, b: Node, c: Node)
    requires x in rank && y in rank && z in rank
    requires rank[x] != rank[y] && rank[x] != rank[z] && rank[y] != rank[z]
    ensures {a, b, c} == {x, y, z} && a in rank && b in rank && c in rank
    ensures rank[a] < rank[b] < rank[c]
  {
    if rank[x] < rank[y] {
      if rank[y] < rank[z] { a, b, c := x, y, z; }
      else if rank[x] < rank[z] { a, b, c := x, z, y; }
      else { a, b, c := z, x, y; }
    } else {
      if rank[x] < rank[z] { a, b, c := y, x, z; }
      else if rank[y] < rank[z] { a, b, c := y, z, x; }
      else { a, b, c := z, y, x; }
    }
  }

  /** Weak connectivity does not depend on the order the three nodes are listed in. */
  lemma ConnectedPermutes(edges: set<Edge>, x: Node, y: Node, z: Node, a: Node, b: Node, c: Node)
    requires x != y && x != z && y != z
    requires {a, b, c} == {x, y, z}
    ensures Connected(edges, a, b, c) == Connected(edges, x, y, z)
    ensures TriadClass(edges, a, b, c) == TriadClass(edges, x, y, z)
  {
    ClassIsSymmetric(edges, x, y, z);
    assert a in {x, y, z} && b in {x, y, z} && c in {x, y, z};
  }

  /** Two counted orderings of the same set are the same ordering. */
  lemma CountedOrderUnique(nodes: set<Node>, edges: set<Edge>, rank: Rank, s: Triple, t: Triple)
    requires Injective(nodes, rank)
    requires Counts(nodes, edges, rank, s.0, s.1, s.2) && Counts(nodes, edges, rank, t.0, t.1, t.2)
    requires Members(s) == Members(t)
    ensures s == t
  {
    CountedIsConnected(nodes, edges, rank, s.0, s.1, s.2);
    CountedIsConnected(nodes, edges, rank, t.0, t.1, t.2);
    // The first node of a counted triple has the smallest rank.
    assert forall x | x in Members(s) :: x == s.0 || rank[s.0] < rank[x];
    assert forall x | x in Members(t) :: x == t.0 || rank[t.0] < rank[x];
    assert t.0 in Members(s) && s.0 in Members(t);
    assert s.0 == t.0;
    assert t.1 in Members(s);
  }

  /**
    Counting by any injective rank that covers the linked nodes gives, per
    class, as many triples as there are weakly connected sets of that class.
  */
  lemma CountedMatchesConnectedTriads(nodes: set<Node>, edges: set<Edge>, rank: Rank, name: string)
    requires Injective(nodes, rank) && RankCovers(edges, rank)
    ensures |Counted(nodes, edges, rank, name)| == |ConnectedTriads(nodes, edges, name)|
  {
    var counted := Counted(nodes, edges, rank, name);
    forall s, t | s in counted && t in counted && Members(s) == Members(t)
      ensures s == t
    {
      CountedOrderUnique(nodes, edges, rank, s, t);
    }
    MemberSetsCardinality(counted);
    CountedCoverTriads(nodes, edges, rank, name);
    CountedWithinTriads(nodes, edges, rank, name);
    assert MemberSets(counted) == ConnectedTriads(nodes, edges, name);
  }

  lemma CountedWithinTriads(nodes: set<Node>, edges: set<Edge>, rank: Rank, name: string)
    ensures MemberSets(Counted(nodes, edges, rank, name)) <= ConnectedTriads(nodes, edges, name)
  {
    forall t | t in Counted(nodes, edges, rank, name)
      ensures Members(t) in ConnectedTriads(nodes, edges, name)
    {
      CountedIsConnected(nodes, edges, rank, t.0, t.1, t.2);
    }
  }

  lemma CountedCoverTriads(nodes: set<Node>, edges: set<Edge>, rank: Rank, name: string)
    requires Injective(nodes, rank) && RankCovers(edges, rank)
    ensures ConnectedTriads(nodes, edges, name) <= MemberSets(Counted(nodes, edges, rank, name))
  {
    forall m | m in ConnectedTriads(nodes, edges, name)
      ensures exists t :: t in Counted(nodes, edges, rank, name) && Members(t) == m
    {
      var x, y, z :| x in nodes && y in nodes && z in nodes && x != y && x != z && y != z &&
        Connected(edges, x, y, z) && TriadClass(edges, x, y, z) == name && m == {x, y, z};
      Linked(edges, rank, x, y, z);
      CountedOrderExists(nodes, edges, rank, x, y, z);
      var t: Triple :| Members(t) == {x, y, z} && Counts(nodes, edges, rank, t.0, t.1, t.2);
      CountedIsConnected(nodes, edges, rank, t.0, t.1, t.2);
      ConnectedPermutes(edges, x, y, z, t.0, t.1, t.2);
      assert t in Counted(nodes, edges, rank, name);
    }
  }

  /** The nodes of a weakly connected triad all have links, so a covering rank holds them. */
  lemma Linked(edges: set<Edge>, rank: Rank, x: Node, y: Node, z: Node)
    requires RankCovers(edges, rank) && Connected(edges, x, y, z)
    ensures x in rank && y in rank && z in rank
  {
  }

  /** The census is the same for any two injective covering ranks, the identity among them. */
  lemma RankIndependence(nodes: set<Node>, edges: set<Edge>, r1: Rank, r2: Rank, name: string)
    requires Injective(nodes, r1) && RankCovers(edges, r1)
    requires Injective(nodes, r2) && RankCovers(edges, r2)
    ensures |Counted(nodes, edges, r1, name)| == |Counted(nodes, edges, r2, name)|
  {
    CountedMatchesConnectedTriads(nodes, edges, r1, name);
    CountedMatchesConnectedTriads(nodes, edges, r2, name);
  }

  /** The node sets of some triples. */
  function MemberSets(ts: set<Triple>): set<set<Node>>
  {
    set t | t in ts :: Members(t)
  }

  /** Triples with pairwise different node sets have as many node sets as triples. */
  lemma {:induction false} MemberSetsCardinality(ts: set<Triple>)
    requires forall s, t | s in ts && t in ts && Members(s) == Members(t) :: s == t
    ensures |MemberSets(ts)| == |ts|
    decreases |ts|
  {
    if ts != {} {
      var a :| a in ts;
      var rest := ts - {a};
      MemberSetsCardinality(rest);
      assert MemberSets(ts) == MemberSets(rest) + {Members(a)};
    }
  }

  // ---------------------------------------------------------------------------
  // Dyadic triads: a visited pair and a third node linked to neither.

  /** Both directions of the pair are links. */
  predicate Mutual(edges: set<Edge>, v: Node, u: Node)
  {
    (v, u) in edges && (u, v) in edges
  }

  /** The triple stands for pair (v, u), visited, together with a node w linked to neither. */
  predicate IsDyad(nodes: set<Node>, edges: set<Edge>, rank: Rank, v: Node, u: Node, w: Node)
  {
    v in nodes && u in nodes && w in nodes && v in rank && u in rank &&
    Adjacent(edges, v, u) && rank[v] < rank[u] && w != v && w != u &&
    !Adjacent(edges, v, w) && !Adjacent(edges, u, w)
  }

  /** The triples the dyad arithmetic adds to "102" (mutual) or to "012" (single link). */
  function Dyads(nodes: set<Node>, edges: set<Edge>, rank: Rank, mutual: bool): set<Triple>
  {
    set v, u, w | v in nodes && u in nodes && w in nodes && IsDyad(nodes, edges, rank, v, u, w) &&
      Mutual(edges, v, u) == mutual :: (v, u, w)
  }

  /** Every dyad triple is a triad of class "102" when mutual and "012" otherwise. */
  lemma DyadClass(nodes: set<Node>, edges: set<Edge>, rank: Rank, mutual: bool, t: Triple)
    requires t in Dyads(nodes, edges, rank, mutual)
    ensures t.0 != t.1 && t.0 != t.2 && t.1 != t.2
    ensures TriadClass(edges, t.0, t.1, t.2) == (if mutual then "102" else "012")
  {
    DisconnectedClasses(edges, t.0, t.1, t.2);
  }

  /** The three-node sets with one linked pair, mutual or not, and a third node linked to neither. */
  function DyadTriads(nodes: set<Node>, edges: set<Edge>, mutual: bool): set<set<Node>>
  {
    set v, u, w | v in nodes && u in nodes && w in nodes && v != u && w != v && w != u &&
      Adjacent(edges, v, u) && !Adjacent(edges, v, w) && !Adjacent(edges, u, w) &&
      Mutual(edges, v, u) == mutual :: {v, u, w}
  }

  /** Two dyad triples of the same three nodes are the same triple. */
  lemma DyadOrderUnique(nodes: set<Node>, edges: set<Edge>, rank: Rank, mutual: bool, s: Triple, t: Triple)
    requires s in Dyads(nodes, edges, rank, mutual) && t in Dyads(nodes, edges, rank, mutual)
    requires Members(s) == Members(t)
    ensures s == t
  {
    // The third node is the only one linked to neither of the others.
    assert t.2 in Members(s) && s.2 in Members(t);
    if t.2 == s.0 {
      assert false;
    } else if t.2 == s.1 {
      assert false;
    }
    assert s.2 == t.2;
    assert s.0 in Members(t) && s.1 in Members(t);
  }

  /** For any injective covering rank, one dyad triple per dyadic three-node set. */
  lemma DyadsMatchDyadTriads(nodes: set<Node>, edges: set<Edge>, rank: Rank, mutual: bool)
    requires Injective(nodes, rank) && RankCovers(edges, rank)
    ensures |Dyads(nodes, edges, rank, mutual)| == |DyadTriads(nodes, edges, mutual)|
  {
    var dyads := Dyads(nodes, edges, rank, mutual);
    forall s, t | s in dyads && t in dyads && Members(s) == Members(t)
      ensures s == t
    {
      DyadOrderUnique(nodes, edges, rank, mutual, s, t);
    }
    MemberSetsCardinality(dyads);
    forall m | m in DyadTriads(nodes, edges, mutual)
      ensures m in MemberSets(dyads)
    {
      var v, u, w :| v in nodes && u in nodes && w in nodes && v != u && w != v && w != u &&
        Adjacent(edges, v, u) && !Adjacent(edges, v, w) && !Adjacent(edges, u, w) &&
        Mutual(edges, v, u) == mutual && m == {v, u, w};
      assert v in rank && u in rank;
      if rank[v] < rank[u] {
        assert (v, u, w) in dyads;
        assert Members((v, u, w)) == m;
      } else {
        assert (u, v, w) in dyads;
        assert Members((u, v, w)) == m;
      }
    }
    assert MemberSets(dyads) == DyadTriads(nodes, edges, mutual);
  }

  // ---------------------------------------------------------------------------
  // The counting loops.

  /** Every triple counted, of any class. */
  function CountedAll(nodes: set<Node>, edges: set<Edge>, rank: Rank): set<Triple>
  {
    set v, u, w | v in nodes && u in nodes && w in nodes && Counts(nodes, edges, rank, v, u, w) :: (v, u, w)
  }

  /** The triples of `ts` of class `name`. */
  function OfClass(edges: set<Edge>, ts: set<Triple>, name: string): set<Triple>
  {
    set t | t in ts && TriadClass(edges, t.0, t.1, t.2) == name
  }

  lemma CountedOfClass(nodes: set<Node>, edges: set<Edge>, rank: Rank, name: string)
    ensures OfClass(edges, CountedAll(nodes, edges, rank), name) == Counted(nodes, edges, rank, name)
  {
  }

  /**
    The visit order: the triple is behind the loops when its first node is
    done, or it is the current first node and its second node is done, or both
    are current and its third node is done.
  */
  predicate Before(doneV: set<Node>, v: Node, doneU: set<Node>, u: Node, doneW: set<Node>, t: Triple)
  {
    t.0 in doneV || (t.0 == v && (t.1 in doneU || (t.1 == u && t.2 in doneW)))
  }

  function CountedBefore(nodes: set<Node>, edges: set<Edge>, rank: Rank,
                         doneV: set<Node>, v: Node, doneU: set<Node>, u: Node, doneW: set<Node>): set<Triple>
  {
    set t | t in CountedAll(nodes, edges, rank) && Before(doneV, v, doneU, u, doneW, t)
  }

  function DyadsBefore(nodes: set<Node>, edges: set<Edge>, rank: Rank, mutual: bool,
                       doneV: set<Node>, v: Node, doneU: set<Node>): set<Triple>
  {
    set t | t in Dyads(nodes, edges, rank, mutual) && Before(doneV, v, doneU, v, {}, t)
  }

  /** The dyads of pair (v, u): one for each node outside the pair's neighbourhood and the pair. */
  function NewDyads(v: Node, u: Node, outside: set<Node>): set<Triple>
  {
    set w | w in outside :: (v, u, w)
  }

  /** The keys of the census: all sixteen classes, or the thirteen connected ones. */
  function Names(countDisconnected: bool): set<string>
  {
    if countDisconnected then set name | name in TriadNames else ConnectedNames
  }

  lemma NameGroups()
    ensures ConnectedNames <= Names(true)
    ensures "003" in Names(true) && "012" in Names(true) && "102" in Names(true)
    ensures "003" !in ConnectedNames && "012" !in ConnectedNames && "102" !in ConnectedNames
    ensures "003" != "012" && "003" != "102" && "012" != "102"
  {
    NamesAreDistinct();
    assert TriadNames[0] == "003" && TriadNames[1] == "012" && TriadNames[2] == "102";
    assert forall i | 3 <= i < 16 ::
      TriadNames[i] != TriadNames[0] && TriadNames[i] != TriadNames[1] && TriadNames[i] != TriadNames[2];
  }

  lemma FirstNameUnique()
    ensures TriadNames[0] !in TriadNames[1..]
  {
    NamesAreDistinct();
  }

  /** Where the disconnected names stand in the table. */
  lemma NamePositions()
    ensures TriadNames[0] == "003" && TriadNames[1] == "012" && TriadNames[2] == "102"
  {
  }

  /** The sixteen names are the connected ones and the three disconnected ones. */
  lemma NamesSplit()
    ensures Names(true) == ConnectedNames + {TriadNames[0], TriadNames[1], TriadNames[2]}
  {
    forall k | k in Names(true)
      ensures k in ConnectedNames || k == TriadNames[0] || k == TriadNames[1] || k == TriadNames[2]
    {
      var i :| 0 <= i < |TriadNames| && TriadNames[i] == k;
    }
  }

  /** A weakly connected triad has one of the thirteen connected classes. */
  lemma ConnectedClassName(edges: set<Edge>, v: Node, u: Node, w: Node)
    requires Connected(edges, v, u, w)
    ensures TriadClass(edges, v, u, w) in ConnectedNames
  {
    var name := TriadClass(edges, v, u, w);
    DisconnectedClasses(edges, v, u, w);
    assert name in TriadNames;
    var i :| 0 <= i < 16 && TriadNames[i] == name;
    assert TriadNames[0] == "003" && TriadNames[1] == "012" && TriadNames[2] == "102";
    assert 3 <= i;
  }

  /**
    The census and the record while the loops run: every key is present, each
    connected class agrees with the triples counted so far, and the other
    classes are still zero and empty.
  */
  ghost predicate Tally(edges: set<Edge>, countDisconnected: bool, census: map<string, int>,
                        record: map<string, seq<Triple>>, seen: set<Triple>)
  {
    census.Keys == Names(countDisconnected) && record.Keys == Names(countDisconnected) &&
    ConnectedNames <= Names(countDisconnected) &&
    (forall k | k in ConnectedNames ::
      census[k] == |record[k]| && Distinct(record[k]) && Elements(record[k]) == OfClass(edges, seen, k)) &&
    (forall k | k in census && k !in ConnectedNames :: census[k] == 0) &&
    (forall k | k in record && k !in ConnectedNames :: record[k] == [])
  }

  /** Counting one more triple of a connected class. */
  lemma TallyCount(edges: set<Edge>, countDisconnected: bool, census: map<string, int>,
                   record: map<string, seq<Triple>>, seen: set<Triple>, t: Triple, name: string)
    requires Tally(edges, countDisconnected, census, record, seen)
    requires t !in seen && name == TriadClass(edges, t.0, t.1, t.2) && name in ConnectedNames
    ensures Tally(edges, countDisconnected, census[name := census[name] + 1], record[name := record[name] + [t]],
                  seen + {t})
  {
    var census', record' := census[name := census[name] + 1], record[name := record[name] + [t]];
    forall k | k in ConnectedNames
      ensures census'[k] == |record'[k]| && Distinct(record'[k]) && Elements(record'[k]) == OfClass(edges, seen + {t}, k)
    {
      if k == name {
        assert Elements(record'[k]) == Elements(record[k]) + {t};
        assert OfClass(edges, seen + {t}, k) == OfClass(edges, seen, k) + {t};
        assert t !in Elements(record[k]);
      } else {
        assert OfClass(edges, seen + {t}, k) == OfClass(edges, seen, k);
      }
    }
  }

  /** Leaving the pair (v, u): a counted triple (v, u, w) has w among the pair's neighbours. */
  lemma LeavePair(nodes: set<Node>, edges: set<Edge>, rank: Rank,
                  doneV: set<Node>, v: Node, doneU: set<Node>, u: Node, neighbors: set<Node>)
    requires neighbors == (Neighbours(nodes, edges, v) + Neighbours(nodes, edges, u)) - {u} - {v}
    ensures CountedBefore(nodes, edges, rank, doneV, v, doneU, u, neighbors) ==
            CountedBefore(nodes, edges, rank, doneV, v, doneU + {u}, v, {})
  {
  }

  /** One more third node w for the pair (v, u). */
  lemma VisitThird(nodes: set<Node>, edges: set<Edge>, rank: Rank,
                   doneV: set<Node>, v: Node, doneU: set<Node>, u: Node, doneW: set<Node>, w: Node)
    requires v !in doneV && u !in doneU && u != v
    ensures CountedBefore(nodes, edges, rank, doneV, v, doneU, u, doneW + {w}) ==
            CountedBefore(nodes, edges, rank, doneV, v, doneU, u, doneW) +
            (if (v, u, w) in CountedAll(nodes, edges, rank) then {(v, u, w)} else {})
  {
  }

  /** Passing over a neighbour u of v that does not outrank v: no counted triple or dyad starts with (v, u). */
  lemma SkipPair(nodes: set<Node>, edges: set<Edge>, rank: Rank, doneV: set<Node>, v: Node, doneU: set<Node>, u: Node)
    requires v in rank && u in rank && rank[u] <= rank[v]
    ensures CountedBefore(nodes, edges, rank, doneV, v, doneU, v, {}) ==
            CountedBefore(nodes, edges, rank, doneV, v, doneU + {u}, v, {})
    ensures forall mutual: bool :: (DyadsBefore(nodes, edges, rank, mutual, doneV, v, doneU) ==
            DyadsBefore(nodes, edges, rank, mutual, doneV, v, doneU + {u}))
  {
  }

  /** The dyads that the pair (v, u) adds. */
  lemma AddPairDyads(nodes: set<Node>, edges: set<Edge>, rank: Rank, mutual: bool,
                     doneV: set<Node>, v: Node, doneU: set<Node>, u: Node, neighbors: set<Node>)
    requires neighbors == (Neighbours(nodes, edges, v) + Neighbours(nodes, edges, u)) - {u} - {v}
    requires v in nodes && u in nodes && v in rank && u in rank && rank[v] < rank[u] && Adjacent(edges, v, u)
    requires v !in doneV && u !in doneU
    ensures var added := if Mutual(edges, v, u) == mutual then NewDyads(v, u, nodes - neighbors - {u, v}) else {};
      DyadsBefore(nodes, edges, rank, mutual, doneV, v, doneU + {u}) ==
        DyadsBefore(nodes, edges, rank, mutual, doneV, v, doneU) + added &&
      DyadsBefore(nodes, edges, rank, mutual, doneV, v, doneU) !! added
  {
  }

  /** How many dyads the pair (v, u) adds to the total it belongs to. */
  lemma PairDyadCount(nodes: set<Node>, edges: set<Edge>, rank: Rank, mutual: bool,
                      doneV: set<Node>, v: Node, doneU: set<Node>, u: Node, neighbors: set<Node>)
    requires neighbors == (Neighbours(nodes, edges, v) + Neighbours(nodes, edges, u)) - {u} - {v}
    requires v in nodes && u in nodes && v in rank && u in rank && rank[v] < rank[u] && Adjacent(edges, v, u)
    requires v !in doneV && u !in doneU
    ensures |DyadsBefore(nodes, edges, rank, mutual, doneV, v, doneU + {u})| ==
      |DyadsBefore(nodes, edges, rank, mutual, doneV, v, doneU)| +
      (if Mutual(edges, v, u) == mutual then |nodes| - |neighbors| - 2 else 0)
  {
    AddPairDyads(nodes, edges, rank, mutual, doneV, v, doneU, u, neighbors);
    NewDyadsCardinality(nodes, v, u, neighbors);
  }

  /** There are as many dyads of a pair as nodes that are neither in the pair nor its neighbours. */
  lemma NewDyadsCardinality(nodes: set<Node>, v: Node, u: Node, neighbors: set<Node>)
    requires neighbors <= nodes && v in nodes && u in nodes && u != v && v !in neighbors && u !in neighbors
    ensures |NewDyads(v, u, nodes - neighbors - {u, v})| == |nodes| - |neighbors| - 2
  {
    var outside := nodes - neighbors - {u, v};
    ThirdsCardinality(v, u, outside);
    assert nodes == outside + (neighbors + {u, v});
    assert |neighbors + {u, v}| == |neighbors| + 2;
  }

  lemma {:induction false} ThirdsCardinality(v: Node, u: Node, ws: set<Node>)
    ensures |NewDyads(v, u, ws)| == |ws|
    decreases |ws|
  {
    if ws != {} {
      Occupied(ws);
      var w: Node :| w in ws;
      ThirdsCardinality(v, u, ws - {w});
      assert NewDyads(v, u, ws) == NewDyads(v, u, ws - {w}) + {(v, u, w)};
    }
  }

  /** Leaving v: a counted triple or a dyad that starts with v has its second node among v's neighbours. */
  lemma LeaveNode(nodes: set<Node>, edges: set<Edge>, rank: Rank, doneV: set<Node>, v: Node)
    ensures CountedBefore(nodes, edges, rank, doneV, v, Neighbours(nodes, edges, v), v, {}) ==
            CountedBefore(nodes, edges, rank, doneV + {v}, v, {}, v, {})
    ensures forall mutual: bool :: (DyadsBefore(nodes, edges, rank, mutual, doneV, v, Neighbours(nodes, edges, v)) ==
            DyadsBefore(nodes, edges, rank, mutual, doneV + {v}, v, {}))
  {
  }

  /** Entering v, or any change of the current node when nothing of it is done. */
  lemma EnterNode(nodes: set<Node>, edges: set<Edge>, rank: Rank, doneV: set<Node>, v: Node, x: Node)
    ensures CountedBefore(nodes, edges, rank, doneV, x, {}, x, {}) == CountedBefore(nodes, edges, rank, doneV, v, {}, v, {})
    ensures forall mutual: bool :: (DyadsBefore(nodes, edges, rank, mutual, doneV, x, {}) ==
            DyadsBefore(nodes, edges, rank, mutual, doneV, v, {}))
  {
  }

  /** When every node is done, everything counted and every dyad is behind the loops. */
  lemma AllDone(nodes: set<Node>, edges: set<Edge>, rank: Rank, v: Node)
    ensures CountedBefore(nodes, edges, rank, nodes, v, {}, v, {}) == CountedAll(nodes, edges, rank)
    ensures forall mutual: bool :: DyadsBefore(nodes, edges, rank, mutual, nodes, v, {}) == Dyads(nodes, edges, rank, mutual)
  {
  }

  /** Storing the dyad totals changes no connected class. */
  lemma StoreDyads(edges: set<Edge>, census: map<string, int>, record: map<string, seq<Triple>>,
                   seen: set<Triple>, single: int, mutual: int)
    requires Tally(edges, true, census, record, seen)
    ensures var c := census["012" := single]["102" := mutual];
      c.Keys == Names(true) && c["003"] == 0 && c["012"] == single && c["102"] == mutual &&
      record["003"] == [] && record["012"] == [] && record["102"] == [] &&
      forall k | k in ConnectedNames :: c[k] == census[k]
  {
    NameGroups();
  }

  /** The innermost loop: the third nodes w of the visited pair (v, u). */
  method CountThirds(nodes: set<Node>, edges: set<Edge>, rank: Rank, countDisconnected: bool,
                     v: Node, u: Node, neighbors: set<Node>,
                     census0: map<string, int>, record0: map<string, seq<Triple>>,
                     ghost doneV: set<Node>, ghost doneU: set<Node>, ghost seen0: set<Triple>)
    returns (census: map<string, int>, record: map<string, seq<Triple>>, ghost seen: set<Triple>)
    requires RankCovers(edges, rank)
    requires v in nodes && u in nodes && v in rank && u in rank && rank[v] < rank[u] && Adjacent(edges, v, u)
    requires v !in doneV && u !in doneU
    requires neighbors == (Neighbours(nodes, edges, v) + Neighbours(nodes, edges, u)) - {u} - {v}
    requires Tally(edges, countDisconnected, census0, record0, seen0)
    requires seen0 == CountedBefore(nodes, edges, rank, doneV, v, doneU, v, {})
    ensures Tally(edges, countDisconnected, census, record, seen)
    ensures seen == CountedBefore(nodes, edges, rank, doneV, v, doneU + {u}, v, {})
  {
    census, record, seen := census0, record0, seen0;
    assert seen == CountedBefore(nodes, edges, rank, doneV, v, doneU, u, {});
    var ws := neighbors;
    ghost var doneW: set<Node> := {};
    while ws != {}
      invariant ws == neighbors - doneW && doneW <= neighbors
      invariant Tally(edges, countDisconnected, census, record, seen)
      invariant seen == CountedBefore(nodes, edges, rank, doneV, v, doneU, u, doneW)
      decreases ws
    {
      Occupied(ws);
      var w: Node :| w in ws;
      VisitThird(nodes, edges, rank, doneV, v, doneU, u, doneW, w);
      if rank[u] < rank[w] || (rank[v] < rank[w] && rank[w] < rank[u] && !Adjacent(edges, v, w)) {
        var name := TricodeToName(Tricode(edges, v, u, w));
        assert Counts(nodes, edges, rank, v, u, w);
        CountedIsConnected(nodes, edges, rank, v, u, w);
        ConnectedClassName(edges, v, u, w);
        TallyCount(edges, countDisconnected, census, record, seen, (v, u, w), name);
        census := census[name := census[name] + 1];
        record := record[name := record[name] + [(v, u, w)]];
        seen := seen + {(v, u, w)};
      }
      ws := ws - {w};
      doneW := doneW + {w};
    }
    LeavePair(nodes, edges, rank, doneV, v, doneU, u, neighbors);
  }

  /**
    One visited pair (v, u): in disconnected mode its dyads go to the single
    or the mutual dyad total, then its third nodes are counted.
  */
  method VisitPair(nodes: set<Node>, edges: set<Edge>, rank: Rank, countDisconnected: bool, v: Node, u: Node,
                   census0: map<string, int>, record0: map<string, seq<Triple>>, single0: int, mutual0: int,
                   ghost doneV: set<Node>, ghost doneU: set<Node>,
                   ghost seen0: set<Triple>, ghost singles0: set<Triple>, ghost mutuals0: set<Triple>)
    returns (census: map<string, int>, record: map<string, seq<Triple>>, single: int, mutual: int,
             ghost seen: set<Triple>, ghost singles: set<Triple>, ghost mutuals: set<Triple>)
    requires RankCovers(edges, rank)
    requires v in nodes && u in nodes && v in rank && u in rank && rank[v] < rank[u] && Adjacent(edges, v, u)
    requires v !in doneV && u !in doneU
    requires Tally(edges, countDisconnected, census0, record0, seen0)
    requires countDisconnected ==> single0 == |singles0| && mutual0 == |mutuals0|
    requires seen0 == CountedBefore(nodes, edges, rank, doneV, v, doneU, v, {})
    requires singles0 == DyadsBefore(nodes, edges, rank, false, doneV, v, doneU)
    requires mutuals0 == DyadsBefore(nodes, edges, rank, true, doneV, v, doneU)
    ensures Tally(edges, countDisconnected, census, record, seen)
    ensures countDisconnected ==> single == |singles| && mutual == |mutuals|
    ensures seen == CountedBefore(nodes, edges, rank, doneV, v, doneU + {u}, v, {})
    ensures singles == DyadsBefore(nodes, edges, rank, false, doneV, v, doneU + {u})
    ensures mutuals == DyadsBefore(nodes, edges, rank, true, doneV, v, doneU + {u})
  {
    var neighbors := (Neighbours(nodes, edges, v) + Neighbours(nodes, edges, u)) - {u} - {v};
    single, mutual, singles, mutuals := CountPairDyads(nodes, edges, rank, countDisconnected, v, u, neighbors,
                                                       single0, mutual0, doneV, doneU, singles0, mutuals0);
    census, record, seen := CountThirds(nodes, edges, rank, countDisconnected, v, u, neighbors,
                                        census0, record0, doneV, doneU, seen0);
  }

  /**
    The dyads of the visited pair (v, u), computed rather than counted: one
    per node outside the pair and its neighbours, added to the mutual total
    when both links are present and to the single total otherwise.
  */
  method CountPairDyads(nodes: set<Node>, edges: set<Edge>, rank: Rank, countDisconnected: bool,
                        v: Node, u: Node, neighbors: set<Node>, single0: int, mutual0: int,
                        ghost doneV: set<Node>, ghost doneU: set<Node>,
                        ghost singles0: set<Triple>, ghost mutuals0: set<Triple>)
    returns (single: int, mutual: int, ghost singles: set<Triple>, ghost mutuals: set<Triple>)
    requires v in nodes && u in nodes && v in rank && u in rank && rank[v] < rank[u] && Adjacent(edges, v, u)
    requires v !in doneV && u !in doneU
    requires neighbors == (Neighbours(nodes, edges, v) + Neighbours(nodes, edges, u)) - {u} - {v}
    requires countDisconnected ==> single0 == |singles0| && mutual0 == |mutuals0|
    requires singles0 == DyadsBefore(nodes, edges, rank, false, doneV, v, doneU)
    requires mutuals0 == DyadsBefore(nodes, edges, rank, true, doneV, v, doneU)
    ensures countDisconnected ==> single == |singles| && mutual == |mutuals|
    ensures singles == DyadsBefore(nodes, edges, rank, false, doneV, v, doneU + {u})
    ensures mutuals == DyadsBefore(nodes, edges, rank, true, doneV, v, doneU + {u})
  {
    PairDyadCount(nodes, edges, rank, false, doneV, v, doneU, u, neighbors);
    PairDyadCount(nodes, edges, rank, true, doneV, v, doneU, u, neighbors);
    single, mutual := single0, mutual0;
    var n := |nodes|;
    if countDisconnected {
      if (u, v) in edges && (v, u) in edges {
        mutual := mutual + n - |neighbors| - 2;
      } else {
        single := single + n - |neighbors| - 2;
      }
    }
    singles := DyadsBefore(nodes, edges, rank, false, doneV, v, doneU + {u});
    mutuals := DyadsBefore(nodes, edges, rank, true, doneV, v, doneU + {u});
  }

  /** The middle loop: the neighbours u of v, each pair where u outranks v visited. */
  method VisitNode(nodes: set<Node>, edges: set<Edge>, rank: Rank, countDisconnected: bool, v: Node,
                   census0: map<string, int>, record0: map<string, seq<Triple>>, single0: int, mutual0: int,
                   ghost doneV: set<Node>,
                   ghost seen0: set<Triple>, ghost singles0: set<Triple>, ghost mutuals0: set<Triple>)
    returns (census: map<string, int>, record: map<string, seq<Triple>>, single: int, mutual: int,
             ghost seen: set<Triple>, ghost singles: set<Triple>, ghost mutuals: set<Triple>)
    requires RankCovers(edges, rank)
    requires v in nodes && v !in doneV
    requires Tally(edges, countDisconnected, census0, record0, seen0)
    requires countDisconnected ==> single0 == |singles0| && mutual0 == |mutuals0|
    requires seen0 == CountedBefore(nodes, edges, rank, doneV, v, {}, v, {})
    requires singles0 == DyadsBefore(nodes, edges, rank, false, doneV, v, {})
    requires mutuals0 == DyadsBefore(nodes, edges, rank, true, doneV, v, {})
    ensures Tally(edges, countDisconnected, census, record, seen)
    ensures countDisconnected ==> single == |singles| && mutual == |mutuals|
    ensures seen == CountedBefore(nodes, edges, rank, doneV + {v}, v, {}, v, {})
    ensures singles == DyadsBefore(nodes, edges, rank, false, doneV + {v}, v, {})
    ensures mutuals == DyadsBefore(nodes, edges, rank, true, doneV + {v}, v, {})
  {
    census, record, single, mutual := census0, record0, single0, mutual0;
    seen, singles, mutuals := seen0, singles0, mutuals0;
    var nbrs := Neighbours(nodes, edges, v);
    var us := nbrs;
    ghost var doneU: set<Node> := {};
    while us != {}
      invariant us == nbrs - doneU && doneU <= nbrs
      invariant Tally(edges, countDisconnected, census, record, seen)
      invariant countDisconnected ==> single == |singles| && mutual == |mutuals|
      invariant seen == CountedBefore(nodes, edges, rank, doneV, v, doneU, v, {})
      invariant singles == DyadsBefore(nodes, edges, rank, false, doneV, v, doneU)
      invariant mutuals == DyadsBefore(nodes, edges, rank, true, doneV, v, doneU)
      decreases us
    {
      Occupied(us);
      var u: Node :| u in us;
      if rank[u] <= rank[v] {
        SkipPair(nodes, edges, rank, doneV, v, doneU, u);
      } else {
        census, record, single, mutual, seen, singles, mutuals :=
          VisitPair(nodes, edges, rank, countDisconnected, v, u, census, record, single, mutual,
                    doneV, doneU, seen, singles, mutuals);
      }
      us := us - {u};
      doneU := doneU + {u};
    }
    LeaveNode(nodes, edges, rank, doneV, v);
  }

  /** The outer loop: every node v in turn, from the empty tally to the full one. */
  method VisitNodes(nodes: set<Node>, edges: set<Edge>, rank: Rank, countDisconnected: bool,
                    census0: map<string, int>, record0: map<string, seq<Triple>>)
    returns (census: map<string, int>, record: map<string, seq<Triple>>, single: int, mutual: int)
    requires RankCovers(edges, rank)
    requires Tally(edges, countDisconnected, census0, record0, {})
    ensures Tally(edges, countDisconnected, census, record, CountedAll(nodes, edges, rank))
    ensures countDisconnected ==>
      single == |Dyads(nodes, edges, rank, false)| && mutual == |Dyads(nodes, edges, rank, true)|
  {
    census, record := census0, record0;
    single, mutual := 0, 0;
    ghost var seen: set<Triple> := {};
    ghost var singles: set<Triple> := {};
    ghost var mutuals: set<Triple> := {};
    ghost var doneV: set<Node> := {};
    ghost var last: Node := 0;
    var todo := nodes;
    while todo != {}
      invariant todo == nodes - doneV && doneV <= nodes
      invariant Tally(edges, countDisconnected, census, record, seen)
      invariant countDisconnected ==> single == |singles| && mutual == |mutuals|
      invariant seen == CountedBefore(nodes, edges, rank, doneV, last, {}, last, {})
      invariant singles == DyadsBefore(nodes, edges, rank, false, doneV, last, {})
      invariant mutuals == DyadsBefore(nodes, edges, rank, true, doneV, last, {})
      decreases todo
    {
      Occupied(todo);
      var v: Node :| v in todo;
      EnterNode(nodes, edges, rank, doneV, v, last);
      census, record, single, mutual, seen, singles, mutuals :=
        VisitNode(nodes, edges, rank, countDisconnected, v, census, record, single, mutual,
                  doneV, seen, singles, mutuals);
      todo := todo - {v};
      doneV := doneV + {v};
      last := v;
    }
    assert doneV == nodes;
    AllDone(nodes, edges, rank, last);
  }

  /** The tally before any node is visited: every class zero and empty. */
  lemma EmptyTally(edges: set<Edge>, countDisconnected: bool)
    ensures Tally(edges, countDisconnected, map k | k in Names(countDisconnected) :: 0,
                  map k | k in Names(countDisconnected) :: [], {})
  {
    NameGroups();
    forall k | k in ConnectedNames
      ensures OfClass(edges, {}, k) == {} && Elements<Triple>([]) == {}
    {
    }
  }

  /**
    The four counting functions `_count_connected`, `_count_mapped_connected`,
    `_count_disconnected` and `_count_mapped_disconnected` over the census and
    the record as the caller initialises them. Each connected class is counted
    together with the triples that list it; in disconnected mode "012" and
    "102" get the dyad totals and "003" is left at zero. The dyad totals are
    summed apart from the census and stored when the loops end, which gives
    the same values.
  */
  method CountTriads(nodes: set<Node>, edges: set<Edge>, rank: Rank, countDisconnected: bool)
    returns (census: map<string, int>, record: map<string, seq<Triple>>)
    requires RankCovers(edges, rank)
    ensures census.Keys == Names(countDisconnected) && record.Keys == Names(countDisconnected)
    ensures forall k | k in ConnectedNames :: census[k] == |Counted(nodes, edges, rank, k)|
    ensures RecordTriples(nodes, edges, rank, countDisconnected, record)
    ensures countDisconnected ==>
      census["003"] == 0 &&
      census["012"] == |Dyads(nodes, edges, rank, false)| && census["102"] == |Dyads(nodes, edges, rank, true)|
  {
    EmptyTally(edges, countDisconnected);
    var single, mutual;
    census, record, single, mutual :=
      VisitNodes(nodes, edges, rank, countDisconnected,
                 map k | k in Names(countDisconnected) :: 0, map k | k in Names(countDisconnected) :: []);
    forall k | k in ConnectedNames
      ensures census[k] == |Counted(nodes, edges, rank, k)|
    {
      CountedOfClass(nodes, edges, rank, k);
      DistinctCardinality(record[k]);
    }
    if countDisconnected {
      StoreDyads(edges, census, record, CountedAll(nodes, edges, rank), single, mutual);
      census := census["012" := single]["102" := mutual];
    }
  }

  // ---------------------------------------------------------------------------
  // `triadic_census`.

  /** The errors `triadic_census` raises: a `NetworkXError` and a `KeyError` from `m`. */
  datatype CensusError = NotDirected | MissingRank

  /** The census and, when it was asked for, the record. */
  datatype CensusOutcome = CensusOutcome(census: map<string, int>, record: Option<map<string, seq<Triple>>>)

  /** `if m:` -- the mapped counters run only for a given, non-empty map. */
  predicate Mapped(m: Option<Rank>)
  {
    m.Some? && m.value != map[]
  }

  /** The rank the counters order the nodes by. */
  function RankOf(nodes: set<Node>, m: Option<Rank>): (rank: Rank)
    ensures Mapped(m) ==> rank == m.value
    ensures !Mapped(m) ==> rank.Keys == nodes && Injective(nodes, rank)
  {
    if Mapped(m) then m.value else IdentityRank(nodes)
  }

  /** The sum of the census values under the listed names. */
  function Total(census: map<string, int>, names: seq<string>): int
  {
    if names == [] then 0
    else (if names[0] in census then census[names[0]] else 0) + Total(census, names[1..])
  }

  /** A change of one listed name's value changes the sum by the difference. */
  lemma {:induction false} TotalUpdate(census: map<string, int>, names: seq<string>, k: string, x: int)
    requires k in census && Distinct(names) && k in names
    ensures Total(census[k := x], names) == Total(census, names) - census[k] + x
  {
    if names[0] == k {
      assert k !in names[1..];
      TotalAgree(census[k := x], census, names[1..]);
    } else {
      assert Distinct(names[1..]);
      TotalUpdate(census, names[1..], k, x);
    }
  }

  /** Maps that agree on the listed names have the same sum. */
  lemma {:induction false} TotalAgree(c1: map<string, int>, c2: map<string, int>, names: seq<string>)
    requires forall i | 0 <= i < |names| :: (names[i] in c1 <==> names[i] in c2)
    requires forall i | 0 <= i < |names| && names[i] in c1 :: c1[names[i]] == c2[names[i]]
    ensures Total(c1, names) == Total(c2, names)
  {
    if names != [] {
      TotalAgree(c1, c2, names[1..]);
    }
  }

  lemma Associate(x: int, y: int, z: int)
    ensures (x * y) * z == x * (y * z)
  {
  }

  /** The number of three-node sets out of n, as the source writes it. */
  lemma TripleCount(n: nat)
    ensures (n * (n - 1) * (n - 2)) / 6 == MathFuncs.Choose(n, 3)
  {
    MathFuncs.Absorption(n, 1);
    MathFuncs.Absorption(n, 2);
    MathFuncs.ChooseOne(n);
    var c2, c3 := MathFuncs.Choose(n, 2), MathFuncs.Choose(n, 3);
    assert 2 * c2 == (n - 1) * n;
    assert 3 * c3 == (n - 2) * c2;
    var p := n * (n - 1) * (n - 2);
    assert n * (n - 1) == 2 * c2 by { MathFuncs.Commute(n, n - 1); }
    assert p == (2 * c2) * (n - 2);
    Associate(2, c2, n - 2);
    assert c2 * (n - 2) == 3 * c3 by { MathFuncs.Commute(c2, n - 2); }
    assert p == c3 * 6;
    MathFuncs.ExactDivision(c3, 6);
  }

  /**
    The null triads of disconnected mode, filled in last: all three-node sets
    less the sum of the census, in which "003" is still zero. `names` lists the
    keys of the census once each.
  */
  method FillNullTriads(census: map<string, int>, names: seq<string>, n: nat) returns (filled: map<string, int>)
    requires Distinct(names) && "003" in names && "003" in census && census["003"] == 0
    ensures "003" in filled && filled == census["003" := filled["003"]]
    ensures Total(filled, names) == MathFuncs.Choose(n, 3)
  {
    var sum := SumValues(census, names);
    TotalUpdate(census, names, "003", (n * (n - 1) * (n - 2)) / 6 - sum);
    TripleCount(n);
    filled := census["003" := (n * (n - 1) * (n - 2)) / 6 - sum];
  }

  /** `sum(census.itervalues())`, with `names` listing the census keys once each. */
  method SumValues(census: map<string, int>, names: seq<string>) returns (total: int)
    ensures total == Total(census, names)
  {
    total := 0;
    for i := 0 to |names|
      invariant total + Total(census, names[i..]) == Total(census, names)
    {
      assert names[i..][1..] == names[i + 1..];
      if names[i] in census {
        total := total + census[names[i]];
      }
    }
  }

  /**
    The census counted by `rank`: the class keys of the mode, each connected
    class counted, and in disconnected mode the dyad totals under "012" and
    "102" and all classes together as many as there are three-node sets.
  */
  ghost predicate CensusCounts(nodes: set<Node>, edges: set<Edge>, rank: Rank, countDisconnected: bool,
                               census: map<string, int>)
  {
    census.Keys == Names(countDisconnected) &&
    (forall k | k in ConnectedNames :: census[k] == |Counted(nodes, edges, rank, k)|) &&
    (countDisconnected ==>
      census["012"] == |Dyads(nodes, edges, rank, false)| && census["102"] == |Dyads(nodes, edges, rank, true)| &&
      Total(census, TriadNames) == MathFuncs.Choose(|nodes|, 3))
  }

  /**
    The record counted by `rank`: the class keys of the mode, each connected
    class listing its counted triples once each, the dyadic and null classes
    listing none.
  */
  ghost predicate RecordTriples(nodes: set<Node>, edges: set<Edge>, rank: Rank, countDisconnected: bool,
                                record: map<string, seq<Triple>>)
  {
    record.Keys == Names(countDisconnected) &&
    (forall k | k in ConnectedNames ::
      Distinct(record[k]) && Elements(record[k]) == Counted(nodes, edges, rank, k)) &&
    (countDisconnected ==> record["003"] == [] && record["012"] == [] && record["102"] == [])
  }

  /** What a successful census holds for the rank it was counted by. */
  ghost predicate Tallied(nodes: set<Node>, edges: set<Edge>, rank: Rank, countDisconnected: bool,
                          out: CensusOutcome)
  {
    CensusCounts(nodes, edges, rank, countDisconnected, out.census) &&
    (out.record.Some? ==> RecordTriples(nodes, edges, rank, countDisconnected, out.record.value))
  }

  /** The counted census with the null triads filled in is a census of all classes. */
  lemma FilledCounts(nodes: set<Node>, edges: set<Edge>, rank: Rank, countDisconnected: bool,
                     counted: map<string, int>, census: map<string, int>)
    requires counted.Keys == Names(countDisconnected)
    requires forall k | k in ConnectedNames :: counted[k] == |Counted(nodes, edges, rank, k)|
    requires countDisconnected ==>
      counted["012"] == |Dyads(nodes, edges, rank, false)| && counted["102"] == |Dyads(nodes, edges, rank, true)|
    requires !countDisconnected ==> census == counted
    requires countDisconnected ==>
      "003" in census && census == counted["003" := census["003"]] &&
      Total(census, TriadNames) == MathFuncs.Choose(|nodes|, 3)
    ensures CensusCounts(nodes, edges, rank, countDisconnected, census)
  {
    NameGroups();
    if countDisconnected {
      assert census.Keys == Names(countDisconnected);
      assert forall k | k in ConnectedNames :: census[k] == counted[k];
      assert census["012"] == counted["012"] && census["102"] == counted["102"];
    }
  }

  /**
    `triadic_census(graph, m, count_disconnected, record_triads)` on a graph
    with integer node labels.
  */
  method TriadicCensus(g: Graph, m: Option<Rank>, countDisconnected: bool, recordTriads: bool)
    returns (r: Result<CensusOutcome, CensusError>)
    requires g.Valid()
    ensures r == Err(NotDirected) <==> !g.directed
    ensures r == Err(MissingRank) <==> g.directed && Mapped(m) && !RankCovers(Support(g.edges), m.value)
    ensures r.Ok? ==> (r.value.record.Some? <==> recordTriads)
    ensures r.Ok? ==> Tallied(g.nodes, Support(g.edges), RankOf(g.nodes, m), countDisconnected, r.value)
  {
    if !g.directed {
      return Err(NotDirected);
    }
    var edges := Support(g.edges);
    if Mapped(m) && !RankCovers(edges, m.value) {
      return Err(MissingRank);
    }
    var rank := RankOf(g.nodes, m);
    assert RankCovers(edges, rank);
    var counted, record := CountTriads(g.nodes, edges, rank, countDisconnected);
    var census := counted;
    var n := |g.nodes|;
    if countDisconnected {
      NameGroups();
      NamesAreDistinct();
      census := FillNullTriads(counted, TriadNames, n);
    }
    FilledCounts(g.nodes, edges, rank, countDisconnected, counted, census);
    r := Ok(CensusOutcome(census, if recordTriads then Some(record) else None));
  }

  /**
    For an injective rank that covers the linked nodes, each connected class
    counts the weakly connected three-node sets of that class, and "012" and
    "102" count the three-node sets with a single or a mutual link and
    nothing else.
  */
  lemma TalliedCountsTriads(nodes: set<Node>, edges: set<Edge>, rank: Rank, countDisconnected: bool,
                            out: CensusOutcome)
    requires Tallied(nodes, edges, rank, countDisconnected, out)
    requires Injective(nodes, rank) && RankCovers(edges, rank)
    ensures forall k | k in ConnectedNames :: out.census[k] == |ConnectedTriads(nodes, edges, k)|
    ensures countDisconnected ==>
      out.census["012"] == |DyadTriads(nodes, edges, false)| &&
      out.census["102"] == |DyadTriads(nodes, edges, true)|
  {
    forall k | k in ConnectedNames
      ensures out.census[k] == |ConnectedTriads(nodes, edges, k)|
    {
      CountedMatchesConnectedTriads(nodes, edges, rank, k);
    }
    DyadsMatchDyadTriads(nodes, edges, rank, false);
    DyadsMatchDyadTriads(nodes, edges, rank, true);
  }

  /** Maps over the listed keys that agree beyond the first key and have the same sum are equal. */
  lemma {:induction false} TotalDeterminesFirst(c1: map<string, int>, c2: map<string, int>, names: seq<string>)
    requires names != [] && names[0] !in names[1..] && c1.Keys == (set n | n in names) && c2.Keys == c1.Keys
    requires forall k | k in c1 && k != names[0] :: c1[k] == c2[k]
    requires Total(c1, names) == Total(c2, names)
    ensures c1 == c2
  {
    var tail := names[1..];
    assert forall i | 0 <= i < |tail| :: tail[i] == names[i + 1] && tail[i] in c1;
    TotalAgree(c1, c2, tail);
    forall k | k in c1
      ensures c1[k] == c2[k]
    {
      var i :| 0 <= i < |names| && names[i] == k;
    }
  }

  /** Two full censuses that agree outside "003" and have the same sum are the same census. */
  lemma NullTriadsDetermined(c1: map<string, int>, c2: map<string, int>)
    requires c1.Keys == Names(true) && c2.Keys == Names(true)
    requires forall k | k in ConnectedNames :: c1[k] == c2[k]
    requires "012" in c1 && "102" in c1 && c1["012"] == c2["012"] && c1["102"] == c2["102"]
    requires Total(c1, TriadNames) == Total(c2, TriadNames)
    ensures c1 == c2
  {
    NamePositions();
    AgreeOutsideNull(c1, c2);
    FirstNameUnique();
    TotalDeterminesFirst(c1, c2, TriadNames);
  }

  lemma AgreeOutsideNull(c1: map<string, int>, c2: map<string, int>)
    requires c1.Keys == Names(true) && c2.Keys == Names(true)
    requires forall k | k in ConnectedNames :: c1[k] == c2[k]
    requires c1[TriadNames[1]] == c2[TriadNames[1]] && c1[TriadNames[2]] == c2[TriadNames[2]]
    ensures forall k | k in c1 && k != TriadNames[0] :: k in c2 && c1[k] == c2[k]
  {
    NamesSplit();
  }

  /** Any two injective covering ranks, the identity among them, give the same census. */
  lemma CensusRankIndependence(nodes: set<Node>, edges: set<Edge>, r1: Rank, r2: Rank, countDisconnected: bool,
                               o1: CensusOutcome, o2: CensusOutcome)
    requires Tallied(nodes, edges, r1, countDisconnected, o1) && Injective(nodes, r1) && RankCovers(edges, r1)
    requires Tallied(nodes, edges, r2, countDisconnected, o2) && Injective(nodes, r2) && RankCovers(edges, r2)
    ensures o1.census == o2.census
  {
    TalliedCountsTriads(nodes, edges, r1, countDisconnected, o1);
    TalliedCountsTriads(nodes, edges, r2, countDisconnected, o2);
    if countDisconnected {
      NameGroups();
      NullTriadsDetermined(o1.census, o2.census);
    }
  }
}
