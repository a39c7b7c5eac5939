/**
  The lookup tables of the triad census: the sixteen triad class names, the
  64-entry table from a tricode to a class number, and the tables between the
  motif numbers 1..13, the motif ids and the class names of the thirteen
  weakly connected classes.

  A tricode packs the six possible links among an ordered node triple (v, u, w)
  into the bits 1 (v->u), 2 (u->v), 4 (v->w), 8 (w->v), 16 (u->w) and 32 (w->u).
*/
module Triads {
  import opened Graphs

  /** `triad_names`, in the order of the class numbers 1..16. */
  const TriadNames: seq<string> := ["003", "012", "102", "021D", "021U", "021C", "111D", "111U",
    "030T", "030C", "201", "120D", "120U", "120C", "210", "300"]

  /** `tricodes`: the class number (1-based index into TriadNames) of each tricode. */
  const Tricodes: seq<int> :=
    [1, 2, 2, 3, 2, 4, 6, 8] + [2, 6, 5, 7, 3, 8, 7, 11] +
    [2, 6, 4, 8, 5, 9, 9, 13] + [6, 10, 9, 14, 7, 14, 12, 15] +
    [2, 5, 6, 7, 6, 9, 10, 14] + [4, 9, 9, 12, 8, 13, 14, 15] +
    [3, 7, 8, 11, 7, 12, 14, 15] + [8, 14, 13, 15, 11, 15, 15, 16]

  /** Bit weight `w` when the link is present. */
  function Weight(present: bool, w: nat): nat
  {
    if present then w else 0
  }

  /** The tricode of six link flags, in the bit order of the module comment. */
  function Code(vu: bool, uv: bool, vw: bool, wv: bool, uw: bool, wu: bool): nat
  {
    Weight(vu, 1) + Weight(uv, 2) + Weight(vw, 4) + Weight(wv, 8) + Weight(uw, 16) + Weight(wu, 32)
  }

  /** `_tricode(graph, v, u, w)` over the edge set `edges` of a directed graph. */
  function Tricode(edges: set<Edge>, v: Node, u: Node, w: Node): (code: nat)
    ensures code < 64
  {
    Code((v, u) in edges, (u, v) in edges, (v, w) in edges, (w, v) in edges, (u, w) in edges, (w, u) in edges)
  }

  /** Each of the six links is one bit of the tricode, in the order of `_tricode`'s pairs. */
  lemma TricodeBits(edges: set<Edge>, v: Node, u: Node, w: Node)
    ensures var code := Tricode(edges, v, u, w);
      ((code / 1) % 2 == 1 <==> (v, u) in edges) &&
      ((code / 2) % 2 == 1 <==> (u, v) in edges) &&
      ((code / 4) % 2 == 1 <==> (v, w) in edges) &&
      ((code / 8) % 2 == 1 <==> (w, v) in edges) &&
      ((code / 16) % 2 == 1 <==> (u, w) in edges) &&
      ((code / 32) % 2 == 1 <==> (w, u) in edges)
  {
    BitsOfCode((v, u) in edges, (u, v) in edges, (v, w) in edges, (w, v) in edges, (u, w) in edges, (w, u) in edges);
  }

  /** `tricode_to_name[code]` */
  function TricodeToName(code: nat): (name: string)
    requires code < 64
    ensures name in TriadNames
  {
    TableRange(code);
    TriadNames[Tricodes[code] - 1]
  }

  /** The class name of the triple (v, u, w) as ordered. */
  function TriadClass(edges: set<Edge>, v: Node, u: Node, w: Node): string
  {
    TricodeToName(Tricode(edges, v, u, w))
  }

  /** The six flags can be read back from the code, bit by bit. */
  lemma BitsOfCode(vu: bool, uv: bool, vw: bool, wv: bool, uw: bool, wu: bool)
    ensures var code := Code(vu, uv, vw, wv, uw, wu);
      code < 64 && (code % 2 == 1 <==> vu) && ((code / 2) % 2 == 1 <==> uv) &&
      ((code / 4) % 2 == 1 <==> vw) && ((code / 8) % 2 == 1 <==> wv) &&
      ((code / 16) % 2 == 1 <==> uw) && ((code / 32) % 2 == 1 <==> wu)
  {
    var code := Code(vu, uv, vw, wv, uw, wu);
    var h1 := Weight(uv, 1) + Weight(vw, 2) + Weight(wv, 4) + Weight(uw, 8) + Weight(wu, 16);
    assert code == Weight(vu, 1) + 2 * h1;
    assert code / 2 == h1;
    var h2 := Weight(vw, 1) + Weight(wv, 2) + Weight(uw, 4) + Weight(wu, 8);
    assert h1 == Weight(uv, 1) + 2 * h2;
    assert code / 4 == h2;
    var h3 := Weight(wv, 1) + Weight(uw, 2) + Weight(wu, 4);
    assert h2 == Weight(vw, 1) + 2 * h3;
    assert code / 8 == h3;
    assert code / 16 == Weight(uw, 1) + Weight(wu, 2);
    assert code / 32 == Weight(wu, 1);
  }

  /** The table has 64 entries, each a class number in 1..16. */
  lemma TableRange(code: nat)
    requires code < 64
    ensures |Tricodes| == 64 && 1 <= Tricodes[code] <= 16
  {
    var low, high := Tricodes[..32], Tricodes[32..];
    assert Tricodes == low + high;
    if code < 32 {
      assert Tricodes[code] == low[code];
    } else {
      assert Tricodes[code] == high[code - 32];
    }
  }

  /** The empty triad is "003", the complete one "300", the 3-cycle 0->1->2->0 is "030C". */
  lemma TableExamples()
    ensures TricodeToName(0) == "003"
    ensures TricodeToName(63) == "300"
    ensures Tricode({(0, 1), (1, 2), (2, 0)}, 0, 1, 2) == 25
    ensures TriadClass({(0, 1), (1, 2), (2, 0)}, 0, 1, 2) == "030C"
  {
  }

  /** Exchanging v and u permutes the bits but keeps the class. */
  lemma SwapFirstTwoOnBits(vu: bool, uv: bool, vw: bool, wv: bool, uw: bool, wu: bool)
    ensures Code(vu, uv, vw, wv, uw, wu) < 64 && Code(uv, vu, uw, wu, vw, wv) < 64
    ensures Tricodes[Code(vu, uv, vw, wv, uw, wu)] == Tricodes[Code(uv, vu, uw, wu, vw, wv)]
  {
  }

  /** Exchanging u and w permutes the bits but keeps the class. */
  lemma SwapLastTwoOnBits(vu: bool, uv: bool, vw: bool, wv: bool, uw: bool, wu: bool)
    ensures Code(vu, uv, vw, wv, uw, wu) < 64 && Code(vw, wv, vu, uv, wu, uw) < 64
    ensures Tricodes[Code(vu, uv, vw, wv, uw, wu)] == Tricodes[Code(vw, wv, vu, uv, wu, uw)]
  {
  }

  /** The class of a triple does not depend on the order its nodes are listed in. */
  lemma ClassIsSymmetric(edges: set<Edge>, v: Node, u: Node, w: Node)
    ensures TriadClass(edges, v, u, w) == TriadClass(edges, u, v, w)
    ensures TriadClass(edges, v, u, w) == TriadClass(edges, v, w, u)
    ensures TriadClass(edges, v, u, w) == TriadClass(edges, w, u, v)
    ensures TriadClass(edges, v, u, w) == TriadClass(edges, u, w, v)
    ensures TriadClass(edges, v, u, w) == TriadClass(edges, w, v, u)
  {
    forall a: Node, b: Node, c: Node
      ensures TriadClass(edges, a, b, c) == TriadClass(edges, b, a, c)
      ensures TriadClass(edges, a, b, c) == TriadClass(edges, a, c, b)
    {
      SwapFirstTwoOnBits((a, b) in edges, (b, a) in edges, (a, c) in edges, (c, a) in edges, (b, c) in edges, (c, b) in edges);
      SwapLastTwoOnBits((a, b) in edges, (b, a) in edges, (a, c) in edges, (c, a) in edges, (b, c) in edges, (c, b) in edges);
    }
  }

  /** `x` and `y` are linked in at least one direction. */
  predicate Adjacent(edges: set<Edge>, x: Node, y: Node)
  {
    (x, y) in edges || (y, x) in edges
  }

  /** At least two of the three pairs are linked: the triad is weakly connected. */
  predicate Connected(edges: set<Edge>, v: Node, u: Node, w: Node)
  {
    var a, b, c := Adjacent(edges, v, u), Adjacent(edges, v, w), Adjacent(edges, u, w);
    (a && b) || (a && c) || (b && c)
  }

  lemma ClassNumbersOnBits(vu: bool, uv: bool, vw: bool, wv: bool, uw: bool, wu: bool)
    ensures Code(vu, uv, vw, wv, uw, wu) < 64
    ensures var k, a, b, c := Tricodes[Code(vu, uv, vw, wv, uw, wu)], vu || uv, vw || wv, uw || wu;
      (k == 1 <==> !a && !b && !c) &&
      (k == 2 <==> (a && !b && !c && !(vu && uv)) || (!a && b && !c && !(vw && wv)) || (!a && !b && c && !(uw && wu))) &&
      (k == 3 <==> (a && !b && !c && vu && uv) || (!a && b && !c && vw && wv) || (!a && !b && c && uw && wu))
  {
  }

  /**
    The three classes "003", "012" and "102" are exactly the triads with no
    link, one single link, and one mutual link; every other class is weakly
    connected.
  */
  lemma DisconnectedClasses(edges: set<Edge>, v: Node, u: Node, w: Node)
    ensures TriadClass(edges, v, u, w) == "003" <==>
      !Adjacent(edges, v, u) && !Adjacent(edges, v, w) && !Adjacent(edges, u, w)
    ensures TriadClass(edges, v, u, w) in {"003", "012", "102"} <==> !Connected(edges, v, u, w)
    ensures Adjacent(edges, v, u) && !Adjacent(edges, v, w) && !Adjacent(edges, u, w) ==>
      TriadClass(edges, v, u, w) == (if (v, u) in edges && (u, v) in edges then "102" else "012")
  {
    var code := Tricode(edges, v, u, w);
    ClassNumbersOnBits((v, u) in edges, (u, v) in edges, (v, w) in edges, (w, v) in edges, (u, w) in edges, (w, u) in edges);
    TableRange(code);
    NamesAreDistinct();
  }

  /** The sixteen names are pairwise different. */
  lemma NamesAreDistinct()
    ensures |TriadNames| == 16
    ensures forall i, j :: 0 <= i < j < 16 ==> TriadNames[i] != TriadNames[j]
  {
    forall i, j | 0 <= i < j < 16
      ensures TriadNames[i] != TriadNames[j]
    {
      assert TriadNames[i][..] == TriadNames[i];
    }
  }

  /** The names of the thirteen weakly connected classes 4..16. */
  const ConnectedNames: set<string> := set i | 3 <= i < 16 :: TriadNames[i]

  lemma ConnectedNamesListed()
    ensures ConnectedNames == {"021D", "021U", "021C", "111D", "111U", "030T", "030C", "201",
      "120D", "120U", "120C", "210", "300"}
  {
    var listed := {"021D", "021U", "021C", "111D", "111U", "030T", "030C", "201",
      "120D", "120U", "120C", "210", "300"};
    var tail := TriadNames[3..];
    assert tail == ["021D", "021U", "021C", "111D", "111U", "030T", "030C", "201", "120D", "120U", "120C", "210", "300"];
    assert forall i | 3 <= i < 16 :: TriadNames[i] == tail[i - 3];
    assert ConnectedNames <= listed;
    assert tail[0] in ConnectedNames && tail[1] in ConnectedNames && tail[2] in ConnectedNames;
    assert tail[3] in ConnectedNames && tail[4] in ConnectedNames && tail[5] in ConnectedNames;
    assert tail[6] in ConnectedNames && tail[7] in ConnectedNames && tail[8] in ConnectedNames;
    assert tail[9] in ConnectedNames && tail[10] in ConnectedNames && tail[11] in ConnectedNames;
    assert tail[12] in ConnectedNames;
  }

  /** `mtf_sz3_id2num` */
  const Id2Num: map<int, int> := map[6 := 1, 36 := 2, 12 := 3, 74 := 4, 14 := 5, 78 := 6, 38 := 7,
    98 := 8, 108 := 9, 46 := 10, 102 := 11, 110 := 12, 238 := 13]
  /** `mtf_sz3_num2id` */
  const Num2Id: map<int, int> := map[1 := 6, 2 := 36, 3 := 12, 4 := 74, 5 := 14, 6 := 78, 7 := 38,
    8 := 98, 9 := 108, 10 := 46, 11 := 102, 12 := 110, 13 := 238]
  /** `tricode2id` */
  const Tricode2Id: map<string, int> := map["021D" := 6, "021U" := 36, "021C" := 12, "111D" := 74,
    "111U" := 14, "030T" := 38, "030C" := 98, "201" := 78, "120D" := 108, "120U" := 46,
    "120C" := 102, "210" := 110, "300" := 238]
  /** `tricode2num` */
  const Tricode2Num: map<string, int> := map["021D" := 1, "021U" := 2, "021C" := 3, "111D" := 4,
    "111U" := 5, "030T" := 7, "030C" := 8, "201" := 6, "120D" := 9, "120U" := 10,
    "120C" := 11, "210" := 12, "300" := 13]
  /** `num2tricode` */
  const Num2Tricode: map<int, string> := map[1 := "021D", 2 := "021U", 3 := "021C", 4 := "111D",
    5 := "111U", 7 := "030T", 8 := "030C", 6 := "201", 9 := "120D", 10 := "120U",
    11 := "120C", 12 := "210", 13 := "300"]

  /** The motif numbers are 1..13. */
  lemma NumberKeys()
    ensures Num2Tricode.Keys == {1, 2, 3, 4, 5, 6, 7, 8, 9, 10, 11, 12, 13}
    ensures Num2Id.Keys == {1, 2, 3, 4, 5, 6, 7, 8, 9, 10, 11, 12, 13}
  {
  }

  /** `num2tricode` followed by `tricode2num` is the identity. */
  lemma NumToNameToNum()
    ensures forall k | k in Num2Tricode :: Num2Tricode[k] in Tricode2Num && Tricode2Num[Num2Tricode[k]] == k
  {
    forall k | k in Num2Tricode
      ensures Num2Tricode[k] in Tricode2Num && Tricode2Num[Num2Tricode[k]] == k
    {
      assert k in {1, 2, 3, 4, 5, 6, 7, 8, 9, 10, 11, 12, 13};
    }
  }

  /** `tricode2num` followed by `num2tricode` is the identity. */
  lemma NameToNumToName()
    ensures forall name | name in Tricode2Num :: Tricode2Num[name] in Num2Tricode && Num2Tricode[Tricode2Num[name]] == name
  {
    forall name | name in Tricode2Num
      ensures Tricode2Num[name] in Num2Tricode && Num2Tricode[Tricode2Num[name]] == name
    {
      assert name in {"021D", "021U", "021C", "111D", "111U", "030T", "030C", "201", "120D", "120U", "120C", "210", "300"};
    }
  }

  /** The class-name tables have the thirteen connected classes as keys. */
  lemma NameTablesCoverConnected()
    ensures Tricode2Num.Keys == ConnectedNames && Tricode2Id.Keys == ConnectedNames
  {
    ConnectedNamesListed();
  }

  /** `mtf_sz3_num2id` followed by `mtf_sz3_id2num` is the identity. */
  lemma NumToIdToNum()
    ensures forall k | k in Num2Id :: Num2Id[k] in Id2Num && Id2Num[Num2Id[k]] == k
  {
    forall k | k in Num2Id
      ensures Num2Id[k] in Id2Num && Id2Num[Num2Id[k]] == k
    {
      assert k in {1, 2, 3, 4, 5, 6, 7, 8, 9, 10, 11, 12, 13};
    }
  }

  /** `mtf_sz3_id2num` followed by `mtf_sz3_num2id` is the identity. */
  lemma IdToNumToId()
    ensures forall id | id in Id2Num :: Id2Num[id] in Num2Id && Num2Id[Id2Num[id]] == id
  {
    forall id | id in Id2Num
      ensures Id2Num[id] in Num2Id && Num2Id[Id2Num[id]] == id
    {
      assert id in {6, 36, 12, 74, 14, 78, 38, 98, 108, 46, 102, 110, 238};
    }
  }

  /** The id of a class name is the id of its motif number. */
  lemma IdTablesAgree()
    ensures forall name | name in Tricode2Id :: Tricode2Num[name] in Num2Id && Tricode2Id[name] == Num2Id[Tricode2Num[name]]
  {
    assert Tricode2Id.Keys == Tricode2Num.Keys;
    forall name | name in Tricode2Id
      ensures Tricode2Num[name] in Num2Id && Tricode2Id[name] == Num2Id[Tricode2Num[name]]
    {
    }
  }
}
