/**
  Spectral bisection of networks into communities (Newman, PNAS 103:8577,
  2006) with Kernighan-Lin style refinement of each split, for undirected
  graphs and, through the symmetrised matrix B + B^T, for directed ones
  (Leicht & Newman, PRL 100:118703, 2008).

  Arithmetic is exact over `real`. The modularity matrix of the graph, built
  from its adjacency matrix, is an input, and so is the eigen solver: `eig`
  maps a matrix to the eigenvector of its largest eigenvalue.
*/
module Spectral {
  import opened Wrappers
  import opened Graphs
  import opened Seqs
  import opened Sorting

  type Matrix = seq<seq<real>>

  predicate IsSquare(b: Matrix, n: nat)
  {
    |b| == n && forall i | 0 <= i < n :: |b[i]| == n
  }

  predicate Symmetric(b: Matrix)
    requires IsSquare(b, |b|)
  {
    forall i, j | 0 <= i < |b| && 0 <= j < |b| :: b[i][j] == b[j][i]
  }

  /** A state vector: every entry is 1 or -1. */
  predicate IsSigns(s: seq<int>)
  {
    forall i | 0 <= i < |s| :: s[i] == 1 || s[i] == -1
  }

  function Sum(r: seq<real>): real
  {
    if r == [] then 0.0 else r[0] + Sum(r[1..])
  }

  function Dot(r: seq<real>, s: seq<int>): real
    requires |r| == |s|
  {
    if r == [] then 0.0 else r[0] * s[0] as real + Dot(r[1..], s[1..])
  }

  /** t^T M s for the rows M of a matrix. */
  function Form(rows: Matrix, t: seq<int>, s: seq<int>): real
    requires |rows| == |t| && forall i | 0 <= i < |rows| :: |rows[i]| == |s|
  {
    if rows == [] then 0.0 else t[0] as real * Dot(rows[0], s) + Form(rows[1..], t[1..], s)
  }

  /** s^T B s, `dot(s, dot(b, s))`. */
  function Quad(b: Matrix, s: seq<int>): real
    requires IsSquare(b, |s|)
  {
    Form(b, s, s)
  }

  function Column(b: Matrix, j: nat): seq<real>
    requires IsSquare(b, |b|) && j < |b|
  {
    seq(|b|, i requires 0 <= i < |b| => b[i][j])
  }

  /** The vector with one entry negated. */
  function Flipped(s: seq<int>, i: nat): seq<int>
    requires i < |s|
  {
    s[i := -s[i]]
  }

  // ---------------------------------------------------------------------------
  // Sums
  // ---------------------------------------------------------------------------

  /** Changing one entry changes the sum by the difference. */
  lemma {:induction false} SumUpdate(r: seq<real>, i: nat, x: real)
    requires i < |r|
    ensures Sum(r[i := x]) == Sum(r) - r[i] + x
  {
    if i > 0 {
      SumUpdate(r[1..], i - 1, x);
      assert r[i := x][1..] == r[1..][i - 1 := x];
    }
  }

  /** Against a constant vector, a row contributes the constant times its sum. */
  lemma {:induction false} DotConstant(r: seq<real>, s: seq<int>, c: int)
    requires |r| == |s| && forall i | 0 <= i < |s| :: s[i] == c
    ensures Dot(r, s) == c as real * Sum(r)
  {
    if r != [] {
      DotConstant(r[1..], s[1..], c);
    }
  }

  predicate ZeroRowSums(b: Matrix)
  {
    forall i | 0 <= i < |b| :: Sum(b[i]) == 0.0
  }

  /** With zero row sums, every row is orthogonal to a constant vector, so the form vanishes. */
  lemma {:induction false} FormConstant(rows: Matrix, t: seq<int>, s: seq<int>, c: int)
    requires |rows| == |t| && forall i | 0 <= i < |rows| :: |rows[i]| == |s|
    requires ZeroRowSums(rows) && forall i | 0 <= i < |s| :: s[i] == c
    ensures Form(rows, t, s) == 0.0
  {
    if rows != [] {
      DotConstant(rows[0], s, c);
      FormConstant(rows[1..], t[1..], s, c);
    }
  }

  /** A state vector that puts every node on the same side has s^T B s = 0 once the rows of B sum to zero. */
  lemma ConstantQuad(b: Matrix, s: seq<int>)
    requires IsSquare(b, |s|) && ZeroRowSums(b) && |s| > 0
    requires forall i | 0 <= i < |s| :: s[i] == s[0]
    ensures Quad(b, s) == 0.0
  {
    FormConstant(b, s, s, s[0]);
  }

  // ---------------------------------------------------------------------------
  // Kernighan-Lin refinement (`kernighan_lin_refinement`)
  // ---------------------------------------------------------------------------

  /** All state vectors of length n: the finite space the refinement climbs in. */
  function SignVectors(n: nat): (r: set<seq<int>>)
    ensures forall t | t in r :: |t| == n && IsSigns(t)
  {
    if n == 0 then {[]} else set t, x | t in SignVectors(n - 1) && x in {-1, 1} :: t + [x]
  }

  lemma {:induction false} SignVectorsComplete(t: seq<int>)
    requires IsSigns(t)
    ensures t in SignVectors(|t|)
  {
    if t != [] {
      var u := t[..|t| - 1];
      assert IsSigns(u);
      SignVectorsComplete(u);
      assert t == u + [t[|t| - 1]];
    }
  }

  /** The state vectors that score strictly better than q. */
  function Better(b: Matrix, n: nat, q: real): set<seq<int>>
    requires IsSquare(b, n)
  {
    set t | t in SignVectors(n) && Quad(b, t) > q
  }

  /** Moving to a strictly better state vector removes it, and nothing is added. */
  lemma BetterShrinks(b: Matrix, q: real, t: seq<int>)
    requires IsSquare(b, |t|) && IsSigns(t) && Quad(b, t) > q
    ensures |Better(b, |t|, Quad(b, t))| < |Better(b, |t|, q)|
  {
    SignVectorsComplete(t);
    var lo, hi := Better(b, |t|, Quad(b, t)), Better(b, |t|, q);
    assert t in hi - lo;
    assert lo + (hi - lo) == hi;
  }

  /** The first position of a largest entry (numpy's `max` and `argmax`). */
  function ArgMax(t: seq<real>): (k: nat)
    requires |t| > 0
    ensures k < |t|
    ensures forall i | 0 <= i < |t| :: t[i] <= t[k]
    ensures forall i | 0 <= i < k :: t[i] < t[k]
  {
    if |t| == 1 then 0
    else
      var k := ArgMax(t[..|t| - 1]);
      if t[|t| - 1] > t[k] then |t| - 1 else k
  }

  /** `flip`: scores the vector with one entry negated and restores the entry. */
  method Trial(s: array<int>, b: Matrix, pos: nat) returns (dq: real)
    requires pos < s.Length && IsSquare(b, s.Length)
    modifies s
    ensures s[..] == old(s[..])
    ensures dq == Quad(b, Flipped(old(s[..]), pos))
  {
    s[pos] := -s[pos];
    dq := Quad(b, s[..]);
    s[pos] := -s[pos];
  }

  /** One pass of the refinement loop: score every single flip, and take the best one if it improves. */
  method Pass(s: array<int>, b: Matrix, trials: array<real>, qMax: real) returns (improved: bool, q: real)
    requires s.Length > 0 && trials.Length == s.Length
    requires IsSquare(b, s.Length) && IsSigns(s[..]) && qMax == Quad(b, s[..])
    modifies s, trials
    ensures IsSigns(s[..]) && q == Quad(b, s[..])
    ensures improved ==> q > qMax
    ensures improved ==> var i := ArgMax(trials[..]); i < s.Length && s[..] == Flipped(old(s[..]), i)
    ensures !improved ==> s[..] == old(s[..]) && q == qMax
    ensures !improved ==> forall i | 0 <= i < s.Length :: Quad(b, Flipped(s[..], i)) <= q
  {
    for i := 0 to s.Length
      invariant s[..] == old(s[..])
      invariant forall k | 0 <= k < i :: trials[k] == Quad(b, Flipped(s[..], k))
    {
      trials[i] := Trial(s, b, i);
    }
    var i := ArgMax(trials[..]);
    var dq := trials[i];
    if dq > qMax {
      s[i] := -s[i];
      improved, q := true, dq;
    } else {
      improved, q := false, qMax;
    }
  }

  /**
    Greedy refinement of a state vector: while some single flip raises
    s^T B s, make the first best one. The result is still a state vector,
    scores at least as well as the input, and no single flip improves it.
  */
  method KernighanLin(s: array<int>, b: Matrix)
    requires s.Length > 0 && IsSquare(b, s.Length) && IsSigns(s[..])
    modifies s
    ensures IsSigns(s[..])
    ensures Quad(b, s[..]) >= Quad(b, old(s[..]))
    ensures forall i | 0 <= i < s.Length :: Quad(b, Flipped(s[..], i)) <= Quad(b, s[..])
  {
    var trials := new real[s.Length];
    var qMax := Quad(b, s[..]);
    while true
      invariant IsSigns(s[..]) && qMax == Quad(b, s[..]) && qMax >= Quad(b, old(s[..]))
      decreases |Better(b, s.Length, qMax)|
    {
      var improved, q := Pass(s, b, trials, qMax);
      if !improved {
        break;
      }
      BetterShrinks(b, qMax, s[..]);
      qMax := q;
    }
  }

  // ---------------------------------------------------------------------------
  // The matrix of one split (`sub_b` in `_split`)
  // ---------------------------------------------------------------------------

  predicate InRange(idx: seq<nat>, n: nat)
  {
    forall i | 0 <= i < |idx| :: idx[i] < n
  }

  /** `b[ix(nbunch, nbunch)]`: the rows and columns of the listed indices. */
  function Sub(b: Matrix, idx: seq<nat>): (r: Matrix)
    requires IsSquare(b, |b|) && InRange(idx, |b|)
    ensures IsSquare(r, |idx|)
  {
    seq(|idx|, i requires 0 <= i < |idx| => seq(|idx|, j requires 0 <= j < |idx| => b[idx[i]][idx[j]]))
  }

  lemma SubSymmetric(b: Matrix, idx: seq<nat>)
    requires IsSquare(b, |b|) && InRange(idx, |b|) && Symmetric(b)
    ensures Symmetric(Sub(b, idx))
  {
  }

  /** `b + b.T`, the symmetrised modularity matrix of a directed graph. */
  function Symmetrised(b: Matrix): (r: Matrix)
    requires IsSquare(b, |b|)
    ensures IsSquare(r, |b|) && Symmetric(r)
  {
    seq(|b|, i requires 0 <= i < |b| => seq(|b|, j requires 0 <= j < |b| => b[i][j] + b[j][i]))
  }

  /**
    The matrix B^(g) of Newman's equation 6: each diagonal entry less the sum
    of its row.
  */
  function Adjusted(b: Matrix): (r: Matrix)
    requires IsSquare(b, |b|)
    ensures IsSquare(r, |b|)
  {
    seq(|b|, i requires 0 <= i < |b| => b[i][i := b[i][i] - Sum(b[i])])
  }

  /** The adjustment leaves every row summing to zero and touches only the diagonal. */
  lemma AdjustedRows(b: Matrix)
    requires IsSquare(b, |b|)
    ensures ZeroRowSums(Adjusted(b))
    ensures forall i, j | 0 <= i < |b| && 0 <= j < |b| && i != j :: Adjusted(b)[i][j] == b[i][j]
  {
    forall i | 0 <= i < |b|
      ensures Sum(Adjusted(b)[i]) == 0.0
    {
      SumUpdate(b[i], i, b[i][i] - Sum(b[i]));
    }
  }

  /** The directed adjustment: each diagonal entry less the mean of its row and column sums. */
  function DirectedAdjusted(b: Matrix): (r: Matrix)
    requires IsSquare(b, |b|)
    ensures IsSquare(r, |b|)
  {
    seq(|b|, i requires 0 <= i < |b| => b[i][i := b[i][i] - (Sum(b[i]) + Sum(Column(b, i))) / 2.0])
  }

  /** On a symmetric matrix, such as the symmetrised one, both adjustments agree. */
  lemma DirectedAdjustedSymmetric(b: Matrix)
    requires IsSquare(b, |b|) && Symmetric(b)
    ensures DirectedAdjusted(b) == Adjusted(b)
  {
    forall i | 0 <= i < |b|
      ensures DirectedAdjusted(b)[i] == Adjusted(b)[i]
    {
      assert Column(b, i) == b[i];
    }
  }

  /** The loop of `_split` that adjusts the diagonal of its copy of the matrix, one row at a time. */
  method AdjustDiagonal(b: Matrix) returns (a: Matrix)
    requires IsSquare(b, |b|)
    ensures a == Adjusted(b)
  {
    a := b;
    for i := 0 to |b|
      invariant IsSquare(a, |b|)
      invariant forall k | 0 <= k < |b| :: a[k] == if k < i then Adjusted(b)[k] else b[k]
    {
      a := a[i := a[i][i := a[i][i] - Sum(a[i])]];
    }
  }

  /** The same loop in the directed variant; the column sums also read only unadjusted entries. */
  method AdjustDiagonalDirected(b: Matrix) returns (a: Matrix)
    requires IsSquare(b, |b|)
    ensures a == DirectedAdjusted(b)
  {
    a := b;
    for i := 0 to |b|
      invariant IsSquare(a, |b|)
      invariant forall k | 0 <= k < |b| :: a[k] == if k < i then DirectedAdjusted(b)[k] else b[k]
    {
      assert Column(a, i) == Column(b, i);
      a := a[i := a[i][i := a[i][i] - (Sum(a[i]) + Sum(Column(a, i))) / 2.0]];
    }
  }

  // ---------------------------------------------------------------------------
  // Splitting one group (`_split`)
  // ---------------------------------------------------------------------------

  /** The eigen solver returns one entry per row. */
  ghost predicate Solver(eig: Matrix -> seq<real>)
  {
    forall m: Matrix :: |eig(m)| == |m|
  }

  /** The state vector of an eigenvector: 1 for positive entries, -1 for zero and negative ones. */
  function Signs(v: seq<real>): (s: seq<int>)
    ensures |s| == |v| && IsSigns(s)
    ensures forall i | 0 <= i < |v| :: s[i] == 1 <==> v[i] > 0.0
  {
    seq(|v|, i requires 0 <= i < |v| => if v[i] > 0.0 then 1 else -1)
  }

  /** The listed indices whose sign is positive, in order (`group1`). */
  function Positives(idx: seq<nat>, s: seq<int>): seq<nat>
    requires |s| == |idx|
  {
    if idx == [] then []
    else Positives(idx[..|idx| - 1], s[..|s| - 1]) + (if s[|s| - 1] > 0 then [idx[|idx| - 1]] else [])
  }

  /** The remaining indices, in order (`group2`). */
  function Negatives(idx: seq<nat>, s: seq<int>): seq<nat>
    requires |s| == |idx|
  {
    if idx == [] then []
    else Negatives(idx[..|idx| - 1], s[..|s| - 1]) + (if s[|s| - 1] > 0 then [] else [idx[|idx| - 1]])
  }

  /** The two groups split the listed indices. */
  lemma {:induction false} GroupsPartition(idx: seq<nat>, s: seq<int>)
    requires |s| == |idx|
    ensures multiset(Positives(idx, s)) + multiset(Negatives(idx, s)) == multiset(idx)
  {
    if idx != [] {
      GroupsPartition(idx[..|idx| - 1], s[..|s| - 1]);
      assert idx == idx[..|idx| - 1] + [idx[|idx| - 1]];
    }
  }

  /** The first group is empty exactly when no sign is positive. */
  lemma {:induction false} PositivesEmpty(idx: seq<nat>, s: seq<int>)
    requires |s| == |idx|
    ensures Positives(idx, s) == [] <==> forall i | 0 <= i < |s| :: s[i] <= 0
  {
    if idx != [] {
      var s' := s[..|s| - 1];
      PositivesEmpty(idx[..|idx| - 1], s');
      assert (forall i | 0 <= i < |s| :: s[i] <= 0) <==>
             (forall i | 0 <= i < |s'| :: s'[i] <= 0) && s[|s| - 1] <= 0;
    }
  }

  /** The second group is empty exactly when every sign is positive. */
  lemma {:induction false} NegativesEmpty(idx: seq<nat>, s: seq<int>)
    requires |s| == |idx|
    ensures Negatives(idx, s) == [] <==> forall i | 0 <= i < |s| :: s[i] > 0
  {
    if idx != [] {
      var s' := s[..|s| - 1];
      NegativesEmpty(idx[..|idx| - 1], s');
      assert (forall i | 0 <= i < |s| :: s[i] > 0) <==>
             (forall i | 0 <= i < |s'| :: s'[i] > 0) && s[|s| - 1] > 0;
    }
  }

  /** The loop of `_split` that sorts the indices into two groups by sign. */
  method Group(idx: seq<nat>, s: seq<int>) returns (group1: seq<nat>, group2: seq<nat>)
    requires |s| == |idx|
    ensures group1 == Positives(idx, s) && group2 == Negatives(idx, s)
  {
    group1, group2 := [], [];
    for i := 0 to |s|
      invariant group1 == Positives(idx[..i], s[..i]) && group2 == Negatives(idx[..i], s[..i])
    {
      assert idx[..i + 1][..i] == idx[..i] && s[..i + 1][..i] == s[..i];
      if s[i] > 0 {
        group1 := group1 + [idx[i]];
      } else {
        group2 := group2 + [idx[i]];
      }
    }
    assert idx[..|s|] == idx && s[..|s|] == s;
  }

  /** A state vector with both signs gives two non-empty groups. */
  lemma GroupsNonEmpty(idx: seq<nat>, s: seq<int>)
    requires |s| == |idx| && |s| > 0 && IsSigns(s)
    requires exists i | 0 <= i < |s| :: s[i] != s[0]
    ensures Positives(idx, s) != [] && Negatives(idx, s) != []
  {
    PositivesEmpty(idx, s);
    NegativesEmpty(idx, s);
  }

  /** The adjusted matrix of a group. */
  function GroupMatrix(b: Matrix, idx: seq<nat>): (r: Matrix)
    requires IsSquare(b, |b|) && InRange(idx, |b|)
    ensures IsSquare(r, |idx|) && ZeroRowSums(r)
  {
    AdjustedRows(Sub(b, idx));
    Adjusted(Sub(b, idx))
  }

  /** dQ of the eigenvector's state vector, before refinement (equations 2 and 5). */
  function Gain(b: Matrix, idx: seq<nat>, m4: real, eig: Matrix -> seq<real>): real
    requires IsSquare(b, |b|) && InRange(idx, |b|) && m4 != 0.0 && Solver(eig)
  {
    var sub := GroupMatrix(b, idx);
    Quad(sub, Signs(eig(sub))) / m4
  }

  /** A state vector scoring above zero on a matrix with zero row sums has both signs. */
  lemma PositiveMixed(b: Matrix, s: seq<int>)
    requires IsSquare(b, |s|) && ZeroRowSums(b) && IsSigns(s) && |s| > 0 && Quad(b, s) > 0.0
    ensures exists i | 0 <= i < |s| :: s[i] != s[0]
  {
    if forall i | 0 <= i < |s| :: s[i] == s[0] {
      ConstantQuad(b, s);
    }
  }

  // ---------------------------------------------------------------------------
  // The queue of groups still to split
  // ---------------------------------------------------------------------------

  /** `range(n)` */
  function Range(n: nat): (r: seq<nat>)
    ensures |r| == n && InRange(r, n)
    ensures forall i | 0 <= i < n :: r[i] == i
  {
    seq(n, i requires 0 <= i < n => i)
  }

  lemma {:induction false} RangeOnce(n: nat, i: nat)
    requires i < n
    ensures multiset(Range(n))[i] == 1
  {
    assert Range(n) == Range(n - 1) + [n - 1];
    if i < n - 1 {
      RangeOnce(n - 1, i);
    } else {
      assert n - 1 !in Range(n - 1);
    }
  }

  /** Every index of every group, with multiplicity. */
  function Members(qs: seq<seq<nat>>): multiset<nat>
  {
    if qs == [] then multiset{} else multiset(qs[0]) + Members(qs[1..])
  }

  /** A group of k > 0 indices weighs 2k - 1, so splitting it into two non-empty groups weighs less, and an empty group weighs 1. */
  function Weight(q: seq<nat>): nat
  {
    if q == [] then 1 else 2 * |q| - 1
  }

  function Potential(qs: seq<seq<nat>>): nat
  {
    if qs == [] then 0 else Weight(qs[0]) + Potential(qs[1..])
  }

  function NonEmpty(qs: seq<seq<nat>>): nat
  {
    if qs == [] then 0 else (if qs[0] == [] then 0 else 1) + NonEmpty(qs[1..])
  }

  predicate AllInRange(qs: seq<seq<nat>>, n: nat)
  {
    forall k | 0 <= k < |qs| :: InRange(qs[k], n)
  }

  /** `partitions.put`: appending a group adds its members, its weight and its count. */
  lemma {:induction false} Put(qs: seq<seq<nat>>, q: seq<nat>)
    ensures Members(qs + [q]) == Members(qs) + multiset(q)
    ensures Potential(qs + [q]) == Potential(qs) + Weight(q)
    ensures NonEmpty(qs + [q]) == NonEmpty(qs) + (if q == [] then 0 else 1)
  {
    if qs != [] {
      Put(qs[1..], q);
      assert (qs + [q])[1..] == qs[1..] + [q];
    }
  }

  /** An index listed in one group is a member of the whole. */
  lemma {:induction false} MemberOf(qs: seq<seq<nat>>, k: nat, i: nat)
    requires k < |qs| && i in qs[k]
    ensures Members(qs)[i] >= 1
  {
    if k > 0 {
      MemberOf(qs[1..], k - 1, i);
    }
  }

  /** An index listed in two groups is a member twice. */
  lemma {:induction false} MemberTwice(qs: seq<seq<nat>>, k: nat, l: nat, i: nat)
    requires k < l < |qs| && i in qs[k] && i in qs[l]
    ensures Members(qs)[i] >= 2
  {
    if k > 0 {
      MemberTwice(qs[1..], k - 1, l - 1, i);
    } else {
      MemberOf(qs[1..], l - 1, i);
    }
  }

  /** A member of the whole is listed in some group. */
  lemma {:induction false} ListedIn(qs: seq<seq<nat>>, i: nat) returns (k: nat)
    requires i in Members(qs)
    ensures k < |qs| && i in qs[k]
  {
    if i in qs[0] {
      k := 0;
    } else {
      k := ListedIn(qs[1..], i);
      k := k + 1;
    }
  }

  /** The nodes of a group of indices (`set([mapping[i] for i in indices])`). */
  function LabelSet(labels: seq<Node>, idx: seq<nat>): (r: set<Node>)
    requires InRange(idx, |labels|)
    ensures forall x :: x in r <==> exists i | 0 <= i < |idx| :: x == labels[idx[i]]
  {
    set i | 0 <= i < |idx| :: labels[idx[i]]
  }

  /** The communities are non-empty, pairwise disjoint and together hold exactly the nodes. */
  predicate Communities(cs: seq<set<Node>>, nodes: set<Node>)
  {
    (forall k | 0 <= k < |cs| :: cs[k] != {} && cs[k] <= nodes) &&
    (forall k, l | 0 <= k < l < |cs| :: cs[k] !! cs[l]) &&
    (forall x | x in nodes :: exists k | 0 <= k < |cs| :: x in cs[k])
  }

  /** Groups of indices listing every index once give communities of distinct labels that cover the nodes. */
  lemma CommunitiesOfGroups(labels: seq<Node>, done: seq<seq<nat>>, cs: seq<set<Node>>)
    requires Distinct(labels) && AllInRange(done, |labels|)
    requires Members(done) == multiset(Range(|labels|))
    requires |cs| == |done|
    requires forall k | 0 <= k < |done| :: done[k] != [] && cs[k] == LabelSet(labels, done[k])
    ensures Communities(cs, Elements(labels))
  {
    forall k | 0 <= k < |cs|
      ensures cs[k] != {}
    {
      assert labels[done[k][0]] in cs[k];
    }
    forall k, l | 0 <= k < l < |cs|
      ensures cs[k] !! cs[l]
    {
      if x :| x in cs[k] && x in cs[l] {
        var i :| 0 <= i < |done[k]| && x == labels[done[k][i]];
        var j :| 0 <= j < |done[l]| && x == labels[done[l][j]];
        assert done[k][i] == done[l][j];
        MemberTwice(done, k, l, done[k][i]);
        RangeOnce(|labels|, done[k][i]);
        assert false;
      }
    }
    forall x | x in Elements(labels)
      ensures exists k | 0 <= k < |cs| :: x in cs[k]
    {
      var i :| 0 <= i < |labels| && labels[i] == x;
      assert Range(|labels|)[i] == i;
      var k := ListedIn(done, i);
      var j :| 0 <= j < |done[k]| && done[k][j] == i;
      assert x in cs[k];
    }
  }

  /** Every index is queued or kept exactly once, and the kept groups are the communities. */
  ghost predicate Cover(labels: seq<Node>, queue: seq<seq<nat>>, done: seq<seq<nat>>, communities: seq<set<Node>>)
  {
    var n := |labels|;
    AllInRange(queue, n) && AllInRange(done, n) &&
    Members(queue) + Members(done) == multiset(Range(n)) &&
    |communities| == |done| &&
    (forall k | 0 <= k < |done| :: done[k] != [] && communities[k] == LabelSet(labels, done[k]))
  }

  /** Each split made so far gained more than the margin, and one more community is pending than splits made. */
  ghost predicate Tally(queue: seq<seq<nat>>, done: seq<seq<nat>>, gains: seq<real>, margin: real, modularity: real)
  {
    |done| + NonEmpty(queue) == |gains| + 1 &&
    modularity == Sum(gains) &&
    (forall k | 0 <= k < |gains| :: gains[k] > margin)
  }

  /** The state the queue loop keeps. */
  ghost predicate Progress(labels: seq<Node>, queue: seq<seq<nat>>, done: seq<seq<nat>>,
                           communities: seq<set<Node>>, gains: seq<real>, margin: real, modularity: real)
  {
    Cover(labels, queue, done, communities) && Tally(queue, done, gains, margin, modularity)
  }

  /**
    A split as it was scored: the group's final state vector s is a ±1
    vector over the group, the dQ added for it is sᵀBs/m4 on the group's
    adjusted matrix and at least the eigenvector's dQ, s is the
    eigenvector's own vector without refinement and a single-flip optimum
    with it.
  */
  ghost predicate Scored(b: Matrix, m4: real, refine: bool, eig: Matrix -> seq<real>,
                         idx: seq<nat>, s: seq<int>, gain: real)
  {
    IsSquare(b, |b|) && InRange(idx, |b|) && m4 != 0.0 && Solver(eig) && IsSigns(s) && |s| == |idx| &&
    var sub := GroupMatrix(b, idx);
    gain == Quad(sub, s) / m4 && gain >= Gain(b, idx, m4, eig) &&
    (!refine ==> s == Signs(eig(sub))) &&
    (refine ==> forall i | 0 <= i < |s| :: Quad(sub, Flipped(s, i)) <= Quad(sub, s))
  }

  /** A group kept as a community: its eigenvector's dQ is at most the margin. */
  ghost predicate Unsplit(b: Matrix, m4: real, margin: real, eig: Matrix -> seq<real>, idx: seq<nat>)
  {
    IsSquare(b, |b|) && InRange(idx, |b|) && m4 != 0.0 && Solver(eig) && Gain(b, idx, m4, eig) <= margin
  }

  /** What the queue loop records: every kept group was unsplittable, every gain its split's score. */
  ghost predicate Record(b: Matrix, m4: real, margin: real, refine: bool, eig: Matrix -> seq<real>,
                         done: seq<seq<nat>>, splits: seq<seq<nat>>, signs: seq<seq<int>>, gains: seq<real>)
  {
    |splits| == |gains| && |signs| == |gains| &&
    (forall k | 0 <= k < |done| :: Unsplit(b, m4, margin, eig, done[k])) &&
    (forall k | 0 <= k < |gains| :: Scored(b, m4, refine, eig, splits[k], signs[k], gains[k]))
  }

  /** Keeping an unsplittable group extends the record. */
  lemma RecordKeep(b: Matrix, m4: real, margin: real, refine: bool, eig: Matrix -> seq<real>,
                   done: seq<seq<nat>>, splits: seq<seq<nat>>, signs: seq<seq<int>>, gains: seq<real>, idx: seq<nat>)
    requires Record(b, m4, margin, refine, eig, done, splits, signs, gains) && Unsplit(b, m4, margin, eig, idx)
    ensures Record(b, m4, margin, refine, eig, done + [idx], splits, signs, gains)
  {
    forall k | 0 <= k < |done + [idx]|
      ensures Unsplit(b, m4, margin, eig, (done + [idx])[k])
    {
      if k < |done| {
        assert (done + [idx])[k] == done[k];
      }
    }
  }

  /** Splitting a group with its scored gain extends the record. */
  lemma RecordHalve(b: Matrix, m4: real, margin: real, refine: bool, eig: Matrix -> seq<real>,
                    done: seq<seq<nat>>, splits: seq<seq<nat>>, signs: seq<seq<int>>, gains: seq<real>,
                    idx: seq<nat>, s: seq<int>, gain: real)
    requires Record(b, m4, margin, refine, eig, done, splits, signs, gains) && Scored(b, m4, refine, eig, idx, s, gain)
    ensures Record(b, m4, margin, refine, eig, done, splits + [idx], signs + [s], gains + [gain])
  {
    var n := |gains|;
    forall k | 0 <= k < n + 1
      ensures Scored(b, m4, refine, eig, (splits + [idx])[k], (signs + [s])[k], (gains + [gain])[k])
    {
      if k < n {
        assert (splits + [idx])[k] == splits[k] && (signs + [s])[k] == signs[k] && (gains + [gain])[k] == gains[k];
      }
    }
  }

  /** The loop starts with every index in one queued group. */
  lemma Start(labels: seq<Node>, margin: real)
    requires |labels| > 0
    ensures Progress(labels, [Range(|labels|)], [], [], [], margin, 0.0)
  {
    var q := [Range(|labels|)];
    assert q[1..] == [];
  }

  /** With the queue empty, the kept groups are the communities. */
  lemma FinishCover(labels: seq<Node>, done: seq<seq<nat>>, communities: seq<set<Node>>)
    requires Distinct(labels) && Cover(labels, [], done, communities)
    ensures Communities(communities, Elements(labels))
  {
    CommunitiesOfGroups(labels, done, communities);
  }

  /** With the queue empty, there is one community more than splits made, and the modularity is zero only without splits. */
  lemma FinishTally(done: seq<seq<nat>>, gains: seq<real>, margin: real, modularity: real)
    requires margin >= 0.0 && Tally([], done, gains, margin, modularity)
    ensures |done| == |gains| + 1
    ensures modularity >= 0.0
    ensures modularity == 0.0 <==> |done| == 1
  {
    SumPositive(gains);
  }

  /** A sum of positive terms is positive unless there are none. */
  lemma {:induction false} SumPositive(gains: seq<real>)
    requires forall k | 0 <= k < |gains| :: gains[k] > 0.0
    ensures gains == [] <==> Sum(gains) == 0.0
    ensures Sum(gains) >= 0.0
  {
    if gains != [] {
      SumPositive(gains[1..]);
    }
  }

  lemma {:induction false} SumAppend(gains: seq<real>, g: real)
    ensures Sum(gains + [g]) == Sum(gains) + g
  {
    if gains != [] {
      SumAppend(gains[1..], g);
      assert (gains + [g])[1..] == gains[1..] + [g];
    }
  }

  /** An empty group is dropped from the queue. */
  lemma SkipEmpty(labels: seq<Node>, queue: seq<seq<nat>>, done: seq<seq<nat>>,
                  communities: seq<set<Node>>, gains: seq<real>, margin: real, modularity: real)
    requires queue != [] && queue[0] == []
    requires Progress(labels, queue, done, communities, gains, margin, modularity)
    ensures Progress(labels, queue[1..], done, communities, gains, margin, modularity)
    ensures Potential(queue[1..]) < Potential(queue)
  {
  }

  /** A group that is not split leaves the queue as a community. */
  lemma Keep(labels: seq<Node>, queue: seq<seq<nat>>, done: seq<seq<nat>>,
             communities: seq<set<Node>>, gains: seq<real>, margin: real, modularity: real)
    requires queue != [] && queue[0] != []
    requires Progress(labels, queue, done, communities, gains, margin, modularity)
    ensures InRange(queue[0], |labels|)
    ensures Progress(labels, queue[1..], done + [queue[0]],
                     communities + [LabelSet(labels, queue[0])], gains, margin, modularity)
    ensures Potential(queue[1..]) < Potential(queue)
  {
    Put(done, queue[0]);
  }

  /** A group that is split is replaced by its two halves at the back of the queue. */
  lemma HalveCover(labels: seq<Node>, queue: seq<seq<nat>>, done: seq<seq<nat>>, communities: seq<set<Node>>,
                   g1: seq<nat>, g2: seq<nat>)
    requires queue != [] && queue[0] != [] && g1 != [] && g2 != []
    requires multiset(g1) + multiset(g2) == multiset(queue[0])
    requires Cover(labels, queue, done, communities)
    ensures Cover(labels, queue[1..] + [g1] + [g2], done, communities)
    ensures Potential(queue[1..] + [g1] + [g2]) < Potential(queue)
  {
    SplitWeighs(queue[0], g1, g2);
    SplitInRange(queue[0], g1, g2, |labels|);
    Put(queue[1..], g1);
    Put(queue[1..] + [g1], g2);
  }

  /** The split's gain joins the tally, and its two non-empty halves replace one pending group. */
  lemma HalveTally(queue: seq<seq<nat>>, done: seq<seq<nat>>, gains: seq<real>, margin: real, modularity: real,
                   g1: seq<nat>, g2: seq<nat>, gain: real)
    requires queue != [] && queue[0] != [] && g1 != [] && g2 != []
    requires Tally(queue, done, gains, margin, modularity) && gain > margin
    ensures Tally(queue[1..] + [g1] + [g2], done, gains + [gain], margin, modularity + gain)
  {
    Put(queue[1..], g1);
    Put(queue[1..] + [g1], g2);
    SumAppend(gains, gain);
  }

  /** Two non-empty groups weigh less than the group they split. */
  lemma SplitWeighs(q: seq<nat>, g1: seq<nat>, g2: seq<nat>)
    requires q != [] && g1 != [] && g2 != []
    requires multiset(g1) + multiset(g2) == multiset(q)
    ensures Weight(g1) + Weight(g2) < Weight(q)
  {
    assert |multiset(g1) + multiset(g2)| == |multiset(q)|;
  }

  /** Members of the two groups are members of the group they split. */
  lemma SplitInRange(q: seq<nat>, g1: seq<nat>, g2: seq<nat>, n: nat)
    requires InRange(q, n) && multiset(g1) + multiset(g2) == multiset(q)
    ensures InRange(g1, n) && InRange(g2, n)
  {
    forall i | 0 <= i < |g1|
      ensures g1[i] < n
    {
      assert g1[i] in multiset(q);
    }
    forall i | 0 <= i < |g2|
      ensures g2[i] < n
    {
      assert g2[i] in multiset(q);
    }
  }

  /** 4m, the normaliser of dQ for m links: `m2 * 2.0` in the undirected variant, `m * 4.0` in the directed one. */
  function FourM(m: nat): (r: real)
    ensures r > 0.0 <==> m > 0
  {
    m as real * 4.0
  }

  datatype SpectralError =
    | OnlyUndirected   // "only undirected graphs are allowed"
    | OnlyDirected     // "only directed graphs are allowed"
    | NoNodesOrLinks   // "graph does not contain any nodes or links"

  /** The copy of the group's rows and columns with its diagonal adjusted, as either variant builds it. */
  method GroupMatrixOf(b: Matrix, idx: seq<nat>, directed: bool) returns (sub: Matrix)
    requires IsSquare(b, |b|) && InRange(idx, |b|)
    requires directed ==> Symmetric(b)
    ensures sub == GroupMatrix(b, idx)
  {
    sub := Sub(b, idx);
    if directed {
      SubSymmetric(b, idx);
      DirectedAdjustedSymmetric(sub);
      sub := AdjustDiagonalDirected(sub);
    } else {
      sub := AdjustDiagonal(sub);
    }
  }

  /** The state vector after the optional refinement, held in a numpy array while it is refined. */
  method Refined(sub: Matrix, v: seq<int>, refine: bool) returns (t: seq<int>)
    requires IsSquare(sub, |v|) && IsSigns(v) && |v| > 0
    ensures IsSigns(t) && |t| == |v| && Quad(sub, t) >= Quad(sub, v)
    ensures !refine ==> t == v
    ensures refine ==> forall i | 0 <= i < |t| :: Quad(sub, Flipped(t, i)) <= Quad(sub, t)
  {
    var signs := new int[|v|](i requires 0 <= i < |v| => v[i]);
    assert signs[..] == v;
    if refine {
      KernighanLin(signs, sub);
    }
    t := signs[..];
  }

  /**
    Holds `modularity`, the attribute of `spectral_community_detection`
    that both variants of the algorithm reset and accumulate into.
  */
  class Detector {
    var modularity: real

    constructor ()
      ensures modularity == 0.0
    {
      modularity := 0.0;
    }

    /**
      `_split`: build the adjusted matrix of the group, take the state vector
      of its leading eigenvector and, when its dQ exceeds the margin, refine it,
      add the final dQ to the modularity and return the two groups.
    */
    method Split(b: Matrix, idx: seq<nat>, m4: real, margin: real, refine: bool, directed: bool,
                 eig: Matrix -> seq<real>)
      returns (r: Option<(seq<nat>, seq<nat>)>, ghost s: seq<int>, ghost gain: real)
      requires IsSquare(b, |b|) && InRange(idx, |b|) && |idx| > 0
      requires directed ==> Symmetric(b)
      requires m4 > 0.0 && margin >= 0.0 && Solver(eig)
      modifies this
      ensures r.None? <==> Gain(b, idx, m4, eig) <= margin
      ensures r.None? ==> modularity == old(modularity)
      ensures r.Some? ==> r.value.0 != [] && r.value.1 != []
      ensures r.Some? ==> multiset(r.value.0) + multiset(r.value.1) == multiset(idx)
      ensures r.Some? ==> IsSigns(s) && |s| == |idx|
                          && r.value.0 == Positives(idx, s) && r.value.1 == Negatives(idx, s)
      ensures r.Some? ==> modularity == old(modularity) + gain && gain >= Gain(b, idx, m4, eig) > margin
      ensures r.Some? ==> var sub := GroupMatrix(b, idx);
                          gain == Quad(sub, s) / m4
                          && (!refine ==> s == Signs(eig(sub)))
                          && (refine ==> forall i | 0 <= i < |s| :: Quad(sub, Flipped(s, i)) <= Quad(sub, s))
    {
      var sub := GroupMatrixOf(b, idx, directed);
      var v := Signs(eig(sub));
      var dq := Quad(sub, v) / m4;
      if dq <= margin {
        return None, v, dq;
      }
      var t := Refined(sub, v, refine);
      dq := Quad(sub, t) / m4;
      s, gain := t, dq;
      modularity := modularity + dq;
      PositiveMixed(sub, t);
      GroupsNonEmpty(idx, t);
      GroupsPartition(idx, t);
      var group1, group2 := Group(idx, t);
      r := Some((group1, group2));
    }

    /**
      The queue loop shared by both variants: reset the modularity, then split
      groups until none can be split, collecting the unsplittable ones as
      communities of nodes. Each accepted split adds a positive dQ, so the
      modularity is zero exactly when the whole graph stays one community.
      The ghost results record the groups kept, and the groups split with
      their final state vectors and gains.
    */
    method Bisect(b: Matrix, labels: seq<Node>, m4: real, margin: real, refine: bool, directed: bool,
                  eig: Matrix -> seq<real>)
      returns (communities: seq<set<Node>>, ghost groups: seq<seq<nat>>, ghost splits: seq<seq<nat>>,
               ghost signs: seq<seq<int>>, ghost gains: seq<real>)
      requires IsSquare(b, |labels|) && |labels| > 0 && Distinct(labels)
      requires directed ==> Symmetric(b)
      requires m4 > 0.0 && margin >= 0.0 && Solver(eig)
      modifies this
      ensures Communities(communities, Elements(labels))
      ensures modularity == Sum(gains) && |gains| == |communities| - 1
      ensures forall k | 0 <= k < |gains| :: gains[k] > margin
      ensures modularity >= 0.0
      ensures modularity == 0.0 <==> |communities| == 1
      ensures |groups| == |communities|
      ensures forall k | 0 <= k < |groups| ::
                Unsplit(b, m4, margin, eig, groups[k]) && communities[k] == LabelSet(labels, groups[k])
      ensures |splits| == |gains| && |signs| == |gains|
      ensures forall k | 0 <= k < |gains| :: Scored(b, m4, refine, eig, splits[k], signs[k], gains[k])
    {
      modularity := 0.0;
      var queue: seq<seq<nat>> := [Range(|labels|)];
      communities := [];
      groups, splits, signs, gains := [], [], [], [];
      Start(labels, margin);
      while queue != []
        invariant Progress(labels, queue, groups, communities, gains, margin, modularity)
        invariant Record(b, m4, margin, refine, eig, groups, splits, signs, gains)
        decreases Potential(queue)
      {
        queue, groups, communities, splits, signs, gains :=
          Visit(b, labels, m4, margin, refine, directed, eig, queue, groups, communities, splits, signs, gains);
      }
      FinishCover(labels, groups, communities);
      FinishTally(groups, gains, margin, modularity);
    }

    /**
      `_split` as the queue loop uses it: either the group is unsplittable, or
      a partition into two non-empty halves with its scored gain added to the
      modularity.
    */
    method Divide(b: Matrix, idx: seq<nat>, m4: real, margin: real, refine: bool, directed: bool,
                  eig: Matrix -> seq<real>)
      returns (r: Option<(seq<nat>, seq<nat>)>, ghost s: seq<int>, ghost gain: real)
      requires IsSquare(b, |b|) && InRange(idx, |b|) && |idx| > 0
      requires directed ==> Symmetric(b)
      requires m4 > 0.0 && margin >= 0.0 && Solver(eig)
      modifies this
      ensures r.None? ==> modularity == old(modularity) && Gain(b, idx, m4, eig) <= margin
      ensures r.Some? ==> r.value.0 != [] && r.value.1 != []
      ensures r.Some? ==> multiset(r.value.0) + multiset(r.value.1) == multiset(idx)
      ensures r.Some? ==> modularity == old(modularity) + gain && gain > margin
      ensures r.Some? ==> IsSigns(s) && |s| == |idx| && gain == Quad(GroupMatrix(b, idx), s) / m4
      ensures r.Some? ==> Scored(b, m4, refine, eig, idx, s, gain)
    {
      r, s, gain := Split(b, idx, m4, margin, refine, directed, eig);
    }

    /** One round of the queue loop: take the first group and either skip it, keep it as a community or queue its halves. */
    method Visit(b: Matrix, labels: seq<Node>, m4: real, margin: real, refine: bool, directed: bool,
                 eig: Matrix -> seq<real>, queue: seq<seq<nat>>, ghost done: seq<seq<nat>>,
                 communities: seq<set<Node>>, ghost splits: seq<seq<nat>>, ghost signs: seq<seq<int>>,
                 ghost gains: seq<real>)
      returns (queue': seq<seq<nat>>, ghost done': seq<seq<nat>>, communities': seq<set<Node>>,
               ghost splits': seq<seq<nat>>, ghost signs': seq<seq<int>>, ghost gains': seq<real>)
      requires IsSquare(b, |labels|) && queue != []
      requires directed ==> Symmetric(b)
      requires m4 > 0.0 && margin >= 0.0 && Solver(eig)
      requires Progress(labels, queue, done, communities, gains, margin, modularity)
      requires Record(b, m4, margin, refine, eig, done, splits, signs, gains)
      modifies this
      ensures Progress(labels, queue', done', communities', gains', margin, modularity)
      ensures Record(b, m4, margin, refine, eig, done', splits', signs', gains')
      ensures Potential(queue') < Potential(queue)
    {
      var indices := queue[0];
      queue' := queue[1..];
      done', communities', splits', signs', gains' := done, communities, splits, signs, gains;
      if indices == [] {
        SkipEmpty(labels, queue, done, communities, gains, margin, modularity);
        return;
      }
      assert InRange(indices, |labels|);
      ghost var s, gain;
      var groups;
      groups, s, gain := Divide(b, indices, m4, margin, refine, directed, eig);
      if groups.None? {
        Keep(labels, queue, done, communities, gains, margin, modularity);
        communities' := communities + [LabelSet(labels, indices)];
        done' := done + [indices];
        RecordKeep(b, m4, margin, refine, eig, done, splits, signs, gains, indices);
      } else {
        var g1, g2 := groups.value.0, groups.value.1;
        HalveCover(labels, queue, done, communities, g1, g2);
        HalveTally(queue, done, gains, margin, old(modularity), g1, g2, gain);
        queue' := queue' + [g1] + [g2];
        splits', signs', gains' := splits + [indices], signs + [s], gains + [gain];
        RecordHalve(b, m4, margin, refine, eig, done, splits, signs, gains, indices, s, gain);
      }
    }

    /**
      `spectral_community_detection` on an undirected graph whose modularity
      matrix, rows and columns in increasing node order, is `b`. The ghost
      results are those of the queue loop: the modularity returned is the
      sum of the scored gains of the splits made, with m4 = 4m.
    */
    method SpectralCommunityDetection(graph: Graph, b: Matrix, errorMargin: real, refine: bool,
                                      eig: Matrix -> seq<real>)
      returns (r: Result<(real, seq<set<Node>>), SpectralError>, ghost groups: seq<seq<nat>>,
               ghost splits: seq<seq<nat>>, ghost signs: seq<seq<int>>, ghost gains: seq<real>)
      requires IsSquare(b, |graph.nodes|) && errorMargin >= 0.0 && Solver(eig)
      modifies this
      ensures graph.directed ==> r == Err(OnlyUndirected)
      ensures !graph.directed && (|graph.nodes| == 0 || |graph.edges| == 0) ==> r == Err(NoNodesOrLinks)
      ensures r.Err? ==> modularity == old(modularity)
      ensures r.Ok? ==> r.value.0 == modularity >= 0.0 && Communities(r.value.1, graph.nodes)
      ensures r.Ok? ==> (r.value.0 == 0.0 <==> |r.value.1| == 1)
      ensures r.Ok? ==> r.value.0 == Sum(gains) && |gains| == |r.value.1| - 1
      ensures r.Ok? ==> |splits| == |gains| && |signs| == |gains| && |groups| == |r.value.1|
      ensures r.Ok? ==> forall k | 0 <= k < |gains| ::
                          Scored(b, FourM(|graph.edges|), refine, eig, splits[k], signs[k], gains[k])
      ensures r.Ok? ==> forall k | 0 <= k < |groups| ::
                          Unsplit(b, FourM(|graph.edges|), errorMargin, eig, groups[k]) &&
                          r.value.1[k] == LabelSet(Ascending(graph.nodes), groups[k])
    {
      if graph.directed {
        return Err(OnlyUndirected), [], [], [], [];
      }
      var m4 := FourM(|graph.edges|);
      if |graph.nodes| == 0 || |graph.edges| == 0 {
        return Err(NoNodesOrLinks), [], [], [], [];
      }
      var labels := Ascending(graph.nodes);
      IncreasingDistinct(labels);
      DistinctCardinality(labels);
      var communities;
      communities, groups, splits, signs, gains := Bisect(b, labels, m4, errorMargin, refine, false, eig);
      r := Ok((modularity, communities));
    }

    /**
      `directed_spectral_community_detection` on a directed graph whose
      modularity matrix B, rows and columns in increasing node order, is `b`;
      the groups are split on B + B^T with `threshold` as the margin, and
      the modularity returned is the sum of the scored gains, with m4 = 4m.
    */
    method DirectedSpectralCommunityDetection(graph: Graph, b: Matrix, threshold: real, refine: bool,
                                              eig: Matrix -> seq<real>)
      returns (r: Result<(real, seq<set<Node>>), SpectralError>, ghost groups: seq<seq<nat>>,
               ghost splits: seq<seq<nat>>, ghost signs: seq<seq<int>>, ghost gains: seq<real>)
      requires IsSquare(b, |graph.nodes|) && threshold >= 0.0 && Solver(eig)
      modifies this
      ensures !graph.directed ==> r == Err(OnlyDirected)
      ensures graph.directed && (|graph.nodes| == 0 || |graph.edges| == 0) ==> r == Err(NoNodesOrLinks)
      ensures r.Err? ==> modularity == old(modularity)
      ensures r.Ok? ==> r.value.0 == modularity >= 0.0 && Communities(r.value.1, graph.nodes)
      ensures r.Ok? ==> (r.value.0 == 0.0 <==> |r.value.1| == 1)
      ensures r.Ok? ==> r.value.0 == Sum(gains) && |gains| == |r.value.1| - 1
      ensures r.Ok? ==> |splits| == |gains| && |signs| == |gains| && |groups| == |r.value.1|
      ensures r.Ok? ==> forall k | 0 <= k < |gains| ::
                          Scored(Symmetrised(b), FourM(|graph.edges|), refine, eig, splits[k], signs[k], gains[k])
      ensures r.Ok? ==> forall k | 0 <= k < |groups| ::
                          Unsplit(Symmetrised(b), FourM(|graph.edges|), threshold, eig, groups[k]) &&
                          r.value.1[k] == LabelSet(Ascending(graph.nodes), groups[k])
    {
      if !graph.directed {
        return Err(OnlyDirected), [], [], [], [];
      }
      var m4 := FourM(|graph.edges|);
      if |graph.nodes| == 0 || |graph.edges| == 0 {
        return Err(NoNodesOrLinks), [], [], [], [];
      }
      var labels := Ascending(graph.nodes);
      IncreasingDistinct(labels);
      DistinctCardinality(labels);
      var communities;
      communities, groups, splits, signs, gains := Bisect(Symmetrised(b), labels, m4, threshold, refine, true, eig);
      r := Ok((modularity, communities));
    }
  }
}
