/** Node labels in increasing order: `sorted(...)` over a set of integer labels. */
module Sorting {
  import opened Graphs
  import opened Seqs

  predicate Increasing(s: seq<Node>)
  {
    forall i, j | 0 <= i < j < |s| :: s[i] < s[j]
  }

  /** Prepending an element below all others keeps a sequence increasing. */
  lemma ConsIncreasing(a: Node, s: seq<Node>)
    requires Increasing(s) && forall y | y in Elements(s) :: a < y
    ensures Increasing([a] + s) && Elements([a] + s) == {a} + Elements(s)
  {
    var r := [a] + s;
    forall i, j | 0 <= i < j < |r|
      ensures r[i] < r[j]
    {
      assert r[j] == s[j - 1] && r[j] in Elements(s);
      if i > 0 {
        assert r[i] == s[i - 1];
      }
    }
  }

  predicate Least(x: Node, nodes: set<Node>)
  {
    x in nodes && forall y | y in nodes :: x <= y
  }

  /** Every non-empty set of labels has a least one. */
  lemma {:induction false} HasLeast(nodes: set<Node>)
    requires nodes != {}
    ensures exists x :: Least(x, nodes)
    decreases |nodes|
  {
    Occupied(nodes);
    var x :| x in nodes;
    if nodes != {x} {
      var others := nodes - {x};
      HasLeast(others);
      var m :| Least(m, others);
      assert nodes == others + {x};
      if m < x {
        assert Least(m, nodes);
      } else {
        assert Least(x, nodes);
      }
    } else {
      assert Least(x, nodes);
    }
  }

  /** The least label of a non-empty set. */
  function Min(nodes: set<Node>): (x: Node)
    requires nodes != {}
    ensures Least(x, nodes)
  {
    HasLeast(nodes);
    var x :| Least(x, nodes);
    x
  }

  predicate Greatest(x: Node, nodes: set<Node>)
  {
    x in nodes && forall y | y in nodes :: y <= x
  }

  /** Every non-empty set of labels has a greatest one. */
  lemma {:induction false} HasGreatest(nodes: set<Node>)
    requires nodes != {}
    ensures exists x :: Greatest(x, nodes)
    decreases |nodes|
  {
    Occupied(nodes);
    var x :| x in nodes;
    if nodes != {x} {
      var others := nodes - {x};
      HasGreatest(others);
      var m :| Greatest(m, others);
      assert nodes == others + {x};
      if m > x {
        assert Greatest(m, nodes);
      } else {
        assert Greatest(x, nodes);
      }
    } else {
      assert Greatest(x, nodes);
    }
  }

  /** The greatest label of a non-empty set. */
  function Max(nodes: set<Node>): (x: Node)
    requires nodes != {}
    ensures Greatest(x, nodes)
  {
    HasGreatest(nodes);
    var x :| Greatest(x, nodes);
    x
  }

  /** `sorted(nodes)`: the labels of a set, each once, in increasing order. */
  function Ascending(nodes: set<Node>): (r: seq<Node>)
    ensures Increasing(r) && Elements(r) == nodes && |r| == |nodes|
    decreases |nodes|
  {
    if nodes == {} then []
    else
      var x := Min(nodes);
      var others := nodes - {x};
      assert |others| == |nodes| - 1;
      var rest := Ascending(others);
      ConsIncreasing(x, rest);
      [x] + rest
  }

  /** An increasing sequence lists no label twice. */
  lemma IncreasingDistinct(s: seq<Node>)
    requires Increasing(s)
    ensures Distinct(s)
  {
  }

  /** There is one increasing listing of a set: the one `Ascending` builds. */
  lemma {:induction false} IncreasingUnique(s: seq<Node>, t: seq<Node>)
    requires Increasing(s) && Increasing(t) && Elements(s) == Elements(t)
    ensures s == t
  {
    IncreasingDistinct(s);
    IncreasingDistinct(t);
    DistinctCardinality(s);
    DistinctCardinality(t);
    if s != [] {
      assert s[0] in Elements(t) && t[0] in Elements(s);
      assert s[0] == t[0] by {
        var i :| 0 <= i < |t| && t[i] == s[0];
        var j :| 0 <= j < |s| && s[j] == t[0];
      }
      assert s == [s[0]] + s[1..] && t == [t[0]] + t[1..];
      assert Elements(s[1..]) == Elements(s) - {s[0]};
      assert Elements(t[1..]) == Elements(t) - {t[0]};
      IncreasingUnique(s[1..], t[1..]);
    }
  }
}
