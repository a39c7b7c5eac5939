/**
  The "collect the observables into a table" step of the R data-frame
  helpers: `one_dimensional`, `two_dimensional`,
  `two_dimensional_with_label`, `two_dimensional_y_uncertainty`,
  `three_dimensional`, `three_dimensional_with_label` and
  `three_dimensional_y_uncertainty`. Each fills a `defaultdict(list)` of
  columns from a list of points, a dict of label to points, or a dict of
  label to dict of second label to points, and then reads every value
  column once more while converting it. The conversion to R objects is not
  part of this model: the table it is handed is.
*/
module Dataframes {
  import opened Wrappers

  /** A number or a text, as the points and the labels hold them. */
  datatype Value = Num(x: real) | Str(s: string)

  /** One observation: a single value or a tuple of values. */
  datatype Datum = Scalar(v: Value) | Tuple(vs: seq<Value>)

  /** What collecting can raise. */
  datatype Failure =
    | WrongContainer    // ValueError("Wrong data container type!")
    | NotAType          // TypeError: isinstance() with numpy.array, a function, as its second argument
    | ShapeMismatch     // AssertionError: the array does not have the expected shape
    | IndexOutOfRange   // IndexError: a point with too few entries
    | NotSubscriptable  // TypeError: indexing a number
    | BadOperands       // TypeError: `-` or `+` on values that do not support it

  /** The columns of the table: `label`, `label_2`, `xpos`, `ypos`, `zpos`, `ymin` and `ymax`. */
  datatype Column = Label | Label2 | XPos | YPos | ZPos | YMin | YMax

  /** How a column is computed from a point: the point itself, `p[i]`, `p[i] - p[j]` or `p[i] + p[j]`. */
  datatype Extract = Whole | At(i: nat) | Minus(i: nat, j: nat) | Plus(i: nat, j: nat)

  /**
    One of the seven helpers: the value columns it fills, in the order it
    fills them, whether it accepts only lists, and the shape its array
    branch expects (0 for a flat array, otherwise the number of entries of
    each row).
  */
  datatype Kind = Kind(columns: seq<(Column, Extract)>, listOnly: bool, width: nat)

  const OneDimensional := Kind([(XPos, Whole)], false, 0)
  const TwoDimensional := Kind([(XPos, At(0)), (YPos, At(1))], false, 2)
  const TwoDimensionalWithLabel := Kind([(XPos, At(0)), (YPos, At(1)), (Label, At(2))], true, 0)
  const TwoDimensionalYUncertainty := Kind([(XPos, At(0)), (YPos, At(1)), (YMin, Minus(1, 2)), (YMax, Plus(1, 2))], false, 3)
  const ThreeDimensional := Kind([(XPos, At(0)), (YPos, At(1)), (ZPos, At(2))], false, 3)
  const ThreeDimensionalWithLabel := Kind([(XPos, At(0)), (YPos, At(1)), (ZPos, At(2)), (Label, At(3))], true, 0)
  const ThreeDimensionalYUncertainty :=
    Kind([(XPos, At(0)), (YPos, At(1)), (YMin, Minus(1, 2)), (YMax, Plus(1, 2)), (ZPos, At(3))], false, 4)

  /** The value of a dict entry: a dict of second label to points, or the points themselves. */
  datatype Content = Inner(entries: seq<(Value, seq<Datum>)>) | Points(data: seq<Datum>)

  /**
    The argument: a dict of label to content (its entries in iteration
    order), a list of points, a numpy array of points, or anything else.
  */
  datatype Observables = Dict(items: seq<(Value, Content)>) | List(data: seq<Datum>) | Array(data: seq<Datum>) | Other

  type Table = map<Column, seq<Datum>>

  // ---------------------------------------------------------------------------
  // Points and columns
  // ---------------------------------------------------------------------------

  /** `p[i]`: a tuple's entry, or a one-letter text for a text; a number cannot be indexed. */
  function Index(d: Datum, i: nat): Result<Value, Failure>
  {
    match d
    case Tuple(vs) => if i < |vs| then Ok(vs[i]) else Err(IndexOutOfRange)
    case Scalar(Str(s)) => if i < |s| then Ok(Str([s[i]])) else Err(IndexOutOfRange)
    case Scalar(Num(_)) => Err(NotSubscriptable)
  }

  /** What a column holds for one point. */
  function Pick(e: Extract, d: Datum): Result<Datum, Failure>
  {
    match e
    case Whole => Ok(d)
    case At(i) =>
      (match Index(d, i)
       case Err(f) => Err(f)
       case Ok(v) => Ok(Scalar(v)))
    case Minus(i, j) =>
      (match (Index(d, i), Index(d, j))
       case (Err(f), _) => Err(f)
       case (_, Err(f)) => Err(f)
       case (Ok(Num(a)), Ok(Num(b))) => Ok(Scalar(Num(a - b)))
       case _ => Err(BadOperands))
    case Plus(i, j) =>
      (match (Index(d, i), Index(d, j))
       case (Err(f), _) => Err(f)
       case (_, Err(f)) => Err(f)
       case (Ok(Num(a)), Ok(Num(b))) => Ok(Scalar(Num(a + b)))
       case (Ok(Str(a)), Ok(Str(b))) => Ok(Scalar(Str(a + b)))
       case _ => Err(BadOperands))
  }

  /** `[f(p) for p in ds]`: the column of every point, or what the first point that fails raises. */
  function Comprehension(e: Extract, ds: seq<Datum>): (r: Result<seq<Datum>, Failure>)
    ensures r.Ok? ==> |r.value| == |ds|
  {
    if ds == [] then Ok([])
    else
      var n := |ds| - 1;
      match Comprehension(e, ds[..n])
      case Err(f) => Err(f)
      case Ok(c) =>
        match Pick(e, ds[n])
        case Err(f) => Err(f)
        case Ok(v) => Ok(c + [v])
  }

  /**
    A comprehension succeeds exactly when every point succeeds, and then
    holds each point's value at that point's position.
  */
  lemma {:induction false} ComprehensionPointwise(e: Extract, ds: seq<Datum>)
    ensures Comprehension(e, ds).Ok? <==> forall k | 0 <= k < |ds| :: Pick(e, ds[k]).Ok?
    ensures Comprehension(e, ds).Ok? ==> forall k | 0 <= k < |ds| :: Comprehension(e, ds).value[k] == Pick(e, ds[k]).value
  {
    if ds != [] {
      var n := |ds| - 1;
      ComprehensionPointwise(e, ds[..n]);
      assert forall k | 0 <= k < n :: ds[..n][k] == ds[k];
    }
  }

  /** A comprehension over two runs of points is the two comprehensions, one after the other. */
  lemma ComprehensionConcat(e: Extract, a: seq<Datum>, b: seq<Datum>)
    ensures Comprehension(e, a + b).Ok? <==> Comprehension(e, a).Ok? && Comprehension(e, b).Ok?
    ensures Comprehension(e, a + b).Ok? ==> Comprehension(e, a + b).value == Comprehension(e, a).value + Comprehension(e, b).value
  {
    var ab := a + b;
    ComprehensionPointwise(e, a);
    ComprehensionPointwise(e, b);
    ComprehensionPointwise(e, ab);
    assert forall k | 0 <= k < |a| :: ab[k] == a[k];
    assert forall k | 0 <= k < |b| :: ab[|a| + k] == b[k];
    if Comprehension(e, a).Ok? && Comprehension(e, b).Ok? {
      forall k | 0 <= k < |ab|
        ensures Pick(e, ab[k]).Ok?
      {
        if k >= |a| {
          assert ab[k] == b[k - |a|];
        }
      }
    }
  }

  // ---------------------------------------------------------------------------
  // The table
  // ---------------------------------------------------------------------------

  /** `data[c]` on a `defaultdict(list)`: a missing column reads as empty. */
  function Get(t: Table, c: Column): seq<Datum>
  {
    if c in t then t[c] else []
  }

  /** `data[c].extend(items)`. */
  function Extended(t: Table, c: Column, items: seq<Datum>): (r: Table)
    ensures r.Keys == t.Keys + {c} && Get(r, c) == Get(t, c) + items
  {
    t[c := Get(t, c) + items]
  }

  lemma ExtendedOther(t: Table, c: Column, items: seq<Datum>, o: Column)
    requires o != c
    ensures Get(Extended(t, c, items), o) == Get(t, o)
  {
  }

  /** `[label] * n`. */
  function Repeat(v: Value, n: nat): (r: seq<Datum>)
    ensures |r| == n && forall k | 0 <= k < n :: r[k] == Scalar(v)
  {
    seq(n, _ => Scalar(v))
  }

  function Names(cols: seq<(Column, Extract)>): set<Column>
  {
    set k | 0 <= k < |cols| :: cols[k].0
  }

  /** Every column is filled only once. */
  predicate DistinctNames(cols: seq<(Column, Extract)>)
  {
    forall i, j | 0 <= i < j < |cols| :: cols[i].0 != cols[j].0
  }

  /** The value columns of a block, extended in order, or what the first failing comprehension raises. */
  function Fill(t: Table, cols: seq<(Column, Extract)>, ds: seq<Datum>): Result<Table, Failure>
  {
    if cols == [] then Ok(t)
    else
      var n := |cols| - 1;
      match Fill(t, cols[..n], ds)
      case Err(f) => Err(f)
      case Ok(t1) =>
        match Comprehension(cols[n].1, ds)
        case Err(f) => Err(f)
        case Ok(c) => Ok(Extended(t1, cols[n].0, c))
  }

  /** Filling a block succeeds exactly when every column's comprehension does. */
  lemma {:induction false} FillOk(t: Table, cols: seq<(Column, Extract)>, ds: seq<Datum>)
    ensures Fill(t, cols, ds).Ok? <==> forall k | 0 <= k < |cols| :: Comprehension(cols[k].1, ds).Ok?
  {
    if cols != [] {
      var n := |cols| - 1;
      FillOk(t, cols[..n], ds);
      assert forall k | 0 <= k < n :: cols[..n][k] == cols[k];
    }
  }

  /** A filled block has all its columns present, and no others added. */
  lemma {:induction false} FillKeys(t: Table, cols: seq<(Column, Extract)>, ds: seq<Datum>)
    requires Fill(t, cols, ds).Ok?
    ensures Fill(t, cols, ds).value.Keys == t.Keys + Names(cols)
  {
    if cols != [] {
      var n := |cols| - 1;
      FillKeys(t, cols[..n], ds);
      NamesSnoc(cols);
    }
  }

  lemma NamesSnoc(cols: seq<(Column, Extract)>)
    requires cols != []
    ensures Names(cols) == Names(cols[..|cols| - 1]) + {cols[|cols| - 1].0}
  {
    var n := |cols| - 1;
    forall c | c in Names(cols)
      ensures c in Names(cols[..n]) || c == cols[n].0
    {
      var k :| 0 <= k < |cols| && cols[k].0 == c;
      if k < n {
        assert cols[..n][k].0 == c;
      }
    }
    forall c | c in Names(cols[..n])
      ensures c in Names(cols)
    {
      var k :| 0 <= k < n && cols[..n][k].0 == c;
      assert cols[k].0 == c;
    }
  }

  /** Each of a filled block's columns grows by that column's comprehension. */
  lemma {:induction false} FillColumn(t: Table, cols: seq<(Column, Extract)>, ds: seq<Datum>, k: nat)
    requires DistinctNames(cols) && k < |cols| && Fill(t, cols, ds).Ok?
    ensures Comprehension(cols[k].1, ds).Ok?
    ensures Get(Fill(t, cols, ds).value, cols[k].0) == Get(t, cols[k].0) + Comprehension(cols[k].1, ds).value
  {
    var n := |cols| - 1;
    var init := cols[..n];
    assert Fill(t, init, ds).Ok? && Comprehension(cols[n].1, ds).Ok?;
    var t1, c := Fill(t, init, ds).value, Comprehension(cols[n].1, ds).value;
    assert Fill(t, cols, ds).value == Extended(t1, cols[n].0, c);
    if k < n {
      assert init[k] == cols[k];
      assert DistinctNames(init) by {
        assert forall i | 0 <= i < n :: init[i] == cols[i];
      }
      FillColumn(t, init, ds, k);
      assert cols[k].0 != cols[n].0;
      ExtendedOther(t1, cols[n].0, c, cols[k].0);
    } else {
      FillOther(t, init, ds, cols[n].0);
    }
  }

  /** A column the block does not fill is left as it was. */
  lemma {:induction false} FillOther(t: Table, cols: seq<(Column, Extract)>, ds: seq<Datum>, c: Column)
    requires Fill(t, cols, ds).Ok? && forall k | 0 <= k < |cols| :: cols[k].0 != c
    ensures Get(Fill(t, cols, ds).value, c) == Get(t, c)
  {
    if cols != [] {
      var n := |cols| - 1;
      assert forall k | 0 <= k < n :: cols[..n][k] == cols[k];
      FillOther(t, cols[..n], ds, c);
      if Fill(t, cols[..n], ds).Ok? && Comprehension(cols[n].1, ds).Ok? {
        ExtendedOther(Fill(t, cols[..n], ds).value, cols[n].0, Comprehension(cols[n].1, ds).value, c);
      }
    }
  }

  /** Once a prefix of the columns fails, filling them all fails the same way. */
  lemma {:induction false} FillPrefix(t: Table, cols: seq<(Column, Extract)>, ds: seq<Datum>, k: nat)
    requires k <= |cols| && Fill(t, cols[..k], ds).Err?
    ensures Fill(t, cols, ds) == Fill(t, cols[..k], ds)
    decreases |cols| - k
  {
    if k < |cols| {
      assert cols[..k + 1][..k] == cols[..k];
      FillPrefix(t, cols, ds, k + 1);
    } else {
      assert cols[..k] == cols;
    }
  }

  // ---------------------------------------------------------------------------
  // Dicts
  // ---------------------------------------------------------------------------

  /**
    One run of points under its label, and its second label for a dict of
    dicts: `label` (and `label_2`) grow by one entry per point, then the
    value columns are filled.
  */
  function Block(kind: Kind, t: Table, key: Value, second: Option<Value>, ds: seq<Datum>): Result<Table, Failure>
  {
    var t1 := Extended(t, Label, Repeat(key, |ds|));
    var t2 := if second.Some? then Extended(t1, Label2, Repeat(second.value, |ds|)) else t1;
    Fill(t2, kind.columns, ds)
  }

  /** The entries of an inner dict, in iteration order, under the outer label. */
  function InnerItems(kind: Kind, t: Table, key: Value, entries: seq<(Value, seq<Datum>)>): Result<Table, Failure>
  {
    if entries == [] then Ok(t)
    else
      var n := |entries| - 1;
      match InnerItems(kind, t, key, entries[..n])
      case Err(f) => Err(f)
      case Ok(t1) => Block(kind, t1, key, Some(entries[n].0), entries[n].1)
  }

  /** One entry of the outer dict. */
  function Item(kind: Kind, t: Table, item: (Value, Content)): Result<Table, Failure>
  {
    match item.1
    case Inner(entries) => InnerItems(kind, t, item.0, entries)
    case Points(ds) => Block(kind, t, item.0, None, ds)
  }

  /** The entries of the outer dict, in iteration order. */
  function Items(kind: Kind, t: Table, items: seq<(Value, Content)>): Result<Table, Failure>
  {
    if items == [] then Ok(t)
    else
      var n := |items| - 1;
      match Items(kind, t, items[..n])
      case Err(f) => Err(f)
      case Ok(t1) => Item(kind, t1, items[n])
  }

  lemma {:induction false} InnerPrefix(kind: Kind, t: Table, key: Value, entries: seq<(Value, seq<Datum>)>, k: nat)
    requires k <= |entries| && InnerItems(kind, t, key, entries[..k]).Err?
    ensures InnerItems(kind, t, key, entries) == InnerItems(kind, t, key, entries[..k])
    decreases |entries| - k
  {
    if k < |entries| {
      assert entries[..k + 1][..k] == entries[..k];
      InnerPrefix(kind, t, key, entries, k + 1);
    } else {
      assert entries[..k] == entries;
    }
  }

  lemma {:induction false} ItemsPrefix(kind: Kind, t: Table, items: seq<(Value, Content)>, k: nat)
    requires k <= |items| && Items(kind, t, items[..k]).Err?
    ensures Items(kind, t, items) == Items(kind, t, items[..k])
    decreases |items| - k
  {
    if k < |items| {
      assert items[..k + 1][..k] == items[..k];
      ItemsPrefix(kind, t, items, k + 1);
    } else {
      assert items[..k] == items;
    }
  }

  // ---------------------------------------------------------------------------
  // The reference: flatten, then compute each column
  // ---------------------------------------------------------------------------

  /** A run of points with its label and optional second label. */
  datatype Run = Run(key: Value, second: Option<Value>, ds: seq<Datum>)

  function InnerRuns(key: Value, entries: seq<(Value, seq<Datum>)>): (r: seq<Run>)
    ensures forall k | 0 <= k < |r| :: r[k].second.Some?
  {
    if entries == [] then []
    else
      var n := |entries| - 1;
      InnerRuns(key, entries[..n]) + [Run(key, Some(entries[n].0), entries[n].1)]
  }

  /** The runs of a dict in iteration order, inner dicts spelled out. */
  function Runs(items: seq<(Value, Content)>): seq<Run>
  {
    if items == [] then []
    else
      var n := |items| - 1;
      Runs(items[..n]) + (match items[n].1
                          case Inner(entries) => InnerRuns(items[n].0, entries)
                          case Points(ds) => [Run(items[n].0, None, ds)])
  }

  /** Folding the blocks of a sequence of runs. */
  function Blocks(kind: Kind, t: Table, rs: seq<Run>): Result<Table, Failure>
  {
    if rs == [] then Ok(t)
    else
      var n := |rs| - 1;
      match Blocks(kind, t, rs[..n])
      case Err(f) => Err(f)
      case Ok(t1) => Block(kind, t1, rs[n].key, rs[n].second, rs[n].ds)
  }

  /** All points of the runs, in order. */
  function AllPoints(rs: seq<Run>): seq<Datum>
  {
    if rs == [] then [] else AllPoints(rs[..|rs| - 1]) + rs[|rs| - 1].ds
  }

  /** The `label` column the runs give: each run's label once per point. */
  function LabelColumn(rs: seq<Run>): (r: seq<Datum>)
    ensures |r| == |AllPoints(rs)|
  {
    if rs == [] then [] else LabelColumn(rs[..|rs| - 1]) + Repeat(rs[|rs| - 1].key, |rs[|rs| - 1].ds|)
  }

  /** The `label_2` column the runs give: the second label once per point, for the runs of inner dicts only. */
  function SecondColumn(rs: seq<Run>): seq<Datum>
  {
    if rs == [] then []
    else
      var r := rs[|rs| - 1];
      SecondColumn(rs[..|rs| - 1]) + (if r.second.Some? then Repeat(r.second.value, |r.ds|) else [])
  }

  lemma {:induction false} BlocksConcat(kind: Kind, t: Table, a: seq<Run>, b: seq<Run>)
    ensures Blocks(kind, t, a + b) == (match Blocks(kind, t, a) case Err(f) => Err(f) case Ok(t1) => Blocks(kind, t1, b))
    decreases |b|
  {
    if b == [] {
      assert a + b == a;
    } else {
      var n := |b| - 1;
      assert (a + b)[..|a + b| - 1] == a + b[..n];
      BlocksConcat(kind, t, a, b[..n]);
    }
  }

  lemma {:induction false} InnerBlocks(kind: Kind, t: Table, key: Value, entries: seq<(Value, seq<Datum>)>)
    ensures InnerItems(kind, t, key, entries) == Blocks(kind, t, InnerRuns(key, entries))
  {
    if entries != [] {
      var n := |entries| - 1;
      InnerBlocks(kind, t, key, entries[..n]);
      BlocksConcat(kind, t, InnerRuns(key, entries[..n]), [Run(key, Some(entries[n].0), entries[n].1)]);
    }
  }

  /** Walking the dict is folding the blocks of its runs. */
  lemma {:induction false} ItemsBlocks(kind: Kind, t: Table, items: seq<(Value, Content)>)
    ensures Items(kind, t, items) == Blocks(kind, t, Runs(items))
  {
    if items != [] {
      var n := |items| - 1;
      ItemsBlocks(kind, t, items[..n]);
      var last := match items[n].1
                  case Inner(entries) => InnerRuns(items[n].0, entries)
                  case Points(ds) => [Run(items[n].0, None, ds)];
      BlocksConcat(kind, t, Runs(items[..n]), last);
      match Items(kind, t, items[..n]) {
        case Err(_) =>
        case Ok(t1) =>
          match items[n].1 {
            case Inner(entries) => InnerBlocks(kind, t1, items[n].0, entries);
            case Points(ds) =>
          }
      }
    }
  }

  /** The value columns of a helper are distinct and none of them is a label column. */
  predicate Plain(kind: Kind)
  {
    DistinctNames(kind.columns) && Label !in Names(kind.columns) && Label2 !in Names(kind.columns)
  }

  /** Some run comes from an inner dict. */
  predicate HasSecond(rs: seq<Run>)
  {
    exists k | 0 <= k < |rs| :: rs[k].second.Some?
  }

  /** The blocks succeed exactly when every value column's comprehension over all the points does. */
  lemma {:induction false} BlocksOk(kind: Kind, t: Table, rs: seq<Run>)
    ensures Blocks(kind, t, rs).Ok? <==> forall k | 0 <= k < |kind.columns| :: Comprehension(kind.columns[k].1, AllPoints(rs)).Ok?
  {
    var cols := kind.columns;
    if rs != [] {
      var n := |rs| - 1;
      BlocksOk(kind, t, rs[..n]);
      forall k | 0 <= k < |cols|
        ensures Comprehension(cols[k].1, AllPoints(rs)).Ok? <==>
                Comprehension(cols[k].1, AllPoints(rs[..n])).Ok? && Comprehension(cols[k].1, rs[n].ds).Ok?
      {
        ComprehensionConcat(cols[k].1, AllPoints(rs[..n]), rs[n].ds);
      }
      if Blocks(kind, t, rs[..n]).Ok? {
        var t1 := Blocks(kind, t, rs[..n]).value;
        var r := rs[n];
        var u := Extended(t1, Label, Repeat(r.key, |r.ds|));
        FillOk(if r.second.Some? then Extended(u, Label2, Repeat(r.second.value, |r.ds|)) else u, cols, r.ds);
      }
    }
  }

  /** The table before the last block, and the last block applied to it. */
  lemma BlocksLast(kind: Kind, t: Table, rs: seq<Run>) returns (t1: Table)
    requires rs != [] && Blocks(kind, t, rs).Ok?
    ensures Blocks(kind, t, rs[..|rs| - 1]) == Ok(t1)
    ensures Blocks(kind, t, rs) == Block(kind, t1, rs[|rs| - 1].key, rs[|rs| - 1].second, rs[|rs| - 1].ds)
  {
    t1 := Blocks(kind, t, rs[..|rs| - 1]).value;
  }

  /** Two appends of comprehensions are one append of the comprehension over both runs. */
  lemma ColumnStep(e: Extract, g0: seq<Datum>, g1: seq<Datum>, g2: seq<Datum>, a: seq<Datum>, b: seq<Datum>)
    requires Comprehension(e, a).Ok? && g1 == g0 + Comprehension(e, a).value
    requires Comprehension(e, b).Ok? && g2 == g1 + Comprehension(e, b).value
    ensures Comprehension(e, a + b).Ok? && g2 == g0 + Comprehension(e, a + b).value
  {
    ComprehensionConcat(e, a, b);
  }

  lemma AppendStep(g0: seq<Datum>, g1: seq<Datum>, g2: seq<Datum>, x: seq<Datum>, y: seq<Datum>)
    requires g1 == g0 + x && g2 == g1 + y
    ensures g2 == g0 + (x + y)
  {
  }

  /** One block: each value column grows by its comprehension over the block's points. */
  lemma BlockColumn(kind: Kind, t: Table, r: Run, k: nat)
    requires Plain(kind) && k < |kind.columns| && Block(kind, t, r.key, r.second, r.ds).Ok?
    ensures Comprehension(kind.columns[k].1, r.ds).Ok?
    ensures Get(Block(kind, t, r.key, r.second, r.ds).value, kind.columns[k].0) == Get(t, kind.columns[k].0) + Comprehension(kind.columns[k].1, r.ds).value
  {
    var c := kind.columns[k].0;
    var u := Extended(t, Label, Repeat(r.key, |r.ds|));
    var v := if r.second.Some? then Extended(u, Label2, Repeat(r.second.value, |r.ds|)) else u;
    assert c in Names(kind.columns);
    ExtendedOther(t, Label, Repeat(r.key, |r.ds|), c);
    if r.second.Some? {
      ExtendedOther(u, Label2, Repeat(r.second.value, |r.ds|), c);
    }
    FillColumn(v, kind.columns, r.ds, k);
  }

  /** One block: `label` grows by the block's label once per point, `label_2` by its second label if it has one. */
  lemma BlockLabels(kind: Kind, t: Table, r: Run)
    requires Plain(kind) && Block(kind, t, r.key, r.second, r.ds).Ok?
    ensures Get(Block(kind, t, r.key, r.second, r.ds).value, Label) == Get(t, Label) + Repeat(r.key, |r.ds|)
    ensures Get(Block(kind, t, r.key, r.second, r.ds).value, Label2) ==
      Get(t, Label2) + (if r.second.Some? then Repeat(r.second.value, |r.ds|) else [])
  {
    var u := Extended(t, Label, Repeat(r.key, |r.ds|));
    var v := if r.second.Some? then Extended(u, Label2, Repeat(r.second.value, |r.ds|)) else u;
    ExtendedOther(t, Label, Repeat(r.key, |r.ds|), Label2);
    if r.second.Some? {
      ExtendedOther(u, Label2, Repeat(r.second.value, |r.ds|), Label);
    }
    NotFilled(kind, Label);
    NotFilled(kind, Label2);
    FillOther(v, kind.columns, r.ds, Label);
    FillOther(v, kind.columns, r.ds, Label2);
  }

  /** Each value column holds its comprehension over all the points, after what it held before. */
  lemma {:induction false} BlocksColumn(kind: Kind, t: Table, rs: seq<Run>, k: nat)
    requires Plain(kind) && k < |kind.columns| && Blocks(kind, t, rs).Ok?
    ensures Comprehension(kind.columns[k].1, AllPoints(rs)).Ok?
    ensures Get(Blocks(kind, t, rs).value, kind.columns[k].0) == Get(t, kind.columns[k].0) + Comprehension(kind.columns[k].1, AllPoints(rs)).value
  {
    if rs != [] {
      var n := |rs| - 1;
      var (c, e) := kind.columns[k];
      BlocksColumn(kind, t, rs[..n], k);
      var t1 := BlocksLast(kind, t, rs);
      BlockColumn(kind, t1, rs[n], k);
      ColumnStep(e, Get(t, c), Get(t1, c), Get(Blocks(kind, t, rs).value, c), AllPoints(rs[..n]), rs[n].ds);
    }
  }

  /** `label` holds each run's label once per point and `label_2` each inner run's second label, after what they held before. */
  lemma {:induction false} BlocksLabels(kind: Kind, t: Table, rs: seq<Run>)
    requires Plain(kind) && Blocks(kind, t, rs).Ok?
    ensures Get(Blocks(kind, t, rs).value, Label) == Get(t, Label) + LabelColumn(rs)
    ensures Get(Blocks(kind, t, rs).value, Label2) == Get(t, Label2) + SecondColumn(rs)
  {
    if rs != [] {
      var n := |rs| - 1;
      var r := rs[n];
      BlocksLabels(kind, t, rs[..n]);
      var t1 := BlocksLast(kind, t, rs);
      BlockLabels(kind, t1, r);
      var t2 := Blocks(kind, t, rs).value;
      AppendStep(Get(t, Label), Get(t1, Label), Get(t2, Label), LabelColumn(rs[..n]), Repeat(r.key, |r.ds|));
      AppendStep(Get(t, Label2), Get(t1, Label2), Get(t2, Label2), SecondColumn(rs[..n]),
                 if r.second.Some? then Repeat(r.second.value, |r.ds|) else []);
    }
  }

  lemma NotFilled(kind: Kind, c: Column)
    requires c !in Names(kind.columns)
    ensures forall k | 0 <= k < |kind.columns| :: kind.columns[k].0 != c
  {
    forall k | 0 <= k < |kind.columns| ensures kind.columns[k].0 != c {
      assert kind.columns[k].0 in Names(kind.columns);
    }
  }

  /** One block adds the value columns and `label`, and `label_2` when it has a second label. */
  lemma BlockKeys(kind: Kind, t: Table, r: Run)
    requires Block(kind, t, r.key, r.second, r.ds).Ok?
    ensures Block(kind, t, r.key, r.second, r.ds).value.Keys ==
      t.Keys + Names(kind.columns) + {Label} + (if r.second.Some? then {Label2} else {})
  {
    var u := Extended(t, Label, Repeat(r.key, |r.ds|));
    var v := if r.second.Some? then Extended(u, Label2, Repeat(r.second.value, |r.ds|)) else u;
    FillKeys(v, kind.columns, r.ds);
  }

  lemma HasSecondSnoc(rs: seq<Run>)
    requires rs != []
    ensures HasSecond(rs) <==> HasSecond(rs[..|rs| - 1]) || rs[|rs| - 1].second.Some?
  {
    var n := |rs| - 1;
    if HasSecond(rs[..n]) {
      var j :| 0 <= j < n && rs[..n][j].second.Some?;
      assert rs[j] == rs[..n][j];
    }
    if HasSecond(rs) && !rs[n].second.Some? {
      var j :| 0 <= j < |rs| && rs[j].second.Some?;
      assert rs[..n][j] == rs[j];
    }
  }

  /** The columns present afterwards: the value columns and `label` once there is a run, `label_2` once there is an inner one. */
  lemma {:induction false} BlocksKeys(kind: Kind, t: Table, rs: seq<Run>)
    requires Blocks(kind, t, rs).Ok?
    ensures Blocks(kind, t, rs).value.Keys ==
      t.Keys + (if rs == [] then {} else Names(kind.columns) + {Label}) + (if HasSecond(rs) then {Label2} else {})
  {
    if rs != [] {
      var n := |rs| - 1;
      BlocksKeys(kind, t, rs[..n]);
      var t1 := BlocksLast(kind, t, rs);
      BlockKeys(kind, t1, rs[n]);
      HasSecondSnoc(rs);
    }
  }

  // ---------------------------------------------------------------------------
  // Conversion and the whole collection step
  // ---------------------------------------------------------------------------

  /**
    `data[c] = numpy.array(data[c])` for every value column in turn: reading
    each column through the `defaultdict` makes it present, and its entries
    stay as they were.
  */
  function Converted(t: Table, cols: seq<(Column, Extract)>): Table
  {
    if cols == [] then t
    else
      var t1 := Converted(t, cols[..|cols| - 1]);
      var c := cols[|cols| - 1].0;
      t1[c := Get(t1, c)]
  }

  lemma {:induction false} ConvertedGet(t: Table, cols: seq<(Column, Extract)>, c: Column)
    ensures Get(Converted(t, cols), c) == Get(t, c)
  {
    if cols != [] {
      ConvertedGet(t, cols[..|cols| - 1], c);
    }
  }

  lemma {:induction false} ConvertedKeys(t: Table, cols: seq<(Column, Extract)>)
    ensures Converted(t, cols).Keys == t.Keys + Names(cols)
  {
    if cols != [] {
      ConvertedKeys(t, cols[..|cols| - 1]);
      NamesSnoc(cols);
    }
  }

  /** Converting a table that already holds every value column changes nothing. */
  lemma ConvertedFull(t: Table, cols: seq<(Column, Extract)>)
    requires Names(cols) <= t.Keys
    ensures Converted(t, cols) == t
  {
    ConvertedKeys(t, cols);
    forall c | c in t
      ensures Converted(t, cols)[c] == t[c]
    {
      ConvertedGet(t, cols, c);
    }
  }

  /** The array branch's shape: a flat array of numbers, or rows of `width` numbers each. */
  predicate NumberRow(width: nat, d: Datum)
  {
    if width == 0 then d.Scalar? && d.v.Num?
    else d.Tuple? && |d.vs| == width && forall j | 0 <= j < width :: d.vs[j].Num?
  }

  predicate Shaped(kind: Kind, ds: seq<Datum>)
  {
    forall i | 0 <= i < |ds| :: NumberRow(kind.width, ds[i])
  }

  /** The entries an extraction reads lie within rows of the given width. */
  predicate Within(e: Extract, width: nat)
  {
    match e
    case Whole => true
    case At(i) => i < width
    case Minus(i, j) => i < width && j < width
    case Plus(i, j) => i < width && j < width
  }

  /** Every value column of the helper reads within the rows its array branch expects. */
  predicate Fits(kind: Kind)
  {
    forall k | 0 <= k < |kind.columns| :: Within(kind.columns[k].1, kind.width)
  }

  /**
    The collection step of a helper, with its array branch reached by numpy
    arrays: what it raises, or the table it hands to the conversion to R.
  */
  function Collected(kind: Kind, obs: Observables): Result<Table, Failure>
  {
    match obs
    case Dict(items) =>
      if kind.listOnly then Err(WrongContainer)
      else
        (match Items(kind, map[], items)
         case Err(f) => Err(f)
         case Ok(t) => Ok(Converted(t, kind.columns)))
    case List(ds) =>
      (match Fill(map[], kind.columns, ds)
       case Err(f) => Err(f)
       case Ok(t) => Ok(Converted(t, kind.columns)))
    case Array(ds) =>
      if kind.listOnly then Err(WrongContainer)
      else if !Shaped(kind, ds) then Err(ShapeMismatch)
      else Fill(map[], kind.columns, ds)
    case Other => Err(WrongContainer)
  }

  /**
    The collection step as written: after the dict and list tests, the
    helpers that accept dicts test `isinstance(observables, numpy.array)`,
    and `numpy.array` is a function, not a type, so that test raises.
  */
  function WrittenCollected(kind: Kind, obs: Observables): Result<Table, Failure>
  {
    if !kind.listOnly && (obs.Array? || obs.Other?) then Err(NotAType) else Collected(kind, obs)
  }

  /** The five helpers that accept dicts and arrays. */
  predicate Standard(kind: Kind)
  {
    kind == OneDimensional || kind == TwoDimensional || kind == TwoDimensionalYUncertainty ||
    kind == ThreeDimensional || kind == ThreeDimensionalYUncertainty
  }

  /** The two helpers that accept only lists, and take the label from each point. */
  predicate Labelled(kind: Kind)
  {
    kind == TwoDimensionalWithLabel || kind == ThreeDimensionalWithLabel
  }

  /** The five helpers that accept dicts fill distinct, unlabelled columns that read within their array rows. */
  lemma StandardKinds(kind: Kind)
    requires Standard(kind)
    ensures Plain(kind) && Fits(kind) && !kind.listOnly
  {
    var cols := kind.columns;
    forall k | 0 <= k < |cols|
      ensures cols[k].0 != Label && cols[k].0 != Label2
    {
    }
    assert Label !in Names(cols);
    assert Label2 !in Names(cols);
  }

  /** The two labelled helpers fill distinct columns, `label` among them. */
  lemma LabelledKinds(kind: Kind)
    requires Labelled(kind)
    ensures DistinctNames(kind.columns) && kind.listOnly && Label in Names(kind.columns)
  {
    assert kind.columns[|kind.columns| - 1].0 == Label;
  }

  // ---------------------------------------------------------------------------
  // What the collection step gives
  // ---------------------------------------------------------------------------

  /** A dict is collected exactly when every value column's comprehension over all its points succeeds. */
  lemma DictOk(kind: Kind, items: seq<(Value, Content)>)
    requires !kind.listOnly
    ensures Collected(kind, Dict(items)).Ok? <==>
      forall k | 0 <= k < |kind.columns| :: Comprehension(kind.columns[k].1, AllPoints(Runs(items))).Ok?
  {
    ItemsBlocks(kind, map[], items);
    BlocksOk(kind, map[], Runs(items));
  }

  /** Each value column of a collected dict is its comprehension over all the points, in iteration order. */
  lemma DictColumn(kind: Kind, items: seq<(Value, Content)>, k: nat)
    requires Plain(kind) && k < |kind.columns| && Collected(kind, Dict(items)).Ok?
    ensures Comprehension(kind.columns[k].1, AllPoints(Runs(items))).Ok?
    ensures Get(Collected(kind, Dict(items)).value, kind.columns[k].0) ==
      Comprehension(kind.columns[k].1, AllPoints(Runs(items))).value
  {
    ItemsBlocks(kind, map[], items);
    var t := Items(kind, map[], items).value;
    BlocksColumn(kind, map[], Runs(items), k);
    ConvertedGet(t, kind.columns, kind.columns[k].0);
  }

  /** `label` holds each point's outer label, `label_2` the inner label of each point of an inner dict. */
  lemma DictLabels(kind: Kind, items: seq<(Value, Content)>)
    requires Plain(kind) && Collected(kind, Dict(items)).Ok?
    ensures Get(Collected(kind, Dict(items)).value, Label) == LabelColumn(Runs(items))
    ensures Get(Collected(kind, Dict(items)).value, Label2) == SecondColumn(Runs(items))
  {
    ItemsBlocks(kind, map[], items);
    var t := Items(kind, map[], items).value;
    BlocksLabels(kind, map[], Runs(items));
    ConvertedGet(t, kind.columns, Label);
    ConvertedGet(t, kind.columns, Label2);
  }

  /** A collected dict has every value column, `label` once it has a run of points, `label_2` once it has an inner dict entry. */
  lemma DictKeys(kind: Kind, items: seq<(Value, Content)>)
    requires Collected(kind, Dict(items)).Ok?
    ensures Collected(kind, Dict(items)).value.Keys ==
      Names(kind.columns) + (if Runs(items) == [] then {} else {Label}) + (if HasSecond(Runs(items)) then {Label2} else {})
  {
    ItemsBlocks(kind, map[], items);
    var t := Items(kind, map[], items).value;
    BlocksKeys(kind, map[], Runs(items));
    ConvertedKeys(t, kind.columns);
  }

  /** `label` has one entry per point; `label_2` at most one, and one per point when every run comes from an inner dict. */
  lemma {:induction false} SecondLength(rs: seq<Run>)
    ensures |SecondColumn(rs)| <= |AllPoints(rs)|
    ensures (forall k | 0 <= k < |rs| :: rs[k].second.Some?) ==> |SecondColumn(rs)| == |AllPoints(rs)|
  {
    if rs != [] {
      var n := |rs| - 1;
      assert forall k | 0 <= k < n :: rs[..n][k] == rs[k];
      SecondLength(rs[..n]);
    }
  }

  /** A list is collected exactly when every value column's comprehension over it succeeds. */
  lemma ListOk(kind: Kind, ds: seq<Datum>)
    ensures Collected(kind, List(ds)).Ok? <==> forall k | 0 <= k < |kind.columns| :: Comprehension(kind.columns[k].1, ds).Ok?
  {
    FillOk(map[], kind.columns, ds);
  }

  /** Each column of a collected list is its comprehension over the list, and there are no other columns. */
  lemma ListColumn(kind: Kind, ds: seq<Datum>, k: nat)
    requires DistinctNames(kind.columns) && k < |kind.columns| && Collected(kind, List(ds)).Ok?
    ensures Collected(kind, List(ds)).value.Keys == Names(kind.columns)
    ensures Comprehension(kind.columns[k].1, ds).Ok?
    ensures Get(Collected(kind, List(ds)).value, kind.columns[k].0) == Comprehension(kind.columns[k].1, ds).value
  {
    var t := Fill(map[], kind.columns, ds).value;
    FillKeys(map[], kind.columns, ds);
    FillColumn(map[], kind.columns, ds, k);
    ConvertedKeys(t, kind.columns);
    ConvertedGet(t, kind.columns, kind.columns[k].0);
  }

  /** Pointwise: the entry of a column of a collected list at a point is that point's extraction. */
  lemma ListPoint(kind: Kind, ds: seq<Datum>, k: nat, i: nat)
    requires DistinctNames(kind.columns) && k < |kind.columns| && i < |ds| && Collected(kind, List(ds)).Ok?
    ensures Pick(kind.columns[k].1, ds[i]).Ok?
    ensures var col := Get(Collected(kind, List(ds)).value, kind.columns[k].0);
      |col| == |ds| && col[i] == Pick(kind.columns[k].1, ds[i]).value
  {
    ListColumn(kind, ds, k);
    ComprehensionPointwise(kind.columns[k].1, ds);
  }

  lemma WholeComprehension(ds: seq<Datum>)
    ensures Comprehension(Whole, ds) == Ok(ds)
  {
    ComprehensionPointwise(Whole, ds);
    var c := Comprehension(Whole, ds).value;
    assert forall k | 0 <= k < |ds| :: c[k] == ds[k];
    assert c == ds;
  }

  /** `one_dimensional` stores a list as its `xpos` column and nothing else. */
  lemma OneDimensionalList(ds: seq<Datum>)
    ensures Collected(OneDimensional, List(ds)) == Ok(map[XPos := ds])
  {
    var cols := OneDimensional.columns;
    WholeComprehension(ds);
    assert cols[..0] == [];
    assert Fill(map[], cols[..0], ds) == Ok(map[]);
    var t := Extended(map[], XPos, ds);
    assert Fill(map[], cols, ds) == Ok(t);
    assert [] + ds == ds;
    assert t == map[XPos := ds];
    assert Converted(t, cols[..0]) == t;
    assert Converted(t, cols) == t[XPos := Get(t, XPos)] == t;
    assert Collected(OneDimensional, List(ds)) == Ok(Converted(t, cols));
  }

  /** The uncertainty helpers store `y - e` as `ymin` and `y + e` as `ymax` for a point `(x, y, e, ...)`. */
  lemma UncertaintyPoint(kind: Kind, ds: seq<Datum>, i: nat, y: real, e: real)
    requires kind == TwoDimensionalYUncertainty || kind == ThreeDimensionalYUncertainty
    requires i < |ds| && ds[i].Tuple? && |ds[i].vs| >= 3 && ds[i].vs[1] == Num(y) && ds[i].vs[2] == Num(e)
    requires Collected(kind, List(ds)).Ok?
    ensures var ymin := Get(Collected(kind, List(ds)).value, YMin); |ymin| == |ds| && ymin[i] == Scalar(Num(y - e))
    ensures var ymax := Get(Collected(kind, List(ds)).value, YMax); |ymax| == |ds| && ymax[i] == Scalar(Num(y + e))
  {
    StandardKinds(kind);
    ListPoint(kind, ds, 2, i);
    ListPoint(kind, ds, 3, i);
  }

  /** A helper that accepts only lists rejects everything else with a ValueError. */
  lemma LabelledRejects(kind: Kind, obs: Observables)
    requires Labelled(kind) && !obs.List?
    ensures Collected(kind, obs) == Err(WrongContainer)
    ensures WrittenCollected(kind, obs) == Err(WrongContainer)
  {
  }

  lemma PickNumberRow(e: Extract, width: nat, d: Datum)
    requires Within(e, width) && NumberRow(width, d)
    ensures Pick(e, d).Ok?
  {
  }

  /** An array of the expected shape is collected, column by column, as the list of the same rows would be. */
  lemma ArrayAsList(kind: Kind, ds: seq<Datum>)
    requires Standard(kind) && Shaped(kind, ds)
    ensures Collected(kind, Array(ds)).Ok? && Collected(kind, Array(ds)) == Collected(kind, List(ds))
  {
    StandardKinds(kind);
    var cols := kind.columns;
    forall k | 0 <= k < |cols|
      ensures Comprehension(cols[k].1, ds).Ok?
    {
      forall i | 0 <= i < |ds|
        ensures Pick(cols[k].1, ds[i]).Ok?
      {
        PickNumberRow(cols[k].1, kind.width, ds[i]);
      }
      ComprehensionPointwise(cols[k].1, ds);
    }
    FillOk(map[], cols, ds);
    var t := Fill(map[], cols, ds).value;
    FillKeys(map[], cols, ds);
    ConvertedFull(t, cols);
  }

  /**
    As written, a helper that accepts dicts never reaches its array branch:
    an array of the expected shape, which the branch would collect, and any
    other container, for which a ValueError is meant, raise a TypeError.
  */
  lemma ArrayBranchUnreachable(kind: Kind, ds: seq<Datum>)
    requires Standard(kind) && Shaped(kind, ds)
    ensures WrittenCollected(kind, Array(ds)) == Err(NotAType) && Collected(kind, Array(ds)).Ok?
    ensures WrittenCollected(kind, Other) == Err(NotAType) && Collected(kind, Other) == Err(WrongContainer)
  {
    ArrayAsList(kind, ds);
  }

  // ---------------------------------------------------------------------------
  // The table as the helpers build it: a `defaultdict(list)` updated in place
  // ---------------------------------------------------------------------------

  /** `data = defaultdict(list)`. */
  class Columns {
    var data: Table

    constructor ()
      ensures data == map[]
    {
      data := map[];
    }

    /** `data[c].extend(items)`. */
    method Extend(c: Column, items: seq<Datum>)
      modifies this
      ensures data == Extended(old(data), c, items)
    {
      data := data[c := Get(data, c) + items];
    }

    /** `data[c] = numpy.array(data[c])`: the column is read, so it is present, and keeps its entries. */
    method Reassign(c: Column)
      modifies this
      ensures data == old(data)[c := Get(old(data), c)]
    {
      data := data[c := Get(data, c)];
    }
  }

  /** The value columns of one block, column by column; the failure of the first comprehension that raises. */
  method FillColumns(t: Columns, cols: seq<(Column, Extract)>, ds: seq<Datum>) returns (f: Option<Failure>)
    modifies t
    ensures Fill(old(t.data), cols, ds) == if f.None? then Ok(t.data) else Err(f.value)
  {
    ghost var t0 := t.data;
    for i := 0 to |cols|
      invariant Fill(t0, cols[..i], ds) == Ok(t.data)
    {
      assert cols[..i + 1][..i] == cols[..i];
      var column := Comprehension(cols[i].1, ds);
      if column.Err? {
        FillPrefix(t0, cols, ds, i + 1);
        return Some(column.error);
      }
      t.Extend(cols[i].0, column.value);
    }
    assert cols[..|cols|] == cols;
    return None;
  }

  /** One run of points: its labels, then its value columns. */
  method AddBlock(t: Columns, kind: Kind, key: Value, second: Option<Value>, ds: seq<Datum>) returns (f: Option<Failure>)
    modifies t
    ensures Block(kind, old(t.data), key, second, ds) == if f.None? then Ok(t.data) else Err(f.value)
  {
    t.Extend(Label, Repeat(key, |ds|));
    if second.Some? {
      t.Extend(Label2, Repeat(second.value, |ds|));
    }
    f := FillColumns(t, kind.columns, ds);
  }

  /** `for (label_2, real_data) in content.iteritems()`. */
  method AddInner(t: Columns, kind: Kind, key: Value, entries: seq<(Value, seq<Datum>)>) returns (f: Option<Failure>)
    modifies t
    ensures InnerItems(kind, old(t.data), key, entries) == if f.None? then Ok(t.data) else Err(f.value)
  {
    ghost var t0 := t.data;
    for i := 0 to |entries|
      invariant InnerItems(kind, t0, key, entries[..i]) == Ok(t.data)
    {
      assert entries[..i + 1][..i] == entries[..i];
      f := AddBlock(t, kind, key, Some(entries[i].0), entries[i].1);
      if f.Some? {
        InnerPrefix(kind, t0, key, entries, i + 1);
        return;
      }
    }
    assert entries[..|entries|] == entries;
    return None;
  }

  /** `for (label, content) in observables.iteritems()`. */
  method AddItems(t: Columns, kind: Kind, items: seq<(Value, Content)>) returns (f: Option<Failure>)
    modifies t
    ensures Items(kind, old(t.data), items) == if f.None? then Ok(t.data) else Err(f.value)
  {
    ghost var t0 := t.data;
    for i := 0 to |items|
      invariant Items(kind, t0, items[..i]) == Ok(t.data)
    {
      assert items[..i + 1][..i] == items[..i];
      match items[i].1 {
        case Inner(entries) =>
          f := AddInner(t, kind, items[i].0, entries);
        case Points(ds) =>
          f := AddBlock(t, kind, items[i].0, None, ds);
      }
      if f.Some? {
        ItemsPrefix(kind, t0, items, i + 1);
        return;
      }
    }
    assert items[..|items|] == items;
    return None;
  }

  /** The conversion of every value column, in the helper's order. */
  method Convert(t: Columns, cols: seq<(Column, Extract)>)
    modifies t
    ensures t.data == Converted(old(t.data), cols)
  {
    ghost var t0 := t.data;
    for i := 0 to |cols|
      invariant t.data == Converted(t0, cols[..i])
    {
      assert cols[..i + 1][..i] == cols[..i];
      t.Reassign(cols[i].0);
    }
    assert cols[..|cols|] == cols;
  }

  /**
    The collection step of a helper as written: the table it hands to R, or
    what it raises. A helper that accepts dicts raises the TypeError of its
    `isinstance(observables, numpy.array)` test for every container that is
    neither a dict nor a list; the others raise their ValueError.
  */
  method Collect(kind: Kind, obs: Observables) returns (r: Result<Table, Failure>)
    ensures r == WrittenCollected(kind, obs)
  {
    var t := new Columns();
    match obs {
      case Dict(items) =>
        if kind.listOnly {
          return Err(WrongContainer);
        }
        var f := AddItems(t, kind, items);
        if f.Some? {
          return Err(f.value);
        }
        Convert(t, kind.columns);
        return Ok(t.data);
      case List(ds) =>
        var f := FillColumns(t, kind.columns, ds);
        if f.Some? {
          return Err(f.value);
        }
        Convert(t, kind.columns);
        return Ok(t.data);
      case _ =>
        return if kind.listOnly then Err(WrongContainer) else Err(NotAType);
    }
  }
}
