/**
  `CLAMVParser.get_hosts`: the hosts of the CLAMV cluster page with free
  CPUs. Each line of the page is searched for a table row of four cells,
  a host name (`tlab` or `munch` and digits), the number of free CPUs and
  two decimals, matched without regard to case; every row with a positive
  CPU count gives the host's full name. Hosts tlab032 to tlab035 are then
  taken out again. The page content is a parameter: fetching it is not
  part of this model.
*/
module Clamv {
  import opened Wrappers

  const Domain := ".clamv.jacobs-university.de"

  /** The groups of a match: the host cell and the CPU cell, as text. */
  type Groups = (string, string)

  /** The literal parts of the row pattern, in lower case. */
  const Open := "<td>"
  const Close := "</td>"
  const Sep := "</td><td>"
  const Tlab := "tlab"
  const Munch := "munch"

  // ---------------------------------------------------------------------------
  // Characters and numbers
  // ---------------------------------------------------------------------------

  predicate IsDigit(c: char)
  {
    '0' <= c <= '9'
  }

  predicate AllDigits(s: string)
  {
    forall k | 0 <= k < |s| :: IsDigit(s[k])
  }

  /** ASCII lower case, the folding `re.I` applies to byte strings. */
  function Lower(c: char): char
  {
    if 'A' <= c <= 'Z' then (c as int + 32) as char else c
  }

  /** `int(ds)` for a string of decimal digits. */
  function Value(ds: string): nat
  {
    if ds == [] then 0
    else
      var k := |ds| - 1;
      10 * Value(ds[..k]) + (if IsDigit(ds[k]) then ds[k] as int - '0' as int else 0)
  }

  /** `"%d" % n`. */
  function Show(n: nat): (s: string)
    ensures |s| > 0 && AllDigits(s)
  {
    var d := ((n % 10) + '0' as int) as char;
    if n < 10 then [d] else Show(n / 10) + [d]
  }

  /** Reading back a number written in decimal gives the number. */
  lemma {:induction false} ShowValue(n: nat)
    ensures Value(Show(n)) == n
  {
    if n >= 10 {
      ShowValue(n / 10);
      var s := Show(n);
      assert s[..|s| - 1] == Show(n / 10);
    }
  }

  // ---------------------------------------------------------------------------
  // The host pattern
  // ---------------------------------------------------------------------------

  /** The text starts with `lit` (given in lower case), whatever the case of its letters; the rest follows. */
  function Lit(t: string, lit: string): (r: Option<string>)
    ensures r.Some? ==> |lit| <= |t| && r.value == t[|lit|..]
  {
    if |lit| <= |t| && forall k | 0 <= k < |lit| :: Lower(t[k]) == lit[k] then Some(t[|lit|..]) else None
  }

  /** The length of the run of digits the text starts with. */
  function DigitRun(t: string): (n: nat)
    ensures n <= |t|
  {
    if t != [] && IsDigit(t[0]) then 1 + DigitRun(t[1..]) else 0
  }

  /** `\d+`: the digits the text starts with, taken greedily, and the rest. */
  function Number(t: string): (r: Option<(string, string)>)
    ensures r.Some? ==> |r.value.0| > 0 && r.value.0 + r.value.1 == t
  {
    var n := DigitRun(t);
    if n == 0 then None else Some((t[..n], t[n..]))
  }

  /** `\d+\.\d+`: the rest after a decimal. */
  function Decimal(t: string): Option<string>
  {
    match Number(t)
    case None => None
    case Some((_, t1)) =>
      match Lit(t1, ".")
      case None => None
      case Some(t2) =>
        match Number(t2)
        case None => None
        case Some((_, t3)) => Some(t3)
  }

  /** `tlab\d+|munch\d+`, tried in that order: the text of the group and the rest. */
  function Name(t: string): Option<(string, string)>
  {
    var k := if Lit(t, Tlab).Some? then 4 else if Lit(t, Munch).Some? then 5 else 0;
    if k == 0 then None
    else
      match Number(t[k..])
      case None => None
      case Some((id, rest)) => Some((t[..k] + id, rest))
  }

  /**
    The match of the row pattern at the start of the text: the text of the
    host cell (group 1) and of the CPU cell (group 2). Every
    `\d+` of the pattern is followed by `<` or `.`, so each takes its whole
    run of digits and the match at a position is unique.
  */
  function MatchAt(t: string): Option<Groups>
  {
    match Lit(t, Open)
    case None => None
    case Some(t1) =>
      match Name(t1)
      case None => None
      case Some((host, t2)) =>
        match Cells(t2)
        case None => None
        case Some(cpus) => Some((host, cpus))
  }

  /** The three cells after the host cell: the CPU digits, when they are there. */
  function Cells(t: string): Option<string>
  {
    match Lit(t, Sep)
    case None => None
    case Some(t1) =>
      match Number(t1)
      case None => None
      case Some((cpus, t2)) =>
        match Lit(t2, Sep)
        case None => None
        case Some(t3) => if Loads(t3) then Some(cpus) else None
  }

  /** The two load cells that end the pattern. */
  predicate Loads(t: string)
  {
    match Decimal(t)
    case None => false
    case Some(t1) =>
      match Lit(t1, Sep)
      case None => false
      case Some(t2) => LastLoad(t2)
  }

  /** The last load cell, closing the pattern. */
  predicate LastLoad(t: string)
  {
    match Decimal(t)
    case None => false
    case Some(t1) => Lit(t1, Close).Some?
  }

  /** `search` with the pattern `m` from position i on: the leftmost match. */
  function SearchFrom<T>(m: string -> Option<T>, s: string, i: nat): Option<T>
    requires i <= |s|
    decreases |s| - i
  {
    if m(s[i..]).Some? then m(s[i..])
    else if i == |s| then None
    else SearchFrom(m, s, i + 1)
  }

  /** The search finds nothing exactly when no position matches, and otherwise the match at the first position that does. */
  lemma {:induction false} SearchLeftmost<T>(m: string -> Option<T>, s: string, i: nat)
    requires i <= |s|
    ensures SearchFrom(m, s, i).None? <==> forall k | i <= k <= |s| :: m(s[k..]).None?
    ensures SearchFrom(m, s, i).Some? ==>
      exists k | i <= k <= |s| :: SearchFrom(m, s, i) == m(s[k..]) && forall l | i <= l < k :: m(s[l..]).None?
    decreases |s| - i
  {
    if m(s[i..]).None? && i < |s| {
      SearchLeftmost(m, s, i + 1);
    }
  }

  /** `pattern.search(s)`: the leftmost match of the pattern anywhere in s. */
  function Search<T>(pattern: string -> Option<T>, s: string): Option<T>
  {
    SearchFrom(pattern, s, 0)
  }

  // ---------------------------------------------------------------------------
  // Reading a row back
  // ---------------------------------------------------------------------------

  /** `x` reads as the lower-case literal `lit` once its letters are folded. */
  predicate Folds(x: string, lit: string)
  {
    |x| == |lit| && forall k | 0 <= k < |x| :: Lower(x[k]) == lit[k]
  }

  lemma LitRead(x: string, lit: string, rest: string)
    requires Folds(x, lit)
    ensures Lit(x + rest, lit) == Some(rest)
  {
    var t := x + rest;
    assert forall k | 0 <= k < |lit| :: t[k] == x[k];
    assert t[|lit|..] == rest;
  }

  lemma {:induction false} DigitRunRead(ds: string, rest: string)
    requires AllDigits(ds) && (rest == [] || !IsDigit(rest[0]))
    ensures DigitRun(ds + rest) == |ds|
    decreases |ds|
  {
    if ds == [] {
      assert ds + rest == rest;
    } else {
      assert (ds + rest)[0] == ds[0];
      assert (ds + rest)[1..] == ds[1..] + rest;
      DigitRunRead(ds[1..], rest);
    }
  }

  lemma NumberRead(ds: string, rest: string)
    requires |ds| > 0 && AllDigits(ds) && (rest == [] || !IsDigit(rest[0]))
    ensures Number(ds + rest) == Some((ds, rest))
  {
    DigitRunRead(ds, rest);
    assert (ds + rest)[..|ds|] == ds;
    assert (ds + rest)[|ds|..] == rest;
  }

  lemma DecimalRead(w: string, f: string, rest: string)
    requires |w| > 0 && |f| > 0 && AllDigits(w) && AllDigits(f) && |rest| > 0 && rest[0] == '<'
    ensures Decimal(w + ("." + (f + rest))) == Some(rest)
  {
    NumberRead(w, "." + (f + rest));
    LitRead(".", ".", f + rest);
    NumberRead(f, rest);
  }

  /** A keyword as it may be written: `tlab` or `munch` in any mix of cases. */
  predicate Keyword(kw: string)
  {
    Folds(kw, Tlab) || Folds(kw, Munch)
  }

  lemma NameRead(kw: string, id: string, rest: string)
    requires Keyword(kw)
    requires |id| > 0 && AllDigits(id) && |rest| > 0 && rest[0] == '<'
    ensures Name(kw + (id + rest)) == Some((kw + id, rest))
  {
    var t := kw + (id + rest);
    if Folds(kw, Tlab) {
      LitRead(kw, Tlab, id + rest);
    } else {
      LitRead(kw, Munch, id + rest);
      assert Lower(t[0]) == 'm';
    }
    assert t[..|kw|] == kw;
    NumberRead(id, rest);
  }

  /** The text of one row: `<td>host</td><td>cpus</td><td>w1.f1</td><td>w2.f2</td>`, then the rest of the line. */
  function Row(kw: string, id: string, cpus: string, w1: string, f1: string, w2: string, f2: string, rest: string): string
  {
    Open + (kw + (id + (Sep + (cpus + (Sep + (w1 + ("." + (f1 + (Sep + (w2 + ("." + (f2 + (Close + rest)))))))))))))
  }

  predicate Cell(ds: string)
  {
    |ds| > 0 && AllDigits(ds)
  }

  lemma LoadsRead(w1: string, f1: string, w2: string, f2: string, rest: string)
    requires Cell(w1) && Cell(f1) && Cell(w2) && Cell(f2)
    ensures Loads(w1 + ("." + (f1 + (Sep + (w2 + ("." + (f2 + (Close + rest))))))))
  {
    var t2 := w2 + ("." + (f2 + (Close + rest)));
    DecimalRead(w1, f1, Sep + t2);
    LitRead(Sep, Sep, t2);
    LastLoadRead(w2, f2, rest);
  }

  lemma LastLoadRead(w2: string, f2: string, rest: string)
    requires Cell(w2) && Cell(f2)
    ensures LastLoad(w2 + ("." + (f2 + (Close + rest))))
  {
    DecimalRead(w2, f2, Close + rest);
    LitRead(Close, Close, rest);
  }

  lemma CellsRead(cpus: string, w1: string, f1: string, w2: string, f2: string, rest: string)
    requires Cell(cpus) && Cell(w1) && Cell(f1) && Cell(w2) && Cell(f2)
    ensures Cells(Sep + (cpus + (Sep + (w1 + ("." + (f1 + (Sep + (w2 + ("." + (f2 + (Close + rest))))))))))) == Some(cpus)
  {
    var t3 := w1 + ("." + (f1 + (Sep + (w2 + ("." + (f2 + (Close + rest)))))));
    LitRead(Sep, Sep, cpus + (Sep + t3));
    NumberRead(cpus, Sep + t3);
    LitRead(Sep, Sep, t3);
    LoadsRead(w1, f1, w2, f2, rest);
  }

  /**
    The pattern reads a row back: at the start of a row whose cells are well
    formed it matches, giving the host cell as written (its case kept) and
    the CPU cell.
  */
  lemma RowMatch(kw: string, id: string, cpus: string, w1: string, f1: string, w2: string, f2: string, rest: string)
    requires Keyword(kw)
    requires Cell(id) && Cell(cpus) && Cell(w1) && Cell(f1) && Cell(w2) && Cell(f2)
    ensures MatchAt(Row(kw, id, cpus, w1, f1, w2, f2, rest)) == Some((kw + id, cpus))
  {
    var t2 := Sep + (cpus + (Sep + (w1 + ("." + (f1 + (Sep + (w2 + ("." + (f2 + (Close + rest))))))))));
    LitRead(Open, Open, kw + (id + t2));
    NameRead(kw, id, t2);
    CellsRead(cpus, w1, f1, w2, f2, rest);
  }

  /** Positions that do not match are passed over by the search. */
  lemma {:induction false} SearchSkip<T>(m: string -> Option<T>, s: string, i: nat, j: nat)
    requires i <= j <= |s| && forall l | i <= l < j :: m(s[l..]).None?
    ensures SearchFrom(m, s, i) == SearchFrom(m, s, j)
    decreases j - i
  {
    if i < j {
      SearchSkip(m, s, i + 1, j);
    }
  }

  /** No match starts at a character other than '<', in any case. */
  lemma NoOpen(t: string)
    requires t != [] && t[0] != '<'
    ensures MatchAt(t).None?
  {
    assert Lower(t[0]) != '<';
  }

  /**
    A row is what the search finds on a line whose text before it holds no
    '<', whatever follows it.
  */
  lemma RowSearch(pre: string, kw: string, id: string, cpus: string, w1: string, f1: string, w2: string, f2: string,
                  rest: string)
    requires '<' !in pre && Keyword(kw)
    requires Cell(id) && Cell(cpus) && Cell(w1) && Cell(f1) && Cell(w2) && Cell(f2)
    ensures Search(MatchAt, pre + Row(kw, id, cpus, w1, f1, w2, f2, rest)) == Some((kw + id, cpus))
  {
    var row := Row(kw, id, cpus, w1, f1, w2, f2, rest);
    var s := pre + row;
    forall l | 0 <= l < |pre|
      ensures MatchAt(s[l..]).None?
    {
      assert s[l..][0] == pre[l];
      NoOpen(s[l..]);
    }
    SearchSkip(MatchAt, s, 0, |pre|);
    RowMatch(kw, id, cpus, w1, f1, w2, f2, rest);
    assert s[|pre|..] == row;
  }

  /** What the pattern can match as a host: `tlab` or `munch` in any case, then digits. */
  predicate HostCell(h: string)
  {
    (Lit(h, Tlab).Some? && Cell(h[4..])) || (Lit(h, Munch).Some? && Cell(h[5..]))
  }

  lemma NameShape(t: string)
    ensures Name(t).Some? ==> HostCell(Name(t).value.0)
  {
    if Name(t).Some? {
      var k := if Lit(t, Tlab).Some? then 4 else 5;
      var id := Number(t[k..]).value.0;
      var h := t[..k] + id;
      assert h[..k] == t[..k] && h[k..] == id;
      assert t[..k] + t[k..] == t;
      if k == 4 {
        assert Lit(h, Tlab) == Some(id);
      } else {
        assert Lit(h, Munch) == Some(id);
      }
      assert forall j | 0 <= j < |id| :: IsDigit(id[j]) by {
        NumberDigits(t[k..]);
      }
    }
  }

  lemma {:induction false} DigitRunDigits(t: string)
    ensures forall j | 0 <= j < DigitRun(t) :: IsDigit(t[j])
  {
    if t != [] && IsDigit(t[0]) {
      DigitRunDigits(t[1..]);
      assert forall j | 1 <= j < DigitRun(t) :: t[j] == t[1..][j - 1];
    }
  }

  lemma NumberDigits(t: string)
    ensures Number(t).Some? ==> Cell(Number(t).value.0)
  {
    DigitRunDigits(t);
  }

  /** Whatever a line holds, a match names a host cell. */
  lemma MatchShape(t: string)
    ensures MatchAt(t).Some? ==> HostCell(MatchAt(t).value.0)
    ensures MatchAt(t).Some? ==> exists lk, id, w1, f1, w2, f2, r ::
              RowShape(t, MatchAt(t).value.0, MatchAt(t).value.1, lk, id, w1, f1, w2, f2, r)
  {
    if Lit(t, Open).Some? {
      NameShape(Lit(t, Open).value);
    }
    if MatchAt(t).Some? {
      var lk, id, w1, f1, w2, f2, r := MatchRow(t);
    }
  }

  // ---------------------------------------------------------------------------
  // What a match is made of
  // ---------------------------------------------------------------------------

  /** The text with its letters folded to lower case, as `re.I` compares it. */
  function Folded(s: string): (r: string)
    ensures |r| == |s| && forall k | 0 <= k < |s| :: r[k] == Lower(s[k])
  {
    seq(|s|, k requires 0 <= k < |s| => Lower(s[k]))
  }

  lemma FoldedConcat(a: string, b: string)
    ensures Folded(a + b) == Folded(a) + Folded(b)
  {
    assert forall k | 0 <= k < |a + b| :: Folded(a + b)[k] == (Folded(a) + Folded(b))[k];
  }

  lemma DigitsFolded(d: string)
    requires AllDigits(d)
    ensures Folded(d) == d
  {
    assert forall k | 0 <= k < |d| :: Folded(d)[k] == d[k];
  }

  /**
    t holds, whatever the case of its letters, a row of the table followed
    by the folded text r: the host cell h (the keyword lk and the digits id
    once folded, standing right after the opening tag), the CPU cell c and
    the decimals w1.f1 and w2.f2, each cell closed and the next opened by a
    tag.
  */
  predicate RowShape(t: string, h: string, c: string, lk: string, id: string, w1: string, f1: string,
                     w2: string, f2: string, r: string)
  {
    && (lk == Tlab || lk == Munch)
    && Cell(id) && Cell(c) && Cell(w1) && Cell(f1) && Cell(w2) && Cell(f2)
    && Folded(t) == Row(lk, id, c, w1, f1, w2, f2, r)
    && |Open| + |h| <= |t| && h == t[|Open|..|Open| + |h|] && Folded(h) == lk + id
  }

  lemma LitFolded(t: string, lit: string)
    requires Lit(t, lit).Some?
    ensures Folded(t) == lit + Folded(Lit(t, lit).value)
  {
    var x := t[..|lit|];
    assert t == x + Lit(t, lit).value;
    FoldedConcat(x, Lit(t, lit).value);
    assert Folded(x) == lit;
  }

  lemma NumberFolded(t: string)
    requires Number(t).Some?
    ensures Cell(Number(t).value.0) && Folded(t) == Number(t).value.0 + Folded(Number(t).value.1)
  {
    var (d, rest) := Number(t).value;
    NumberDigits(t);
    DigitsFolded(d);
    FoldedConcat(d, rest);
  }

  lemma DecimalFolded(t: string) returns (w: string, f: string)
    requires Decimal(t).Some?
    ensures Cell(w) && Cell(f) && Folded(t) == w + ("." + (f + Folded(Decimal(t).value)))
  {
    var t1 := Number(t).value.1;
    var t2 := Lit(t1, ".").value;
    w, f := Number(t).value.0, Number(t2).value.0;
    NumberFolded(t);
    LitFolded(t1, ".");
    NumberFolded(t2);
  }

  lemma NameFolded(t: string) returns (lk: string, id: string)
    requires Name(t).Some?
    ensures (lk == Tlab || lk == Munch) && Cell(id)
    ensures var (h, rest) := Name(t).value;
            |h| <= |t| && h == t[..|h|] && Folded(h) == lk + id && Folded(t) == lk + (id + Folded(rest))
  {
    var k := if Lit(t, Tlab).Some? then 4 else 5;
    lk := if k == 4 then Tlab else Munch;
    LitFolded(t, lk);
    var (d, rest) := Number(t[k..]).value;
    id := d;
    NumberFolded(t[k..]);
    var h := t[..k] + id;
    assert t[..k] + t[k..] == t;
    assert h == t[..|h|];
    FoldedConcat(t[..k], id);
    FoldedConcat(t[..k], t[k..]);
    DigitsFolded(id);
    assert Folded(t[..k]) == lk;
  }

  lemma LastLoadFolded(t: string) returns (w2: string, f2: string, r: string)
    requires LastLoad(t)
    ensures Cell(w2) && Cell(f2) && Folded(t) == w2 + ("." + (f2 + (Close + r)))
  {
    w2, f2 := DecimalFolded(t);
    var t1 := Decimal(t).value;
    LitFolded(t1, Close);
    r := Folded(Lit(t1, Close).value);
  }

  lemma LoadsFolded(t: string) returns (w1: string, f1: string, w2: string, f2: string, r: string)
    requires Loads(t)
    ensures Cell(w1) && Cell(f1) && Cell(w2) && Cell(f2)
    ensures Folded(t) == w1 + ("." + (f1 + (Sep + (w2 + ("." + (f2 + (Close + r)))))))
  {
    w1, f1 := DecimalFolded(t);
    var t1 := Decimal(t).value;
    LitFolded(t1, Sep);
    w2, f2, r := LastLoadFolded(Lit(t1, Sep).value);
  }

  lemma CellsFolded(t: string) returns (w1: string, f1: string, w2: string, f2: string, r: string)
    requires Cells(t).Some?
    ensures Cell(Cells(t).value) && Cell(w1) && Cell(f1) && Cell(w2) && Cell(f2)
    ensures Folded(t) ==
      Sep + (Cells(t).value + (Sep + (w1 + ("." + (f1 + (Sep + (w2 + ("." + (f2 + (Close + r))))))))))
  {
    LitFolded(t, Sep);
    var t1 := Lit(t, Sep).value;
    NumberFolded(t1);
    var t2 := Number(t1).value.1;
    LitFolded(t2, Sep);
    w1, f1, w2, f2, r := LoadsFolded(Lit(t2, Sep).value);
  }

  /**
    The only-if half of `RowMatch`: a match at the start of the text is a
    row of four adjacent cells, a host, an integer and two decimals, with
    the host cell as written and the CPU digits as its groups.
  */
  lemma MatchRow(t: string) returns (lk: string, id: string, w1: string, f1: string, w2: string, f2: string, r: string)
    requires MatchAt(t).Some?
    ensures RowShape(t, MatchAt(t).value.0, MatchAt(t).value.1, lk, id, w1, f1, w2, f2, r)
  {
    var t1 := Lit(t, Open).value;
    LitFolded(t, Open);
    lk, id := NameFolded(t1);
    var h := Name(t1).value.0;
    var t2 := Name(t1).value.1;
    var c := Cells(t2).value;
    w1, f1, w2, f2, r := CellsFolded(t2);
    RowOfParts(Folded(t), Folded(t1), Folded(t2), lk, id, c, w1, f1, w2, f2, r);
    assert MatchAt(t).value == (h, c);
    SliceOfRest(t, |Open|, h);
  }

  /** A row put together from its text, its host part and its cells part. */
  lemma RowOfParts(ft: string, ft1: string, ft2: string, lk: string, id: string, c: string, w1: string, f1: string,
                   w2: string, f2: string, r: string)
    requires ft == Open + ft1 && ft1 == lk + (id + ft2)
    requires ft2 == Sep + (c + (Sep + (w1 + ("." + (f1 + (Sep + (w2 + ("." + (f2 + (Close + r))))))))))
    ensures ft == Row(lk, id, c, w1, f1, w2, f2, r)
  {
  }

  /** A prefix of the rest at position p is the slice of the text from p. */
  lemma SliceOfRest(t: string, p: nat, h: string)
    requires p <= |t| && |h| <= |t| - p && h == t[p..][..|h|]
    ensures h == t[p..p + |h|]
  {
  }

  // ---------------------------------------------------------------------------
  // The host list
  // ---------------------------------------------------------------------------

  /**
    What a line adds to the list when searched with `pattern`: the full name
    of the host in group 1, when the number in group 2 is positive.
  */
  function Entry(pattern: string -> Option<Groups>, line: string): seq<string>
  {
    var m: Option<Groups> := Search(pattern, line);
    if m.Some? && Value(m.value.1) > 0 then [m.value.0 + Domain] else []
  }

  /** The hosts of the lines, in line order, before any is taken out. */
  function Listed(pattern: string -> Option<Groups>, lines: seq<string>): seq<string>
  {
    if lines == [] then [] else Listed(pattern, lines[..|lines| - 1]) + Entry(pattern, lines[|lines| - 1])
  }

  /** A line gives host h: it matches, its CPU count is positive and h is its host's full name. */
  predicate Gives(pattern: string -> Option<Groups>, line: string, h: string)
  {
    var m: Option<Groups> := Search(pattern, line);
    m.Some? && Value(m.value.1) > 0 && h == m.value.0 + Domain
  }

  /** The list keeps the order of the lines: the hosts of two pages are those of the first, then those of the second. */
  lemma {:induction false} ListedConcat(pattern: string -> Option<Groups>, a: seq<string>, b: seq<string>)
    ensures Listed(pattern, a + b) == Listed(pattern, a) + Listed(pattern, b)
    decreases |b|
  {
    if b == [] {
      assert a + b == a;
    } else {
      var b' := b[..|b| - 1];
      var last := b[|b| - 1];
      assert (a + b)[..|a + b| - 1] == a + b' && (a + b)[|a + b| - 1] == last;
      assert Listed(pattern, a + b) == Listed(pattern, a + b') + Entry(pattern, last);
      assert Listed(pattern, b) == Listed(pattern, b') + Entry(pattern, last);
      ListedConcat(pattern, a, b');
    }
  }

  /** Every listed host comes from a line that gives it. */
  lemma {:induction false} ListedFrom(pattern: string -> Option<Groups>, lines: seq<string>, h: string) returns (k: nat)
    requires h in Listed(pattern, lines)
    ensures k < |lines| && Gives(pattern, lines[k], h)
  {
    var n := |lines| - 1;
    var init := lines[..n];
    if h in Listed(pattern, init) {
      k := ListedFrom(pattern, init, h);
      assert init[k] == lines[k];
    } else {
      k := n;
    }
  }

  /** Every line that gives a host has it listed. */
  lemma {:induction false} ListedHas(pattern: string -> Option<Groups>, lines: seq<string>, k: nat, h: string)
    requires k < |lines| && Gives(pattern, lines[k], h)
    ensures h in Listed(pattern, lines)
  {
    var n := |lines| - 1;
    var init := lines[..n];
    if k < n {
      assert init[k] == lines[k];
      ListedHas(pattern, init, k, h);
    }
  }

  /** Every host listed with a pattern that only matches host cells is a host cell with the domain after it. */
  lemma {:induction false} ListedNames(pattern: string -> Option<Groups>, lines: seq<string>)
    requires forall t :: pattern(t).Some? ==> HostCell(pattern(t).value.0)
    ensures forall h | h in Listed(pattern, lines) ::
      |h| > |Domain| && h[|h| - |Domain|..] == Domain && HostCell(h[..|h| - |Domain|])
  {
    if lines != [] {
      ListedNames(pattern, lines[..|lines| - 1]);
      var line := lines[|lines| - 1];
      SearchLeftmost(pattern, line, 0);
      if Search(pattern, line).Some? {
        var name := Search(pattern, line).value.0;
        var h := name + Domain;
        assert h[..|h| - |Domain|] == name && h[|h| - |Domain|..] == Domain;
      }
    }
  }

  /** The line holds, at some position, a row with host cell g and CPU cell c. */
  ghost predicate HoldsRow(line: string, g: string, c: string)
  {
    exists p, lk, id, w1, f1, w2, f2, r | 0 <= p <= |line| :: RowShape(line[p..], g, c, lk, id, w1, f1, w2, f2, r)
  }

  /**
    A line gives host h only when it holds a row of four cells whose host
    cell, with the domain appended, is h and whose CPU cell is positive,
    and no row starts before it.
  */
  lemma GivesRow(line: string, h: string) returns (p: nat, g: string, c: string)
    requires Gives(MatchAt, line, h)
    ensures p <= |line| && h == g + Domain && Value(c) > 0 && MatchAt(line[p..]) == Some((g, c))
    ensures HoldsRow(line, g, c) && forall l | 0 <= l < p :: MatchAt(line[l..]).None?
  {
    SearchLeftmost(MatchAt, line, 0);
    p :| 0 <= p <= |line| && Search(MatchAt, line) == MatchAt(line[p..]) &&
         forall l | 0 <= l < p :: MatchAt(line[l..]).None?;
    g, c := MatchAt(line[p..]).value.0, MatchAt(line[p..]).value.1;
    var lk, id, w1, f1, w2, f2, r := MatchRow(line[p..]);
  }

  /**
    The row pattern only matches host cells, and every listed host comes
    from a line holding a row of four cells with that host and a positive
    CPU count.
  */
  lemma RowPatternNames(lines: seq<string>)
    ensures forall h | h in Listed(MatchAt, lines) ::
      |h| > |Domain| && h[|h| - |Domain|..] == Domain && HostCell(h[..|h| - |Domain|])
    ensures forall h | h in Listed(MatchAt, lines) ::
      exists k, g, c {:trigger HoldsRow(lines[k], g, c)} | 0 <= k < |lines| :: h == g + Domain && Value(c) > 0 && HoldsRow(lines[k], g, c)
  {
    MatchHosts();
    ListedNames(MatchAt, lines);
    ListedRows(lines);
  }

  lemma MatchHosts()
    ensures forall t :: MatchAt(t).Some? ==> HostCell(MatchAt(t).value.0)
  {
    forall t
      ensures MatchAt(t).Some? ==> HostCell(MatchAt(t).value.0)
    {
      if Lit(t, Open).Some? {
        NameShape(Lit(t, Open).value);
      }
    }
  }

  lemma ListedRows(lines: seq<string>)
    ensures forall h | h in Listed(MatchAt, lines) ::
      exists k, g, c {:trigger HoldsRow(lines[k], g, c)} | 0 <= k < |lines| :: h == g + Domain && Value(c) > 0 && HoldsRow(lines[k], g, c)
  {
    forall h | h in Listed(MatchAt, lines)
      ensures exists k, g, c {:trigger HoldsRow(lines[k], g, c)} | 0 <= k < |lines| :: h == g + Domain && Value(c) > 0 && HoldsRow(lines[k], g, c)
    {
      var k, g, c := ListedRow(lines, h);
    }
  }

  lemma ListedRow(lines: seq<string>, h: string) returns (k: nat, g: string, c: string)
    requires h in Listed(MatchAt, lines)
    ensures k < |lines| && h == g + Domain && Value(c) > 0 && HoldsRow(lines[k], g, c)
  {
    k := ListedFrom(MatchAt, lines, h);
    var p;
    p, g, c := GivesRow(lines[k], h);
  }

  // ---------------------------------------------------------------------------
  // Taking hosts out
  // ---------------------------------------------------------------------------

  /** `list.remove(x)`: the list without the first occurrence of x, or None (the `ValueError`) when x is absent. */
  function Remove(s: seq<string>, x: string): (r: Option<seq<string>>)
    ensures r.None? <==> x !in s
    ensures r.Some? ==> |r.value| == |s| - 1
  {
    if s == [] then None
    else if s[0] == x then Some(s[1..])
    else
      match Remove(s[1..], x)
      case None => None
      case Some(t) => Some([s[0]] + t)
  }

  /** Removal drops the first occurrence, at the position returned, and keeps everything else in order. */
  lemma {:induction false} RemoveFirst(s: seq<string>, x: string) returns (i: nat)
    requires x in s
    ensures i < |s| && s[i] == x && x !in s[..i] && Remove(s, x) == Some(s[..i] + s[i + 1..])
  {
    if s[0] == x {
      i := 0;
      assert s[..0] + s[1..] == s[1..];
    } else {
      var t := s[1..];
      var j := RemoveFirst(t, x);
      i := j + 1;
      assert s == [s[0]] + t;
      Splice(s[0], t, j);
      assert Remove(s, x) == Some([s[0]] + (t[..j] + t[j + 1..]));
    }
  }

  /** Deleting position j + 1 of a list is deleting position j of its tail. */
  lemma Splice(a: string, t: seq<string>, j: nat)
    requires j < |t|
    ensures [a] + (t[..j] + t[j + 1..]) == ([a] + t)[..j + 1] + ([a] + t)[j + 2..]
  {
    var s := [a] + t;
    assert s[..j + 1] == [a] + t[..j];
    assert s[j + 2..] == t[j + 1..];
  }

  /** Removal takes one x out of the bag of hosts; an absent x changes nothing. */
  lemma {:induction false} RemoveMultiset(s: seq<string>, x: string)
    ensures multiset(match Remove(s, x) case None => s case Some(t) => t) == multiset(s) - multiset{x}
  {
    if s != [] {
      assert s == [s[0]] + s[1..];
      if s[0] != x {
        RemoveMultiset(s[1..], x);
        if x in s[1..] {
          var t := Remove(s[1..], x).value;
          assert Remove(s, x) == Some([s[0]] + t);
          assert multiset([s[0]] + t) == multiset{s[0]} + multiset(t);
        }
      }
    }
  }

  /** `"tlab0%d.clamv.jacobs-university.de" % i`. */
  function Excluded(i: nat): string
  {
    "tlab0" + Show(i) + Domain
  }

  /** The hosts after `remove` of the excluded names for 32 up to (not including) hi, a missing one skipped. */
  function Pruned(hosts: seq<string>, hi: nat): seq<string>
  {
    if hi <= 32 then hosts
    else
      var h := Pruned(hosts, hi - 1);
      match Remove(h, Excluded(hi - 1))
      case None => h
      case Some(t) => t
  }

  /** The excluded names for 32 up to hi, as a bag. */
  function ExcludedBag(hi: nat): multiset<string>
  {
    if hi <= 32 then multiset{} else ExcludedBag(hi - 1) + multiset{Excluded(hi - 1)}
  }

  /**
    Pruning takes exactly one occurrence of each excluded name out, where
    there is one: every host keeps its count except the excluded ones, which
    lose one each.
  */
  lemma {:induction false} PrunedMultiset(hosts: seq<string>, hi: nat)
    ensures multiset(Pruned(hosts, hi)) == multiset(hosts) - ExcludedBag(hi)
  {
    if hi > 32 {
      PrunedMultiset(hosts, hi - 1);
      RemoveMultiset(Pruned(hosts, hi - 1), Excluded(hi - 1));
    }
  }

  /** `idx` picks out a from b: strictly increasing positions of b holding a's elements in turn. */
  predicate Embeds(idx: seq<int>, a: seq<string>, b: seq<string>)
  {
    && |idx| == |a|
    && (forall j | 0 <= j < |idx| :: 0 <= idx[j] < |b| && b[idx[j]] == a[j])
    && (forall j, l | 0 <= j < l < |idx| :: idx[j] < idx[l])
  }

  /** a is b with some elements deleted, the rest in the same order. */
  ghost predicate Subsequence(a: seq<string>, b: seq<string>)
  {
    exists idx :: Embeds(idx, a, b)
  }

  lemma SubsequenceRefl(a: seq<string>)
    ensures Subsequence(a, a)
  {
    var idx := seq(|a|, j => j);
    assert Embeds(idx, a, a);
  }

  lemma DeleteSubsequence(h: seq<string>, i: nat)
    requires i < |h|
    ensures Subsequence(h[..i] + h[i + 1..], h)
  {
    var d := h[..i] + h[i + 1..];
    var idx := seq(|h| - 1, j => if j < i then j else j + 1);
    forall j | 0 <= j < |idx|
      ensures h[idx[j]] == d[j]
    {
      if j >= i {
        assert d[j] == h[i + 1..][j - i];
      }
    }
    assert Embeds(idx, d, h);
  }

  lemma SubsequenceTrans(a: seq<string>, b: seq<string>, c: seq<string>)
    requires Subsequence(a, b) && Subsequence(b, c)
    ensures Subsequence(a, c)
  {
    var p :| Embeds(p, a, b);
    var q :| Embeds(q, b, c);
    var idx := seq(|a|, j requires 0 <= j < |a| => q[p[j]]);
    assert Embeds(idx, a, c);
  }

  /** Pruning keeps the hosts in their order: it only ever deletes. */
  lemma {:induction false} PrunedSubsequence(hosts: seq<string>, hi: nat)
    ensures Subsequence(Pruned(hosts, hi), hosts)
  {
    if hi <= 32 {
      SubsequenceRefl(hosts);
    } else {
      PrunedSubsequence(hosts, hi - 1);
      var h := Pruned(hosts, hi - 1);
      if Excluded(hi - 1) in h {
        var i := RemoveFirst(h, Excluded(hi - 1));
        DeleteSubsequence(h, i);
        SubsequenceTrans(h[..i] + h[i + 1..], h, hosts);
      }
    }
  }

  // ---------------------------------------------------------------------------
  // get_hosts
  // ---------------------------------------------------------------------------

  /** `CLAMVParser.get_hosts` over the page's lines. */
  method GetHosts(content: seq<string>) returns (hosts: seq<string>)
    ensures hosts == Pruned(Listed(MatchAt, content), 36)
  {
    hosts := [];
    for k := 0 to |content|
      invariant hosts == Listed(MatchAt, content[..k])
    {
      assert content[..k + 1][..k] == content[..k];
      var mobj := Search(MatchAt, content[k]);
      if mobj.Some? {
        var cpus := Value(mobj.value.1);
        if cpus > 0 {
          hosts := hosts + [mobj.value.0 + Domain];
        }
      }
    }
    assert content[..|content|] == content;
    for i := 32 to 36
      invariant hosts == Pruned(Listed(MatchAt, content), i)
    {
      var host := Excluded(i);
      var removed := Remove(hosts, host);
      if removed.Some? {
        hosts := removed.value;
      }
    }
  }
}
