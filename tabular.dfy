/** The part of a pandas DataFrame that the two preprocessing scripts use: labelled columns,
    positional rows, NaN cells, row filtering on present cells, column assignment
    (`df[c] = values`), relabelling and column selection (`df[cols]`). */
module Tabular {
  import opened Text

  /** A cell: NaN (pandas' missing marker), a string or an integer. */
  datatype Cell = Missing | Str(s: string) | Int(n: int)

  /** str() of a present cell. */
  function CellText(c: Cell): string
    requires c != Missing
  {
    match c
    case Str(s) => s
    case Int(n) => IntString(n)
  }

  /** No label occurs twice. */
  predicate Distinct(labels: seq<string>) {
    DistinctPrefix(labels, |labels|)
  }

  /** The first n labels are pairwise different, each checked against those before it. */
  predicate DistinctPrefix(labels: seq<string>, n: nat)
    requires n <= |labels|
    decreases n
  {
    n == 0 || (DistinctPrefix(labels, n - 1) && forall j :: 0 <= j < n - 1 ==> labels[j] != labels[n - 1])
  }

  lemma {:induction false} PrefixPairs(labels: seq<string>, n: nat)
    requires n <= |labels| && DistinctPrefix(labels, n)
    ensures forall i, j :: 0 <= i < j < n ==> labels[i] != labels[j]
    decreases n
  {
    if n > 0 {
      PrefixPairs(labels, n - 1);
    }
  }

  lemma {:induction false} PairsPrefix(labels: seq<string>, n: nat)
    requires n <= |labels| && forall i, j :: 0 <= i < j < n ==> labels[i] != labels[j]
    ensures DistinctPrefix(labels, n)
    decreases n
  {
    if n > 0 {
      PairsPrefix(labels, n - 1);
    }
  }

  /** Distinct means no two positions hold the same label. */
  lemma {:induction false} DistinctPairs(labels: seq<string>)
    ensures Distinct(labels) <==> forall i, j :: 0 <= i < j < |labels| ==> labels[i] != labels[j]
  {
    if Distinct(labels) {
      PrefixPairs(labels, |labels|);
    }
    if forall i, j :: 0 <= i < j < |labels| ==> labels[i] != labels[j] {
      PairsPrefix(labels, |labels|);
    }
  }

  /** Position of a label. */
  function IndexOf(labels: seq<string>, x: string): (k: nat)
    requires x in labels
    ensures k < |labels| && labels[k] == x
    ensures forall j :: 0 <= j < k ==> labels[j] != x
  {
    IndexFrom(labels, x, 0)
  }

  /** The search from position i on, nothing before i holding the label. */
  function IndexFrom(labels: seq<string>, x: string, i: nat): (k: nat)
    requires x in labels && i < |labels| && forall j :: 0 <= j < i ==> labels[j] != x
    ensures i <= k < |labels| && labels[k] == x
    ensures forall j :: 0 <= j < k ==> labels[j] != x
    decreases |labels| - i
  {
    if labels[i] == x then i else IndexFrom(labels, x, i + 1)
  }

  /** With unique labels, a label's position is the only one holding it. */
  lemma {:induction false} IndexOfDistinct(labels: seq<string>, k: nat)
    requires Distinct(labels) && k < |labels|
    ensures IndexOf(labels, labels[k]) == k
  {
    DistinctPairs(labels);
  }

  /** The labels after `df[c] = ...`: a new label goes at the end. */
  function WithColumn(columns: seq<string>, c: string): (r: seq<string>)
    requires Distinct(columns)
    ensures Distinct(r) && c in r
    ensures forall d :: d in r <==> d in columns || d == c
    ensures |r| >= |columns| && forall j :: 0 <= j < |columns| ==> r[j] == columns[j]
  {
    DistinctPairs(columns);
    DistinctPairs(columns + [c]);
    if c in columns then columns else columns + [c]
  }

  /** `cols` starts with the labels `base`, in their places. */
  predicate Extends(cols: seq<string>, base: seq<string>) {
    |base| <= |cols| && cols[..|base|] == base
  }

  lemma {:induction false} WithColumnExtends(columns: seq<string>, c: string)
    requires Distinct(columns)
    ensures Extends(WithColumn(columns, c), columns)
  {
    assert (columns + [c])[..|columns|] == columns;
  }

  lemma {:induction false} ExtendsTrans(a: seq<string>, b: seq<string>, c: seq<string>)
    requires Extends(a, b) && Extends(b, c)
    ensures Extends(a, c)
  {
    assert a[..|c|] == a[..|b|][..|c|];
  }

  /** Labels that were there keep their positions when more are added after them; a label
      that was not there is found after all of them. */
  lemma {:induction false} IndexOfExtends(cols: seq<string>, base: seq<string>, x: string)
    requires Extends(cols, base) && x in cols
    ensures x in base ==> IndexOf(cols, x) == IndexOf(base, x)
    ensures x !in base ==> |base| <= IndexOf(cols, x)
  {
    var k := IndexOf(cols, x);
    if k < |base| {
      assert base[k] == cols[k];
    }
    if x in base {
      var j := IndexOf(base, x);
      assert cols[j] == base[j];
    }
  }

  /** `row.get(c, '')` of a pandas Series. */
  function GetOrEmpty(columns: seq<string>, row: seq<Cell>, c: string): Cell
    requires |row| == |columns|
  {
    if c in columns then row[IndexOf(columns, c)] else Str("")
  }

  /** The rows whose cell k is present, in their order. */
  function KeepPresent(rows: seq<seq<Cell>>, k: nat): (r: seq<seq<Cell>>)
    requires forall i :: 0 <= i < |rows| ==> k < |rows[i]|
    ensures |r| <= |rows|
    ensures forall x :: x in r <==> x in rows && x[k] != Missing
    ensures forall i :: 0 <= i < |r| ==> r[i] in rows
    ensures |rows| == 1 ==> r == if rows[0][k] != Missing then rows else []
    decreases |rows|
  {
    if rows == [] then []
    else
      var tail := KeepPresent(rows[1..], k);
      assert forall x :: x in rows <==> x == rows[0] || x in rows[1..];
      if rows[0][k] != Missing then [rows[0]] + tail else tail
  }

  /** Over two runs of rows the filter gives the two results one after the other, so with
      the one-row case it keeps the rows' order and their repetitions. */
  lemma {:induction false} KeepPresentAppend(a: seq<seq<Cell>>, b: seq<seq<Cell>>, k: nat)
    requires forall i :: 0 <= i < |a| ==> k < |a[i]|
    requires forall i :: 0 <= i < |b| ==> k < |b[i]|
    ensures forall i :: 0 <= i < |a + b| ==> k < |(a + b)[i]|
    ensures KeepPresent(a + b, k) == KeepPresent(a, k) + KeepPresent(b, k)
    decreases |a|
  {
    if a == [] {
      assert a + b == b;
    } else {
      assert (a + b)[0] == a[0];
      assert (a + b)[1..] == a[1..] + b;
      KeepPresentAppend(a[1..], b, k);
    }
  }

  /** The filter row by row: a frame that gains a last row gains it in the result exactly
      when its cell is present. */
  lemma {:induction false} KeepPresentInSnoc(columns: seq<string>, rows: seq<seq<Cell>>, x: seq<Cell>, c: string)
    requires Table(columns, rows + [x]).Valid() && c in columns
    ensures Table(columns, rows).Valid() && |x| == |columns|
    ensures Table(columns, rows + [x]).KeepPresentIn(c).rows
      == Table(columns, rows).KeepPresentIn(c).rows + (if x[IndexOf(columns, c)] != Missing then [x] else [])
  {
    assert forall i :: 0 <= i < |rows| ==> rows[i] == (rows + [x])[i];
    assert (rows + [x])[|rows|] == x;
    KeepPresentAppend(rows, [x], IndexOf(columns, c));
  }

  /** A frame's value: unique column labels and rows whose cell k belongs to column k. */
  datatype Table = Table(columns: seq<string>, rows: seq<seq<Cell>>) {

    predicate Valid() {
      Distinct(columns) && forall i :: 0 <= i < |rows| ==> |rows[i]| == |columns|
    }

    /** `df[c]` */
    function Column(c: string): (v: seq<Cell>)
      requires Valid() && c in columns
      ensures |v| == |rows|
      ensures forall i :: 0 <= i < |rows| ==> v[i] == rows[i][IndexOf(columns, c)]
    {
      seq(|rows|, i requires 0 <= i < |rows| => rows[i][IndexOf(columns, c)])
    }

    /** `df[df[c].notna()]`: exactly the rows whose cell in column c is present. */
    function KeepPresentIn(c: string): (r: Table)
      requires Valid() && c in columns
      ensures r.Valid() && r.columns == columns && |r.rows| <= |rows|
      ensures forall x :: x in r.rows <==> x in rows && x[IndexOf(columns, c)] != Missing
    {
      Table(columns, KeepPresent(rows, IndexOf(columns, c)))
    }

    /** `df[c] = values`: the column is overwritten in place when it exists and appended
        otherwise; every other column keeps its values. */
    function Assign(c: string, values: seq<Cell>): (r: Table)
      requires Valid() && |values| == |rows|
      ensures r.Valid() && r.columns == WithColumn(columns, c) && |r.rows| == |rows|
      ensures r.Column(c) == values
      ensures forall d :: d in columns && d != c ==> r.Column(d) == Column(d)
    {
      var r := if c in columns then
        var k := IndexOf(columns, c);
        Table(columns, seq(|rows|, i requires 0 <= i < |rows| => rows[i][k := values[i]]))
      else
        Table(columns + [c], seq(|rows|, i requires 0 <= i < |rows| => rows[i] + [values[i]]));
      assert r.columns == WithColumn(columns, c);
      assert forall d :: d in columns ==> IndexOf(r.columns, d) == IndexOf(columns, d) by {
        forall d | d in columns ensures IndexOf(r.columns, d) == IndexOf(columns, d) {
          IndexOfDistinct(r.columns, IndexOf(columns, d));
        }
      }
      r
    }

    /** `df[labels]`: the listed columns, in the listed order. */
    function Select(labels: seq<string>): (r: seq<seq<Cell>>)
      requires Valid() && forall m :: 0 <= m < |labels| ==> labels[m] in columns
      ensures |r| == |rows|
      ensures forall i :: 0 <= i < |r| ==> |r[i]| == |labels|
      ensures forall i, m :: 0 <= i < |r| && 0 <= m < |labels| ==> r[i][m] == rows[i][IndexOf(columns, labels[m])]
    {
      seq(|rows|, i requires 0 <= i < |rows| =>
        seq(|labels|, m requires 0 <= m < |labels| => rows[i][IndexOf(columns, labels[m])]))
    }
  }

  /** `df[c] = values` keeps the existing labels in their places. */
  lemma {:induction false} AssignExtends(t: Table, c: string, values: seq<Cell>)
    requires t.Valid() && |values| == |t.rows|
    ensures Extends(t.Assign(c, values).columns, t.columns)
  {
    WithColumnExtends(t.columns, c);
  }

  /** A DataFrame that the scripts update in place. */
  class Frame {
    var columns: seq<string>
    var rows: seq<seq<Cell>>

    function Value(): Table
      reads this
    {
      Table(columns, rows)
    }

    ghost predicate Valid()
      reads this
    {
      Value().Valid()
    }

    constructor (t: Table)
      requires t.Valid()
      ensures Valid() && Value() == t
    {
      columns := t.columns;
      rows := t.rows;
    }

    /** `df = df[df[c].notna()]`; `found` is false where pandas raises KeyError, and then
        nothing changes. */
    method DropMissing(c: string) returns (found: bool)
      requires Valid()
      modifies this
      ensures Valid()
      ensures found == (c in old(columns))
      ensures Value() == if found then old(Value()).KeepPresentIn(c) else old(Value())
    {
      found := c in columns;
      if found {
        rows := Value().KeepPresentIn(c).rows;
      }
    }

    /** `df[c] = values` */
    method Assign(c: string, values: seq<Cell>)
      requires Valid() && |values| == |rows|
      modifies this
      ensures Valid() && Value() == old(Value()).Assign(c, values)
    {
      var t := Value().Assign(c, values);
      columns, rows := t.columns, t.rows;
    }

    /** `df.rename(columns=...)`, expressed position by position. */
    method Relabel(labels: seq<string>)
      requires Valid() && |labels| == |columns| && Distinct(labels)
      modifies this
      ensures Valid() && Value() == Table(labels, old(rows))
    {
      columns := labels;
    }
  }
}
