/**
 * The in-memory record tables of the dashboard: the two pandas DataFrames
 * `customers_data` and `products_data`, and how `pd.concat` merges rows into them.
 *
 * A table is an ordered list of distinct column names plus a sequence of rows;
 * a row maps every column of its table to a cell value.
 */
module Tables {

  /** A cell value as pandas and openpyxl hold it. */
  datatype Value =
    | Str(s: string)       // text
    | Num(shown: string)   // a number, kept as the text Python's `str()` prints for it
    | NaN                  // the gap pandas leaves where a merged row lacks a column
    | Null                 // Python `None`: a worksheet cell nothing was written to

  /** Python's `str(value)`, which the column-width rule measures. */
  function Display(v: Value): string {
    match v
    case Str(s) => s
    case Num(t) => t
    case NaN => "nan"
    case Null => "None"
  }

  type Row = map<string, Value>

  /** A Python dict written as its key/value pairs in insertion order. */
  type Record = seq<(string, Value)>

  datatype Table = Table(columns: seq<string>, rows: seq<Row>)

  /** `pd.DataFrame()`: no columns, no rows. */
  const EmptyTable := Table([], [])

  predicate Distinct(s: seq<string>) {
    forall i, j :: 0 <= i < j < |s| ==> s[i] != s[j]
  }

  function ColumnSet(cols: seq<string>): set<string> {
    set c | c in cols
  }

  /** The shape of a DataFrame: distinct column labels, and a cell in every column of every row. */
  predicate ValidTable(t: Table) {
    && Distinct(t.columns)
    && forall i :: 0 <= i < |t.rows| ==> t.rows[i].Keys == ColumnSet(t.columns)
  }

  /** `DataFrame.empty`: true when either axis has length zero. */
  predicate IsEmpty(t: Table) {
    |t.rows| == 0 || |t.columns| == 0
  }

  /**
   * The column union `pd.concat` computes: the columns of `a` in their order,
   * then every column of `b` not seen so far, in order of first appearance.
   */
  function Union(a: seq<string>, b: seq<string>): (u: seq<string>)
    ensures |a| <= |u| && u[..|a|] == a
    ensures forall x {:trigger x in u} :: x in u <==> x in a || x in b
    decreases |b|
  {
    if b == [] then a
    else Union(if b[0] in a then a else a + [b[0]], b[1..])
  }

  /** The union of distinct columns with any others has no repeated column. */
  lemma {:induction false} UnionDistinct(a: seq<string>, b: seq<string>)
    requires Distinct(a)
    ensures Distinct(Union(a, b))
    decreases |b|
  {
    if b != [] {
      var a' := if b[0] in a then a else a + [b[0]];
      assert Distinct(a');
      UnionDistinct(a', b[1..]);
    }
  }

  /** First position of `x` in `s`. */
  function IndexOf(s: seq<string>, x: string): (i: nat)
    requires x in s
    ensures i < |s| && s[i] == x
    ensures forall j :: 0 <= j < i ==> s[j] != x
  {
    if s[0] == x then 0 else 1 + IndexOf(s[1..], x)
  }

  lemma IndexOfTail(s: seq<string>, x: string)
    requires x in s && s[0] != x
    ensures x in s[1..] && IndexOf(s, x) == 1 + IndexOf(s[1..], x)
  {
  }

  /** The columns `Union` adds after `a` are columns of `b`, in the order `b` first names them. */
  lemma {:induction false} UnionFreshInOrder(a: seq<string>, b: seq<string>, i: nat, j: nat)
    requires Distinct(a)
    requires |a| <= i < j < |Union(a, b)|
    ensures Union(a, b)[i] in b && Union(a, b)[j] in b
    ensures IndexOf(b, Union(a, b)[i]) < IndexOf(b, Union(a, b)[j])
    decreases |b|
  {
    var u := Union(a, b);
    UnionDistinct(a, b);
    assert u[i] !in a && u[j] !in a by {
      forall k | 0 <= k < |a| ensures a[k] != u[i] && a[k] != u[j] {
        assert a[k] == u[k];
      }
    }
    assert b != [];
    var a' := if b[0] in a then a else a + [b[0]];
    assert u == Union(a', b[1..]);
    if b[0] in a {
      UnionFreshInOrder(a', b[1..], i, j);
      IndexOfTail(b, u[i]);
      IndexOfTail(b, u[j]);
    } else if i == |a| {
      assert u[..|a'|] == a';
      assert u[i] == b[0];
      assert u[j] != b[0];
      assert u[j] in ColumnSet(u);
      IndexOfTail(b, u[j]);
    } else {
      assert Distinct(a');
      assert u[..|a'|] == a' && u[|a|] == b[0];
      UnionFreshInOrder(a', b[1..], i, j);
      IndexOfTail(b, u[i]);
      IndexOfTail(b, u[j]);
    }
  }

  /** Adding columns that are all known already leaves the column list as it is. */
  lemma {:induction false} UnionNoFresh(a: seq<string>, b: seq<string>)
    requires forall x :: x in b ==> x in a
    ensures Union(a, b) == a
    decreases |b|
  {
    if b != [] {
      UnionNoFresh(a, b[1..]);
    }
  }

  /** The union of distinct columns with nothing yet is those columns. */
  lemma {:induction false} UnionOfDistinct(b: seq<string>)
    requires Distinct(b)
    ensures Union([], b) == b
  {
    UnionOfFresh([], b);
  }

  /** Distinct columns that are all new are appended as they are. */
  lemma {:induction false} UnionOfFresh(a: seq<string>, b: seq<string>)
    requires Distinct(b)
    requires forall k :: 0 <= k < |b| ==> b[k] !in a
    ensures Union(a, b) == a + b
    decreases |b|
  {
    if b != [] {
      UnionFresh(a, b);
      FreshTail(a, b);
      UnionOfFresh(a + [b[0]], b[1..]);
      AppendFirst(a, b);
    }
  }

  /** A first column that is new is appended before the rest are merged. */
  lemma UnionFresh(a: seq<string>, b: seq<string>)
    requires b != [] && b[0] !in a
    ensures Union(a, b) == Union(a + [b[0]], b[1..])
  {
    assert (if b[0] in a then a else a + [b[0]]) == a + [b[0]];
  }

  lemma AppendFirst(a: seq<string>, b: seq<string>)
    requires b != []
    ensures a + [b[0]] + b[1..] == a + b
  {
  }

  /** After the first new column is appended, the remaining ones are still new and distinct. */
  lemma FreshTail(a: seq<string>, b: seq<string>)
    requires b != [] && Distinct(b)
    requires forall k :: 0 <= k < |b| ==> b[k] !in a
    ensures Distinct(b[1..])
    ensures forall k :: 0 <= k < |b[1..]| ==> b[1..][k] !in a + [b[0]]
  {
    forall k | 0 <= k < |b[1..]| ensures b[1..][k] !in a + [b[0]] {
      assert b[1..][k] == b[k + 1];
    }
  }

  /** A row re-aligned to `cols`, with NaN in every column it lacks. */
  function Pad(r: Row, cols: seq<string>): (p: Row)
    ensures p.Keys == ColumnSet(cols)
  {
    map c | c in cols :: if c in r then r[c] else NaN
  }

  function PadAll(rs: seq<Row>, cols: seq<string>): (ps: seq<Row>)
    ensures |ps| == |rs|
    ensures forall i :: 0 <= i < |rs| ==> ps[i] == Pad(rs[i], cols)
  {
    seq(|rs|, i requires 0 <= i < |rs| => Pad(rs[i], cols))
  }

  /** `pd.concat([a, b], ignore_index=True)`. */
  function Concat(a: Table, b: Table): Table {
    var cols := Union(a.columns, b.columns);
    Table(cols, PadAll(a.rows, cols) + PadAll(b.rows, cols))
  }

  /** One cell of a merged row: a column the merged table had keeps its value. */
  lemma ConcatCell(a: Table, b: Table, i: nat, col: string)
    requires |a.rows| <= i < |a.rows| + |b.rows|
    requires col in b.columns && col in b.rows[i - |a.rows|]
    ensures var c := Concat(a, b);
      i < |c.rows| && col in c.rows[i] && c.rows[i][col] == b.rows[i - |a.rows|][col]
  {
    var cols := Union(a.columns, b.columns);
    assert col in cols;
    assert Concat(a, b).rows[i] == Pad(b.rows[i - |a.rows|], cols);
  }

  /** The merged rows: each old row, then each new row, re-aligned to the merged columns. */
  lemma ConcatRows(a: Table, b: Table)
    ensures var c := Concat(a, b);
      && |c.rows| == |a.rows| + |b.rows|
      && (forall i :: 0 <= i < |a.rows| ==> c.rows[i] == Pad(a.rows[i], c.columns))
      && (forall k :: 0 <= k < |b.rows| ==> c.rows[|a.rows| + k] == Pad(b.rows[k], c.columns))
  {
    var c := Concat(a, b);
    forall k | 0 <= k < |b.rows| ensures c.rows[|a.rows| + k] == Pad(b.rows[k], c.columns) {
    }
  }

  /** Past the old rows, a merged table holds the new rows' cell of every column the new table has. */
  lemma ConcatTail(a: Table, b: Table, col: string)
    requires ValidTable(b) && col in b.columns
    ensures var c := Concat(a, b);
      && |c.rows| == |a.rows| + |b.rows|
      && forall i :: |a.rows| <= i < |c.rows| ==>
           col in c.rows[i] && col in b.rows[i - |a.rows|] && c.rows[i][col] == b.rows[i - |a.rows|][col]
  {
    var c := Concat(a, b);
    assert |c.rows| == |a.rows| + |b.rows| by {
      ConcatRows(a, b);
    }
    forall i | |a.rows| <= i < |c.rows|
      ensures col in c.rows[i] && col in b.rows[i - |a.rows|] && c.rows[i][col] == b.rows[i - |a.rows|][col]
    {
      assert col in b.rows[i - |a.rows|] by {
        assert b.rows[i - |a.rows|].Keys == ColumnSet(b.columns);
      }
      ConcatCell(a, b, i, col);
    }
  }

  /**
   * What a merge promises: the result is a table again; its columns are the old
   * ones followed by the new ones; the old rows come first, unchanged, and the
   * merged rows follow in order; a cell a row did not have is NaN.
   */
  lemma ConcatSpec(a: Table, b: Table)
    requires ValidTable(a) && ValidTable(b)
    ensures var c := Concat(a, b);
      && ValidTable(c)
      && c.columns == Union(a.columns, b.columns)
      && |c.rows| == |a.rows| + |b.rows|
      && (forall i, col :: 0 <= i < |a.rows| && col in c.columns ==>
            c.rows[i][col] == if col in a.columns then a.rows[i][col] else NaN)
      && (forall k, col :: 0 <= k < |b.rows| && col in c.columns ==>
            c.rows[|a.rows| + k][col] == if col in b.columns then b.rows[k][col] else NaN)
  {
    ConcatRows(a, b);
    UnionDistinct(a.columns, b.columns);
    var c := Concat(a, b);
    var cols := c.columns;
    forall i | 0 <= i < |c.rows| ensures c.rows[i].Keys == ColumnSet(cols) {
      if i >= |a.rows| {
        assert c.rows[|a.rows| + (i - |a.rows|)] == Pad(b.rows[i - |a.rows|], cols);
      }
    }
    forall i, col | 0 <= i < |a.rows| && col in cols
      ensures c.rows[i][col] == if col in a.columns then a.rows[i][col] else NaN
    {
      assert col in a.rows[i] <==> col in a.columns;
    }
    forall k, col | 0 <= k < |b.rows| && col in cols
      ensures c.rows[|a.rows| + k][col] == if col in b.columns then b.rows[k][col] else NaN
    {
      assert col in b.rows[k] <==> col in b.columns;
    }
  }

  /** A Python dict built from pairs in order: a later pair for a key overwrites an earlier one. */
  function RecordMap(rec: Record): (m: Row)
    ensures m.Keys == ColumnSet(Keys(rec))
  {
    if rec == [] then map[]
    else
      var n := |rec| - 1;
      assert Keys(rec) == Keys(rec[..n]) + [rec[n].0];
      assert ColumnSet(Keys(rec)) == ColumnSet(Keys(rec[..n])) + {rec[n].0};
      RecordMap(rec[..n])[rec[n].0 := rec[n].1]
  }

  /** The keys of a record, in order. */
  function Keys(rec: Record): (ks: seq<string>)
    ensures |ks| == |rec| && forall i :: 0 <= i < |rec| ==> ks[i] == rec[i].0
  {
    seq(|rec|, i requires 0 <= i < |rec| => rec[i].0)
  }

  /** A row as the ordered pairs of its table's columns (`to_dict('records')` for one row). */
  function Pairs(cols: seq<string>, r: Row): (rec: Record)
    requires ColumnSet(cols) <= r.Keys
    ensures Keys(rec) == cols
    ensures forall i :: 0 <= i < |cols| ==> rec[i] == (cols[i], r[cols[i]])
  {
    seq(|cols|, i requires 0 <= i < |cols| => (cols[i], r[cols[i]]))
  }

  /** With distinct keys, each pair of a record is found again in the dict built from it. */
  lemma {:induction false} RecordMapLookup(rec: Record, i: nat)
    requires Distinct(Keys(rec)) && i < |rec|
    ensures RecordMap(rec)[rec[i].0] == rec[i].1
    decreases |rec|
  {
    var n := |rec| - 1;
    if i < n {
      var front := rec[..n];
      assert Keys(front) == Keys(rec)[..n];
      assert rec[i] == front[i];
      RecordMapLookup(front, i);
      assert Keys(rec)[i] != Keys(rec)[n];
    }
  }

  /** Building a dict from a row's column pairs gives the row back. */
  lemma RecordMapOfPairs(cols: seq<string>, r: Row)
    requires Distinct(cols) && r.Keys == ColumnSet(cols)
    ensures RecordMap(Pairs(cols, r)) == r
  {
    var rec := Pairs(cols, r);
    assert Keys(rec) == cols;
    var m := RecordMap(rec);
    assert m.Keys == r.Keys;
    forall x | x in r ensures m[x] == r[x] {
      var i := IndexOf(cols, x);
      assert rec[i] == (x, r[x]);
      RecordMapLookup(rec, i);
    }
  }

  /** Columns paired with the values of one row, in column order. */
  function Zip(cols: seq<string>, vals: seq<Value>): (rec: Record)
    requires |vals| == |cols|
    ensures Keys(rec) == cols
    ensures forall i :: 0 <= i < |cols| ==> rec[i] == (cols[i], vals[i])
  {
    seq(|cols|, i requires 0 <= i < |cols| => (cols[i], vals[i]))
  }

  /** The row a list of distinct columns and one value per column make. */
  lemma RowOfZip(cols: seq<string>, vals: seq<Value>)
    requires Distinct(cols) && |vals| == |cols|
    ensures RecordMap(Zip(cols, vals)).Keys == ColumnSet(cols)
    ensures forall i :: 0 <= i < |cols| ==> RecordMap(Zip(cols, vals))[cols[i]] == vals[i]
  {
    var rec := Zip(cols, vals);
    forall i | 0 <= i < |cols| ensures RecordMap(rec)[cols[i]] == vals[i] {
      RecordMapLookup(rec, i);
    }
  }

  /** The DataFrame a list of distinct columns and one list of values per row make. */
  function TableOf(cols: seq<string>, vals: seq<seq<Value>>): (t: Table)
    requires Distinct(cols)
    requires forall r :: 0 <= r < |vals| ==> |vals[r]| == |cols|
    ensures ValidTable(t) && t.columns == cols && |t.rows| == |vals|
    ensures forall r, j :: 0 <= r < |vals| && 0 <= j < |cols| ==> t.rows[r][cols[j]] == vals[r][j]
  {
    var rows := seq(|vals|, r requires 0 <= r < |vals| => RecordMap(Zip(cols, vals[r])));
    assert forall r :: 0 <= r < |vals| ==> (rows[r].Keys == ColumnSet(cols)
                        && forall j :: 0 <= j < |cols| ==> rows[r][cols[j]] == vals[r][j]) by {
      forall r | 0 <= r < |vals|
        ensures rows[r].Keys == ColumnSet(cols) && forall j :: 0 <= j < |cols| ==> rows[r][cols[j]] == vals[r][j]
      {
        RowOfZip(cols, vals[r]);
      }
    }
    Table(cols, rows)
  }

  /** `df[name] = values` for a column the frame does not have yet: it is appended last. */
  function AddColumn(t: Table, name: string, vals: seq<Value>): (u: Table)
    requires ValidTable(t) && name !in t.columns && |vals| == |t.rows|
    ensures ValidTable(u) && u.columns == t.columns + [name] && |u.rows| == |t.rows|
    ensures forall k :: 0 <= k < |t.rows| ==> u.rows[k] == t.rows[k][name := vals[k]]
  {
    var cols := t.columns + [name];
    assert ColumnSet(cols) == ColumnSet(t.columns) + {name};
    Table(cols, seq(|t.rows|, k requires 0 <= k < |t.rows| => t.rows[k][name := vals[k]]))
  }
}
