/**
 * `save_data` and `load_saved_data` over an abstract snapshot of `crm_data.json`.
 * The file holds a document with a `customers` and a `products` entry; each
 * entry is the table's `to_dict('records')` list, one record per row with the
 * pairs in column order. JSON text, encodings and the filesystem are not modelled.
 */
module Persistence {
  import opened Outcomes
  import opened Tables

  /** One table's entry in the saved document, as `data.get(key, [])` finds it. */
  datatype Entry =
    | Absent                         // the key is missing: `[]` is used instead
    | Records(records: seq<Record>)  // a list of JSON objects
    | NotRecords                     // anything `pd.DataFrame` refuses

  /** What `crm_data.json` holds when the dashboard looks at it. */
  datatype StateFile =
    | NoFile                                        // `os.path.exists` is false
    | Corrupt                                       // unreadable, or not a JSON object
    | Document(customers: Entry, products: Entry)

  /** `to_dict('records')`: each row as its pairs in column order. */
  function TableRecords(t: Table): (rs: seq<Record>)
    requires ValidTable(t)
    ensures |rs| == |t.rows|
    ensures forall i :: 0 <= i < |rs| ==> Keys(rs[i]) == t.columns && RecordMap(rs[i]) == t.rows[i]
  {
    var rs := seq(|t.rows|, i requires 0 <= i < |t.rows| => Pairs(t.columns, t.rows[i]));
    assert forall i :: 0 <= i < |rs| ==> RecordMap(rs[i]) == t.rows[i] by {
      forall i | 0 <= i < |rs| ensures RecordMap(rs[i]) == t.rows[i] {
        RecordMapOfPairs(t.columns, t.rows[i]);
      }
    }
    rs
  }

  /** The document `save_data` writes. */
  function Snapshot(customers: Table, products: Table): StateFile
    requires ValidTable(customers) && ValidTable(products)
  {
    Document(Records(TableRecords(customers)), Records(TableRecords(products)))
  }

  /** The columns `pd.DataFrame` gives a list of dicts: every key, in order of first appearance. */
  function RecordColumns(rs: seq<Record>): (cols: seq<string>)
    ensures Distinct(cols)
  {
    if rs == [] then []
    else
      var known := RecordColumns(rs[..|rs| - 1]);
      UnionDistinct(known, Keys(rs[|rs| - 1]));
      Union(known, Keys(rs[|rs| - 1]))
  }

  /** Every key any of the records carries. */
  ghost function KeySet(rs: seq<Record>): set<string> {
    if rs == [] then {} else KeySet(rs[..|rs| - 1]) + ColumnSet(Keys(rs[|rs| - 1]))
  }

  /** The columns of the loaded table are exactly the keys the records carry. */
  lemma {:induction false} RecordColumnsMembers(rs: seq<Record>)
    ensures ColumnSet(RecordColumns(rs)) == KeySet(rs)
    decreases |rs|
  {
    if rs != [] {
      RecordColumnsMembers(rs[..|rs| - 1]);
    }
  }

  /** `pd.DataFrame(records)`: one row per record, NaN where a record lacks a column. */
  function FromRecords(rs: seq<Record>): (t: Table)
    ensures ValidTable(t) && |t.rows| == |rs| && t.columns == RecordColumns(rs)
    ensures forall i, c :: 0 <= i < |rs| && c in t.columns ==>
              t.rows[i][c] == if c in RecordMap(rs[i]) then RecordMap(rs[i])[c] else NaN
  {
    var cols := RecordColumns(rs);
    Table(cols, seq(|rs|, i requires 0 <= i < |rs| => Pad(RecordMap(rs[i]), cols)))
  }

  /** The table an entry loads as, or None when building it raises. */
  function EntryTable(e: Entry): (t: Option<Table>)
    ensures t.Some? ==> ValidTable(t.value)
    ensures t.None? <==> e.NotRecords?
    ensures e.Absent? ==> t == Some(EmptyTable)
  {
    match e
    case Absent => Some(FromRecords([]))
    case Records(rs) => Some(FromRecords(rs))
    case NotRecords => None
  }

  /** The two tables after a load attempt, and the warning shown if it failed. */
  datatype Loaded = Loaded(customers: Table, products: Table, failure: Option<Failure>)

  /**
   * `load_saved_data`: without a file nothing changes; an unreadable file
   * changes nothing and warns; otherwise `customers_data` is assigned before
   * `products_data` is built, so a bad products entry still replaces the customers.
   */
  function LoadState(file: StateFile, customers: Table, products: Table): (r: Loaded)
    ensures ValidTable(customers) && ValidTable(products) ==> ValidTable(r.customers) && ValidTable(r.products)
    ensures r.failure == None || r.failure == Some(LoadError)
    ensures r.failure == None <==>
              file.NoFile? || (file.Document? && !file.customers.NotRecords? && !file.products.NotRecords?)
    ensures r.failure != None ==> r.products == products
    ensures file.NoFile? || file.Corrupt? || (file.Document? && file.customers.NotRecords?) ==>
              r.customers == customers && r.products == products
    ensures file.Document? && !file.customers.NotRecords? ==>
              r.customers == EntryTable(file.customers).value
    ensures file.Document? && !file.customers.NotRecords? && !file.products.NotRecords? ==>
              r.products == EntryTable(file.products).value
  {
    match file
    case NoFile => Loaded(customers, products, None)
    case Corrupt => Loaded(customers, products, Some(LoadError))
    case Document(ce, pe) =>
      match EntryTable(ce)
      case None => Loaded(customers, products, Some(LoadError))
      case Some(c) =>
        match EntryTable(pe)
        case None => Loaded(c, products, Some(LoadError))
        case Some(p) => Loaded(c, p, None)
  }

  /** Records that all carry the same distinct keys give those keys as the columns. */
  lemma {:induction false} RecordColumnsUniform(rs: seq<Record>, cols: seq<string>)
    requires Distinct(cols) && rs != []
    requires forall i :: 0 <= i < |rs| ==> Keys(rs[i]) == cols
    ensures RecordColumns(rs) == cols
    decreases |rs|
  {
    var front := rs[..|rs| - 1];
    if front == [] {
      UnionOfDistinct(cols);
    } else {
      assert forall i :: 0 <= i < |front| ==> Keys(front[i]) == cols by {
        forall i | 0 <= i < |front| ensures Keys(front[i]) == cols {
          assert front[i] == rs[i];
        }
      }
      RecordColumnsUniform(front, cols);
      UnionNoFresh(cols, cols);
    }
  }

  /** Padding a row that already has exactly the columns changes nothing. */
  lemma PadComplete(r: Row, cols: seq<string>)
    requires r.Keys == ColumnSet(cols)
    ensures Pad(r, cols) == r
  {
  }

  /**
   * Loading what `save_data` wrote gives each table back, except that a table
   * without rows comes back as `pd.DataFrame()`: its column list is lost.
   */
  lemma TableRoundTrip(t: Table)
    requires ValidTable(t)
    ensures |t.rows| > 0 ==> FromRecords(TableRecords(t)) == t
    ensures |t.rows| == 0 ==> FromRecords(TableRecords(t)) == EmptyTable
  {
    var rs := TableRecords(t);
    var back := FromRecords(rs);
    if |t.rows| > 0 {
      RecordColumnsUniform(rs, t.columns);
      forall i | 0 <= i < |t.rows| ensures back.rows[i] == t.rows[i] {
        PadComplete(t.rows[i], t.columns);
      }
    }
  }

  /** A saved entry loads back as its table, or as `pd.DataFrame()` when the table had no rows. */
  lemma SavedEntryLoads(t: Table)
    requires ValidTable(t)
    ensures EntryTable(Records(TableRecords(t))) == Some(if |t.rows| > 0 then t else EmptyTable)
  {
    TableRoundTrip(t);
  }

  /** Saving and then loading restores both tables, with no warning. */
  lemma SaveLoadRoundTrip(customers: Table, products: Table, c0: Table, p0: Table)
    requires ValidTable(customers) && ValidTable(products)
    ensures var r := LoadState(Snapshot(customers, products), c0, p0);
      && r.failure == None
      && r.customers == (if |customers.rows| > 0 then customers else EmptyTable)
      && r.products == (if |products.rows| > 0 then products else EmptyTable)
  {
    SavedEntryLoads(customers);
    SavedEntryLoads(products);
  }

  /** A bad products entry after a good customers entry leaves a partial load behind. */
  lemma PartialLoad(rs: seq<Record>, customers: Table, products: Table)
    ensures var r := LoadState(Document(Records(rs), NotRecords), customers, products);
      && r.customers == FromRecords(rs) && r.products == products && r.failure == Some(LoadError)
  {
  }
}
