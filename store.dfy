/**
 * The rules `add_customer`, `import_customers` and `import_products` apply to the
 * two tables, as functions of the current table and the input; the dashboard's
 * methods assign their results to its fields.
 */
module Store {
  import opened Outcomes
  import opened Tables
  import opened Validation
  import opened CustomerIds
  import opened Catalog

  /** The add-customer form holds a widget for every catalog field. */
  predicate FormComplete(form: map<string, string>) {
    forall i :: 0 <= i < |CustomerFields| ==> CustomerFields[i] in form
  }

  /** The text of each named field's widget, keyed by field. A direct definition; `ReadFields` is the loop that computes it. */
  function FormTexts(form: map<string, string>, fields: seq<string>): (row: Row)
    requires forall k :: 0 <= k < |fields| ==> fields[k] in form
    ensures row.Keys == ColumnSet(fields)
    ensures forall k :: 0 <= k < |fields| ==> row[fields[k]] == Str(form[fields[k]])
  {
    map f | f in fields :: Str(form[f])
  }

  /**
   * The record `add_customer` builds: the text of every catalog field, then
   * `registration_date` replaced by the current time and `customer_id` by the
   * next id, counted from the rows already in the table.
   */
  function NewCustomerRow(form: map<string, string>, count: nat, now: string): (row: Row)
    requires FormComplete(form)
    ensures row.Keys == ColumnSet(CustomerFields)
    ensures row["customer_id"] == Str(CustomerId(count + 1))
    ensures row["registration_date"] == Str(now)
    ensures forall i :: (0 <= i < |CustomerFields| && CustomerFields[i] != "customer_id"
                         && CustomerFields[i] != "registration_date") ==>
              row[CustomerFields[i]] == Str(form[CustomerFields[i]])
  {
    assert CustomerFields[5] == "customer_id" && CustomerFields[6] == "registration_date";
    FormTexts(form, CustomerFields)["registration_date" := Str(now)]["customer_id" := Str(CustomerId(count + 1))]
  }

  /**
   * The record-building loop of `add_customer` over `fields`: the text of each
   * field's widget in turn. A field without a widget raises, which `add_customer`
   * reports as a generic error.
   */
  method ReadFields(form: map<string, string>, fields: seq<string>) returns (r: Result<Row, Failure>)
    ensures r.Ok? <==> forall k :: 0 <= k < |fields| ==> fields[k] in form
    ensures r.Err? ==> r.error == FormError
    ensures r.Ok? ==> r.value == FormTexts(form, fields)
  {
    var row: Row := map[];
    for i := 0 to |fields|
      invariant forall k :: 0 <= k < i ==> fields[k] in form
      invariant row.Keys == ColumnSet(fields[..i])
      invariant forall k :: 0 <= k < i ==> row[fields[k]] == Str(form[fields[k]])
    {
      var field := fields[i];
      if field !in form {
        return Err(FormError);
      }
      assert fields[..i + 1] == fields[..i] + [field];
      row := row[field := Str(form[field])];
    }
    assert fields[..|fields|] == fields;
    ghost var expected := FormTexts(form, fields);
    assert row == expected by {
      forall f | f in row.Keys ensures row[f] == expected[f] {
        var k := IndexOf(fields, f);
      }
    }
    return Ok(row);
  }

  /** The whole record: every catalog field read from the form, then the timestamp and the id. */
  method BuildCustomerRecord(form: map<string, string>, count: nat, now: string) returns (r: Result<Row, Failure>)
    ensures r.Ok? <==> FormComplete(form)
    ensures r.Err? ==> r.error == FormError
    ensures r.Ok? ==> r.value == NewCustomerRow(form, count, now)
  {
    var texts := ReadFields(form, CustomerFields);
    if texts.Err? {
      return texts;
    }
    assert FormComplete(form);
    r := Ok(texts.value["registration_date" := Str(now)]["customer_id" := Str(CustomerId(count + 1))]);
    assert r.value == NewCustomerRow(form, count, now);
  }

  /**
   * `add_customer`'s decision: the first required field that fails is reported,
   * then a malformed email, then a form field that is missing; otherwise the new
   * record, numbered from `count`, the number of rows already in the table.
   */
  function AdmitCustomer(form: map<string, string>, count: nat, now: string): (r: Result<Row, Failure>)
    ensures r.Ok? ==> FormComplete(form) && r.value == NewCustomerRow(form, count, now)
    ensures r.Err? ==> r.error.MissingField? || r.error == InvalidEmail || r.error == FormError
  {
    var first := FirstRequiredFailure(form, CustomerRequired);
    if first.Some? then Err(first.value)
    else
      assert Passes(form, CustomerRequired[1]);
      var email := form["email"];
      if !EmailShapeOk(email) then Err(InvalidEmail)
      else if !FormComplete(form) then Err(FormError)
      else Ok(NewCustomerRow(form, count, now))
  }

  /**
   * When `add_customer` accepts and which refusal it reports: a record exactly
   * when name, email and phone are filled in, the email matches the pattern and
   * the form has every field; otherwise the first blank required field, or else
   * the malformed email.
   */
  lemma AdmitCustomerDecision(form: map<string, string>, count: nat, now: string)
    ensures var r := AdmitCustomer(form, count, now);
      && (r.Ok? <==>
            && (forall i :: 0 <= i < |CustomerRequired| ==> Passes(form, CustomerRequired[i]))
            && "email" in form && EmailPatternMatchesPrefix(form["email"])
            && FormComplete(form))
      && (FirstRequiredFailure(form, CustomerRequired) != None ==>
            r == Err(FirstRequiredFailure(form, CustomerRequired).value))
      && (r == Err(InvalidEmail) <==>
            && (forall i :: 0 <= i < |CustomerRequired| ==> Passes(form, CustomerRequired[i]))
            && "email" in form && !EmailPatternMatchesPrefix(form["email"]))
  {
    if FirstRequiredFailure(form, CustomerRequired) == None {
      assert Passes(form, CustomerRequired[1]);
      EmailShapeOkIff(form["email"]);
    }
  }

  /** The checks and the record of `add_customer`, in the order it takes them. */
  method AdmitCustomerSteps(form: map<string, string>, count: nat, now: string) returns (r: Result<Row, Failure>)
    ensures r == AdmitCustomer(form, count, now)
    ensures r.Ok? ==> r.value.Keys == ColumnSet(CustomerFields) && r.value["customer_id"] == Str(CustomerId(count + 1))
  {
    var missing := CheckRequired(form, CustomerRequired);
    if missing.Some? {
      return Err(missing.value);
    }
    assert Passes(form, CustomerRequired[1]);
    var email := form["email"];
    if !EmailShapeOk(email) {
      return Err(InvalidEmail);
    }
    r := BuildCustomerRecord(form, count, now);
  }

  /** The one-row frame `add_customer` appends, its columns in catalog order. */
  function CustomerFrame(row: Row): Table {
    Table(CustomerFields, [row])
  }

  /** Appending a one-row frame: the old rows first and unchanged, the new row last. */
  lemma {:induction false} AppendOne(t: Table, cols: seq<string>, row: Row)
    requires ValidTable(t) && Distinct(cols) && row.Keys == ColumnSet(cols)
    ensures var c := Concat(t, Table(cols, [row]));
      && ValidTable(c)
      && |c.rows| == |t.rows| + 1
      && (forall i, col :: 0 <= i < |t.rows| && col in t.columns ==> c.rows[i][col] == t.rows[i][col])
      && (forall col :: col in cols ==> c.rows[|t.rows|][col] == row[col])
      && (t == EmptyTable ==> c.columns == cols)
  {
    var frame := Table(cols, [row]);
    assert ValidTable(frame);
    ConcatSpec(t, frame);
    var c := Concat(t, frame);
    forall col | col in cols ensures c.rows[|t.rows|][col] == row[col] {
      assert col in c.columns;
      assert c.rows[|t.rows| + 0][col] == frame.rows[0][col];
    }
    if t == EmptyTable {
      UnionOfDistinct(cols);
    }
  }

  /**
   * Appending an admitted customer's record: one more row, the old rows
   * unchanged and first, the new record last with its id; into an empty table
   * the columns are the catalog, in catalog order.
   */
  lemma AppendCustomer(t: Table, row: Row, n: nat)
    requires ValidTable(t) && row.Keys == ColumnSet(CustomerFields)
    requires row["customer_id"] == Str(CustomerId(n))
    ensures var c := Concat(t, CustomerFrame(row));
      && ValidTable(c)
      && |c.rows| == |t.rows| + 1
      && (forall i, col :: 0 <= i < |t.rows| && col in t.columns ==> c.rows[i][col] == t.rows[i][col])
      && (forall col :: col in CustomerFields ==> c.rows[|t.rows|][col] == row[col])
      && c.rows[|t.rows|]["customer_id"] == Str(CustomerId(n))
      && (t == EmptyTable ==> c.columns == CustomerFields)
  {
    CatalogShape();
    AppendOne(t, CustomerFields, row);
  }

  // ---------------------------------------------------------------------------
  // Imports

  /**
   * The customer ids an import numbers its `k` rows with when the file has none.
   * A direct definition; `GeneratedIdsDistinct` proves the ids pairwise distinct.
   */
  function GeneratedIds(count: nat, k: nat): (ids: seq<Value>)
    ensures |ids| == k
    ensures forall i :: 0 <= i < k ==> ids[i] == Str(CustomerId(count + 1 + i))
  {
    seq(k, i requires 0 <= i < k => Str(CustomerId(count + 1 + i)))
  }

  /** The generated ids are pairwise distinct. */
  lemma GeneratedIdsDistinct(count: nat, k: nat)
    ensures forall i, j :: 0 <= i < j < k ==> GeneratedIds(count, k)[i] != GeneratedIds(count, k)[j]
  {
    forall i, j | 0 <= i < j < k ensures GeneratedIds(count, k)[i] != GeneratedIds(count, k)[j] {
      CustomerIdInjective(count + 1 + i, count + 1 + j);
    }
  }

  /** The first fill of `import_customers`: a file without ids gets a `customer_id` column numbered on from `count`. */
  function WithIds(file: Table, count: nat): (t: Table)
    requires ValidTable(file)
    ensures ValidTable(t) && |t.rows| == |file.rows|
    ensures t.columns == file.columns + (if "customer_id" in file.columns then [] else ["customer_id"])
    ensures forall k, c :: 0 <= k < |file.rows| && c in file.columns ==> t.rows[k][c] == file.rows[k][c]
    ensures "customer_id" !in file.columns ==>
              forall k :: 0 <= k < |t.rows| ==> t.rows[k]["customer_id"] == Str(CustomerId(count + 1 + k))
  {
    if "customer_id" in file.columns then file
    else AddColumn(file, "customer_id", GeneratedIds(count, |file.rows|))
  }

  /**
   * An imported customer file after `import_customers` fills what it lacks: a
   * `customer_id` column numbered on from `count`, then a `registration_date`
   * column holding one shared timestamp. Each new column is appended last.
   */
  function WithGeneratedFields(file: Table, count: nat, now: string): (t: Table)
    requires ValidTable(file)
    ensures ValidTable(t) && |t.rows| == |file.rows|
    ensures t.columns == file.columns
              + (if "customer_id" in file.columns then [] else ["customer_id"])
              + (if "registration_date" in file.columns then [] else ["registration_date"])
    ensures forall k, c :: 0 <= k < |file.rows| && c in file.columns ==> t.rows[k][c] == file.rows[k][c]
    ensures "customer_id" !in file.columns ==>
              forall k :: 0 <= k < |t.rows| ==> t.rows[k]["customer_id"] == Str(CustomerId(count + 1 + k))
    ensures "registration_date" !in file.columns ==>
              forall k :: 0 <= k < |t.rows| ==> t.rows[k]["registration_date"] == Str(now)
  {
    var withIds := WithIds(file, count);
    if "registration_date" in file.columns then withIds
    else
      assert "registration_date" !in withIds.columns;
      AddColumn(withIds, "registration_date", seq(|file.rows|, _ => Str(now)))
  }

  /** `import_customers` once the file is read: check the columns, fill ids and dates, merge. */
  function ImportCustomersInto(current: Table, file: Table, now: string): (r: Result<Table, Failure>)
    requires ValidTable(file)
  {
    var missing := AbsentColumns(CustomerRequired, file.columns);
    if missing != [] then Err(MissingColumns(missing))
    else Ok(Concat(current, WithGeneratedFields(file, |current.rows|, now)))
  }

  /** `import_products` once the file is read: check the columns, merge. */
  function ImportProductsInto(current: Table, file: Table): (r: Result<Table, Failure>)
  {
    var missing := AbsentColumns(ProductRequired, file.columns);
    if missing != [] then Err(MissingColumns(missing))
    else Ok(Concat(current, file))
  }

  /** An import is refused exactly when a required column is absent, and then it names every absent required column. */
  lemma ImportCustomersRefusal(current: Table, file: Table, now: string)
    requires ValidTable(file)
    ensures var r := ImportCustomersInto(current, file, now);
      && (r.Err? <==> exists i :: 0 <= i < |CustomerRequired| && CustomerRequired[i] !in file.columns)
      && (r.Err? ==> (r.error.MissingColumns?
            && forall c :: c in r.error.columns <==> c in CustomerRequired && c !in file.columns))
  {
    var missing := AbsentColumns(CustomerRequired, file.columns);
    if missing != [] {
      var x := missing[0];
      assert x in CustomerRequired && x !in file.columns;
    }
  }

  /**
   * An accepted import keeps the existing rows first and unchanged and appends
   * the imported rows in file order, each with its own values.
   */
  lemma ImportCustomersMerge(current: Table, file: Table, now: string)
    requires ValidTable(current) && ValidTable(file)
    requires ImportCustomersInto(current, file, now).Ok?
    ensures var t := ImportCustomersInto(current, file, now).value;
      && ValidTable(t)
      && |t.rows| == |current.rows| + |file.rows|
      && t.columns[..|current.columns|] == current.columns
      && (forall i, c :: 0 <= i < |current.rows| && c in current.columns ==> t.rows[i][c] == current.rows[i][c])
      && (forall k, c :: 0 <= k < |file.rows| && c in file.columns ==> t.rows[|current.rows| + k][c] == file.rows[k][c])
  {
    var g := WithGeneratedFields(file, |current.rows|, now);
    ConcatSpec(current, g);
    var t := Concat(current, g);
    forall k, c | 0 <= k < |file.rows| && c in file.columns
      ensures t.rows[|current.rows| + k][c] == file.rows[k][c]
    {
      assert c in g.columns;
    }
  }

  /** An import without its own ids numbers its rows on from the table's size: row `i` gets CUS of `i + 1`. */
  lemma ImportCustomersNumbering(current: Table, file: Table, now: string)
    requires ValidTable(current) && ValidTable(file)
    requires "customer_id" !in file.columns
    requires ImportCustomersInto(current, file, now).Ok?
    ensures var t := ImportCustomersInto(current, file, now).value;
      forall i :: |current.rows| <= i < |t.rows| ==>
        "customer_id" in t.rows[i] && t.rows[i]["customer_id"] == Str(CustomerId(i + 1))
  {
    var g := WithGeneratedFields(file, |current.rows|, now);
    ConcatTail(current, g, "customer_id");
  }

  lemma ImportProductsSpec(current: Table, file: Table)
    requires ValidTable(current) && ValidTable(file)
    ensures var r := ImportProductsInto(current, file);
      && (r.Err? <==> exists i :: 0 <= i < |ProductRequired| && ProductRequired[i] !in file.columns)
      && (r.Err? ==> (r.error.MissingColumns?
            && forall c :: c in r.error.columns <==> c in ProductRequired && c !in file.columns))
      && (r.Ok? ==>
            && r.value == Concat(current, file)
            && ValidTable(r.value)
            && |r.value.rows| == |current.rows| + |file.rows|
            && r.value.columns == Union(current.columns, file.columns))
  {
    var missing := AbsentColumns(ProductRequired, file.columns);
    if missing == [] {
      ConcatSpec(current, file);
    } else {
      var x := missing[0];
      assert x in ProductRequired && x !in file.columns;
    }
  }

  // ---------------------------------------------------------------------------
  // Ids stay distinct while the system assigns them

  /** Row `i` carries the id the system would have given it: CUS of `i + 1`. */
  ghost predicate IdsSequential(t: Table) {
    forall i :: 0 <= i < |t.rows| ==>
      "customer_id" in t.rows[i] && t.rows[i]["customer_id"] == Str(CustomerId(i + 1))
  }

  lemma SequentialIdsDistinct(t: Table)
    requires IdsSequential(t)
    ensures forall i, j :: 0 <= i < j < |t.rows| ==> t.rows[i]["customer_id"] != t.rows[j]["customer_id"]
  {
    forall i, j | 0 <= i < j < |t.rows| ensures t.rows[i]["customer_id"] != t.rows[j]["customer_id"] {
      CustomerIdInjective(i + 1, j + 1);
    }
  }

  /** A filled-in form: every catalog field holds the same well-formed email text. */
  const SampleForm: map<string, string> := map f | f in CustomerFields :: "a@b.com"

  /** `add_customer` accepts the sample form. */
  lemma SampleFormAdmitted(count: nat, now: string)
    ensures AdmitCustomer(SampleForm, count, now).Ok?
  {
    assert !IsBlank("a@b.com") by {
      assert !IsSpace("a@b.com"[0]);
      BlankIffAllSpace("a@b.com");
    }
    forall i | 0 <= i < |CustomerRequired| ensures Passes(SampleForm, CustomerRequired[i]) {
      assert CustomerRequired[i] in CustomerFields;
    }
    EmailAccepted();
    EmailShapeOkIff("a@b.com");
  }

  /** A file that brings its own `customer_id` column keeps those ids on import. */
  lemma ImportKeepsFileIds(current: Table, file: Table, now: string)
    requires ValidTable(current) && ValidTable(file) && "customer_id" in file.columns
    requires ImportCustomersInto(current, file, now).Ok?
    ensures var t := ImportCustomersInto(current, file, now).value;
      && "customer_id" in t.columns
      && |t.rows| == |current.rows| + |file.rows|
      && forall i :: |current.rows| <= i < |t.rows| ==>
           && "customer_id" in t.rows[i]
           && t.rows[i]["customer_id"] == file.rows[i - |current.rows|]["customer_id"]
  {
    var g := WithGeneratedFields(file, |current.rows|, now);
    ConcatTail(current, g, "customer_id");
    assert "customer_id" in ColumnSet(Concat(current, g).columns);
  }

  /** A customer file with its own `customer_id` column: one row, carrying "CUS000002". */
  const FileWithIds: Table :=
    Table(["name", "email", "phone", "customer_id"],
          [map["name" := Str("Ann"), "email" := Str("ann@example.com"),
               "phone" := Str("1"), "customer_id" := Str("CUS000002")]])

  /** That file is a valid table naming every required column, so the import accepts it. */
  lemma FileWithIdsAccepted(now: string)
    ensures ValidTable(FileWithIds)
    ensures ImportCustomersInto(EmptyTable, FileWithIds, now).Ok?
  {
    assert AbsentColumns(CustomerRequired, FileWithIds.columns) == [];
  }

  /** Imported into the empty table, that file keeps its own id. */
  lemma FileWithIdsImported(now: string)
    ensures ValidTable(FileWithIds)
    ensures var imported := ImportCustomersInto(EmptyTable, FileWithIds, now);
      && imported.Ok? && ValidTable(imported.value) && |imported.value.rows| == 1
      && "customer_id" in imported.value.columns
      && imported.value.rows[0]["customer_id"] == Str("CUS000002")
  {
    FileWithIdsAccepted(now);
    ImportCustomersMerge(EmptyTable, FileWithIds, now);
    ImportKeepsFileIds(EmptyTable, FileWithIds, now);
    var t := ImportCustomersInto(EmptyTable, FileWithIds, now).value;
    assert t.rows[0]["customer_id"] == FileWithIds.rows[0]["customer_id"];
  }

  /**
   * Ids are not unique once an import brings its own `customer_id` column: the
   * imported ids are kept, and `add_customer` still numbers on from the row
   * count. The file above, imported into the empty table and followed by an
   * added customer, leaves two rows with the id "CUS000002".
   */
  lemma ImportedIdCollides(now: string)
    ensures var imported := ImportCustomersInto(EmptyTable, FileWithIds, now);
      && imported.Ok? && |imported.value.rows| == 1
      && AdmitCustomer(SampleForm, 1, now).Ok?
      && var t := Concat(imported.value, CustomerFrame(AdmitCustomer(SampleForm, 1, now).value));
      && |t.rows| == 2
      && "customer_id" in t.rows[0] && "customer_id" in t.rows[1]
      && t.rows[0]["customer_id"] == t.rows[1]["customer_id"] == Str("CUS000002")
  {
    FileWithIdsImported(now);
    var imported := ImportCustomersInto(EmptyTable, FileWithIds, now).value;
    SampleFormAdmitted(1, now);
    var row := AdmitCustomer(SampleForm, 1, now).value;
    assert row["customer_id"] == Str(CustomerId(2));
    CustomerIdExamples();
    CatalogShape();
    AppendOne(imported, CustomerFields, row);
    var t := Concat(imported, CustomerFrame(row));
    assert t.rows[0].Keys == ColumnSet(t.columns);
    assert t.rows[1].Keys == ColumnSet(t.columns);
  }

  /** Adding a customer through the form keeps every id equal to its row number. */
  lemma AdmitKeepsIdsSequential(t: Table, form: map<string, string>, now: string)
    requires ValidTable(t) && IdsSequential(t)
    requires AdmitCustomer(form, |t.rows|, now).Ok?
    ensures var row := AdmitCustomer(form, |t.rows|, now).value;
      IdsSequential(Concat(t, CustomerFrame(row)))
  {
    var row := AdmitCustomer(form, |t.rows|, now).value;
    var single := CustomerFrame(row);
    CatalogShape();
    assert ValidTable(single);
    ConcatSpec(t, single);
    var c := Concat(t, single);
    assert "customer_id" in c.columns;
    forall i | 0 <= i < |c.rows| ensures "customer_id" in c.rows[i] && c.rows[i]["customer_id"] == Str(CustomerId(i + 1)) {
      if i < |t.rows| {
        assert "customer_id" in t.rows[i].Keys;
      } else {
        assert i == |t.rows| + 0;
      }
    }
  }

  /** An import without its own `customer_id` column keeps every id equal to its row number. */
  lemma ImportKeepsIdsSequential(t: Table, file: Table, now: string)
    requires ValidTable(t) && ValidTable(file) && IdsSequential(t)
    requires "customer_id" !in file.columns
    requires ImportCustomersInto(t, file, now).Ok?
    ensures IdsSequential(ImportCustomersInto(t, file, now).value)
  {
    var c := ImportCustomersInto(t, file, now).value;
    ImportCustomersMerge(t, file, now);
    ImportCustomersNumbering(t, file, now);
    forall i | 0 <= i < |t.rows| ensures "customer_id" in c.rows[i] && c.rows[i]["customer_id"] == Str(CustomerId(i + 1)) {
      assert "customer_id" in t.rows[i].Keys;
      assert "customer_id" in t.columns;
      assert c.columns[..|t.columns|] == t.columns;
      assert c.rows[i].Keys == ColumnSet(c.columns);
    }
  }
}
