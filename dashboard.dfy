/**
 * `CRMDashboard` as a state object: the two tables, the interface language and
 * the saved data file, with the operations the dashboard's buttons run. Every
 * failure `CRMDashboard` shows in a message box is returned as a `Status`.
 */
module Dashboard {
  import opened Outcomes
  import opened Tables
  import opened Validation
  import opened Catalog
  import opened Store
  import opened Sheets
  import opened Persistence
  import opened Language

  /** What the open-file dialog and the spreadsheet reader hand to an import. */
  datatype ImportFile =
    | NotChosen           // the dialog was closed without a file
    | Unreadable          // `read_excel` / `read_csv` raised
    | Read(table: Table)  // the parsed file: its header and its rows

  class CrmDashboard {
    var customers: Table
    var products: Table
    var language: string
    /** What `crm_data.json` holds. */
    var dataFile: StateFile

    predicate Valid()
      reads this
    {
      ValidTable(customers) && ValidTable(products) && IsLanguage(language)
    }

    /** `__init__`: empty tables, English, then whatever the saved file restores. */
    constructor(saved: StateFile)
      ensures Valid() && language == "en" && dataFile == saved
      ensures var r := LoadState(saved, EmptyTable, EmptyTable);
        customers == r.customers && products == r.products
    {
      customers := EmptyTable;
      products := EmptyTable;
      language := "en";
      dataFile := saved;
      new;
      var _ := LoadSavedData();
    }

    /** `save_data`: the file now holds both tables as records. */
    method SaveData()
      requires Valid()
      modifies this
      ensures Valid() && dataFile == Snapshot(customers, products)
      ensures customers == old(customers) && products == old(products) && language == old(language)
    {
      dataFile := Snapshot(customers, products);
    }

    /** `load_saved_data`: the tables become what the file restores; a failure is a warning. */
    method LoadSavedData() returns (st: Status)
      requires Valid()
      modifies this
      ensures Valid()
      ensures var r := LoadState(old(dataFile), old(customers), old(products));
        && customers == r.customers && products == r.products
        && st == (if r.failure == None then Done else Failed(LoadError))
      ensures language == old(language) && dataFile == old(dataFile)
    {
      var r := LoadState(dataFile, customers, products);
      customers := r.customers;
      products := r.products;
      st := if r.failure == None then Done else Failed(LoadError);
    }

    /**
     * `add_customer`: the required-field loop, the email check, the record, then
     * the append and a save. Any refusal leaves the tables and the file as they were.
     */
    method AddCustomer(form: map<string, string>, now: string) returns (st: Status)
      requires Valid()
      modifies this
      ensures Valid() && products == old(products) && language == old(language)
      ensures match AdmitCustomer(form, |old(customers).rows|, now)
        case Err(e) => st == Failed(e) && customers == old(customers) && dataFile == old(dataFile)
        case Ok(row) =>
          && st == Done && customers == Concat(old(customers), CustomerFrame(row))
          && dataFile == Snapshot(customers, products)
    {
      var record := AdmitCustomerSteps(form, |customers.rows|, now);
      if record.Err? {
        return Failed(record.error);
      }
      AppendRecord(record.value);
      return Done;
    }

    /** The end of `add_customer`: the one-row frame is concatenated and the data saved. */
    method AppendRecord(row: Row)
      requires Valid() && row.Keys == ColumnSet(CustomerFields)
      modifies this
      ensures Valid() && customers == Concat(old(customers), CustomerFrame(row))
      ensures products == old(products) && language == old(language)
      ensures dataFile == Snapshot(customers, products)
    {
      CatalogShape();
      AppendOne(customers, CustomerFields, row);
      customers := Concat(customers, CustomerFrame(row));
      SaveData();
    }

    /** `import_customers`: read, check the columns, number and date the rows, merge, save. */
    method ImportCustomers(file: ImportFile, now: string) returns (st: Status)
      requires Valid() && (file.Read? ==> ValidTable(file.table))
      modifies this
      ensures Valid() && products == old(products) && language == old(language)
      ensures file.NotChosen? ==> st == Cancelled && customers == old(customers) && dataFile == old(dataFile)
      ensures file.Unreadable? ==> st == Failed(ImportError) && customers == old(customers) && dataFile == old(dataFile)
      ensures file.Read? ==> match ImportCustomersInto(old(customers), file.table, now)
        case Err(e) => st == Failed(e) && customers == old(customers) && dataFile == old(dataFile)
        case Ok(t) => st == Done && customers == t && dataFile == Snapshot(customers, products)
    {
      match file
      case NotChosen =>
        return Cancelled;
      case Unreadable =>
        return Failed(ImportError);
      case Read(table) =>
        var merged := ImportCustomersInto(customers, table, now);
        if merged.Err? {
          return Failed(merged.error);
        }
        ImportCustomersMerge(customers, table, now);
        customers := merged.value;
        SaveData();
        return Done;
    }

    /** `import_products`: read, check the columns, merge, save. */
    method ImportProducts(file: ImportFile) returns (st: Status)
      requires Valid() && (file.Read? ==> ValidTable(file.table))
      modifies this
      ensures Valid() && customers == old(customers) && language == old(language)
      ensures file.NotChosen? ==> st == Cancelled && products == old(products) && dataFile == old(dataFile)
      ensures file.Unreadable? ==> st == Failed(ImportError) && products == old(products) && dataFile == old(dataFile)
      ensures file.Read? ==> match ImportProductsInto(old(products), file.table)
        case Err(e) => st == Failed(e) && products == old(products) && dataFile == old(dataFile)
        case Ok(t) => st == Done && products == t && dataFile == Snapshot(customers, products)
    {
      match file
      case NotChosen =>
        return Cancelled;
      case Unreadable =>
        return Failed(ImportError);
      case Read(table) =>
        var merged := ImportProductsInto(products, table);
        if merged.Err? {
          return Failed(merged.error);
        }
        ImportProductsSpec(products, table);
        products := merged.value;
        SaveData();
        return Done;
    }

    /** `export_customers_excel`, with the chosen path ("" when the dialog is closed). */
    method ExportCustomers(path: string) returns (r: Export)
      requires Valid()
      ensures IsEmpty(customers) <==> r == Refused(NoData)
      ensures !IsEmpty(customers) && path == "" ==> r == NoFileChosen
      ensures !IsEmpty(customers) && path != "" ==>
                r.Written? && r.path == path && |r.sheets| == 1 && IsTableSheet(r.sheets[0], customers, "Customer Data")
    {
      r := ExportTable(customers, "Customer Data", path);
    }

    /** `export_products_excel`, with the chosen path ("" when the dialog is closed). */
    method ExportProducts(path: string) returns (r: Export)
      requires Valid()
      ensures IsEmpty(products) <==> r == Refused(NoData)
      ensures !IsEmpty(products) && path == "" ==> r == NoFileChosen
      ensures !IsEmpty(products) && path != "" ==>
                r.Written? && r.path == path && |r.sheets| == 1 && IsTableSheet(r.sheets[0], products, "Product Data")
    {
      r := ExportTable(products, "Product Data", path);
    }

    /** `tr_text` in the current language. */
    function TrText(key: string): (text: string)
      reads this
      requires Valid()
      ensures key in Translations[language] ==> text == Translations[language][key]
      ensures key !in Translations[language] ==> text == key
    {
      Translate(language, key)
    }

    /** `toggle_language`: only the language changes. */
    method ToggleLanguage()
      requires Valid()
      modifies this
      ensures Valid() && language == Toggled(old(language)) && language != old(language)
      ensures customers == old(customers) && products == old(products) && dataFile == old(dataFile)
    {
      language := Toggled(language);
    }
  }
}
