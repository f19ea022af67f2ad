# CRM dashboard record store

This project models the record store behind `CRMDashboard` in `crm_system.py`, a
desktop CRM for customers and products. The model covers:

- the customer field catalog;
- adding a customer from the entry form: required-field check, email check,
  record construction, `CUS000001`-style ids, append and save;
- importing customer and product spreadsheets: required-column check, id and
  date generation, and the pandas merge;
- the Excel exports and the import template: sheet contents and the
  column-width rule;
- saving and loading `crm_data.json` as an abstract snapshot;
- the English/Arabic text lookup and the language toggle.

Modules, in dependency order:

- `Outcomes`: `Option`, `Result`, the failures the dashboard reports, and the
  `Status` of an operation.
- `Tables`: a DataFrame as ordered distinct columns plus rows (a map from
  column to cell value). `Concat` is `pd.concat`: the column union, with NaN
  where a row lacks a column. Records are `to_dict('records')` lists.
- `Validation`: `str.strip`, the email regular expression under `re.match`,
  the first failing required field, and the missing-columns list.
- `CustomerIds`: the `f"CUS{n:06d}"` id, with its parser.
- `Catalog`: `customer_fields`, the required fields, the two sample templates
  and the Instructions sheet text.
- `Sheets`: the written grid, the width loop, the data exports and the
  template workbook.
- `Store`: the pure rules of adding and importing, and the invariant that
  system-assigned ids stay sequential and distinct.
- `Persistence`: `save_data` and `load_saved_data` over an abstract file.
- `Language`: the translation tables and `tr_text` / `toggle_language`.
- `Dashboard`: the class `CrmDashboard`. Its fields are the two tables, the
  language and the saved file. Its methods are the button handlers. Each
  handler is specified by the pure functions above.

## Model

| member | source | states |
|---|---|---|
| Tables.Union | crm_system.py:590-591 | The merged column list starts with the old columns and holds exactly the old and new names |
| Tables.UnionDistinct | crm_system.py:590-591 | Merging into duplicate-free columns leaves them duplicate-free |
| Tables.UnionFreshInOrder | crm_system.py:590-591 | Columns new to the merge follow in the order they have in the imported table |
| Tables.UnionNoFresh | crm_system.py:621-622 | Merging a header that brings no new names leaves the column list unchanged |
| Tables.UnionOfFresh | crm_system.py:545-547 | Duplicate-free columns that are all new are appended after the old ones as they are |
| Tables.UnionOfDistinct | crm_system.py:545-547 | Merging duplicate-free columns into no columns gives those columns in their order |
| Tables.Concat | crm_system.py:545-547 | `pd.concat([a, b], ignore_index=True)`: the column union, every row re-aligned to it with NaN for a missing column; its properties are `ConcatRows` and `ConcatSpec` |
| Tables.ConcatRows | crm_system.py:590-591 | The merged rows are the old rows, then the new rows, each re-aligned to the merged columns |
| Tables.ConcatSpec | crm_system.py:590-591 | `pd.concat`: the result is a table; the old rows come first and unchanged, the imported rows follow in order; a cell a row lacked is NaN |
| Tables.ConcatCell | crm_system.py:590-591 | An imported row keeps each value it had in the merged table |
| Tables.ConcatTail | crm_system.py:590-591 | Past the old rows, every row of the merged table holds the imported row's value in each imported column |
| Tables.RecordMapOfPairs | crm_system.py:799-800 | A row written as its records (column, value) pairs in column order reads back as the same row |
| Tables.RowOfZip | crm_system.py:668-670 | The values of a grid row, zipped with the header, give each column its value |
| Tables.TableOf | crm_system.py:425 | `pd.DataFrame(dict of columns)`: the columns in order, each row holding the listed values |
| Tables.AddColumn | crm_system.py:584 | Assigning a new column appends it last and sets the k-th row's cell to the k-th value, leaving the other cells alone |
| Tables.IsEmpty | crm_system.py:633 | `DataFrame.empty`: no rows or no columns; `ExportTable` refuses exactly these tables |
| Tables.Display | crm_system.py:680-681 | `str()` of a cell: its text, "nan" for a gap, "None" for an unwritten cell; the width rule measures it |
| Validation.TrimLeftSpec | crm_system.py:517 | Left stripping drops exactly the leading whitespace: a suffix whose first character is not whitespace |
| Validation.TrimRightSpec | crm_system.py:517 | Right stripping drops exactly the trailing whitespace |
| Validation.TrimLeft | crm_system.py:517 | Left stripping never lengthens the text; `TrimLeftSpec` states what it removes |
| Validation.TrimRight | crm_system.py:517 | Right stripping never lengthens the text; `TrimRightSpec` states what it removes |
| Validation.Strip | crm_system.py:517 | `str.strip()`: both sides stripped |
| Validation.IsBlank | crm_system.py:517 | `not text.strip()`; `BlankIffAllSpace` characterises it |
| Validation.BlankIffAllSpace | crm_system.py:517 | A field is blank after `strip()` if and only if every character is whitespace |
| Validation.FirstAt | crm_system.py:524 | The first `@` at or after a position, or the end of the text |
| Validation.EmailShapeOk | crm_system.py:524 | The executable form of the email check; `EmailShapeOkIff` proves it equal to the prefix match |
| Validation.EmailShapeOkIff | crm_system.py:524 | The executable email check accepts exactly the texts that have a prefix matching `[^@]+@[^@]+\.[^@]+` |
| Validation.EmailAccepted | crm_system.py:523-527 | "a@b.com" is accepted, and so are trailing text and extra `@` after a matching prefix |
| Validation.EmailRejected | crm_system.py:523-527 | "abc", "a@b" and "@b.com" are rejected |
| Validation.FirstFailing | crm_system.py:515-520 | The index of the first required field that fails: every field before it passes |
| Validation.FirstRequiredFailure | crm_system.py:515-520 | No failure exactly when every required field is present and non-blank; otherwise some field fails |
| Validation.CheckRequired | crm_system.py:516-520 | The loop with early return gives the first failing field's failure |
| Validation.AbsentColumns | crm_system.py:575 | The missing list holds exactly the required columns absent from the header |
| Validation.AbsentColumnsAppend | crm_system.py:575 | The missing list keeps the required order: it is computed piecewise over the required list |
| Validation.MissingEmailColumn | crm_system.py:574-579 | A header with name, phone and city lacks exactly `email` |
| CustomerIds.Decimal | crm_system.py:542 | The decimal digits of a number, with no leading zero |
| CustomerIds.ZeroPad | crm_system.py:542 | `:06d` padding: the text is as long as the width, or longer when the digits already are |
| CustomerIds.ZeroPadShape | crm_system.py:542 | Padding only adds zeros in front; the digits come last, unchanged |
| CustomerIds.CustomerId | crm_system.py:542 | An id is "CUS" followed by at least six digits |
| CustomerIds.DecimalValue | crm_system.py:542 | The digits of `n` read back as `n` |
| CustomerIds.ZeroPadValue | crm_system.py:542 | Zero padding does not change the number the digits denote |
| CustomerIds.CustomerIdRoundTrip | crm_system.py:542 | Parsing the id of `n` gives back `n` |
| CustomerIds.CustomerIdInjective | crm_system.py:542 | Two numbers have the same id if and only if they are equal |
| CustomerIds.DecimalLength | crm_system.py:542 | `n` has at most `k` digits if and only if `n < 10^k` |
| CustomerIds.CustomerIdWidth | crm_system.py:542 | The id is exactly nine characters if and only if `n` is below one million |
| CustomerIds.CustomerIdExamples | crm_system.py:542 | CUS000001, CUS000002 and CUS000042 |
| Catalog.CatalogShape | crm_system.py:23-48 | The catalog has 18 distinct fields; the required name, email and phone come first; id and date are catalog fields |
| Catalog.RequiredFields | crm_system.py:482-485 | Each kind has three required fields |
| Catalog.TemplateColumns | crm_system.py:395-423 | The sample columns of each kind, in the order the sample data lists them |
| Catalog.SampleValues | crm_system.py:395-423 | The two sample rows of each kind, column by column as listed |
| Catalog.SampleTemplate | crm_system.py:393-426 | The template is a table with its kind's columns and exactly two sample rows holding the listed values |
| Catalog.TemplateHasRequiredColumns | crm_system.py:393-426 | Every required field is a column of the sample template, and the first three columns are the required ones |
| Catalog.InstructionCells | crm_system.py:470-491 | Instructions column A: the eight fixed lines in rows 1-8, row 9 unwritten, then "- field" for each required field in order |
| Catalog.InstructionLines | crm_system.py:471-480 | The eight fixed Instructions lines; the third names the template kind |
| Catalog.InstructionsEndWithRequired | crm_system.py:490-491 | The last rows of the Instructions sheet list the required fields, one per row, in order |
| Catalog.CustomerInstructionsEnd | crm_system.py:482-491 | The customer Instructions sheet ends with "- name", "- email", "- phone" |
| Sheets.Column | crm_system.py:675-677 | Column `j` of a grid, header cell first |
| Sheets.Grid | crm_system.py:660-672 | The written grid has the header row plus one row per record, each as wide as the column list |
| Sheets.GridRoundTrip | crm_system.py:660-672 | Reading the written grid back with row 1 as the header gives the table exactly |
| Sheets.ColumnWidth | crm_system.py:675-685 | A column's width is two more than its longest cell text, header included, and is reached by some cell |
| Sheets.SheetWidths | crm_system.py:494-505 | Every column of a sheet gets the width the rule gives it |
| Sheets.TableSheet | crm_system.py:644-685 | A sheet titled as asked, holding the table's grid, sized by the width rule |
| Sheets.InstructionGrid | crm_system.py:487-491 | The Instructions sheet is the single column of instruction cells |
| Sheets.ExportTable | crm_system.py:632-692 | An empty table (no rows or no columns) is refused, and only then; no path means nothing is written; otherwise one sheet holding the table |
| Sheets.ExportTemplate | crm_system.py:428-511 | The template workbook: the sample sheet titled after the kind with header and two rows, then the Instructions sheet, both sized by the width rule |
| Sheets.InstructionLineLengths | crm_system.py:471-480 | The fourth step line is the longest fixed line, 57 characters |
| Sheets.InstructionCellLength | crm_system.py:487-491 | No Instructions cell is longer than 57 characters |
| Sheets.InstructionsWidth | crm_system.py:494-505 | The Instructions column width is 59 |
| Store.FormTexts | crm_system.py:530-538 | The record holds each listed field's form text and no other field |
| Store.NewCustomerRow | crm_system.py:530-542 | A new record has exactly the catalog fields, the supplied timestamp as date, the id of count + 1, and the form text for every other field |
| Store.ReadFields | crm_system.py:530-538 | The form-reading loop succeeds exactly when every field is on the form, and then gives the form texts; a missing widget is a form error |
| Store.BuildCustomerRecord | crm_system.py:530-542 | The record is built exactly when the form is complete, and it is the new customer record |
| Store.AdmitCustomer | crm_system.py:512-547 | An accepted customer is the new customer record; a refusal is a missing field, an invalid email or a form error |
| Store.AdmitCustomerDecision | crm_system.py:515-538 | Accepted if and only if the required fields pass, the email matches and the form is complete; the first failing field is reported; the email is refused exactly when the fields pass and the pattern fails |
| Store.AdmitCustomerSteps | crm_system.py:512-542 | The step-by-step check gives the same outcome as the rule, and an accepted record has the catalog fields and the next id |
| Store.CustomerFrame | crm_system.py:546 | `pd.DataFrame([new_customer])`: one row, its columns in catalog order; `AppendCustomer` states the append |
| Store.AppendOne | crm_system.py:545-547 | Appending a one-row frame keeps a table, adds exactly one row, keeps the old rows, and holds the new values last; into an empty table the columns are the frame's |
| Store.AppendCustomer | crm_system.py:545-547 | Appending an admitted customer: one more row, old rows unchanged, the new record last with its id; into an empty table the columns are the catalog in catalog order |
| Store.GeneratedIds | crm_system.py:582-584 | The k generated ids are CUS(n+1) to CUS(n+k) in row order |
| Store.GeneratedIdsDistinct | crm_system.py:582-584 | The generated ids are pairwise distinct |
| Store.WithIds | crm_system.py:581-584 | A file without `customer_id` gains that column last, row `k` holding CUS(count + 1 + k); other values are kept; a file with the column is unchanged |
| Store.WithGeneratedFields | crm_system.py:581-587 | The imported table keeps its values, gains `customer_id` (numbered on from the table size) and `registration_date` (one shared timestamp) only when absent, in that order |
| Store.ImportCustomersInto | crm_system.py:573-591 | The customer import rule once the file is read: refuse on missing columns, else fill ids and dates and merge; stated by `ImportCustomersRefusal`, `ImportCustomersMerge` and `ImportCustomersNumbering` |
| Store.ImportProductsInto | crm_system.py:612-622 | The product import rule: refuse on missing columns, else merge; stated by `ImportProductsSpec` |
| Store.ImportCustomersRefusal | crm_system.py:573-579 | A customer import is refused exactly when a required column is absent, and names every absent required column |
| Store.ImportCustomersMerge | crm_system.py:589-591 | An accepted import keeps the old rows first and unchanged, appends the imported rows in file order with their values, and keeps the old columns first |
| Store.ImportCustomersNumbering | crm_system.py:582-591 | An import without ids gives row `i` of the merged table the id CUS(i+1) |
| Store.ImportProductsSpec | crm_system.py:612-622 | A product import is refused exactly when a required column is absent, naming each; otherwise it is the merge with the table |
| Store.SequentialIdsDistinct | crm_system.py:542 | When every row carries its system-assigned id, no two rows share an id (an import with its own ids can break this: see Findings) |
| Store.AdmitKeepsIdsSequential | crm_system.py:541-547 | Adding a customer keeps every row's id equal to its position plus one |
| Store.ImportKeepsIdsSequential | crm_system.py:582-591 | Importing a file without ids keeps every row's id equal to its position plus one |
| Store.SampleFormAdmitted | crm_system.py:515-538 | A form whose every field holds "a@b.com" is accepted |
| Store.ImportKeepsFileIds | crm_system.py:581-591 | A file that brings its own `customer_id` column keeps those ids in the merged table, row for row |
| Store.FileWithIdsAccepted | crm_system.py:573-579 | A file naming name, email and phone is a valid table the import accepts |
| Store.FileWithIdsImported | crm_system.py:573-591 | A customer file with its own id column, imported into the empty table, keeps that id |
| Store.ImportedIdCollides | crm_system.py:581-584 | Importing a row that carries "CUS000002" and then adding a customer leaves two rows with the id "CUS000002" |
| Persistence.TableRecords | crm_system.py:799-800 | `to_dict('records')`: one record per row, its keys the columns in order, reading back as that row |
| Persistence.Snapshot | crm_system.py:798-801 | The saved document: both tables as records; `SaveLoadRoundTrip` states what loading it gives |
| Persistence.RecordColumns | crm_system.py:813-814 | The loaded columns are duplicate-free |
| Persistence.RecordColumnsMembers | crm_system.py:813-814 | The loaded columns are exactly the keys the records carry |
| Persistence.RecordColumnsUniform | crm_system.py:813-814 | Records that all carry the same keys load with those keys as columns, in order |
| Persistence.FromRecords | crm_system.py:813-814 | `pd.DataFrame(records)`: one row per record; a column a record lacks is NaN |
| Persistence.EntryTable | crm_system.py:813-814 | An absent entry loads as the empty table; only a non-record entry fails |
| Persistence.LoadState | crm_system.py:808-819 | No file changes nothing; an unreadable file warns and changes nothing; a good document replaces both tables with what their entries load as; customers are replaced before products, so a bad products entry leaves a partial load |
| Persistence.TableRoundTrip | crm_system.py:796-814 | A saved table with rows loads back unchanged; a table without rows loads back as `pd.DataFrame()` |
| Persistence.SavedEntryLoads | crm_system.py:799-814 | A saved entry loads as its table, or as the empty table when it had no rows |
| Persistence.SaveLoadRoundTrip | crm_system.py:796-819 | Loading what was saved restores both tables, with no warning |
| Persistence.PartialLoad | crm_system.py:813-819 | A good customers entry with a bad products entry replaces the customers and warns |
| Language.Translate | crm_system.py:821-822 | The current language's entry, or the key itself when absent |
| Language.TranslationKeysAgree | crm_system.py:58-94 | The English and Arabic tables have the same keys |
| Language.FallbackIndependentOfLanguage | crm_system.py:821-822 | A key neither table knows is shown as itself in both languages |
| Language.TranslateExamples | crm_system.py:58-94 | "customers" is "Customers" in English and "العملاء" in Arabic; an unknown key falls back |
| Language.Toggled | crm_system.py:824-825 | The next language is Arabic exactly when the current one is English, and it always differs |
| Language.ToggleTwice | crm_system.py:824-825 | Toggling twice restores the language |
| Dashboard.CrmDashboard.constructor | crm_system.py:19-56 | Starts with empty tables in English, then loads the saved file |
| Dashboard.CrmDashboard.SaveData | crm_system.py:796-806 | The file now holds both tables as records; nothing else changes |
| Dashboard.CrmDashboard.LoadSavedData | crm_system.py:808-819 | The tables become what the file restores; a failure is reported as a load error |
| Dashboard.CrmDashboard.AddCustomer | crm_system.py:512-560 | A refusal leaves the tables and the file unchanged; an accepted customer is appended and the store saved |
| Dashboard.CrmDashboard.AppendRecord | crm_system.py:545-551 | The one-row frame is concatenated and the data saved |
| Dashboard.CrmDashboard.ImportCustomers | crm_system.py:562-599 | No file: nothing happens; unreadable file: an import error; otherwise the import rule decides, and an accepted import replaces the table and saves |
| Dashboard.CrmDashboard.ImportProducts | crm_system.py:601-630 | As for customers, with the product rule |
| Dashboard.CrmDashboard.ExportCustomers | crm_system.py:632-692 | Empty customers are refused; otherwise the "Customer Data" sheet is written to the chosen path |
| Dashboard.CrmDashboard.ExportProducts | crm_system.py:694-755 | Empty products are refused; otherwise the "Product Data" sheet is written to the chosen path |
| Dashboard.CrmDashboard.TrText | crm_system.py:821-822 | The current language's entry for a key it knows; a key it lacks is shown as itself |
| Dashboard.CrmDashboard.ToggleLanguage | crm_system.py:824-826 | Only the language changes, and it changes to the other one |

## Left out

- The PyQt interface is left out: widgets, tabs, style sheets, table
  rendering (`update_*_table`), `retranslate_ui` and `closeEvent`. Message
  boxes become `Failure`/`Status` values.
- The file dialogs are replaced by parameters. An import receives `NotChosen`,
  `Unreadable` or the parsed table. An export receives the chosen path, with
  `""` when the dialog was closed.
- `pd.read_excel` and `pd.read_csv` are not modelled; the parsed table is an
  input, and it is assumed to have distinct column names.
- Writing the workbook (`wb.save`) is not modelled, and neither is the cell
  styling. A sheet is its cells, its title and its column widths.
- Number values are shown as opaque text, so there is no float arithmetic.
  This covers the sample prices and any numeric import. Type coercion by pandas
  and openpyxl is not modelled.
- JSON encoding and the filesystem are replaced by the abstract `StateFile`.
  Not modelled: a failed or partial write of `crm_data.json`, and JSON shapes
  pandas would accept besides a list of records (these count as
  `NotRecords`).
- `datetime.now()` is the `now` parameter. Its `%Y-%m-%d %H:%M:%S` formatting
  is not modelled.
- The English/Arabic labels attached to each catalog field are form captions
  only, and only the field keys are modelled.
- Catch-all exception paths are modelled only for their known causes:
  - `add_customer`: a field missing from the form.
  - imports: an unreadable file.
  - load: an unreadable file or entry.
  The generic error branches of `export_template` and the two exports, such
  as a failed `wb.save`, are not modelled.
- The width loop's bare `except: pass` never fires for the values modelled
  here, so it is not represented.
- Store.SequentialIdsDistinct: ids are distinct only while every row carries
  its system-assigned id. An import that brings its own `customer_id` column
  keeps those ids, and a later `add_customer` can repeat one of them
  (`Store.ImportedIdCollides`).

## Behaviour worth noting

- An export is refused when the table has no rows or no columns
  (`DataFrame.empty`).
- `load_saved_data` assigns `customers_data` before it builds
  `products_data`. A bad products entry therefore leaves the new customers in
  place (`Persistence.PartialLoad`).
- A save followed by a load loses the column list of a table that has no rows
  (`Persistence.TableRoundTrip`).

## Findings

| source | as written | input that shows it | evidently intended | confidence | as-written member | corrected member |
|---|---|---|---|---|---|---|
| crm_system.py:581-584 | An imported `customer_id` column is kept as is, while `add_customer` numbers from `len(self.customers_data) + 1` (line 542), so the two can collide | A one-row customer file whose `customer_id` is "CUS000002", imported into an empty table, then one customer added through the form: both rows have "CUS000002" | Customer ids are unique; they are while every id is the one the system assigns | medium, not executed | Store.ImportedIdCollides | Store.ImportKeepsIdsSequential |
