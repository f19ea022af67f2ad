/**
 * The fixed data of the dashboard: the customer field catalog, the required
 * fields of each record kind, the two sample templates and the text of the
 * template's Instructions sheet.
 */
module Catalog {
  import opened Tables

  /** The three groups of `customer_fields`, each in its declared order. */
  const BasicInfo: seq<string> :=
    ["name", "email", "phone", "alternative_phone", "category", "customer_id", "registration_date"]
  const SocialMedia: seq<string> :=
    ["facebook", "instagram", "twitter", "linkedin", "preferred_contact"]
  const AdditionalInfo: seq<string> :=
    ["company", "position", "address", "city", "country", "notes"]

  /** Every customer field, in catalog order: basic info, then social media, then additional info. */
  const CustomerFields: seq<string> := BasicInfo + SocialMedia + AdditionalInfo

  const CustomerRequired: seq<string> := ["name", "email", "phone"]
  const ProductRequired: seq<string> := ["product_id", "name", "category"]

  /** The catalog names 18 distinct fields and the required ones come first. */
  lemma CatalogShape()
    ensures |CustomerFields| == 18 && Distinct(CustomerFields)
    ensures CustomerFields[..3] == CustomerRequired
    ensures Distinct(CustomerRequired) && Distinct(ProductRequired)
    ensures "customer_id" in CustomerFields && "registration_date" in CustomerFields
  {
  }

  /** The `template_type` argument of `create_sample_template` and `export_template`. */
  datatype TemplateKind = Customers | Products

  /** The `template_type` string itself. */
  function KindName(kind: TemplateKind): string {
    match kind
    case Customers => "customers"
    case Products => "products"
  }

  /** `template_type.capitalize()`. */
  function KindTitle(kind: TemplateKind): string {
    match kind
    case Customers => "Customers"
    case Products => "Products"
  }

  function RequiredFields(kind: TemplateKind): (fields: seq<string>)
    ensures |fields| == 3
  {
    match kind
    case Customers => CustomerRequired
    case Products => ProductRequired
  }

  /** The columns of the sample dataset; the customer one omits `customer_id` and `registration_date`. */
  function TemplateColumns(kind: TemplateKind): seq<string> {
    match kind
    case Customers =>
      ["name", "email", "phone", "alternative_phone", "category", "facebook", "instagram",
       "twitter", "linkedin", "preferred_contact", "company", "position", "address", "city",
       "country", "notes"]
    case Products =>
      ["product_id", "name", "category", "price", "stock", "description", "supplier", "status"]
  }

  /** The two sample rows, one value per template column. */
  function SampleValues(kind: TemplateKind): seq<seq<Value>> {
    match kind
    case Customers =>
      [ [Str("John Doe"), Str("john@example.com"), Str("+1234567890"), Str("+1122334455"),
         Str("Real Estate"), Str("fb.com/john"), Str("@john_doe"), Str("@johnd"),
         Str("linkedin.com/john"), Str("Email"), Str("ABC Corp"), Str("Manager"),
         Str("123 Main St"), Str("New York"), Str("USA"), Str("VIP Customer")],
        [Str("Jane Smith"), Str("jane@example.com"), Str("+0987654321"), Str("+5544332211"),
         Str("Tourism"), Str("fb.com/jane"), Str("@jane_smith"), Str("@janes"),
         Str("linkedin.com/jane"), Str("Phone"), Str("XYZ Ltd"), Str("Director"),
         Str("456 Oak Ave"), Str("Los Angeles"), Str("USA"), Str("Regular Customer")] ]
    case Products =>
      [ [Str("PRD001"), Str("Product 1"), Str("Category A"), Num("99.99"), Num("100"),
         Str("Product 1 description"), Str("Supplier A"), Str("Active")],
        [Str("PRD002"), Str("Product 2"), Str("Category B"), Num("149.99"), Num("50"),
         Str("Product 2 description"), Str("Supplier B"), Str("Active")] ]
  }

  /**
   * `create_sample_template`: a table of exactly two sample rows whose columns
   * are the template columns, every required field among them.
   */
  function SampleTemplate(kind: TemplateKind): (t: Table)
    ensures ValidTable(t) && |t.rows| == 2 && t.columns == TemplateColumns(kind)
    ensures forall r, j :: 0 <= r < 2 && 0 <= j < |t.columns| ==>
              t.rows[r][t.columns[j]] == SampleValues(kind)[r][j]
  {
    TemplateColumnsDistinct(kind);
    SampleValuesShape(kind);
    TableOf(TemplateColumns(kind), SampleValues(kind))
  }

  /** Every required field of a kind is a column of its template, at the front and in order. */
  lemma TemplateHasRequiredColumns(kind: TemplateKind)
    ensures TemplateColumns(kind)[..3] == RequiredFields(kind)
    ensures forall f :: f in RequiredFields(kind) ==> f in SampleTemplate(kind).columns
  {
    var cols := TemplateColumns(kind);
    assert cols[..3] == RequiredFields(kind);
    forall f | f in RequiredFields(kind) ensures f in cols {
      assert f in cols[..3];
    }
  }

  lemma TemplateColumnsDistinct(kind: TemplateKind)
    ensures Distinct(TemplateColumns(kind))
  {
  }

  lemma SampleValuesShape(kind: TemplateKind)
    ensures |SampleValues(kind)| == 2
    ensures forall r :: 0 <= r < 2 ==> |SampleValues(kind)[r]| == |TemplateColumns(kind)|
  {
  }

  /** The eight fixed lines at the top of the Instructions sheet. */
  function InstructionLines(kind: TemplateKind): (lines: seq<string>)
    ensures |lines| == 8
  {
    [ "Instructions for using this template:",
      "",
      "1. This is a sample " + KindName(kind) + " template with example data",
      "2. Replace the example data with your actual data",
      "3. Keep the column headers exactly as they are",
      "4. Save the file and use it to import into the CRM system",
      "",
      "Required fields:" ]
  }

  /**
   * Column A of the Instructions sheet, row 1 first: the eight lines, row 9 left
   * unwritten, then "- field" for each required field from row 10 on.
   */
  function InstructionCells(kind: TemplateKind): (cells: seq<Value>)
    ensures |cells| == |InstructionLines(kind)| + 1 + |RequiredFields(kind)|
    ensures forall i :: 0 <= i < 8 ==> cells[i] == Str(InstructionLines(kind)[i])
    ensures cells[8] == Null
    ensures forall k :: 0 <= k < |RequiredFields(kind)| ==>
              cells[9 + k] == Str("- " + RequiredFields(kind)[k])
  {
    var lines := InstructionLines(kind);
    var required := RequiredFields(kind);
    seq(|lines|, i requires 0 <= i < |lines| => Str(lines[i]))
      + [Null]
      + seq(|required|, k requires 0 <= k < |required| => Str("- " + required[k]))
  }

  /** The last rows of the Instructions sheet list the required fields, one per row, in order. */
  lemma InstructionsEndWithRequired(kind: TemplateKind)
    ensures var cells := InstructionCells(kind);
      cells[|cells| - 3..] == seq(3, k requires 0 <= k < 3 => Str("- " + RequiredFields(kind)[k]))
  {
  }

  /** The customer template's Instructions sheet ends with the three required fields, in order. */
  lemma CustomerInstructionsEnd()
    ensures var cells := InstructionCells(Customers);
      cells[|cells| - 3..] == [Str("- name"), Str("- email"), Str("- phone")]
  {
    var cells := InstructionCells(Customers);
    assert cells[9] == Str("- name") by {
      assert RequiredFields(Customers)[0] == "name";
    }
    assert cells[10] == Str("- email") by {
      assert RequiredFields(Customers)[1] == "email";
    }
    assert cells[11] == Str("- phone") by {
      assert RequiredFields(Customers)[2] == "phone";
    }
  }

}
