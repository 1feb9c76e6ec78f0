/**
 * The sample datasets, the five caption lists, and the suggester that picks a
 * caption list from the column names of an uploaded file.
 */
module MockData {
  import opened Text

  /** A sample file: its name and its rows, the first row being the header. */
  datatype Dataset = Dataset(filename: string, data: seq<seq<string>>)

  const CustomersSample := Dataset("customers.csv", [
    ["customer_id", "full_name", "email_address", "phone_number", "street_address", "registration_date", "total_orders"],
    ["1001", "John Smith", "john.smith@email.com", "(555) 123-4567", "123 Main St, Anytown, ST 12345", "2023-01-15", "5"],
    ["1002", "Sarah Johnson", "sarah.j@gmail.com", "(555) 234-5678", "456 Oak Ave, Springfield, ST 67890", "2023-02-20", "12"],
    ["1003", "Michael Brown", "m.brown@company.org", "(555) 345-6789", "789 Pine Rd, Riverside, ST 11111", "2023-03-10", "3"],
    ["1004", "Emily Davis", "emily.davis@hotmail.com", "(555) 456-7890", "321 Elm St, Brookville, ST 22222", "2023-04-05", "8"],
    ["1005", "Robert Wilson", "bob.wilson@yahoo.com", "(555) 567-8901", "654 Maple Dr, Lakeside, ST 33333", "2023-05-12", "15"]
  ])

  const ProductsSample := Dataset("products.csv", [
    ["product_code", "item_name", "category", "unit_price", "stock_quantity", "supplier_name"],
    ["P001", "Wireless Headphones", "Electronics", "$89.99", "45", "TechCorp"],
    ["P002", "Coffee Maker", "Appliances", "$129.99", "23", "HomeGoods Inc"],
    ["P003", "Running Shoes", "Sports", "$159.99", "67", "SportMax"],
    ["P004", "Office Chair", "Furniture", "$299.99", "12", "OfficeSupply Co"],
    ["P005", "Smartphone", "Electronics", "$699.99", "34", "TechCorp"]
  ])

  const SalesSample := Dataset("sales_data.csv", [
    ["transaction_id", "customer_name", "product_sold", "sale_amount", "sale_date", "sales_rep"],
    ["T2023001", "Alice Cooper", "Laptop Pro", "$1299.99", "2023-06-01", "James Wilson"],
    ["T2023002", "Bob Martin", "Desk Lamp", "$45.99", "2023-06-02", "Sarah Lee"],
    ["T2023003", "Carol Smith", "Office Supplies", "$89.50", "2023-06-03", "Mike Johnson"],
    ["T2023004", "David Brown", "Gaming Mouse", "$79.99", "2023-06-04", "James Wilson"],
    ["T2023005", "Eva Johnson", "Monitor", "$299.99", "2023-06-05", "Sarah Lee"]
  ])

  const EmployeesSample := Dataset("employee_roster.csv", [
    ["emp_id", "employee_name", "department", "hire_date", "salary", "manager"],
    ["E001", "Jennifer Adams", "Marketing", "2022-03-15", "$65000", "Susan Taylor"],
    ["E002", "Tom Rodriguez", "Engineering", "2021-08-22", "$85000", "Mark Chen"],
    ["E003", "Lisa Wang", "Sales", "2023-01-10", "$55000", "David Miller"],
    ["E004", "Kevin O'Brien", "HR", "2020-11-05", "$60000", "Patricia Jones"],
    ["E005", "Rachel Green", "Finance", "2022-07-18", "$70000", "Robert Kim"]
  ])

  /** `Object.values(mockCSVData)`, in declaration order. */
  const Samples := [CustomersSample, ProductsSample, SalesSample, EmployeesSample]

  const GeneralCaptions := ["Name", "Email", "Phone", "Address", "Date", "Amount", "ID", "Category"]
  const CustomerCaptions := ["Customer Name", "Email Address", "Phone Number", "Address", "Registration Date", "Order Count"]
  const ProductCaptions := ["Product Name", "Category", "Price", "Stock Level", "Supplier"]
  const SalesCaptions := ["Customer", "Product", "Amount", "Date", "Sales Representative"]
  const EmployeeCaptions := ["Employee Name", "Department", "Hire Date", "Salary", "Manager"]

  /** The caption list chosen by four keyword groups tried in order, `general` when none hits. */
  function Cascade(customer: bool, product: bool, sale: bool, employee: bool): (r: seq<string>)
    ensures r in [CustomerCaptions, ProductCaptions, SalesCaptions, EmployeeCaptions, GeneralCaptions]
  {
    if customer then CustomerCaptions
    else if product then ProductCaptions
    else if sale then SalesCaptions
    else if employee then EmployeeCaptions
    else GeneralCaptions
  }

  /** The keywords of the cascade: non-empty words without spaces. */
  predicate Keyword(kw: string) {
    kw in ["customer", "client", "product", "item", "sale", "transaction", "employee", "staff"]
  }

  /** `getSuggestedCaptionsForData`: the cascade over the lower-cased, space-joined header. */
  function SuggestedCaptionsFor(csvColumns: seq<string>): (r: seq<string>)
    ensures r in [CustomerCaptions, ProductCaptions, SalesCaptions, EmployeeCaptions, GeneralCaptions]
  {
    var columnText := Lower(Join(csvColumns, " "));
    Cascade(
      Contains(columnText, "customer") || Contains(columnText, "client"),
      Contains(columnText, "product") || Contains(columnText, "item"),
      Contains(columnText, "sale") || Contains(columnText, "transaction"),
      Contains(columnText, "employee") || Contains(columnText, "staff"))
  }

  /** Some lower-cased column name contains the keyword. */
  predicate ColumnHit(csvColumns: seq<string>, kw: string) {
    exists c :: c in csvColumns && Contains(Lower(c), kw)
  }

  /** The same cascade asked column by column. */
  function SuggestedFromColumns(csvColumns: seq<string>): seq<string> {
    Cascade(
      ColumnHit(csvColumns, "customer") || ColumnHit(csvColumns, "client"),
      ColumnHit(csvColumns, "product") || ColumnHit(csvColumns, "item"),
      ColumnHit(csvColumns, "sale") || ColumnHit(csvColumns, "transaction"),
      ColumnHit(csvColumns, "employee") || ColumnHit(csvColumns, "staff"))
  }

  /** Every name lower-cased. */
  function LowerAll(names: seq<string>): (r: seq<string>)
    ensures |r| == |names|
    ensures forall i :: 0 <= i < |names| ==> r[i] == Lower(names[i])
  {
    seq(|names|, i requires 0 <= i < |names| => Lower(names[i]))
  }

  lemma {:induction false} LowerJoin(parts: seq<string>)
    ensures Lower(Join(parts, " ")) == Join(LowerAll(parts), " ")
  {
    if |parts| > 1 {
      LowerJoin(parts[1..]);
      assert LowerAll(parts[1..]) == LowerAll(parts)[1..];
      LowerAppend(parts[0] + " ", Join(parts[1..], " "));
      LowerAppend(parts[0], " ");
    }
  }

  /** An occurrence in `x + " " + y` lies inside `x`, inside `y`, or covers the space. */
  lemma OccurrenceAroundSpace(x: string, y: string, kw: string, i: int)
    requires OccursAt(x + " " + y, kw, i)
    ensures ' ' in kw || i + |kw| <= |x| || i > |x|
  {
    if i <= |x| < i + |kw| {
      assert kw[|x| - i] == (x + " " + y)[|x|] == ' ';
    }
  }

  /** An occurrence in `x` is one in `x + " " + y` at the same position. */
  lemma OccursInLeft(x: string, y: string, kw: string, i: int)
    requires OccursAt(x, kw, i)
    ensures OccursAt(x + " " + y, kw, i)
  {
    var s := x + " " + y;
    assert s[..|x|] == x;
    assert s[i..i + |kw|] == s[..|x|][i..i + |kw|];
  }

  /** An occurrence in `y` is one in `x + " " + y`, shifted past `x` and the space. */
  lemma OccursInRight(x: string, y: string, kw: string, i: int)
    requires OccursAt(y, kw, i)
    ensures OccursAt(x + " " + y, kw, i + |x| + 1)
  {
    var s := x + " " + y;
    var j := i + |x| + 1;
    assert s[|x| + 1..] == y;
    assert s[j..j + |kw|] == s[|x| + 1..][i..i + |kw|];
  }

  /** An occurrence in `x + " " + y` that does not cover the space lies in `x` or in `y`. */
  lemma OccursInPart(x: string, y: string, kw: string, i: int)
    requires OccursAt(x + " " + y, kw, i) && (i + |kw| <= |x| || i > |x|)
    ensures i + |kw| <= |x| ==> OccursAt(x, kw, i)
    ensures i > |x| ==> OccursAt(y, kw, i - |x| - 1)
  {
    var s := x + " " + y;
    if i + |kw| <= |x| {
      assert s[..|x|] == x;
      assert s[i..i + |kw|] == s[..|x|][i..i + |kw|];
    } else {
      var j := i - |x| - 1;
      assert s[|x| + 1..] == y;
      assert s[i..i + |kw|] == s[|x| + 1..][j..j + |kw|];
    }
  }

  /** A word without spaces occurs in `x + " " + y` exactly when it occurs in `x` or in `y`. */
  lemma ContainsAcrossSpace(x: string, y: string, kw: string)
    requires ' ' !in kw
    ensures Contains(x + " " + y, kw) <==> Contains(x, kw) || Contains(y, kw)
  {
    var s := x + " " + y;
    ContainsIff(s, kw);
    ContainsIff(x, kw);
    ContainsIff(y, kw);
    if Contains(s, kw) {
      var i :| OccursAt(s, kw, i);
      OccurrenceAroundSpace(x, y, kw, i);
      OccursInPart(x, y, kw, i);
    }
    if Contains(x, kw) {
      var i :| OccursAt(x, kw, i);
      OccursInLeft(x, y, kw, i);
    }
    if Contains(y, kw) {
      var i :| OccursAt(y, kw, i);
      OccursInRight(x, y, kw, i);
    }
  }

  /** A non-empty word without spaces occurs in the space-joined names exactly when it occurs in one name. */
  lemma {:induction false} JoinContains(parts: seq<string>, kw: string)
    requires ' ' !in kw && kw != []
    ensures Contains(Join(parts, " "), kw) <==> exists c :: c in parts && Contains(c, kw)
  {
    if |parts| == 0 {
      ContainsIff("", kw);
    } else if |parts| > 1 {
      JoinContains(parts[1..], kw);
      ContainsAcrossSpace(parts[0], Join(parts[1..], " "), kw);
      assert forall c :: c in parts <==> c == parts[0] || c in parts[1..];
    }
  }

  /** A keyword hits the lower-cased joined header exactly when it hits one lower-cased column name. */
  lemma KeywordHitsOneColumn(csvColumns: seq<string>, kw: string)
    requires Keyword(kw)
    ensures Contains(Lower(Join(csvColumns, " ")), kw) <==> ColumnHit(csvColumns, kw)
  {
    assert ' ' !in kw && kw != [];
    var lowered := LowerAll(csvColumns);
    LowerJoin(csvColumns);
    JoinContains(lowered, kw);
    if exists c :: c in lowered && Contains(c, kw) {
      var c :| c in lowered && Contains(c, kw);
      var i :| 0 <= i < |lowered| && lowered[i] == c;
      assert csvColumns[i] in csvColumns && Contains(Lower(csvColumns[i]), kw);
    }
    if ColumnHit(csvColumns, kw) {
      var d :| d in csvColumns && Contains(Lower(d), kw);
      var i :| 0 <= i < |csvColumns| && csvColumns[i] == d;
      assert lowered[i] in lowered;
    }
  }

  /**
   * Since no keyword contains a space, the suggester decides column by column:
   * a keyword matches the joined header exactly when it occurs inside one column name.
   */
  lemma SuggestionIsPerColumn(csvColumns: seq<string>)
    ensures SuggestedCaptionsFor(csvColumns) == SuggestedFromColumns(csvColumns)
  {
    KeywordHitsOneColumn(csvColumns, "customer");
    KeywordHitsOneColumn(csvColumns, "client");
    KeywordHitsOneColumn(csvColumns, "product");
    KeywordHitsOneColumn(csvColumns, "item");
    KeywordHitsOneColumn(csvColumns, "sale");
    KeywordHitsOneColumn(csvColumns, "transaction");
    KeywordHitsOneColumn(csvColumns, "employee");
    KeywordHitsOneColumn(csvColumns, "staff");
  }

  /** The suggestion does not depend on the order (or repetition) of the columns. */
  lemma SuggestionIgnoresColumnOrder(a: seq<string>, b: seq<string>)
    requires forall c :: c in a <==> c in b
    ensures SuggestedCaptionsFor(a) == SuggestedCaptionsFor(b)
  {
    SuggestionIsPerColumn(a);
    SuggestionIsPerColumn(b);
  }

  /** Headers that differ only in ASCII letter case get the same suggestion. */
  lemma SuggestionIgnoresCase(a: seq<string>, b: seq<string>)
    requires LowerAll(a) == LowerAll(b)
    ensures SuggestedCaptionsFor(a) == SuggestedCaptionsFor(b)
  {
    LowerJoin(a);
    LowerJoin(b);
  }

  /** The sales sample gets the customer captions: `customer_name` hits the first keyword group. */
  lemma SalesSampleSuggestsCustomerCaptions()
    ensures SuggestedCaptionsFor(SalesSample.data[0]) == CustomerCaptions
  {
    var header := SalesSample.data[0];
    var name := "customer_name";
    assert Lower(name) == name;
    assert header[1] == name;
    ContainsAt(name, "customer", 0);
    SuggestionIsPerColumn(header);
  }

  /** Every row of every sample has as many cells as its header. */
  lemma SamplesAreRectangular()
    ensures forall d, row :: d in Samples && row in d.data ==> |row| == |d.data[0]|
  {
  }
}
