/** The inventory page's product table (`InventoryTable`): the row filter
    driven by the page's search text, category and status pickers, and the
    guard of the "Add stock" dialog. */
module InventoryTable {
  import opened Seqs
  import opened Text

  datatype Status = InStock | LowStock | OutOfStock

  /** The string each status is stored as. */
  function StatusName(s: Status): (name: string)
    ensures name in {"in-stock", "low-stock", "out-of-stock"}
  {
    match s
    case InStock => "in-stock"
    case LowStock => "low-stock"
    case OutOfStock => "out-of-stock"
  }

  lemma StatusNamesDistinct(a: Status, b: Status)
    ensures StatusName(a) == StatusName(b) <==> a == b
  {
  }

  datatype InventoryProduct = InventoryProduct(id: string, name: string, category: string, sku: string,
                                               costPrice: real, sellingPrice: real, quantity: int,
                                               status: Status, lastUpdated: string)

  // ---------------------------------------------------------------------------
  // filteredData

  /** The text test: an empty filter matches, otherwise the lower-cased name
      or SKU must contain the lower-cased filter. */
  predicate TextMatch(p: InventoryProduct, filterText: string)
  {
    filterText == [] || Contains(Lower(p.name), Lower(filterText)) || Contains(Lower(p.sku), Lower(filterText))
  }

  /** The category test: "all" matches, otherwise equality ignoring case. */
  predicate CategoryMatch(p: InventoryProduct, categoryFilter: string)
  {
    categoryFilter == "all" || Lower(p.category) == Lower(categoryFilter)
  }

  /** The status test: "all" matches, otherwise the exact status string. */
  predicate StatusMatch(p: InventoryProduct, statusFilter: string)
  {
    statusFilter == "all" || StatusName(p.status) == statusFilter
  }

  predicate Passes(p: InventoryProduct, filterText: string, categoryFilter: string, statusFilter: string)
  {
    TextMatch(p, filterText) && CategoryMatch(p, categoryFilter) && StatusMatch(p, statusFilter)
  }

  function PassesFilters(filterText: string, categoryFilter: string, statusFilter: string): InventoryProduct -> bool
  {
    (p: InventoryProduct) => Passes(p, filterText, categoryFilter, statusFilter)
  }

  /** `filteredData` */
  function FilteredData(data: seq<InventoryProduct>, filterText: string, categoryFilter: string,
                        statusFilter: string): seq<InventoryProduct>
  {
    Filter(data, PassesFilters(filterText, categoryFilter, statusFilter))
  }

  /** A row is shown exactly when it passes all three tests, as often as it
      occurs in the data, and the rows keep the data's order. */
  lemma FilteredDataSpec(data: seq<InventoryProduct>, filterText: string, categoryFilter: string, statusFilter: string)
    ensures forall p :: p in FilteredData(data, filterText, categoryFilter, statusFilter) <==>
      p in data && TextMatch(p, filterText) && CategoryMatch(p, categoryFilter) && StatusMatch(p, statusFilter)
    ensures forall p :: multiset(FilteredData(data, filterText, categoryFilter, statusFilter))[p]
                        == if Passes(p, filterText, categoryFilter, statusFilter) then multiset(data)[p] else 0
    ensures IsSubsequence(FilteredData(data, filterText, categoryFilter, statusFilter), data)
  {
    FilterCounts(data, PassesFilters(filterText, categoryFilter, statusFilter));
    FilterIsSubsequence(data, PassesFilters(filterText, categoryFilter, statusFilter));
  }

  /** With the component's defaults ("", "all", "all") every row is shown. */
  lemma DefaultsKeepAll(data: seq<InventoryProduct>)
    ensures FilteredData(data, "", "all", "all") == data
  {
    FilterKeepsAll(data, PassesFilters("", "all", "all"));
  }

  /** The text filter ignores case: typing it lower-cased changes nothing. */
  lemma TextMatchIgnoresCase(p: InventoryProduct, filterText: string)
    ensures TextMatch(p, Lower(filterText)) <==> TextMatch(p, filterText)
  {
    LowerIdempotent(filterText);
  }

  /** A filter that occurs, up to case, in the name or the SKU matches. */
  lemma TextMatchOccurs(p: InventoryProduct, filterText: string, i: nat)
    requires OccursAt(Lower(p.name), Lower(filterText), i) || OccursAt(Lower(p.sku), Lower(filterText), i)
    ensures TextMatch(p, filterText)
  {
    ContainsIff(Lower(p.name), Lower(filterText));
    ContainsIff(Lower(p.sku), Lower(filterText));
  }

  /** The category test ignores case, but the wildcard does not: "ALL" is
      compared with the category like any other name. */
  lemma CategoryWildcardIsExact(p: InventoryProduct)
    requires p.category == "Brake System"
    ensures CategoryMatch(p, "brake system") && CategoryMatch(p, "all")
    ensures !CategoryMatch(p, "ALL")
  {
    assert Lower(p.category) == "brake system";
    assert Lower("brake system") == "brake system";
    assert Lower("ALL") == "all";
    assert Lower(p.category)[0] == 'b';
  }

  /** The status test is exact: "Low-Stock" selects nothing. */
  lemma StatusMatchIsExact(p: InventoryProduct)
    ensures StatusMatch(p, "low-stock") <==> p.status == LowStock
    ensures !StatusMatch(p, "Low-Stock")
  {
  }

  // ---------------------------------------------------------------------------
  // handleAddStock

  /** What the "Add stock" button does: nothing without a selected product,
      an "Invalid Quantity" error, or a "Stock Added" confirmation that closes
      the dialog. */
  datatype AddStockOutcome = Ignored | InvalidQuantity | StockAdded(quantity: int, productName: string)

  /** `handleAddStock`: `stockToAdd` is read with `Number.parseInt`. */
  function HandleAddStock(selected: Option<InventoryProduct>, stockToAdd: string): (o: AddStockOutcome)
    ensures o == Ignored <==> selected.None?
    ensures o.StockAdded? <==> selected.Some? && ParseInt(stockToAdd).Some? && ParseInt(stockToAdd).value > 0
    ensures o.StockAdded? ==>
              o.quantity > 0 && Some(o.quantity) == ParseInt(stockToAdd) && o.productName == selected.value.name
  {
    if selected.None? then Ignored
    else
      var quantity := ParseInt(stockToAdd);
      if quantity.None? || quantity.value <= 0 then InvalidQuantity
      else StockAdded(quantity.value, selected.value.name)
  }

  /** A positive number is accepted, and whatever follows its digits is
      ignored: "12abc" and "12x" add 12 units. */
  lemma AddStockAcceptsNumber(p: InventoryProduct, n: nat, rest: string)
    requires n > 0
    requires EndsDecimal(n, rest)
    ensures HandleAddStock(Some(p), DecimalString(n) + rest) == StockAdded(n, p.name)
  {
    ParseIntDecimal(n, rest);
  }

  /** Negative numbers are rejected. */
  lemma AddStockRejectsNegative(p: InventoryProduct, n: nat, rest: string)
    requires EndsDecimal(n, rest)
    ensures HandleAddStock(Some(p), "-" + DecimalString(n) + rest) == InvalidQuantity
  {
    ParseIntNegative(n, rest);
  }

  /** Zero is rejected. */
  lemma AddStockRejectsZero(p: InventoryProduct, rest: string)
    requires EndsDecimal(0, rest)
    ensures HandleAddStock(Some(p), DecimalString(0) + rest) == InvalidQuantity
  {
    ParseIntDecimal(0, rest);
  }

  /** Input that does not start with a digit, such as the empty field, is rejected. */
  lemma AddStockRejectsText(p: InventoryProduct, s: string)
    requires s == [] || (DigitValue(s[0]) >= 10 && !IsWhitespace(s[0]) && s[0] != '-' && s[0] != '+')
    ensures HandleAddStock(Some(p), s) == InvalidQuantity
  {
    ParseIntNoDigits(s);
  }
}
