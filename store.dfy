/** The data layer of the car-parts dashboard: the product and sale records,
    the sales analytics report, the date-range query, the stock queries and
    the stock decrement that recording a sale performs. The document store is
    an in-memory pair of sequences; prices are exact numbers, dates are
    timestamps. */
module Store {
  import opened Seqs

  /** A document id (`ObjectId`). */
  type Id = nat
  /** A `Date`, as a timestamp. */
  type Time = int

  datatype Variant = Variant(
    id: Id,
    name: string,
    sku: string,
    costPrice: real,
    sellingPrice: real,
    quantity: int,
    attributes: map<string, string>)

  datatype Product = Product(
    id: Id,
    name: string,
    category: string,
    description: Option<string>,
    brand: Option<string>,
    compatibleModels: Option<seq<string>>,
    variants: seq<Variant>,
    createdAt: Time,
    updatedAt: Time)

  datatype SaleItem = SaleItem(
    productId: Id,
    variantId: Id,
    name: string,
    sku: string,
    quantity: int,
    costPrice: real,
    sellingPrice: real,
    actualSellingPrice: real)

  datatype SaleStatus = Completed | Pending | Refunded

  datatype Sale = Sale(
    customer: Option<string>,
    items: seq<SaleItem>,
    total: real,
    profit: real,
    status: SaleStatus,
    createdAt: Time,
    updatedAt: Time)

  /** One row of the per-SKU table of the analytics report. */
  datatype PerformanceRow = PerformanceRow(name: string, sku: string, quantity: int, revenue: real, profit: real)

  datatype Analytics = Analytics(
    totalSales: real,
    totalProfit: real,
    profitMargin: real,
    salesCount: nat,
    productPerformance: seq<PerformanceRow>)

  // ---------------------------------------------------------------------------
  // Totals

  /** The stored `total` of every sale, added up; line items are not consulted. */
  function TotalSales(sales: seq<Sale>): real
  {
    SumReal(sales, (s: Sale) => s.total)
  }

  /** The stored `profit` of every sale, added up. */
  function TotalProfit(sales: seq<Sale>): real
  {
    SumReal(sales, (s: Sale) => s.profit)
  }

  /** Each further sale adds exactly its stored total and profit. */
  lemma TotalsSnoc(sales: seq<Sale>, s: Sale)
    ensures TotalSales(sales + [s]) == TotalSales(sales) + s.total
    ensures TotalProfit(sales + [s]) == TotalProfit(sales) + s.profit
  {
    assert (sales + [s])[..|sales|] == sales;
  }

  /** Profit as a percentage of sales, and exactly 0 when there are no positive sales. */
  function ProfitMargin(totalSales: real, totalProfit: real): (m: real)
    ensures totalSales > 0.0 ==> m * totalSales == totalProfit * 100.0
    ensures totalSales <= 0.0 ==> m == 0.0
  {
    if totalSales > 0.0 then totalProfit / totalSales * 100.0 else 0.0
  }

  // ---------------------------------------------------------------------------
  // Per-SKU performance

  /** Every line item of every sale, sale by sale (`sales.flatMap(s => s.items)`). */
  function AllItems(sales: seq<Sale>): seq<SaleItem>
  {
    if sales == [] then [] else AllItems(sales[..|sales| - 1]) + sales[|sales| - 1].items
  }

  function Revenue(item: SaleItem): real
  {
    item.quantity as real * item.actualSellingPrice
  }

  function ItemProfit(item: SaleItem): real
  {
    item.quantity as real * (item.actualSellingPrice - item.costPrice)
  }

  /** Units sold of `sku` over `items`. */
  function SkuQuantity(items: seq<SaleItem>, sku: string): int
  {
    SumInt(items, (it: SaleItem) => if it.sku == sku then it.quantity else 0)
  }

  /** Revenue of `sku` over `items`, at the prices actually charged. */
  function SkuRevenue(items: seq<SaleItem>, sku: string): real
  {
    SumReal(items, (it: SaleItem) => if it.sku == sku then Revenue(it) else 0.0)
  }

  /** Profit of `sku` over `items`, at the prices actually charged. */
  function SkuProfit(items: seq<SaleItem>, sku: string): real
  {
    SumReal(items, (it: SaleItem) => if it.sku == sku then ItemProfit(it) else 0.0)
  }

  /** Appending one line item adds its figures to its own SKU's sums only. */
  lemma SkuSumsSnoc(items: seq<SaleItem>, x: SaleItem, sku: string)
    ensures SkuQuantity(items + [x], sku) == SkuQuantity(items, sku) + (if x.sku == sku then x.quantity else 0)
    ensures SkuRevenue(items + [x], sku) == SkuRevenue(items, sku) + (if x.sku == sku then Revenue(x) else 0.0)
    ensures SkuProfit(items + [x], sku) == SkuProfit(items, sku) + (if x.sku == sku then ItemProfit(x) else 0.0)
  {
    assert (items + [x])[..|items|] == items;
  }

  predicate HasSku(items: seq<SaleItem>, sku: string)
  {
    exists i | 0 <= i < |items| :: items[i].sku == sku
  }

  /** The position of the first item with `sku`. */
  function FirstIndex(items: seq<SaleItem>, sku: string): (k: nat)
    requires HasSku(items, sku)
    ensures k < |items| && items[k].sku == sku
    ensures forall i | 0 <= i < k :: items[i].sku != sku
  {
    if items[0].sku == sku then 0
    else
      assert HasSku(items[1..], sku) by {
        var i :| 0 <= i < |items| && items[i].sku == sku;
        assert items[1..][i - 1].sku == sku;
      }
      1 + FirstIndex(items[1..], sku)
  }

  /** The SKUs of `items`, each once, in the order they first occur. */
  function DistinctSkus(items: seq<SaleItem>): seq<string>
  {
    if items == [] then []
    else
      var d := DistinctSkus(items[..|items| - 1]);
      var sku := items[|items| - 1].sku;
      if sku in d then d else d + [sku]
  }

  predicate NoDuplicates(d: seq<string>)
  {
    forall i, j | 0 <= i < j < |d| :: d[i] != d[j]
  }

  /** Every SKU of the items is listed, nothing else is, and none twice. */
  lemma {:induction false} DistinctSkusSpec(items: seq<SaleItem>)
    ensures forall k :: k in DistinctSkus(items) <==> HasSku(items, k)
    ensures NoDuplicates(DistinctSkus(items))
  {
    if items != [] {
      var init := items[..|items| - 1];
      var x := items[|items| - 1];
      DistinctSkusSpec(init);
      HasSkuSnoc(init, x);
      assert items == init + [x];
      var d := DistinctSkus(init);
      assert NoDuplicates(d);
      if x.sku !in d {
        var e := d + [x.sku];
        forall i, j | 0 <= i < j < |e| ensures e[i] != e[j] {
          if j == |d| {
            assert e[i] == d[i] && d[i] in d;
          } else {
            assert e[i] == d[i] && e[j] == d[j];
          }
        }
        assert NoDuplicates(e);
      }
    }
  }

  lemma HasSkuSnoc(items: seq<SaleItem>, x: SaleItem)
    ensures forall k :: HasSku(items + [x], k) <==> HasSku(items, k) || x.sku == k
  {
    var s := items + [x];
    forall k | HasSku(s, k) ensures HasSku(items, k) || x.sku == k {
      var i :| 0 <= i < |s| && s[i].sku == k;
      if i < |items| { assert items[i].sku == k; }
    }
    forall k | HasSku(items, k) ensures HasSku(s, k) {
      var i :| 0 <= i < |items| && items[i].sku == k;
      assert s[i].sku == k;
    }
    assert s[|items|].sku == x.sku;
  }

  /** The row the report must hold for `sku`: the name of its first line item
      and the quantity, revenue and profit summed over all its line items. */
  function RowFor(items: seq<SaleItem>, sku: string): PerformanceRow
    requires HasSku(items, sku)
  {
    PerformanceRow(items[FirstIndex(items, sku)].name, sku,
                   SkuQuantity(items, sku), SkuRevenue(items, sku), SkuProfit(items, sku))
  }

  /** What `getAnalytics` returns for `sales`. */
  ghost predicate IsReportOf(sales: seq<Sale>, report: Analytics)
  {
    var items := AllItems(sales);
    var skus := DistinctSkus(items);
    && report.totalSales == TotalSales(sales)
    && report.totalProfit == TotalProfit(sales)
    && report.profitMargin == ProfitMargin(report.totalSales, report.totalProfit)
    && report.salesCount == |sales|
    && |report.productPerformance| == |skus|
    && forall k | 0 <= k < |skus| :: HasSku(items, skus[k]) && report.productPerformance[k] == RowFor(items, skus[k])
  }

  /** Appending one line item updates the row of its SKU (creating it with the
      item's name if the SKU is new) and leaves every other row alone. */
  lemma RowForSnoc(items: seq<SaleItem>, x: SaleItem, k: string)
    requires HasSku(items + [x], k)
    ensures HasSku(items, k) ==>
      RowFor(items + [x], k) == RowFor(items, k).(
        quantity := RowFor(items, k).quantity + (if x.sku == k then x.quantity else 0),
        revenue := RowFor(items, k).revenue + (if x.sku == k then Revenue(x) else 0.0),
        profit := RowFor(items, k).profit + (if x.sku == k then ItemProfit(x) else 0.0))
    ensures !HasSku(items, k) ==>
      x.sku == k && RowFor(items + [x], k) == PerformanceRow(x.name, k, x.quantity, Revenue(x), ItemProfit(x))
  {
    var s := items + [x];
    assert s[..|s| - 1] == items;
    HasSkuSnoc(items, x);
    var a := FirstIndex(s, k);
    if HasSku(items, k) {
      var b := FirstIndex(items, k);
      assert s[b].sku == k;
      assert a <= b;
      assert s[a] == items[a];
    } else {
      assert forall i | 0 <= i < |items| :: items[i].sku != k;
      assert a == |items|;
      SkuSumsZero(items, k);
    }
  }

  /** Items that do not carry `sku` contribute nothing to its sums. */
  lemma {:induction false} SkuSumsZero(items: seq<SaleItem>, k: string)
    requires !HasSku(items, k)
    ensures SkuQuantity(items, k) == 0 && SkuRevenue(items, k) == 0.0 && SkuProfit(items, k) == 0.0
  {
    if items != [] {
      var init := items[..|items| - 1];
      forall i | 0 <= i < |init| ensures init[i].sku != k {
        assert init[i] == items[i];
      }
      assert items[|items| - 1].sku != k;
      SkuSumsZero(init, k);
    }
  }

  /** The dictionary `performance`, with its keys listed in insertion order
      by `order`, holds the rows the report must have for the items `done`. */
  ghost predicate Tracks(performance: map<string, PerformanceRow>, order: seq<string>, done: seq<SaleItem>)
  {
    && order == DistinctSkus(done)
    && (forall k :: k in performance <==> k in order)
    && (forall k | k in performance :: HasSku(done, k) && performance[k] == RowFor(done, k))
  }

  /** The row update one line item makes in the inner loop of `getAnalytics`:
      insert its SKU with a zero row if absent, then add its quantity,
      revenue and profit. */
  function AddItem(performance: map<string, PerformanceRow>, item: SaleItem): map<string, PerformanceRow>
  {
    var row := if item.sku in performance then performance[item.sku]
               else PerformanceRow(item.name, item.sku, 0, 0.0, 0.0);
    performance[item.sku := row.(
      quantity := row.quantity + item.quantity,
      revenue := row.revenue + item.quantity as real * item.actualSellingPrice,
      profit := row.profit + item.quantity as real * (item.actualSellingPrice - item.costPrice))]
  }

  lemma AddItemOwnRow(performance: map<string, PerformanceRow>, order: seq<string>, done: seq<SaleItem>, item: SaleItem)
    requires Tracks(performance, order, done)
    ensures HasSku(done + [item], item.sku)
    ensures AddItem(performance, item)[item.sku] == RowFor(done + [item], item.sku)
  {
    DistinctSkusSpec(done);
    HasSkuSnoc(done, item);
    RowForSnoc(done, item, item.sku);
    if item.sku in performance {
      assert HasSku(done, item.sku) && performance[item.sku] == RowFor(done, item.sku);
    } else {
      assert !HasSku(done, item.sku);
    }
  }

  lemma AddItemOtherRows(performance: map<string, PerformanceRow>, order: seq<string>, done: seq<SaleItem>, item: SaleItem)
    requires Tracks(performance, order, done)
    ensures forall k | k in performance && k != item.sku ::
      HasSku(done + [item], k) && AddItem(performance, item)[k] == RowFor(done + [item], k)
  {
    HasSkuSnoc(done, item);
    forall k | k in performance && k != item.sku
      ensures HasSku(done + [item], k) && AddItem(performance, item)[k] == RowFor(done + [item], k)
    {
      RowForSnoc(done, item, k);
    }
  }

  /** One step of the inner loop keeps the dictionary in step with the items seen. */
  lemma TracksSnoc(performance: map<string, PerformanceRow>, order: seq<string>, done: seq<SaleItem>, item: SaleItem)
    requires Tracks(performance, order, done)
    ensures Tracks(AddItem(performance, item), if item.sku in performance then order else order + [item.sku], done + [item])
  {
    var next := done + [item];
    assert next[..|next| - 1] == done && next[|next| - 1] == item;
    AddItemOwnRow(performance, order, done, item);
    AddItemOtherRows(performance, order, done, item);
  }

  /** The body of the inner loop of `getAnalytics`: insert the item's SKU
      with a zero row if absent (recording it as the next key), then add the
      item's quantity, revenue and profit to that row. */
  method AccumulateItem(performance: map<string, PerformanceRow>, order: seq<string>, item: SaleItem)
    returns (performance': map<string, PerformanceRow>, order': seq<string>)
    ensures performance' == AddItem(performance, item)
    ensures order' == if item.sku in performance then order else order + [item.sku]
  {
    performance', order' := performance, order;
    if item.sku !in performance' {
      performance' := performance'[item.sku := PerformanceRow(item.name, item.sku, 0, 0.0, 0.0)];
      order' := order' + [item.sku];
    }
    var row := performance'[item.sku];
    performance' := performance'[item.sku := row.(
      quantity := row.quantity + item.quantity,
      revenue := row.revenue + item.quantity as real * item.actualSellingPrice,
      profit := row.profit + item.quantity as real * (item.actualSellingPrice - item.costPrice))];
    assert performance'.Keys == AddItem(performance, item).Keys;
    forall k | k in performance' ensures performance'[k] == AddItem(performance, item)[k] {
    }
  }

  /** Listing the dictionary's rows in key-insertion order gives the report's table. */
  lemma RowsInOrder(performance: map<string, PerformanceRow>, order: seq<string>, items: seq<SaleItem>,
                    rows: seq<PerformanceRow>)
    requires Tracks(performance, order, items)
    requires |rows| == |order| && forall k | 0 <= k < |order| :: rows[k] == performance[order[k]]
    ensures |rows| == |DistinctSkus(items)|
    ensures forall k | 0 <= k < |rows| :: HasSku(items, DistinctSkus(items)[k]) && rows[k] == RowFor(items, DistinctSkus(items)[k])
  {
  }

  lemma AllItemsSnoc(sales: seq<Sale>, i: nat)
    requires i < |sales|
    ensures AllItems(sales[..i + 1]) == AllItems(sales[..i]) + sales[i].items
  {
    assert sales[..i + 1][..i] == sales[..i];
  }

  /** The inner loop of `getAnalytics`: accumulate the line items of one sale. */
  method AccumulateSale(performance: map<string, PerformanceRow>, order: seq<string>, items: seq<SaleItem>,
                        ghost done: seq<SaleItem>)
    returns (performance': map<string, PerformanceRow>, order': seq<string>)
    requires Tracks(performance, order, done)
    ensures Tracks(performance', order', done + items)
  {
    performance', order' := performance, order;
    assert done + items[..0] == done;
    for j := 0 to |items|
      invariant Tracks(performance', order', done + items[..j])
    {
      var item := items[j];
      assert done + items[..j + 1] == (done + items[..j]) + [item];
      TracksSnoc(performance', order', done + items[..j], item);
      performance', order' := AccumulateItem(performance', order', item);
    }
    assert items[..|items|] == items;
  }

  /** `SaleRepository.getAnalytics` once the sales of the window are known:
      the totals come from the stored `total` and `profit` of each sale, and
      the per-SKU table is built in a dictionary filled by nested loops over
      the sales and their line items (the inner one is `AccumulateSale`).
      Sales of every status count. */
  method ComputeAnalytics(sales: seq<Sale>) returns (report: Analytics)
    ensures IsReportOf(sales, report)
  {
    var totalSales := TotalSales(sales);
    var totalProfit := TotalProfit(sales);
    var profitMargin := ProfitMargin(totalSales, totalProfit);

    var performance: map<string, PerformanceRow> := map[];
    var order: seq<string> := [];  // the keys in insertion order, as Object.values lists them
    for i := 0 to |sales|
      invariant Tracks(performance, order, AllItems(sales[..i]))
    {
      AllItemsSnoc(sales, i);
      performance, order := AccumulateSale(performance, order, sales[i].items, AllItems(sales[..i]));
    }
    assert sales[..|sales|] == sales;
    var rows := seq(|order|, k requires 0 <= k < |order| => performance[order[k]]);
    RowsInOrder(performance, order, AllItems(sales), rows);
    report := Analytics(totalSales, totalProfit, profitMargin, |sales|, rows);
  }

  // ---------------------------------------------------------------------------
  // What the report promises

  lemma {:induction false} AllItemsAppend(a: seq<Sale>, b: seq<Sale>)
    ensures AllItems(a + b) == AllItems(a) + AllItems(b)
  {
    if b == [] {
      assert a + b == a;
    } else {
      var c := a + b;
      assert c[..|c| - 1] == a + b[..|b| - 1];
      AllItemsAppend(a, b[..|b| - 1]);
    }
  }

  /** The line items of a list of sales do not depend on the order of the sales, as a multiset. */
  lemma {:induction false} AllItemsPermutation(a: seq<Sale>, b: seq<Sale>)
    requires multiset(a) == multiset(b)
    ensures multiset(AllItems(a)) == multiset(AllItems(b))
  {
    if a != [] {
      var j := MatchLast(a, b);
      var b' := b[..j] + b[j + 1..];
      AllItemsPermutation(a[..|a| - 1], b');
      assert b == (b[..j] + [b[j]]) + b[j + 1..];
      AllItemsAppend(b[..j] + [b[j]], b[j + 1..]);
      AllItemsAppend(b[..j], [b[j]]);
      AllItemsAppend(b[..j], b[j + 1..]);
      assert [b[j]][..0] == [];
      assert AllItems([b[j]]) == b[j].items;
    }
  }

  lemma HasSkuMultiset(a: seq<SaleItem>, b: seq<SaleItem>, sku: string)
    requires multiset(a) == multiset(b)
    ensures HasSku(a, sku) <==> HasSku(b, sku)
  {
    if HasSku(a, sku) {
      var i :| 0 <= i < |a| && a[i].sku == sku;
      assert a[i] in multiset(b);
    }
    if HasSku(b, sku) {
      var i :| 0 <= i < |b| && b[i].sku == sku;
      assert b[i] in multiset(a);
    }
  }

  /** The per-SKU figures do not depend on the order of the line items:
      any reordering of them gives the same SKUs and the same quantity,
      revenue and profit for each. */
  lemma ItemOrderIrrelevant(ia: seq<SaleItem>, ib: seq<SaleItem>, sku: string)
    requires multiset(ia) == multiset(ib)
    ensures HasSku(ia, sku) <==> HasSku(ib, sku)
    ensures SkuQuantity(ia, sku) == SkuQuantity(ib, sku)
    ensures SkuRevenue(ia, sku) == SkuRevenue(ib, sku)
    ensures SkuProfit(ia, sku) == SkuProfit(ib, sku)
  {
    HasSkuMultiset(ia, ib, sku);
    SumIntPermutation(ia, ib, (it: SaleItem) => if it.sku == sku then it.quantity else 0);
    SumRealPermutation(ia, ib, (it: SaleItem) => if it.sku == sku then Revenue(it) else 0.0);
    SumRealPermutation(ia, ib, (it: SaleItem) => if it.sku == sku then ItemProfit(it) else 0.0);
  }

  /** Reordering the sales of the window changes neither the totals, the count,
      the set of SKUs in the table, nor any SKU's quantity, revenue or profit. */
  lemma ReportIgnoresSaleOrder(a: seq<Sale>, b: seq<Sale>, sku: string)
    requires multiset(a) == multiset(b)
    ensures TotalSales(a) == TotalSales(b) && TotalProfit(a) == TotalProfit(b) && |a| == |b|
    ensures HasSku(AllItems(a), sku) <==> HasSku(AllItems(b), sku)
    ensures SkuQuantity(AllItems(a), sku) == SkuQuantity(AllItems(b), sku)
    ensures SkuRevenue(AllItems(a), sku) == SkuRevenue(AllItems(b), sku)
    ensures SkuProfit(AllItems(a), sku) == SkuProfit(AllItems(b), sku)
  {
    SumRealPermutation(a, b, (s: Sale) => s.total);
    SumRealPermutation(a, b, (s: Sale) => s.profit);
    assert |a| == |multiset(a)| == |multiset(b)| == |b|;
    AllItemsPermutation(a, b);
    ItemOrderIrrelevant(AllItems(a), AllItems(b), sku);
  }

  /** The report is fully determined by the sales. */
  lemma ReportIsUnique(sales: seq<Sale>, r1: Analytics, r2: Analytics)
    requires IsReportOf(sales, r1) && IsReportOf(sales, r2)
    ensures r1 == r2
  {
    assert r1.productPerformance == r2.productPerformance;
  }

  /** No sales: everything is zero and the table is empty. */
  lemma EmptyReport(report: Analytics)
    requires IsReportOf([], report)
    ensures report == Analytics(0.0, 0.0, 0.0, 0, [])
  {
  }

  /** Two sales that each sell the same SKU give one row for it, whose
      quantity is the sum of both and whose name comes from the first sale. */
  lemma {:induction false} SameSkuMerges(s1: Sale, s2: Sale, report: Analytics)
    requires |s1.items| == 1 && |s2.items| == 1 && s1.items[0].sku == s2.items[0].sku
    requires IsReportOf([s1, s2], report)
    ensures |report.productPerformance| == 1
    ensures report.productPerformance[0].sku == s1.items[0].sku
    ensures report.productPerformance[0].name == s1.items[0].name
    ensures report.productPerformance[0].quantity == s1.items[0].quantity + s2.items[0].quantity
    ensures report.salesCount == 2
  {
    var x, y := s1.items[0], s2.items[0];
    assert s1.items == [x] && s2.items == [y];
    assert [s1, s2][..1] == [s1];
    assert [s1][..0] == [];
    assert AllItems([s1]) == [x];
    assert AllItems([s1, s2]) == [x, y];
    var items := [x, y];
    assert items[..1] == [x] && [x][..0] == [];
    assert DistinctSkus([x]) == [x.sku];
    assert DistinctSkus(items) == [x.sku];
    assert FirstIndex(items, x.sku) == 0;
    SkuSumsSnoc([], x, x.sku);
    SkuSumsSnoc([x], y, x.sku);
    assert SkuQuantity(items, x.sku) == x.quantity + y.quantity;
  }

  /** When every sale's stored `total` is the revenue of its line items, the
      report's total sales is the revenue of all line items of the window. */
  lemma {:induction false} ConsistentTotals(sales: seq<Sale>)
    requires forall s | s in sales :: s.total == SumReal(s.items, Revenue)
    ensures TotalSales(sales) == SumReal(AllItems(sales), Revenue)
  {
    if sales != [] {
      var init := sales[..|sales| - 1];
      var last := sales[|sales| - 1];
      ConsistentTotals(init);
      SumRealAppend(AllItems(init), last.items, Revenue);
    }
  }

  /** The totals are the stored ones, not recomputed: a sale stored with total
      242 whose line items are 4 x 45 and 1 x 12 (192 in all) reports 242. */
  lemma StoredTotalWins(sale: Sale, report: Analytics)
    requires sale.total == 242.0 && sale.profit == 98.0
    requires sale.items == [
      SaleItem(1, 1, "Brake Pad (Front)", "BP-FRONT-001", 4, 25.0, 45.0, 45.0),
      SaleItem(2, 2, "Oil Filter", "OF-001", 1, 5.0, 12.0, 12.0)]
    requires IsReportOf([sale], report)
    ensures report.totalSales == 242.0 && report.totalProfit == 98.0
    ensures SumReal(AllItems([sale]), Revenue) == 192.0
    ensures report.productPerformance[0] == PerformanceRow("Brake Pad (Front)", "BP-FRONT-001", 4, 180.0, 80.0)
    ensures report.productPerformance[1] == PerformanceRow("Oil Filter", "OF-001", 1, 12.0, 7.0)
  {
    var items := sale.items;
    assert [sale][..0] == [];
    assert AllItems([sale]) == items;
    TotalsSnoc([], sale);
    assert [] + [sale] == [sale];
    var a, b := items[0], items[1];
    assert items[..1] == [a] && [a][..0] == [];
    assert DistinctSkus([a]) == ["BP-FRONT-001"];
    assert DistinctSkus(items) == ["BP-FRONT-001", "OF-001"];
    assert FirstIndex(items, "OF-001") == 1;
    assert items == [] + [a] + [b];
    SumRealAppend([a], [b], Revenue);
    SkuSumsSnoc([], a, "BP-FRONT-001");
    SkuSumsSnoc([a], b, "BP-FRONT-001");
    SkuSumsSnoc([], a, "OF-001");
    SkuSumsSnoc([a], b, "OF-001");
  }

  // ---------------------------------------------------------------------------
  // getSalesByDateRange

  /** `createdAt` lies in the closed window `[startDate, endDate]`. */
  predicate InWindow(s: Sale, startDate: Time, endDate: Time)
  {
    startDate <= s.createdAt <= endDate
  }

  predicate NewestFirst(sales: seq<Sale>)
  {
    forall i, j | 0 <= i < j < |sales| :: sales[i].createdAt >= sales[j].createdAt
  }

  /** Insert `s` in front of the first sale that is not newer than it. */
  function InsertNewestFirst(s: Sale, sorted: seq<Sale>): seq<Sale>
  {
    if sorted == [] || s.createdAt >= sorted[0].createdAt then [s] + sorted
    else [sorted[0]] + InsertNewestFirst(s, sorted[1..])
  }

  lemma {:induction false} InsertNewestFirstSpec(s: Sale, sorted: seq<Sale>)
    requires NewestFirst(sorted)
    ensures NewestFirst(InsertNewestFirst(s, sorted))
    ensures multiset(InsertNewestFirst(s, sorted)) == multiset(sorted) + multiset{s}
  {
    if sorted == [] || s.createdAt >= sorted[0].createdAt {
      NewestFirstCons(s, sorted);
    } else {
      var tail := sorted[1..];
      assert NewestFirst(tail) by {
        forall i, j | 0 <= i < j < |tail| ensures tail[i].createdAt >= tail[j].createdAt {
          assert tail[i] == sorted[i + 1] && tail[j] == sorted[j + 1];
        }
      }
      InsertNewestFirstSpec(s, tail);
      var rest := InsertNewestFirst(s, tail);
      assert sorted == [sorted[0]] + tail;
      forall y | y in rest ensures y.createdAt <= sorted[0].createdAt {
        assert y in multiset(rest);
        if y != s {
          assert y in multiset(tail);
          var k :| 0 <= k < |tail| && tail[k] == y;
          assert sorted[k + 1] == y;
        }
      }
      NewestFirstCons(sorted[0], rest);
    }
  }

  lemma NewestFirstCons(x: Sale, rest: seq<Sale>)
    requires NewestFirst(rest)
    requires forall y | y in rest :: y.createdAt <= x.createdAt
    ensures NewestFirst([x] + rest)
  {
    var r := [x] + rest;
    forall i, j | 0 <= i < j < |r| ensures r[i].createdAt >= r[j].createdAt {
      assert r[j] == rest[j - 1];
      if i > 0 { assert r[i] == rest[i - 1]; }
    }
  }

  /** `.sort({ createdAt: -1 })`; sales with equal dates keep their order here,
      which the store itself does not promise. */
  function SortNewestFirst(sales: seq<Sale>): (r: seq<Sale>)
    ensures NewestFirst(r)
    ensures multiset(r) == multiset(sales)
  {
    if sales == [] then []
    else
      assert sales == [sales[0]] + sales[1..];
      InsertNewestFirstSpec(sales[0], SortNewestFirst(sales[1..]));
      InsertNewestFirst(sales[0], SortNewestFirst(sales[1..]))
  }

  /** `getSalesByDateRange`: exactly the sales created inside the closed
      window (each as often as it is stored), newest first. */
  function SalesByDateRange(sales: seq<Sale>, startDate: Time, endDate: Time): (r: seq<Sale>)
    ensures forall s :: multiset(r)[s] == if InWindow(s, startDate, endDate) then multiset(sales)[s] else 0
    ensures forall s :: s in r <==> s in sales && InWindow(s, startDate, endDate)
    ensures NewestFirst(r)
  {
    var inWindow := (s: Sale) => InWindow(s, startDate, endDate);
    FilterCounts(sales, inWindow);
    SortNewestFirst(Filter(sales, inWindow))
  }

  // ---------------------------------------------------------------------------
  // getLowStock / getOutOfStock

  /** `{ "variants.quantity": 0 }`: some variant has quantity 0. */
  predicate IsOutOfStock(p: Product)
  {
    exists i | 0 <= i < |p.variants| :: p.variants[i].quantity == 0
  }

  /** `{ "variants.quantity": { $lte: threshold, $gt: 0 } }` without `$elemMatch`:
      some variant is at most `threshold` and some variant (maybe another) is positive. */
  predicate IsLowStock(p: Product, threshold: int)
  {
    && (exists i | 0 <= i < |p.variants| :: p.variants[i].quantity <= threshold)
    && (exists j | 0 <= j < |p.variants| :: p.variants[j].quantity > 0)
  }

  /** `ProductRepository.getOutOfStock` */
  function OutOfStock(products: seq<Product>): (r: seq<Product>)
    ensures forall p :: p in r <==> p in products && IsOutOfStock(p)
    ensures IsSubsequence(r, products)
  {
    FilterCounts(products, IsOutOfStock);
    FilterIsSubsequence(products, IsOutOfStock);
    Filter(products, IsOutOfStock)
  }

  /** `ProductRepository.getLowStock(threshold = 5)` */
  function LowStock(products: seq<Product>, threshold: int := 5): (r: seq<Product>)
    ensures forall p :: p in r <==> p in products && IsLowStock(p, threshold)
    ensures IsSubsequence(r, products)
  {
    var low := (p: Product) => IsLowStock(p, threshold);
    FilterCounts(products, low);
    FilterIsSubsequence(products, low);
    Filter(products, low)
  }

  /** A product with an empty variant and a full one is "low stock" although
      none of its variants lies between 1 and the threshold. */
  lemma LowStockAcrossVariants(p: Product)
    requires |p.variants| == 2 && p.variants[0].quantity == 0 && p.variants[1].quantity == 10
    ensures LowStock([p]) == [p]
    ensures forall i | 0 <= i < |p.variants| :: !(0 < p.variants[i].quantity <= 5)
    ensures OutOfStock([p]) == [p]
  {
    assert p in LowStock([p]) && p in OutOfStock([p]);
  }

  /** A product whose variants are all sold out is never "low stock". */
  lemma SoldOutIsNotLowStock(p: Product, threshold: int)
    requires forall i | 0 <= i < |p.variants| :: p.variants[i].quantity <= 0
    ensures !IsLowStock(p, threshold)
  {
  }

  // ---------------------------------------------------------------------------
  // The stock decrement of SaleRepository.create

  function VariantIds(vs: seq<Variant>): seq<Id>
  {
    seq(|vs|, j requires 0 <= j < |vs| => vs[j].id)
  }

  /** The ids of the products and of their variants: what an update never changes. */
  function Shape(products: seq<Product>): seq<(Id, seq<Id>)>
  {
    seq(|products|, i requires 0 <= i < |products| => (products[i].id, VariantIds(products[i].variants)))
  }

  /** The positional update `variants.$`: the first variant with the id. */
  function IncVariant(vs: seq<Variant>, variantId: Id, delta: int): seq<Variant>
  {
    if vs == [] then []
    else if vs[0].id == variantId then [vs[0].(quantity := vs[0].quantity + delta)] + vs[1..]
    else [vs[0]] + IncVariant(vs[1..], variantId, delta)
  }

  /** `updateOne({ _id: productId, "variants._id": variantId },
      { $inc: { "variants.$.quantity": delta } })`: the first product with the id
      that has such a variant, and in it the first such variant; nothing when
      no product matches. */
  function IncStock(products: seq<Product>, productId: Id, variantId: Id, delta: int): seq<Product>
  {
    if products == [] then []
    else if products[0].id == productId && variantId in VariantIds(products[0].variants) then
      [products[0].(variants := IncVariant(products[0].variants, variantId, delta))] + products[1..]
    else [products[0]] + IncStock(products[1..], productId, variantId, delta)
  }

  /** Variant `vi` of product `pi` is the one the update for (`productId`, `variantId`) reaches. */
  ghost predicate Targets(shape: seq<(Id, seq<Id>)>, pi: nat, vi: nat, productId: Id, variantId: Id)
  {
    && pi < |shape| && vi < |shape[pi].1|
    && shape[pi].0 == productId && shape[pi].1[vi] == variantId
    && (forall p | 0 <= p < pi :: shape[p].0 != productId || variantId !in shape[p].1)
    && (forall v | 0 <= v < vi :: shape[pi].1[v] != variantId)
  }

  lemma {:induction false} IncVariantAt(vs: seq<Variant>, variantId: Id, delta: int, vi: nat)
    requires vi < |vs|
    ensures VariantIds(IncVariant(vs, variantId, delta)) == VariantIds(vs)
    ensures var first := vs[vi].id == variantId && forall v | 0 <= v < vi :: vs[v].id != variantId;
      IncVariant(vs, variantId, delta)[vi] == vs[vi].(quantity := vs[vi].quantity + if first then delta else 0)
  {
    var r := IncVariant(vs, variantId, delta);
    if vs[0].id != variantId {
      if vi > 0 {
        IncVariantAt(vs[1..], variantId, delta, vi - 1);
      } else if |vs| > 1 {
        IncVariantAt(vs[1..], variantId, delta, 0);
      }
      assert VariantIds(r) == [vs[0].id] + VariantIds(IncVariant(vs[1..], variantId, delta));
    }
    assert VariantIds(vs) == [vs[0].id] + VariantIds(vs[1..]);
  }

  lemma {:induction false} IncStockShape(products: seq<Product>, productId: Id, variantId: Id, delta: int)
    ensures Shape(IncStock(products, productId, variantId, delta)) == Shape(products)
  {
    if products != [] {
      var p := products[0];
      var r := IncStock(products, productId, variantId, delta);
      if p.id == productId && variantId in VariantIds(p.variants) {
        if p.variants != [] {
          IncVariantAt(p.variants, variantId, delta, 0);
        }
        assert r[0].variants == IncVariant(p.variants, variantId, delta);
        assert Shape(r)[0] == Shape(products)[0];
        assert forall i | 1 <= i < |r| :: r[i] == products[i];
      } else {
        IncStockShape(products[1..], productId, variantId, delta);
        assert Shape(r) == [Shape(products)[0]] + Shape(IncStock(products[1..], productId, variantId, delta));
        assert Shape(products) == [Shape(products)[0]] + Shape(products[1..]);
      }
    }
  }

  lemma {:induction false} IncStockAt(products: seq<Product>, productId: Id, variantId: Id, delta: int, pi: nat, vi: nat)
    requires pi < |products| && vi < |products[pi].variants|
    ensures var r := IncStock(products, productId, variantId, delta);
      && |r| == |products| && |r[pi].variants| == |products[pi].variants|
      && r[pi] == products[pi].(variants := r[pi].variants)
      && r[pi].variants[vi] == products[pi].variants[vi].(quantity := products[pi].variants[vi].quantity
           + if Targets(Shape(products), pi, vi, productId, variantId) then delta else 0)
  {
    var p := products[0];
    if p.id == productId && variantId in VariantIds(p.variants) {
      IncStockAtMatch(products, productId, variantId, delta, pi, vi);
    } else {
      IncStockShape(products, productId, variantId, delta);
      if pi > 0 {
        IncStockAt(products[1..], productId, variantId, delta, pi - 1, vi);
        assert Shape(products[1..]) == Shape(products)[1..];
      }
    }
  }

  /** `IncStockAt` when the first product is the one the update reaches. */
  lemma IncStockAtMatch(products: seq<Product>, productId: Id, variantId: Id, delta: int, pi: nat, vi: nat)
    requires pi < |products| && vi < |products[pi].variants|
    requires products[0].id == productId && variantId in VariantIds(products[0].variants)
    ensures var r := IncStock(products, productId, variantId, delta);
      && |r| == |products| && |r[pi].variants| == |products[pi].variants|
      && r[pi] == products[pi].(variants := r[pi].variants)
      && r[pi].variants[vi] == products[pi].variants[vi].(quantity := products[pi].variants[vi].quantity
           + if Targets(Shape(products), pi, vi, productId, variantId) then delta else 0)
  {
    var p := products[0];
    var r := IncStock(products, productId, variantId, delta);
    assert Shape(products)[0] == (p.id, VariantIds(p.variants));
    if pi == 0 {
      IncVariantAt(p.variants, variantId, delta, vi);
      assert forall v | 0 <= v <= vi :: VariantIds(p.variants)[v] == p.variants[v].id;
    } else {
      assert !Targets(Shape(products), pi, vi, productId, variantId);
      assert r[pi] == products[pi];
    }
  }

  /** The effect of the stock loop of `create`: one `$inc` of `-quantity` per line item, in order. */
  function ApplySale(products: seq<Product>, items: seq<SaleItem>): seq<Product>
  {
    if items == [] then products
    else
      var last := items[|items| - 1];
      IncStock(ApplySale(products, items[..|items| - 1]), last.productId, last.variantId, -last.quantity)
  }

  /** Units of the line items that reach variant `vi` of product `pi`. */
  ghost function SoldQuantity(shape: seq<(Id, seq<Id>)>, pi: nat, vi: nat, items: seq<SaleItem>): int
  {
    SumInt(items, (it: SaleItem) => if Targets(shape, pi, vi, it.productId, it.variantId) then it.quantity else 0)
  }

  /** After a sale, every variant of every product has lost exactly the units
      of the line items that reach it (repeated items add up, nothing stops
      the quantity at zero), and no other field of any product has changed. */
  lemma {:induction false} StockAfterSale(products: seq<Product>, items: seq<SaleItem>, pi: nat, vi: nat)
    requires pi < |products| && vi < |products[pi].variants|
    ensures var after := ApplySale(products, items);
      && Shape(after) == Shape(products)
      && |after| == |products| && |after[pi].variants| == |products[pi].variants|
      && after[pi] == products[pi].(variants := after[pi].variants)
      && after[pi].variants[vi] == products[pi].variants[vi].(quantity := products[pi].variants[vi].quantity
           - SoldQuantity(Shape(products), pi, vi, items))
  {
    if items != [] {
      var init := items[..|items| - 1];
      var last := items[|items| - 1];
      StockAfterSale(products, init, pi, vi);
      var mid := ApplySale(products, init);
      assert ApplySale(products, items) == IncStock(mid, last.productId, last.variantId, -last.quantity);
      IncStockShape(mid, last.productId, last.variantId, -last.quantity);
      IncStockAt(mid, last.productId, last.variantId, -last.quantity, pi, vi);
      assert SoldQuantity(Shape(products), pi, vi, items) == SoldQuantity(Shape(products), pi, vi, init)
        + if Targets(Shape(mid), pi, vi, last.productId, last.variantId) then last.quantity else 0;
    }
  }

  /** Nothing keeps stock from going negative: selling 3 of a variant that has 1 leaves -2. */
  lemma StockCanGoNegative(v: Variant, p: Product, item: SaleItem)
    requires v.quantity == 1 && p.variants == [v]
    requires item.productId == p.id && item.variantId == v.id && item.quantity == 3
    ensures var after := ApplySale([p], [item]);
      |after| == 1 && |after[0].variants| == 1 && after[0].variants[0].quantity == -2
  {
    assert [item][..0] == [];
    assert VariantIds([v]) == [v.id];
  }

  // ---------------------------------------------------------------------------
  // The repositories over the store

  /** The `products` and `sales` collections. */
  class Database {
    var products: seq<Product>
    var sales: seq<Sale>

    constructor (products: seq<Product>, sales: seq<Sale>)
      ensures this.products == products && this.sales == sales
    {
      this.products := products;
      this.sales := sales;
    }

    /** `SaleRepository.create`: store the sale stamped with the current time,
        then decrement the stock of each line item's variant, one item at a
        time. `now` stands for `new Date()`. */
    method Create(sale: Sale, now: Time) returns (created: Sale)
      modifies this
      ensures created == sale.(createdAt := now, updatedAt := now)
      ensures sales == old(sales) + [created]
      ensures products == ApplySale(old(products), sale.items)
    {
      created := sale.(createdAt := now, updatedAt := now);
      sales := sales + [created];
      for i := 0 to |sale.items|
        invariant sales == old(sales) + [created]
        invariant products == ApplySale(old(products), sale.items[..i])
      {
        var item := sale.items[i];
        assert sale.items[..i + 1][..i] == sale.items[..i];
        products := IncStock(products, item.productId, item.variantId, -item.quantity);
      }
      assert sale.items[..|sale.items|] == sale.items;
    }

    /** `SaleRepository.getSalesByDateRange` */
    method GetSalesByDateRange(startDate: Time, endDate: Time) returns (r: seq<Sale>)
      ensures forall s :: multiset(r)[s] == if InWindow(s, startDate, endDate) then multiset(sales)[s] else 0
      ensures NewestFirst(r)
    {
      r := SalesByDateRange(sales, startDate, endDate);
    }

    /** `SaleRepository.getAnalytics` */
    method GetAnalytics(startDate: Time, endDate: Time) returns (report: Analytics)
      ensures IsReportOf(SalesByDateRange(sales, startDate, endDate), report)
    {
      report := ComputeAnalytics(SalesByDateRange(sales, startDate, endDate));
    }
  }
}
