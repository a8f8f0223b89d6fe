/** BACKEND/routes/ReportRoutes.js: the inventory summary, the expiry status
    report and the category-wise report. The routes read a product as a record
    with a numeric `Quantity`, a `Price`, an `expiryDate` and a `category`, each
    of which may be missing. */
module InventoryReports {
  import opened Common

  datatype ReportProduct = ReportProduct(
    quantity: Option<real>, price: Option<real>, expiryDate: Option<int>, category: Option<string>)

  /** `x || 0`: a missing (or zero) number counts as 0. */
  function OrZero(x: Option<real>): (r: real)
    ensures x.None? ==> r == 0.0
    ensures x.Some? ==> r == x.value
  {
    if x.Some? then x.value else 0.0
  }

  /** The reduce of line 12. */
  function TotalQuantity(products: seq<ReportProduct>): real
  {
    if products == [] then 0.0
    else TotalQuantity(products[..|products| - 1]) + OrZero(products[|products| - 1].quantity)
  }

  /** The reduce of line 13. */
  function TotalValue(products: seq<ReportProduct>): real
  {
    if products == [] then 0.0
    else
      var p := products[|products| - 1];
      TotalValue(products[..|products| - 1]) + OrZero(p.quantity) * OrZero(p.price)
  }

  datatype InventorySummary = InventorySummary(totalItems: nat, totalQuantity: real, totalValue: real)

  function InventorySummaryOf(products: seq<ReportProduct>): (r: InventorySummary)
    ensures r.totalItems == |products|
    ensures r.totalQuantity == TotalQuantity(products) && r.totalValue == TotalValue(products)
  {
    InventorySummary(|products|, TotalQuantity(products), TotalValue(products))
  }

  /** Both totals add up over a split of the products, so each product
      contributes its own quantity (0 when missing) and its own value. */
  lemma {:induction false} TotalsAppend(a: seq<ReportProduct>, b: seq<ReportProduct>)
    ensures TotalQuantity(a + b) == TotalQuantity(a) + TotalQuantity(b)
    ensures TotalValue(a + b) == TotalValue(a) + TotalValue(b)
  {
    if b == [] {
      assert a + b == a;
    } else {
      TotalsAppend(a, b[..|b| - 1]);
      assert (a + b)[..|a + b| - 1] == a + b[..|b| - 1];
    }
  }

  /** A product without quantity adds nothing to either total. */
  lemma MissingQuantityAddsNothing(products: seq<ReportProduct>, p: ReportProduct)
    requires p.quantity.None?
    ensures TotalQuantity(products + [p]) == TotalQuantity(products)
    ensures TotalValue(products + [p]) == TotalValue(products)
  {
    assert (products + [p])[..|products|] == products;
  }

  /** With no negative quantity or price, both totals are at least 0. */
  lemma {:induction false} TotalsNonNegative(products: seq<ReportProduct>)
    requires forall i :: 0 <= i < |products| ==> OrZero(products[i].quantity) >= 0.0 && OrZero(products[i].price) >= 0.0
    ensures TotalQuantity(products) >= 0.0 && TotalValue(products) >= 0.0
  {
    if products != [] {
      TotalsNonNegative(products[..|products| - 1]);
      var p := products[|products| - 1];
      assert OrZero(p.quantity) * OrZero(p.price) >= 0.0;
    }
  }

  datatype ExpiryReport = ExpiryReport(expired: seq<ReportProduct>, expiringSoon: seq<ReportProduct>)

  const WEEK_MS: int := 7 * DAY_MS

  /** /expiry-status at instant `now`: among products that have an expiry
      date, those before now, and those from now to seven days later. */
  function ExpiryStatus(products: seq<ReportProduct>, now: int): (r: ExpiryReport)
    ensures forall p :: p in r.expired <==> p in products && p.expiryDate.Some? && p.expiryDate.value < now
    ensures forall p :: p in r.expiringSoon <==>
      p in products && p.expiryDate.Some? && now <= p.expiryDate.value <= now + WEEK_MS
    ensures IsSubsequence(r.expired, products) && IsSubsequence(r.expiringSoon, products)
  {
    var dated := Filter((p: ReportProduct) => p.expiryDate.Some?, products);
    var expiredP := (p: ReportProduct) => p.expiryDate.Some? && p.expiryDate.value < now;
    var soonP := (p: ReportProduct) => p.expiryDate.Some? && now <= p.expiryDate.value <= now + WEEK_MS;
    FilterTwiceIsSubsequence((p: ReportProduct) => p.expiryDate.Some?, expiredP, products);
    FilterTwiceIsSubsequence((p: ReportProduct) => p.expiryDate.Some?, soonP, products);
    ExpiryReport(Filter(expiredP, dated), Filter(soonP, dated))
  }

  /** No product is both expired and expiring soon. */
  lemma ExpiryListsDisjoint(products: seq<ReportProduct>, now: int)
    ensures forall p :: p in ExpiryStatus(products, now).expired ==> p !in ExpiryStatus(products, now).expiringSoon
  {
  }

  /** One entry of the category-wise report. */
  datatype CategoryEntry = CategoryEntry(
    category: string, totalQuantity: real, totalValue: real, items: seq<ReportProduct>)

  predicate HasCategory(p: ReportProduct) { p.category.Some? }

  /** `Product.distinct("category")`: each category that some product has,
      once (in order of first appearance). */
  function Categories(products: seq<ReportProduct>): (r: seq<string>)
    ensures forall c :: c in r <==> exists p :: p in products && p.category == Some(c)
    ensures forall i, j :: 0 <= i < j < |r| ==> r[i] != r[j]
  {
    var withCategory := Filter(HasCategory, products);
    var names := seq(|withCategory|, i requires 0 <= i < |withCategory| => withCategory[i].category.value);
    assert forall c :: c in names <==> exists p :: p in withCategory && p.category == Some(c) by {
      forall c ensures c in names <==> exists p :: p in withCategory && p.category == Some(c) {
        if c in names {
          var i :| 0 <= i < |names| && names[i] == c;
          assert withCategory[i] in withCategory;
        }
        if exists p :: p in withCategory && p.category == Some(c) {
          var p :| p in withCategory && p.category == Some(c);
          var i :| 0 <= i < |withCategory| && withCategory[i] == p;
          assert names[i] == c;
        }
      }
    }
    Distinct(names)
  }

  function EntryFor(products: seq<ReportProduct>, category: string): (r: CategoryEntry)
    ensures r.category == category
    ensures forall p :: p in r.items <==> p in products && p.category == Some(category)
    ensures IsSubsequence(r.items, products)
    ensures r.totalQuantity == TotalQuantity(r.items) && r.totalValue == TotalValue(r.items)
  {
    var items := Filter((p: ReportProduct) => p.category == Some(category), products);
    FilterIsSubsequence((p: ReportProduct) => p.category == Some(category), products);
    CategoryEntry(category, TotalQuantity(items), TotalValue(items), items)
  }

  /** /category-wise: one entry per distinct category. */
  function CategoryReport(products: seq<ReportProduct>): (r: seq<CategoryEntry>)
    ensures |r| == |Categories(products)|
    ensures forall i :: 0 <= i < |r| ==> r[i] == EntryFor(products, Categories(products)[i])
  {
    var categories := Categories(products);
    seq(|categories|, i requires 0 <= i < |categories| => EntryFor(products, categories[i]))
  }

  /** Each product that has a category is listed in exactly one entry of the
      category report, and a product without one in none. */
  lemma CategoryReportPartitions(products: seq<ReportProduct>, p: ReportProduct)
    requires p in products
    ensures p.category.Some? ==>
      exists i :: 0 <= i < |CategoryReport(products)| && p in CategoryReport(products)[i].items
    ensures forall i, j ::
      (0 <= i < |CategoryReport(products)| && 0 <= j < |CategoryReport(products)| &&
       p in CategoryReport(products)[i].items && p in CategoryReport(products)[j].items) ==> i == j
    ensures p.category.None? ==> forall i :: 0 <= i < |CategoryReport(products)| ==> p !in CategoryReport(products)[i].items
  {
    var report := CategoryReport(products);
    var categories := Categories(products);
    if p.category.Some? {
      assert p.category.value in categories;
      var i :| 0 <= i < |categories| && categories[i] == p.category.value;
      assert p in report[i].items;
    }
  }
}
