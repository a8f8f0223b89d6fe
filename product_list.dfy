/** frontend/src/components/ProductList.js: the days-left message, the
    category and expiry-date filters, and the lists after a deletion. */
module ProductListView {
  import opened Common
  import opened Text
  import opened ProductControllers

  /** `Math.ceil((expireDate - now) / day)`: the whole days left, rounded up. */
  function DaysLeft(expireDate: int, now: int): (d: int)
    ensures (d - 1) * DAY_MS < expireDate - now <= d * DAY_MS
  {
    -((now - expireDate) / DAY_MS)
  }

  /** getExpiryStatusMessage, on the days left. */
  function ExpiryMessageFor(daysLeft: int): (m: string)
    ensures daysLeft < 0 ==> m == "Already expired"
    ensures daysLeft == 0 ==> m == "Expired today"
    ensures daysLeft == 1 ==> m == "1 day left"
    ensures daysLeft > 1 ==> m == NatToString(daysLeft) + " days left"
  {
    if daysLeft < 0 then "Already expired"
    else if daysLeft == 0 then "Expired today"
    else if daysLeft == 1 then "1 day left"
    else NatToString(daysLeft) + " days left"
  }

  function ExpiryStatusMessage(expireDate: int, now: int): string
  {
    ExpiryMessageFor(DaysLeft(expireDate, now))
  }

  /** How the message reads against the time left: "Already expired" once a
      full day has passed since the expiry instant, "Expired today" within the
      day after it, "1 day left" within the day before it, and otherwise the
      number of days counted up. */
  lemma ExpiryMessageBands(expireDate: int, now: int)
    ensures ExpiryStatusMessage(expireDate, now) == "Already expired" <==> expireDate - now <= -DAY_MS
    ensures ExpiryStatusMessage(expireDate, now) == "Expired today" <==> -DAY_MS < expireDate - now <= 0
    ensures ExpiryStatusMessage(expireDate, now) == "1 day left" <==> 0 < expireDate - now <= DAY_MS
  {
    var d := DaysLeft(expireDate, now);
    var m := ExpiryStatusMessage(expireDate, now);
    if d > 1 {
      var n := NatToString(d);
      assert m == n + " days left";
      assert |m| >= 11 && '0' <= m[0] <= '9';
      assert "Already expired"[0] == 'A' && "Expired today"[0] == 'E' && |"1 day left"| == 10;
    }
  }

  /** The products a filter selection shows: the category must match when
      one is chosen, and the expiry must be on or after the chosen date when
      one is chosen. */
  function FilteredProducts(products: seq<Product>, category: string, expireDate: Option<int>): (r: seq<Product>)
    ensures forall p :: p in r <==>
      p in products && (category == "" || p.category == category)
      && (expireDate.None? || p.expireDate >= expireDate.value)
    ensures IsSubsequence(r, products)
  {
    var byCategory := ByCategory(products, category);
    if expireDate.Some? then
      FilterIsSubsequence((p: Product) => p.expireDate >= expireDate.value, byCategory);
      SubsequenceTransitive(Filter((p: Product) => p.expireDate >= expireDate.value, byCategory), byCategory, products);
      Filter((p: Product) => p.expireDate >= expireDate.value, byCategory)
    else byCategory
  }

  /** The category step of the filter: all products when no category is chosen. */
  function ByCategory(products: seq<Product>, category: string): (r: seq<Product>)
    ensures forall p :: p in r <==> p in products && (category == "" || p.category == category)
    ensures IsSubsequence(r, products)
  {
    FilterIsSubsequence((p: Product) => p.category == category, products);
    SubsequenceReflexive(products);
    if category != "" then Filter((p: Product) => p.category == category, products) else products
  }

  /** The days-left messages of the shown products laid over the earlier ones. */
  function WithMessages(messages: map<Product, string>, shown: seq<Product>, now: int): (m: map<Product, string>)
    ensures m.Keys == messages.Keys + set p | p in shown
    ensures forall p :: p in shown ==> p in m && m[p] == ExpiryStatusMessage(p.expireDate, now)
    ensures forall p :: p in messages && p !in shown ==> p in m && m[p] == messages[p]
  {
    messages + map p | p in shown :: ExpiryStatusMessage(p.expireDate, now)
  }

  /** The products list with `id` taken out. */
  function WithoutProduct(products: seq<Product>, id: nat): (r: seq<Product>)
    ensures forall p :: p in r <==> p in products && p.id != id
  {
    Filter((p: Product) => p.id != id, products)
  }

  /** Deleting and filtering can be done in either order. */
  lemma DeleteCommutesWithFilter(products: seq<Product>, id: nat, category: string, expireDate: Option<int>)
    ensures WithoutProduct(FilteredProducts(products, category, expireDate), id)
         == FilteredProducts(WithoutProduct(products, id), category, expireDate)
  {
    var notId := (p: Product) => p.id != id;
    var byCat := (p: Product) => p.category == category;
    FilterCommute(notId, byCat, products);
    if expireDate.Some? {
      var byDate := (p: Product) => p.expireDate >= expireDate.value;
      var byCategory := if category != "" then Filter(byCat, products) else products;
      FilterCommute(notId, byDate, byCategory);
    }
  }

  /** The product list page. The days-left messages are written onto the
      product objects, which both lists share; `messages` holds them by
      product. */
  class ProductList {
    var products: seq<Product>
    var filteredProducts: seq<Product>
    var selectedCategory: string
    var selectedExpireDate: Option<int>
    var messages: map<Product, string>

    /** The shown list is the loaded one under the current selection. */
    ghost predicate Valid()
      reads this
    {
      filteredProducts == FilteredProducts(products, selectedCategory, selectedExpireDate)
    }

    /** The products as loaded: both lists hold them all; the selection is
        left as it was. */
    method Load(loaded: seq<Product>)
      modifies this
      ensures products == loaded && filteredProducts == loaded
      ensures selectedCategory == old(selectedCategory) && selectedExpireDate == old(selectedExpireDate)
      ensures messages == old(messages)
      ensures selectedCategory == "" && selectedExpireDate.None? ==> Valid()
    {
      products, filteredProducts := loaded, loaded;
      assert FilteredProducts(loaded, "", None) == loaded;
    }

    /** filterProducts: the shown list is the selection applied to the
        loaded products; with a date chosen, every product of the right
        category gets its days-left message. */
    method FilterProducts(category: string, expireDate: Option<int>, now: int)
      modifies this
      ensures filteredProducts == FilteredProducts(products, category, expireDate)
      ensures products == old(products)
      ensures selectedCategory == old(selectedCategory) && selectedExpireDate == old(selectedExpireDate)
      ensures expireDate.None? ==> messages == old(messages)
      ensures expireDate.Some? ==> messages == WithMessages(old(messages), FilteredProducts(products, category, None), now)
    {
      var filtered := products;
      if category != "" {
        filtered := Filter((p: Product) => p.category == category, filtered);
      }
      assert filtered == ByCategory(products, category) == FilteredProducts(products, category, None);
      if expireDate.Some? {
        var shown := filtered;
        messages := WithMessages(messages, shown, now);
        filtered := Filter((p: Product) => p.expireDate >= expireDate.value, filtered);
      }
      assert filtered == FilteredProducts(products, category, expireDate);
      filteredProducts := filtered;
    }

    /** handleCategoryChange: the new category with the current date filter. */
    method SelectCategory(category: string, now: int)
      modifies this
      ensures selectedCategory == category && selectedExpireDate == old(selectedExpireDate)
      ensures products == old(products)
      ensures Valid()
    {
      selectedCategory := category;
      FilterProducts(category, selectedExpireDate, now);
    }

    /** handleExpireDateChange: the new date with the current category. */
    method SelectExpireDate(expireDate: Option<int>, now: int)
      modifies this
      ensures selectedExpireDate == expireDate && selectedCategory == old(selectedCategory)
      ensures products == old(products)
      ensures Valid()
    {
      selectedExpireDate := expireDate;
      FilterProducts(selectedCategory, expireDate, now);
    }

    /** deleteProduct, once the server has deleted it: the product leaves
        both lists, and the shown list still agrees with the selection. */
    method DeleteProduct(id: nat)
      modifies this
      ensures products == WithoutProduct(old(products), id)
      ensures filteredProducts == WithoutProduct(old(filteredProducts), id)
      ensures selectedCategory == old(selectedCategory) && selectedExpireDate == old(selectedExpireDate)
      ensures messages == old(messages)
      ensures old(Valid()) ==> Valid()
    {
      DeleteCommutesWithFilter(products, id, selectedCategory, selectedExpireDate);
      products := WithoutProduct(products, id);
      filteredProducts := WithoutProduct(filteredProducts, id);
    }
  }
}
