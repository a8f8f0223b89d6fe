/** BACKEND/controllers/ProductControllers.js: inventory products, their partial
    update, the low-stock and out-of-stock queries, the expiry cutoff of the
    inventory report and the image URL shown to clients. */
module ProductControllers {
  import opened Common

  /** The categories BACKEND/models/ProductModel.js accepts. */
  const PRODUCT_CATEGORIES: seq<string> := [
    "Pantry Staples", "Refrigerated Items", "Fruits & Vegetables", "Cleaning Supplies",
    "Personal Care & Hygiene", "Health & First Aid", "Home Maintenance & Tools", "Other"]

  /** A product document. `image` is the `P_Image` the read handlers format;
      the schema declares no such path, so no handler shown here stores one. */
  datatype Product = Product(
    id: nat, name: string, category: string, quantity: Quantity, price: real,
    expireDate: int, image: Option<string>)

  /** What `save()` accepts: the required name and unit are non-empty strings
      and the category is one of the listed ones. */
  predicate ValidProduct(p: Product)
  {
    p.name != "" && p.category in PRODUCT_CATEGORIES && p.quantity.unit != ""
  }

  /** The fields of an update request; None means the field was not sent.
      `price` and `quantityValue` are Some(None) when `Number(...)` of what was
      sent is NaN, `expireDate` is Some(None) for a date that does not parse,
      and `file` is the name of a newly uploaded image. */
  datatype ProductPatch = ProductPatch(
    name: Option<string>, category: Option<string>, price: Option<Option<real>>,
    quantityValue: Option<Option<real>>, quantityUnit: Option<string>,
    expireDate: Option<Option<int>>, file: Option<string>)

  /** The outcome of updateProduct's field-by-field assignments: 400 when the
      date does not parse (returned before saving), 500 when a number is NaN
      (the cast fails when saving), otherwise the assigned product. The image
      file name is assigned to `P_Image`, a path the schema does not declare,
      so the saved product keeps its image. */
  function ApplyPatch(p: Product, patch: ProductPatch): (r: Response<Product>)
    ensures r.Ok? || r == BadRequest || r == ServerError
    ensures r == BadRequest <==> patch.expireDate == Some(None)
    ensures r == ServerError <==>
      patch.expireDate != Some(None) && (patch.price == Some(None) || patch.quantityValue == Some(None))
    ensures r.Ok? ==>
      && r.value.id == p.id
      && r.value.name == (if patch.name.Some? then patch.name.value else p.name)
      && r.value.category == (if patch.category.Some? then patch.category.value else p.category)
      && r.value.price == (if patch.price.Some? then patch.price.value.value else p.price)
      && r.value.expireDate == (if patch.expireDate.Some? then patch.expireDate.value.value else p.expireDate)
      && r.value.quantity.value == (if patch.quantityValue.Some? then patch.quantityValue.value.value else p.quantity.value)
      && r.value.quantity.unit == (if patch.quantityUnit.Some? then patch.quantityUnit.value else p.quantity.unit)
      && r.value.image == p.image
  {
    if patch.expireDate == Some(None) then BadRequest
    else if patch.price == Some(None) || patch.quantityValue == Some(None) then ServerError
    else
      var p1 := if patch.name.Some? then p.(name := patch.name.value) else p;
      var p2 := if patch.category.Some? then p1.(category := patch.category.value) else p1;
      var p3 := if patch.price.Some? then p2.(price := patch.price.value.value) else p2;
      var p4 := if patch.expireDate.Some? then p3.(expireDate := patch.expireDate.value.value) else p3;
      var p5 :=
        if patch.quantityValue.Some? || patch.quantityUnit.Some? then
          p4.(quantity := Quantity(
            if patch.quantityValue.Some? then patch.quantityValue.value.value else p4.quantity.value,
            if patch.quantityUnit.Some? then patch.quantityUnit.value else p4.quantity.unit))
        else p4;
      Ok(p5)
  }

  /** An empty request changes nothing, and neither does an image upload alone. */
  lemma EmptyPatchIsIdentity(p: Product, file: Option<string>)
    ensures ApplyPatch(p, ProductPatch(None, None, None, None, None, None, file)) == Ok(p)
  {
  }

  /** Applying the same request twice is applying it once. */
  lemma ApplyPatchIdempotent(p: Product, patch: ProductPatch)
    requires ApplyPatch(p, patch).Ok?
    ensures ApplyPatch(ApplyPatch(p, patch).value, patch) == ApplyPatch(p, patch)
  {
  }

  /** `"Quantity.value": { $gt: 0, $lt: 16 }`. */
  predicate IsLowStock(p: Product)
  {
    0.0 < p.quantity.value < 16.0
  }

  /** `"Quantity.value": 0`. */
  predicate IsOutOfStock(p: Product)
  {
    p.quantity.value == 0.0
  }

  /** getLowStockProducts: 404 when no product is low on stock. */
  function LowStockProducts(products: seq<Product>): (r: Response<seq<Product>>)
    ensures r.Ok? || r == NotFound
    ensures r == NotFound <==> forall i :: 0 <= i < |products| ==> !IsLowStock(products[i])
    ensures r.Ok? ==> forall p :: p in r.value <==> p in products && IsLowStock(p)
  {
    var low := Filter(IsLowStock, products);
    if |low| == 0 then
      assert forall i :: 0 <= i < |products| ==> products[i] !in low;
      NotFound
    else Ok(low)
  }

  /** getOutOfStockProducts: 404 when every product has stock. */
  function OutOfStockProducts(products: seq<Product>): (r: Response<seq<Product>>)
    ensures r.Ok? || r == NotFound
    ensures r == NotFound <==> forall i :: 0 <= i < |products| ==> !IsOutOfStock(products[i])
    ensures r.Ok? ==> forall p :: p in r.value <==> p in products && IsOutOfStock(p)
  {
    var out := Filter(IsOutOfStock, products);
    if |out| == 0 then
      assert forall i :: 0 <= i < |products| ==> products[i] !in out;
      NotFound
    else Ok(out)
  }

  /** No product is both low on stock and out of stock. */
  lemma StockListsDisjoint(products: seq<Product>)
    ensures forall p :: p in Filter(IsLowStock, products) ==> p !in Filter(IsOutOfStock, products)
  {
  }

  /** The three lists of the inventory report. */
  datatype InventoryReport = InventoryReport(expired: seq<Product>, lowStock: seq<Product>, outOfStock: seq<Product>)

  /** `setHours(23, 59, 59, 999)` on the day starting at `dayStart` (UTC). */
  function EndOfDay(dayStart: int): (t: int)
    ensures dayStart <= t < dayStart + DAY_MS
    ensures t + 1 == dayStart + DAY_MS
  {
    dayStart + 23 * 3_600_000 + 59 * 60_000 + 59 * 1000 + 999
  }

  /** generateReport's lists. `date` is the start of the chosen day: None
      when the query has no date or an empty one (400), Some(None) when it
      does not parse, so that the `$lte` cast of the Invalid Date fails (500). */
  function ReportLists(products: seq<Product>, date: Option<Option<int>>): (r: Response<InventoryReport>)
    ensures r.Ok? || r == BadRequest || r == ServerError
    ensures r == BadRequest <==> date.None?
    ensures r == ServerError <==> date == Some(None)
    ensures r.Ok? ==>
      && (forall p :: p in r.value.expired <==> p in products && p.expireDate < date.value.value + DAY_MS)
      && r.value.lowStock == Filter(IsLowStock, products)
      && r.value.outOfStock == Filter(IsOutOfStock, products)
  {
    if date.None? then BadRequest
    else if date.value.None? then ServerError
    else
      var cutoff := EndOfDay(date.value.value);
      Ok(InventoryReport(
        Filter((p: Product) => p.expireDate <= cutoff, products),
        Filter(IsLowStock, products),
        Filter(IsOutOfStock, products)))
  }

  const UPLOADS_URL: string := "http://localhost:8090/uploads/"

  /** The P_Image value sent to clients: the uploads URL of a non-empty file
      name, else null (None). */
  function ImageUrl(image: Option<string>): (r: Option<string>)
    ensures r.None? <==> image.None? || image.value == ""
    ensures r.Some? ==> r.value == UPLOADS_URL + image.value && r.value[|UPLOADS_URL|..] == image.value
  {
    if image.Some? && image.value != "" then Some(UPLOADS_URL + image.value) else None
  }

  /** The product collection. */
  class ProductStore {
    var products: seq<Product>

    constructor ()
      ensures products == []
    {
      products := [];
    }

    /** updateProduct: 404 for an unknown id, 400 for a date that does not
        parse, 500 for a NaN number or when the updated product fails
        validation; only an accepted update is saved. */
    method UpdateProduct(id: nat, patch: ProductPatch) returns (r: Response<Product>)
      modifies this
      ensures FindFirst((p: Product) => p.id == id, old(products)).None? ==>
        r == NotFound && products == old(products)
      ensures FindFirst((p: Product) => p.id == id, old(products)).Some? ==>
        var k := FindFirst((p: Product) => p.id == id, old(products)).value;
        var updated := ApplyPatch(old(products)[k], patch);
        && (!updated.Ok? ==> r == updated && products == old(products))
        && (updated.Ok? && !ValidProduct(updated.value) ==> r == ServerError && products == old(products))
        && (updated.Ok? && ValidProduct(updated.value) ==>
              r == updated && products == old(products)[k := updated.value])
    {
      var found := FindFirst((p: Product) => p.id == id, products);
      if found.None? {
        return NotFound;
      }
      var k := found.value;
      var updated := ApplyPatch(products[k], patch);
      if !updated.Ok? {
        return updated;
      }
      if !ValidProduct(updated.value) {
        return ServerError;
      }
      products := products[k := updated.value];
      r := updated;
    }
  }
}
