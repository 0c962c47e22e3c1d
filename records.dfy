/**
 * Inventory rows as the backend returns them, and the normalisation that
 * turns each into the screen's InventoryItem, filling in defaults the way
 * JavaScript's `||` does (absent, 0 and "" count as missing).
 */
module Records {
  import opened Results

  const DefaultThreshold: int := 10
  const UnknownProduct: string := "Unknown Product"
  const Uncategorized: string := "Uncategorized"

  /** The nested `category(name)` of a product; the name may be null. */
  datatype CategoryRef = CategoryRef(name: Option<string>)

  /** The nested `product!inner(name, category, is_active)` of an inventory row. */
  datatype ProductRef = ProductRef(name: Option<string>, category: Option<CategoryRef>, isActive: bool)

  /** One row of the inventory query, before normalisation. Nullable columns are Options. */
  datatype RawRow = RawRow(
    itemId: int,
    productId: int,
    ingredient: string,
    quantityInStock: Option<int>,
    minimumThreshold: Option<int>,
    lastRestockDate: Option<string>,
    lastUpdated: Option<string>,
    product: Option<ProductRef>)

  /** The screen's record of one stocked ingredient. */
  datatype InventoryItem = InventoryItem(
    itemId: int,
    productId: int,
    ingredient: string,
    productName: string,
    categoryName: string,
    quantityInStock: int,
    minimumThreshold: int,
    lastRestockDate: Option<string>,
    lastUpdated: string)

  /** `v || fallback` on a nullable number: null and 0 are falsy. */
  function OrInt(v: Option<int>, fallback: int): int {
    if v.Some? && v.value != 0 then v.value else fallback
  }

  /** `v || fallback` on a nullable string: null and "" are falsy. */
  function OrString(v: Option<string>, fallback: string): string {
    if v.Some? && v.value != "" then v.value else fallback
  }

  /** `inv.product?.name`. */
  function ProductName(raw: RawRow): Option<string> {
    if raw.product.Some? then raw.product.value.name else None
  }

  /** `inv.product?.category?.name`. */
  function CategoryName(raw: RawRow): Option<string> {
    if raw.product.Some? && raw.product.value.category.Some? then raw.product.value.category.value.name
    else None
  }

  /** The shape every normalised record has: the defaults leave no falsy threshold or name behind. */
  predicate Normalized(item: InventoryItem) {
    && item.minimumThreshold != 0
    && item.productName != ""
    && item.categoryName != ""
    && item.lastUpdated != ""
  }

  /**
   * The per-row mapping of the fetch. `now` stands for `new Date().toISOString()`
   * taken at load time and must be a non-empty timestamp.
   */
  function NormalizeRow(raw: RawRow, now: string): (item: InventoryItem)
    requires now != ""
    ensures Normalized(item)
    ensures item.itemId == raw.itemId && item.productId == raw.productId
    ensures item.ingredient == raw.ingredient && item.lastRestockDate == raw.lastRestockDate
    ensures item.quantityInStock == raw.quantityInStock.GetOr(0)
    ensures item.minimumThreshold == DefaultThreshold <==> raw.minimumThreshold.GetOr(0) in {0, DefaultThreshold}
    ensures item.productName == UnknownProduct <==> ProductName(raw).GetOr("") in {"", UnknownProduct}
    ensures item.categoryName == Uncategorized <==> CategoryName(raw).GetOr("") in {"", Uncategorized}
    ensures raw.minimumThreshold.GetOr(0) != 0 ==> item.minimumThreshold == raw.minimumThreshold.value
    ensures ProductName(raw).GetOr("") != "" ==> item.productName == ProductName(raw).value
    ensures CategoryName(raw).GetOr("") != "" ==> item.categoryName == CategoryName(raw).value
    ensures raw.lastUpdated.GetOr("") != "" ==> item.lastUpdated == raw.lastUpdated.value
    ensures raw.lastUpdated.GetOr("") == "" ==> item.lastUpdated == now
  {
    InventoryItem(
      raw.itemId,
      raw.productId,
      raw.ingredient,
      OrString(ProductName(raw), UnknownProduct),
      OrString(CategoryName(raw), Uncategorized),
      OrInt(raw.quantityInStock, 0),
      OrInt(raw.minimumThreshold, DefaultThreshold),
      raw.lastRestockDate,
      OrString(raw.lastUpdated, now))
  }

  /** `(inventoryData || []).map(…)`: one record per row, in the rows' order. */
  function Normalize(rows: seq<RawRow>, now: string): (items: seq<InventoryItem>)
    requires now != ""
    ensures |items| == |rows|
    ensures forall i :: 0 <= i < |rows| ==> items[i] == NormalizeRow(rows[i], now)
  {
    seq(|rows|, i requires 0 <= i < |rows| => NormalizeRow(rows[i], now))
  }

  /** The row the backend would return for a record; the inverse direction of NormalizeRow. */
  function ToRow(item: InventoryItem): (raw: RawRow)
    ensures raw.itemId == item.itemId
  {
    RawRow(
      item.itemId,
      item.productId,
      item.ingredient,
      Some(item.quantityInStock),
      Some(item.minimumThreshold),
      item.lastRestockDate,
      Some(item.lastUpdated),
      Some(ProductRef(Some(item.productName), Some(CategoryRef(Some(item.categoryName))), true)))
  }

  // ---------------------------------------------------------------------------
  // Lemmas

  /** Normalising the row of an already normalised record gives back that record. */
  lemma NormalizeToRow(item: InventoryItem, now: string)
    requires now != "" && Normalized(item)
    ensures NormalizeRow(ToRow(item), now) == item
  {
  }

  /** Normalisation is idempotent: a record survives a second pass unchanged. */
  lemma NormalizeIdempotent(raw: RawRow, now: string, later: string)
    requires now != "" && later != ""
    ensures NormalizeRow(ToRow(NormalizeRow(raw, now)), later) == NormalizeRow(raw, now)
  {
    NormalizeToRow(NormalizeRow(raw, now), later);
  }

  /** Normalising a concatenation of fetched pages is the concatenation of their normalisations. */
  lemma NormalizeAppend(a: seq<RawRow>, b: seq<RawRow>, now: string)
    requires now != ""
    ensures Normalize(a + b, now) == Normalize(a, now) + Normalize(b, now)
  {
  }

  /**
   * Rows are never merged: two rows with distinct item ids (for instance two
   * ingredients of one product) stay two records with those ids.
   */
  lemma NormalizeKeepsRowsApart(rows: seq<RawRow>, now: string, i: int, j: int)
    requires now != "" && 0 <= i < j < |rows| && rows[i].itemId != rows[j].itemId
    ensures Normalize(rows, now)[i] != Normalize(rows, now)[j]
    ensures Normalize(rows, now)[i].itemId == rows[i].itemId
    ensures Normalize(rows, now)[j].itemId == rows[j].itemId
  {
  }

  /** A threshold stored as 0 or left null is shown as the default threshold; a quantity of 0 stays 0. */
  lemma ZeroThresholdBecomesDefault(raw: RawRow, now: string)
    requires now != "" && raw.minimumThreshold in {None, Some(0)} && raw.quantityInStock in {None, Some(0)}
    ensures NormalizeRow(raw, now).minimumThreshold == DefaultThreshold
    ensures NormalizeRow(raw, now).quantityInStock == 0
  {
  }
}
