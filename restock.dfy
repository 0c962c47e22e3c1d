/**
 * The restock transaction: validating the selection and the quantity text,
 * computing the new stock level, and the single keyed update it sends to the
 * inventory table.
 */
module Restock {
  import opened Results
  import opened QuantityInput
  import opened Records
  import opened Views

  /** What became of the update request: answered without error, answered with an error, or thrown. */
  datatype WriteOutcome = Written | WriteFailed | WriteThrew

  /**
   * `update({ quantity_in_stock, last_restock_date, last_updated }).eq("item_id", itemId)`:
   * the one write a restock issues.
   */
  datatype RestockWrite = RestockWrite(itemId: int, quantityInStock: int, lastRestockDate: string, lastUpdated: string)

  /** The alert a restock attempt ends with. */
  datatype Alert =
    | MissingQuantity          // "Please enter a quantity to restock"
    | NotPositive              // "Please enter a valid positive number"
    | UpdateFailed             // "Failed to update inventory"
    | Unexpected               // "Something went wrong while restocking"
    | Restocked(added: int, ingredient: string)  // "Successfully added …"

  /** A restock that passed validation: the amount to add and the write that records it. */
  datatype Plan = Plan(added: int, write: RestockWrite)

  /**
   * `plan` restocks `item`: it adds a positive amount, and its write targets
   * the item's id with the item's quantity plus that amount.
   */
  predicate PlannedFrom(plan: Plan, item: InventoryItem) {
    && plan.added > 0
    && plan.write.itemId == item.itemId
    && plan.write.quantityInStock == item.quantityInStock + plan.added
  }

  /**
   * The validation and computation `handleRestock` performs before it awaits
   * the backend: a selection and a non-blank text are required, the trimmed
   * text must parse to a positive integer, and the new stock is the selected
   * record's quantity plus that integer. `now` stands for both timestamps.
   */
  function PlanRestock(selected: Option<InventoryItem>, quantityText: string, now: string): (r: Result<Plan, Alert>)
    ensures r.Failure? ==> r.error == MissingQuantity || r.error == NotPositive
    ensures r.Failure? && r.error == MissingQuantity <==> selected.None? || Trim(quantityText) == []
    ensures r.Success? ==> PlannedFrom(r.value, selected.value)
    ensures r.Success? ==> r.value.write.lastRestockDate == now && r.value.write.lastUpdated == now
    ensures r.Success? ==> Some(r.value.added) == ParseInt(Trim(quantityText))
  {
    if selected.None? || Trim(quantityText) == [] then Failure(MissingQuantity)
    else
      var parsed := ParseInt(Trim(quantityText));
      if parsed.None? || parsed.value <= 0 then Failure(NotPositive)
      else
        var item := selected.value;
        Success(Plan(parsed.value, RestockWrite(item.itemId, item.quantityInStock + parsed.value, now, now)))
  }

  /**
   * A restock is accepted exactly when there is a selection and the trimmed
   * text parses to a positive integer, and that integer is what it adds.
   */
  lemma PlanRestockAccepts(selected: Option<InventoryItem>, quantityText: string, now: string)
    ensures PlanRestock(selected, quantityText, now).Success? <==>
      selected.Some? && Trim(quantityText) != []
      && ParseInt(Trim(quantityText)).Some? && ParseInt(Trim(quantityText)).value > 0
    ensures PlanRestock(selected, quantityText, now).Success? ==>
      Some(PlanRestock(selected, quantityText, now).value.added) == ParseInt(Trim(quantityText))
  {
  }

  // ---------------------------------------------------------------------------
  // Validation of the text the quantity field can hold

  /**
   * The field only ever holds sanitised text. On such text a restock with a
   * selection is refused exactly when the text is blank or all zeros, and
   * otherwise adds the text's decimal value, which is at most MaxQuantity.
   */
  lemma PlanOnSanitizedText(selected: Option<InventoryItem>, text: string, now: string)
    requires IsSanitized(text)
    ensures PlanRestock(selected, text, now).Success? <==> selected.Some? && text != [] && !AllZeros(text)
    ensures PlanRestock(selected, text, now).Success? ==>
      && AllDigits(text)
      && PlanRestock(selected, text, now).value.added == Value(text)
      && PlanRestock(selected, text, now).value.added <= MaxQuantity
  {
    if text != [] {
      ParseIntOfDigits(text);
      ValueZeroIffAllZeros(text);
    } else {
      assert Trim(text) == [];
    }
  }

  /** A text of zeros only, such as "0" or "000", is refused as not positive; nothing is written for it. */
  lemma AllZerosRefused(item: InventoryItem, text: string, now: string)
    requires text != [] && AllZeros(text)
    ensures PlanRestock(Some(item), text, now) == Failure(NotPositive)
  {
    assert AllDigits(text);
    ValueZeroIffAllZeros(text);
    ParseIntOfDigits(text);
  }

  /** The two zero texts "0" and "000" are refused as not positive. */
  lemma ZeroTextsRefused(item: InventoryItem, text: string, now: string)
    requires text == "0" || text == "000"
    ensures PlanRestock(Some(item), text, now) == Failure(NotPositive)
  {
    assert AllZeros(text);
    AllZerosRefused(item, text, now);
  }

  /** A blank field, or no selection, is refused as a missing quantity. */
  lemma BlankRefused(item: InventoryItem, text: string, now: string)
    ensures PlanRestock(Some(item), "", now) == Failure(MissingQuantity)
    ensures PlanRestock(None, text, now) == Failure(MissingQuantity)
  {
    assert Trim("") == "";
  }

  /**
   * Typed text "-5" would be refused by the handler itself, but the field
   * sanitises it to "5" first, so the restock adds 5.
   */
  lemma SignedTextThroughField(item: InventoryItem, now: string)
    ensures PlanRestock(Some(item), "-5", now) == Failure(NotPositive)
    ensures PlanRestock(Some(item), Sanitize("-5"), now) == Success(Plan(5, RestockWrite(item.itemId, item.quantityInStock + 5, now, now)))
  {
    assert Value("5") == 5 by {
      assert "5"[..0] == [];
    }
    assert "-5"[1..] == "5";
    ParseIntOfNegative("-5");
    SanitizeDropsSign();
    ParseIntOfDigits("5");
  }

  /** Typed text without digits leaves the field blank, which is refused. */
  lemma LettersThroughField(item: InventoryItem, now: string)
    ensures PlanRestock(Some(item), Sanitize("abc"), now) == Failure(MissingQuantity)
  {
    assert Digits("abc") == [];
    assert Trim([]) == [];
  }

  /** Adding "50" to a record holding 3 writes 53, with both timestamps set to the call's time. */
  lemma RestockExample(item: InventoryItem, text: string, now: string)
    requires item.quantityInStock == 3 && text == "50"
    ensures PlanRestock(Some(item), text, now) == Success(Plan(50, RestockWrite(item.itemId, 53, now, now)))
  {
    ParseIntOfDigits(text);
    assert Value(text) == 50 by {
      assert text[..1] == "5";
      assert "5"[..0] == [];
    }
  }

  // ---------------------------------------------------------------------------
  // The write, applied to the inventory table

  /** The table's key: no two rows share an item id. */
  predicate UniqueIds(table: seq<RawRow>) {
    forall i, j :: 0 <= i < j < |table| ==> table[i].itemId != table[j].itemId
  }

  /** One row after the update: only a row with the written item id changes, and only in the three written columns. */
  function ApplyToRow(row: RawRow, w: RestockWrite): (updated: RawRow)
    ensures row.itemId != w.itemId ==> updated == row
    ensures row.itemId == w.itemId ==>
      && updated.quantityInStock == Some(w.quantityInStock)
      && updated.lastRestockDate == Some(w.lastRestockDate)
      && updated.lastUpdated == Some(w.lastUpdated)
      && updated.(quantityInStock := row.quantityInStock, lastRestockDate := row.lastRestockDate,
                  lastUpdated := row.lastUpdated) == row
  {
    if row.itemId == w.itemId then
      row.(quantityInStock := Some(w.quantityInStock),
           lastRestockDate := Some(w.lastRestockDate),
           lastUpdated := Some(w.lastUpdated))
    else row
  }

  /** The table after the keyed update. */
  function ApplyWrite(table: seq<RawRow>, w: RestockWrite): (after: seq<RawRow>)
    ensures |after| == |table|
    ensures forall i :: 0 <= i < |table| ==> after[i] == ApplyToRow(table[i], w)
  {
    seq(|table|, i requires 0 <= i < |table| => ApplyToRow(table[i], w))
  }

  /** A write keyed by one row's id changes that row and no other. */
  lemma WriteTouchesOneRow(table: seq<RawRow>, k: int, w: RestockWrite)
    requires UniqueIds(table) && 0 <= k < |table| && table[k].itemId == w.itemId
    ensures ApplyWrite(table, w) == table[k := ApplyToRow(table[k], w)]
  {
  }

  /**
   * After the update and the reload it triggers, the restocked row shows the
   * new quantity and both new timestamps, and every other row reads as before.
   */
  lemma ReloadShowsRestock(table: seq<RawRow>, k: int, w: RestockWrite, loadTime: string)
    requires UniqueIds(table) && 0 <= k < |table| && table[k].itemId == w.itemId
    requires loadTime != "" && w.lastUpdated != ""
    ensures Normalize(ApplyWrite(table, w), loadTime)[k].quantityInStock == w.quantityInStock
    ensures Normalize(ApplyWrite(table, w), loadTime)[k].lastRestockDate == Some(w.lastRestockDate)
    ensures Normalize(ApplyWrite(table, w), loadTime)[k].lastUpdated == w.lastUpdated
    ensures forall i :: 0 <= i < |table| && i != k ==>
      Normalize(ApplyWrite(table, w), loadTime)[i] == Normalize(table, loadTime)[i]
  {
  }

  /**
   * When the selected record still matches the table, a successful restock
   * (any plan drawn from it, as every accepted PlanRestock is) raises the
   * reloaded total stock by exactly the amount added.
   */
  lemma RestockRaisesTotal(table: seq<RawRow>, k: int, selected: InventoryItem, plan: Plan, loadTime: string)
    requires UniqueIds(table) && 0 <= k < |table| && table[k].itemId == selected.itemId
    requires loadTime != "" && plan.write.lastUpdated != ""
    requires Normalize(table, loadTime)[k].quantityInStock == selected.quantityInStock
    requires PlannedFrom(plan, selected)
    ensures TotalValue(Normalize(ApplyWrite(table, plan.write), loadTime))
      == TotalValue(Normalize(table, loadTime)) + plan.added
  {
    var before := Normalize(table, loadTime);
    var after := Normalize(ApplyWrite(table, plan.write), loadTime);
    ReloadShowsRestock(table, k, plan.write, loadTime);
    assert after == before[k := after[k]];
    TotalValueReplace(before, k, after[k]);
  }

  /** The keyed update and the reload keep the number of records. */
  lemma RestockKeepsItemCount(table: seq<RawRow>, w: RestockWrite, loadTime: string)
    requires loadTime != ""
    ensures TotalItems(Normalize(ApplyWrite(table, w), loadTime)) == TotalItems(Normalize(table, loadTime))
  {
  }

  /** Two writes to the same item: the later one overwrites the earlier one completely. */
  lemma LaterWriteWins(table: seq<RawRow>, first: RestockWrite, second: RestockWrite)
    requires first.itemId == second.itemId
    ensures ApplyWrite(ApplyWrite(table, first), second) == ApplyWrite(table, second)
  {
  }

  /**
   * The lost update the handler does not prevent: two restocks planned from
   * the same selected snapshot each write snapshot + their own amount, so the
   * later write wins and the earlier amount is lost.
   */
  lemma LostUpdate(table: seq<RawRow>, k: int, selected: InventoryItem, first: Plan, second: Plan)
    requires 0 <= k < |table| && table[k].itemId == selected.itemId
    requires PlannedFrom(first, selected) && PlannedFrom(second, selected)
    ensures ApplyWrite(ApplyWrite(table, first.write), second.write)[k].quantityInStock
      == Some(selected.quantityInStock + second.added)
    ensures ApplyWrite(ApplyWrite(table, first.write), second.write)[k].quantityInStock
      != Some(selected.quantityInStock + first.added + second.added)
  {
    LaterWriteWins(table, first.write, second.write);
  }
}
