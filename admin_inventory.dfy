/**
 * The inventory screen's state and the handlers that update it: loading the
 * records, the retry button, the category and search controls, and the
 * restock dialog (open, type a quantity, cancel, submit).
 */
module AdminInventory {
  import opened Results
  import opened QuantityInput
  import opened Records
  import opened Views
  import opened Restock

  /** The message the screen shows when loading fails. */
  const FetchErrorMessage: string := "An unexpected error occurred"

  /** What the inventory query came back with: its data (which may be null), or an error or thrown fault. */
  datatype FetchResponse = Fetched(data: Option<seq<RawRow>>) | FetchFailed

  /** The component's state fields, with the handlers that update them. */
  class InventoryScreen {
    var inventoryData: seq<InventoryItem>
    var loading: bool
    var error: Option<string>
    var retryTrigger: nat
    var restockModalVisible: bool
    var selectedItem: Option<InventoryItem>
    var restockQuantity: string
    var restockLoading: bool
    var selectedCategory: string
    var searchQuery: string

    /** The quantity field only ever holds text the sanitiser has produced. */
    predicate Valid()
      reads this
    {
      IsSanitized(restockQuantity)
    }

    /** The initial state of every field. */
    constructor ()
      ensures Valid()
      ensures inventoryData == [] && loading && error == None && retryTrigger == 0
      ensures !restockModalVisible && selectedItem == None && restockQuantity == "" && !restockLoading
      ensures selectedCategory == AllCategories && searchQuery == ""
    {
      inventoryData := [];
      loading := true;
      error := None;
      retryTrigger := 0;
      restockModalVisible := false;
      selectedItem := None;
      restockQuantity := "";
      restockLoading := false;
      selectedCategory := AllCategories;
      searchQuery := "";
    }

    /**
     * `fetchInventory`, run for the current `retryTrigger`. On data, the
     * records are replaced by the normalised rows (null data counts as no
     * rows); on an error the old records stay and the error message is set.
     * Either way loading ends. `now` is the load time used for rows without
     * a `last_updated`.
     */
    method FetchInventory(response: FetchResponse, now: string)
      requires now != ""
      requires Valid()
      modifies this`loading, this`error, this`inventoryData
      ensures Valid()
      ensures !loading
      ensures response.Fetched? ==> error == None && inventoryData == Normalize(response.data.GetOr([]), now)
      ensures response.FetchFailed? ==> error == Some(FetchErrorMessage) && inventoryData == old(inventoryData)
    {
      loading := true;
      error := None;
      match response {
        case Fetched(data) =>
          inventoryData := Normalize(data.GetOr([]), now);
        case FetchFailed =>
          error := Some(FetchErrorMessage);
      }
      loading := false;
    }

    /** The Retry button on the error view: asks for a fresh load. */
    method Retry()
      requires Valid()
      modifies this`retryTrigger
      ensures Valid()
      ensures retryTrigger == old(retryTrigger) + 1
    {
      retryTrigger := retryTrigger + 1;
    }

    /** A category pill: "All" or one of the category names. */
    method SelectCategory(name: string)
      requires Valid()
      modifies this`selectedCategory
      ensures Valid()
      ensures selectedCategory == name
    {
      selectedCategory := name;
    }

    /** The search box. */
    method ChangeSearchQuery(text: string)
      requires Valid()
      modifies this`searchQuery
      ensures Valid()
      ensures searchQuery == text
    {
      searchQuery := text;
    }

    /** `openRestockModal(item)`: select the record, clear the quantity, show the dialog. */
    method OpenRestockModal(item: InventoryItem)
      modifies this`selectedItem, this`restockQuantity, this`restockModalVisible
      ensures Valid()
      ensures selectedItem == Some(item) && restockQuantity == "" && restockModalVisible
    {
      selectedItem := Some(item);
      restockQuantity := "";
      restockModalVisible := true;
    }

    /**
     * Cancel, the close icon, and the system back request: they only hide the
     * dialog; the selection and the typed quantity stay.
     */
    method CloseRestockModal()
      requires Valid()
      modifies this`restockModalVisible
      ensures Valid()
      ensures !restockModalVisible
    {
      restockModalVisible := false;
    }

    /** The quantity field's change handler: whatever is typed is stored sanitised. */
    method ChangeRestockQuantity(text: string)
      modifies this`restockQuantity
      ensures Valid()
      ensures restockQuantity == Sanitize(text)
    {
      restockQuantity := Sanitize(text);
    }

    /**
     * `handleRestock`. A refused restock issues no write and changes nothing.
     * An accepted one issues exactly one write, for the selected item id; if
     * the backend then reports success the dialog is reset and a reload is
     * requested, otherwise the dialog keeps its selection and text. Both ways
     * the busy flag is clear at the end.
     */
    method HandleRestock(outcome: WriteOutcome, now: string)
      returns (write: Option<RestockWrite>, alert: Alert, ghost plan: Result<Plan, Alert>)
      requires Valid()
      modifies this`restockLoading, this`retryTrigger, this`restockModalVisible, this`selectedItem, this`restockQuantity
      ensures Valid()
      ensures plan == PlanRestock(old(selectedItem), old(restockQuantity), now)
      ensures plan.Failure? ==>
        && write == None
        && alert == plan.error
        && restockLoading == old(restockLoading)
        && retryTrigger == old(retryTrigger)
        && restockModalVisible == old(restockModalVisible)
        && selectedItem == old(selectedItem)
        && restockQuantity == old(restockQuantity)
      ensures plan.Success? ==> write == Some(plan.value.write) && !restockLoading
      ensures plan.Success? && outcome == Written ==>
        && alert == Restocked(plan.value.added, old(selectedItem).value.ingredient)
        && retryTrigger == old(retryTrigger) + 1
        && !restockModalVisible
        && selectedItem == None
        && restockQuantity == ""
      ensures plan.Success? && outcome != Written ==>
        && alert == (if outcome == WriteFailed then UpdateFailed else Unexpected)
        && retryTrigger == old(retryTrigger)
        && restockModalVisible == old(restockModalVisible)
        && selectedItem == old(selectedItem)
        && restockQuantity == old(restockQuantity)
    {
      var planned := PlanRestock(selectedItem, restockQuantity, now);
      plan := planned;
      if planned.Failure? {
        write, alert := None, planned.error;
        return;
      }
      write := Some(planned.value.write);
      alert := SubmitRestock(planned.value.added, outcome);
    }

    /**
     * The part of `handleRestock` after validation: mark the dialog busy, await
     * the write, reset the dialog and request a reload on success, report the
     * failure otherwise, and clear the busy flag in every case.
     */
    method SubmitRestock(added: int, outcome: WriteOutcome) returns (alert: Alert)
      requires Valid() && selectedItem.Some?
      modifies this`restockLoading, this`retryTrigger, this`restockModalVisible, this`selectedItem, this`restockQuantity
      ensures Valid() && !restockLoading
      ensures outcome == Written ==>
        && alert == Restocked(added, old(selectedItem).value.ingredient)
        && retryTrigger == old(retryTrigger) + 1
        && !restockModalVisible
        && selectedItem == None
        && restockQuantity == ""
      ensures outcome != Written ==>
        && alert == (if outcome == WriteFailed then UpdateFailed else Unexpected)
        && retryTrigger == old(retryTrigger)
        && restockModalVisible == old(restockModalVisible)
        && selectedItem == old(selectedItem)
        && restockQuantity == old(restockQuantity)
    {
      restockLoading := true;
      match outcome {
        case Written =>
          var ingredient := selectedItem.value.ingredient;
          retryTrigger := retryTrigger + 1;
          restockModalVisible := false;
          selectedItem := None;
          restockQuantity := "";
          alert := Restocked(added, ingredient);
        case WriteFailed =>
          alert := UpdateFailed;
        case WriteThrew =>
          alert := Unexpected;
      }
      restockLoading := false;
    }
  }
}
