# Admin inventory screen — a Dafny model

This project models the stock-management logic of the app's admin
inventory screen (`app/admin/inventory.tsx`): how the inventory rows fetched
from the backend become the screen's records, how a stock level is put in a
severity tier and coloured, the derived views (low-stock list, totals,
category pills, the category and search filter), the sanitiser on the
restock quantity field, and the restock dialog's state machine with the one
keyed write it sends.

Modules, one per file:

- `Results` (`results.dfy`): `Option` and `Result`.
- `QuantityInput` (`quantity_input.dfy`): `sanitizeIntegerInput`, and the
  `trim` / `parseInt(…, 10)` the restock handler applies to the field.
- `Records` (`records.dfy`): raw rows (nullable columns as `Option`), the
  screen's `InventoryItem`, and the normalisation with its `||` defaults.
- `StockStatus` (`stock_status.dfy`): `getStockStatus` and `getStockColor`.
- `Views` (`views.dfy`): `lowStockItems`, `totalItems`, `totalValue`,
  `categoryNames`, the pill row, and `filteredInventory`.
- `Restock` (`restock.dfy`): the validation and computation of
  `handleRestock`, the write it issues, and that write applied to the
  inventory table.
- `AdminInventory` (`admin_inventory.dfy`): the component's state as a class
  `InventoryScreen` whose methods are the handlers that update it.

Where the screen depends on something outside itself, the model takes it as
a parameter: the fetch's response (`FetchResponse`), the backend's answer to
the update (`WriteOutcome`: answered, answered with an error, or thrown), and
the current time `now`, used for both restock timestamps and for a row with
no `last_updated`.

Behaviour the code has and the model keeps, although a reader might expect
otherwise:

- Cancel, the close icon and the system back request only hide the dialog.
  The selected record and the typed text stay.
- The field strips every non-digit, so typing "-5" stores "5", and the
  restock adds 5. The handler's own "not a positive number" refusal is then
  reached only by texts of zeros ("0", "000").
- Only a missing or zero `minimum_threshold` is replaced by 10. A negative
  threshold, like a negative quantity, passes through unchanged.
- `totalValue` is a count of units in stock (the sum of the quantities),
  not a money value.
- A category literally named "All" gets a second "All" pill, and selecting
  it shows every record (`Views.PillsDistinct`, `Views.SelectPillShowsCategory`).
- The new stock is computed from the record as it was when the dialog
  opened. Two restocks from the same snapshot lose the first amount
  (`Restock.LostUpdate`).

## Model

| member | source | states |
|---|---|---|
| QuantityInput.Digits | app/admin/inventory.tsx:36 | the digit filter keeps exactly the characters 0-9 of the text, and nothing else |
| QuantityInput.Sanitize | app/admin/inventory.tsx:34-46 | the result is digits only, and blank or of value at most 1000000000; it is blank only when the text has no digit; otherwise its value is the digits' value capped at 1000000000, and it is the digits themselves when they are not above the cap |
| QuantityInput.SanitizeCases | app/admin/inventory.tsx:36-45 | the three branches: no digit gives "", a value above the maximum gives "1000000000", anything else gives the digits unchanged |
| QuantityInput.SanitizeIdempotent | app/admin/inventory.tsx:34-46 | sanitising twice is the same as sanitising once |
| QuantityInput.SanitizeFixedPoints | app/admin/inventory.tsx:34-46 | a text is left unchanged by the sanitiser exactly when it is sanitised text |
| QuantityInput.SanitizeDropsSign | app/admin/inventory.tsx:36 | "-5" is stored as "5": the sign is stripped with the other non-digits |
| QuantityInput.SanitizeClampsLongEntries | app/admin/inventory.tsx:40-43 | every digit entry of eleven or more digits without a leading zero (e.g. eleven nines) is above the maximum and is replaced by "1000000000" |
| QuantityInput.DigitsIdempotent | app/admin/inventory.tsx:36 | filtering digits twice is the same as once |
| QuantityInput.DigitsAppend | app/admin/inventory.tsx:36 | the digit filter distributes over concatenation of typed text |
| QuantityInput.ValueZeroIffAllZeros | app/admin/inventory.tsx:116-117 | a digit string has value 0 exactly when it is all zeros, the case the positivity check refuses |
| QuantityInput.TrimStart | app/admin/inventory.tsx:111 | the result is a suffix of the text, everything removed before it is white space, and it does not start with white space |
| QuantityInput.TrimEnd | app/admin/inventory.tsx:111 | the result is a prefix of the text, everything removed after it is white space, and it does not end with white space |
| QuantityInput.Trim | app/admin/inventory.tsx:111 | the trimmed text neither starts nor ends with white space |
| QuantityInput.TrimOnlyOuterSpace | app/admin/inventory.tsx:111 | the trimmed text sits inside the original with only white space before and after it: `trim` removes nothing else |
| QuantityInput.LeadingDigits | app/admin/inventory.tsx:116 | the longest digit prefix: digits only, a prefix, and not followed by a digit |
| QuantityInput.UnsignedPart | app/admin/inventory.tsx:116 | a leading `+` or `-` is removed, and any other text is left as it is |
| QuantityInput.ParseInt | app/admin/inventory.tsx:116 | `parseInt(…, 10)`: NaN exactly when, after leading white space and an optional sign, no digit follows; otherwise the magnitude is the value of the longest digit run there, and the result is negative only after a `-` and never positive after one |
| QuantityInput.ParseIntOfDigits | app/admin/inventory.tsx:111-116 | a non-empty digit string trims to itself and parses to its decimal value |
| QuantityInput.ParseIntOfNegative | app/admin/inventory.tsx:111-116 | "-" followed by digits trims to itself and parses to the negated value |
| Records.NormalizeRow | app/admin/inventory.tsx:80-90 | ids, ingredient and restock date are copied; a null quantity becomes 0; a non-zero threshold, a non-empty product or category name and a non-empty `last_updated` are copied; a null or zero threshold becomes 10, a null or empty name "Unknown Product" / "Uncategorized", a null or empty `last_updated` the load time; no normalised threshold or name is falsy |
| Records.Normalize | app/admin/inventory.tsx:80 | one record per row, in the rows' order, each the row's normalisation |
| Records.NormalizeToRow | app/admin/inventory.tsx:80-90 | normalising the row of a normalised record gives that record back |
| Records.NormalizeIdempotent | app/admin/inventory.tsx:80-90 | a second normalisation pass changes nothing |
| Records.NormalizeAppend | app/admin/inventory.tsx:80 | normalisation distributes over concatenation of rows |
| Records.NormalizeKeepsRowsApart | app/admin/inventory.tsx:80-90 | rows with distinct item ids stay distinct records keeping their ids |
| Records.ZeroThresholdBecomesDefault | app/admin/inventory.tsx:86-87 | a null or zero threshold becomes 10, a null or zero quantity becomes 0 |
| StockStatus.Classify | app/admin/inventory.tsx:165-169 | low exactly when stock is at most the threshold, medium exactly when above it and at most twice it, high exactly when above both |
| StockStatus.Label | app/admin/inventory.tsx:166-168 | each tier's label is non-empty and is drawn in that tier's colour: low red, medium amber, high green |
| StockStatus.TierColor | app/admin/inventory.tsx:357-358 | a stock level is drawn red at or below its threshold, amber up to twice it, green above that |
| StockStatus.StockColor | app/admin/inventory.tsx:171-182 | grey exactly for a status other than "low", "medium" and "high" |
| StockStatus.ColorsDistinguishTiers | app/admin/inventory.tsx:165-182 | every tier's label gets a colour that is not grey, and two tiers share a colour only if they are the same tier |
| StockStatus.ZeroThreshold | app/admin/inventory.tsx:165-169 | with threshold 0, empty stock is low, any positive stock high, and medium never occurs |
| StockStatus.MediumReachable | app/admin/inventory.tsx:165-169 | some stock is medium exactly when the threshold is positive |
| StockStatus.ClassifyMonotone | app/admin/inventory.tsx:165-169 | more stock never gives a more severe tier |
| StockStatus.Boundaries | app/admin/inventory.tsx:166-167 | at the threshold low, one above medium, twice the threshold medium, one above that high |
| Views.Filter | app/admin/inventory.tsx:184 | `Array.filter`: a subsequence holding exactly the elements that satisfy the test, and the whole list when all do |
| Views.FilterLength | app/admin/inventory.tsx:184 | the filtered list is as long as the number of elements passing the test |
| Views.FilterStronger | app/admin/inventory.tsx:192-197 | filtering by a stronger test gives a subsequence of filtering by a weaker one |
| Views.LowStockItems | app/admin/inventory.tsx:184 | a subsequence of the records, holding exactly those at or below their threshold, which are exactly the records in the low tier |
| Views.TotalItems | app/admin/inventory.tsx:185 | the record count is zero exactly for an empty list and is never below the number of low-stock records |
| Views.TotalValue | app/admin/inventory.tsx:186 | the sum of the quantities is non-negative when every quantity is |
| Views.TotalValueAppend | app/admin/inventory.tsx:186 | the sum over a concatenation is the sum of the sums |
| Views.TotalValueReplace | app/admin/inventory.tsx:186 | replacing one record changes the sum by the change in that record's quantity |
| Views.SummaryExample | app/admin/inventory.tsx:184-186 | records of 3 and 20 units at threshold 10: one low record, two records, 23 units |
| Views.CategoryLabel | app/admin/inventory.tsx:189 | a record's category label is its category name when that is non-empty and "Uncategorized" otherwise |
| Views.CategoryLabelOfNormalized | app/admin/inventory.tsx:189 | on normalised records the fallback never fires: the label is the category name |
| Views.Labels | app/admin/inventory.tsx:189 | one label per record, in order |
| Views.FirstIndex | app/admin/inventory.tsx:188-190 | where a value first occurs, or the length when it does not occur |
| Views.Distinct | app/admin/inventory.tsx:188-190 | `Array.from(new Set(…))`: no duplicates, exactly the input's values, in order of first occurrence |
| Views.CategoryNames | app/admin/inventory.tsx:188-190 | the category labels, each once, exactly those some record has, in order of first appearance |
| Views.CategoryPills | app/admin/inventory.tsx:267-290 | the pill row is "All" followed by every category name |
| Views.PillsDistinct | app/admin/inventory.tsx:267-301 | the pills are all different exactly when no record's category label is "All" |
| Views.CategoryNamesExample | app/admin/inventory.tsx:188-190 | records tagged Drinks, Drinks, Food give the names Drinks, Food |
| Views.Lower | app/admin/inventory.tsx:195 | lower-casing keeps the length and maps each character |
| Views.Contains | app/admin/inventory.tsx:195 | `includes`: the empty text and the text itself are always contained, and a contained part is never longer than the text |
| Views.FilterInventory | app/admin/inventory.tsx:192-197 | a subsequence of the records, holding exactly those in the chosen category (any, for "All") whose lower-cased ingredient contains the lower-cased search |
| Views.FilterAllEmptyIsIdentity | app/admin/inventory.tsx:192-197 | category "All" with an empty search shows the whole list unchanged |
| Views.FilterByCategory | app/admin/inventory.tsx:193-194 | under a category other than "All" every shown record belongs to it |
| Views.SelectPillShowsCategory | app/admin/inventory.tsx:192-197 | a pill other than "All" with an empty search shows exactly that category's records, in order |
| Views.ContainsTransitive | app/admin/inventory.tsx:195 | `includes` is transitive |
| Views.LowerAppend | app/admin/inventory.tsx:195 | lower-casing distributes over concatenation |
| Views.SearchNarrows | app/admin/inventory.tsx:192-197 | typing more search text gives a subsequence of the list shown before |
| Restock.PlanRestock | app/admin/inventory.tsx:110-134 | refused as a missing quantity exactly when nothing is selected or the trimmed text is blank, otherwise refused only as not positive; an accepted restock adds a positive amount to the selected record's quantity, writes under its id, stamps both dates with the same time, and the amount added is what `parseInt` reads from the trimmed text |
| Restock.PlanRestockAccepts | app/admin/inventory.tsx:111-120 | accepted exactly when there is a selection and the trimmed text parses to a positive integer, which is the amount added |
| Restock.PlanOnSanitizedText | app/admin/inventory.tsx:110-124 | on text the field can hold, accepted exactly when there is a selection and the text is neither blank nor all zeros; the amount is the text's value, at most 1000000000 |
| Restock.AllZerosRefused | app/admin/inventory.tsx:116-119 | a text of zeros is refused as not positive |
| Restock.ZeroTextsRefused | app/admin/inventory.tsx:116-119 | "0" and "000" are refused as not positive |
| Restock.BlankRefused | app/admin/inventory.tsx:111-113 | a blank text or a missing selection is refused as a missing quantity |
| Restock.SignedTextThroughField | app/admin/inventory.tsx:34-46 | "-5" itself is refused, but the field stores "5", which adds 5 |
| Restock.LettersThroughField | app/admin/inventory.tsx:34-46 | letters leave the field blank, which is refused as a missing quantity |
| Restock.RestockExample | app/admin/inventory.tsx:116-134 | adding "50" to a record of 3 writes 53 |
| Restock.ApplyToRow | app/admin/inventory.tsx:127-134 | only a row with the written id changes, and only in quantity, restock date and last-updated |
| Restock.ApplyWrite | app/admin/inventory.tsx:127-134 | the update applied to every row of the table, keeping its length |
| Restock.WriteTouchesOneRow | app/admin/inventory.tsx:134 | with unique ids, the keyed update changes exactly the one row with that id |
| Restock.ReloadShowsRestock | app/admin/inventory.tsx:124-143 | after the write and the reload, the row shows the new quantity and dates and every other record reads as before |
| Restock.RestockKeepsItemCount | app/admin/inventory.tsx:127-143 | the keyed update and the reload leave the number of records unchanged |
| Restock.RestockRaisesTotal | app/admin/inventory.tsx:124-143 | when the selection is current, a restock raises the reloaded total stock by exactly the amount added |
| Restock.LaterWriteWins | app/admin/inventory.tsx:127-134 | two writes to one id: the later overwrites the earlier completely |
| Restock.LostUpdate | app/admin/inventory.tsx:124-134 | two restocks planned from the same snapshot leave snapshot + second amount, which is not snapshot + both amounts: the first amount is lost |
| AdminInventory.InventoryScreen.constructor | app/admin/inventory.tsx:23-32 | the initial value of every state field |
| AdminInventory.InventoryScreen.FetchInventory | app/admin/inventory.tsx:48-105 | on data the records become the normalised rows (null data as no rows) and the error clears; on failure the records stay and the error message is set; loading ends either way |
| AdminInventory.InventoryScreen.Retry | app/admin/inventory.tsx:230-233 | the reload counter goes up by one |
| AdminInventory.InventoryScreen.SelectCategory | app/admin/inventory.tsx:267-290 | the chosen pill becomes the selected category |
| AdminInventory.InventoryScreen.ChangeSearchQuery | app/admin/inventory.tsx:253-260 | the search text becomes what was typed |
| AdminInventory.InventoryScreen.OpenRestockModal | app/admin/inventory.tsx:159-163 | the record is selected, the quantity cleared and the dialog shown |
| AdminInventory.InventoryScreen.CloseRestockModal | app/admin/inventory.tsx:393-441 | only the dialog's visibility changes; the selection and the text stay |
| AdminInventory.InventoryScreen.ChangeRestockQuantity | app/admin/inventory.tsx:427-429 | the field holds the sanitised text, so it stays sanitised |
| AdminInventory.InventoryScreen.HandleRestock | app/admin/inventory.tsx:110-157 | follows the plan for the current selection and text: a refusal writes nothing and changes no field; an accepted restock issues exactly the planned write and ends not busy; on success it resets the dialog and bumps the reload counter, on failure or a thrown error it reports it and keeps the dialog |
| AdminInventory.InventoryScreen.SubmitRestock | app/admin/inventory.tsx:122-156 | the part after validation: success resets the dialog, requests a reload and reports the amount and ingredient; failure and thrown errors leave the dialog as it was; the busy flag is clear at the end |

## Left out

- The backend itself. The fetch's result and the update's outcome are inputs. The inner join on `product`, the `is_active` filter and the ordering by ingredient happen on the server and are not modelled. `isActive` is carried in the row but not used.
- Asynchrony. `useEffect`, `await` and React's batching of state updates are not modelled: each handler runs to completion in one step. Reloading after `retryTrigger` changes is shown as a separate `FetchInventory` call.
- The busy flag's effect on the dialog. The Cancel button is disabled while `restockLoading` is set. Because `HandleRestock` runs in one step, no cancel can happen during the write, so the flag is only stated to be clear at the end.
- Clocks. `new Date().toISOString()` is the parameter `now`, assumed non-empty. The two timestamps of one write are taken as equal.
- Rendering, styles, navigation, `Alert.alert` texts and the console logs. The alerts are the `Alert` datatype, with the texts as comments.
- QuantityInput.IsSpace: covers ASCII white space and the common Unicode spaces, not every character JavaScript's `trim` removes.
- Views.Lower: lower-cases ASCII letters only, not full Unicode case mapping.
- QuantityInput.ParseInt: `parseInt` on a digit run too long for a double (precision loss, `Infinity`) is not modelled. Integers are unbounded. The field caps entries at 1000000000, so the handler never sees such a run from the field.
- Records.NormalizeRow: `ingredient` is taken as a non-null string. The screen calls `toLowerCase` on it unguarded, so a null ingredient would crash the filter.
- Records.Normalize: one load time `now` stands for every row's missing `last_updated`, whereas the screen calls `new Date()` once per row, so its rows may get slightly different times.
- AdminInventory.InventoryScreen.HandleRestock: models the handler as callable in any state. In the screen, the Add Stock button exists only while a record is selected and is disabled while busy or while the trimmed text is blank, so the missing-quantity alert cannot be reached from the dialog.
- The search box's `maxLength` of 100 is a rendering limit and is not modelled.
- `utils/auth.ts` is not part of this model.
