/**
 * The views derived on every render from the loaded records: the low-stock
 * list and the summary numbers, the category pills, and the list filtered by
 * category and search text.
 */
module Views {
  import opened Records
  import opened StockStatus

  /** The category value that means "every category". */
  const AllCategories: string := "All"

  // ---------------------------------------------------------------------------
  // Order-preserving selection (Array.prototype.filter)

  /** `a` is `b` with some elements left out and the rest in their original order. */
  predicate IsSubsequence<T(==)>(a: seq<T>, b: seq<T>) {
    if a == [] then true
    else if b == [] then false
    else (a[0] == b[0] && IsSubsequence(a[1..], b[1..])) || IsSubsequence(a, b[1..])
  }

  /** The elements of `s` that satisfy `p`, in order. */
  function Filter<T(==,!new)>(s: seq<T>, p: T -> bool): (r: seq<T>)
    ensures IsSubsequence(r, s)
    ensures forall x :: x in r <==> x in s && p(x)
    ensures (forall i :: 0 <= i < |s| ==> p(s[i])) ==> r == s
  {
    if s == [] then []
    else if p(s[0]) then [s[0]] + Filter(s[1..], p)
    else Filter(s[1..], p)
  }

  /** Filtering by a stronger condition keeps a subsequence of what the weaker one keeps. */
  lemma {:induction false} FilterStronger<T(!new)>(s: seq<T>, p: T -> bool, q: T -> bool)
    requires forall x :: p(x) ==> q(x)
    ensures IsSubsequence(Filter(s, p), Filter(s, q))
  {
    if s != [] {
      FilterStronger(s[1..], p, q);
      if p(s[0]) {
        assert Filter(s, p)[1..] == Filter(s[1..], p);
        assert Filter(s, q)[1..] == Filter(s[1..], q);
      } else if q(s[0]) {
        var r := Filter(s, p);
        if r != [] {
          assert Filter(s, q)[1..] == Filter(s[1..], q);
        }
      }
    }
  }

  /** The number of elements of `s` that satisfy `p`. */
  function Count<T>(s: seq<T>, p: T -> bool): (n: nat)
    ensures n <= |s|
  {
    if s == [] then 0 else (if p(s[0]) then 1 else 0) + Count(s[1..], p)
  }

  /** Filter keeps exactly as many elements as satisfy the condition. */
  lemma {:induction false} FilterLength<T(!new)>(s: seq<T>, p: T -> bool)
    ensures |Filter(s, p)| == Count(s, p)
  {
    if s != [] {
      FilterLength(s[1..], p);
    }
  }

  // ---------------------------------------------------------------------------
  // Summary

  predicate IsLowStock(item: InventoryItem) {
    AtOrBelowThreshold(item.quantityInStock, item.minimumThreshold)
  }

  /** `lowStockItems`: the records at or below their minimum, in list order. */
  function LowStockItems(items: seq<InventoryItem>): (low: seq<InventoryItem>)
    ensures IsSubsequence(low, items)
    ensures forall x :: x in low <==> x in items && x.quantityInStock <= x.minimumThreshold
    ensures forall x :: x in low <==> x in items && Classify(x.quantityInStock, x.minimumThreshold) == Low
  {
    Filter(items, IsLowStock)
  }

  /** `totalItems`: every record counts once, and the low-stock records are among them. */
  function TotalItems(items: seq<InventoryItem>): (n: nat)
    ensures n == 0 <==> items == []
    ensures |LowStockItems(items)| <= n
  {
    FilterLength(items, IsLowStock);
    |items|
  }

  /** `totalValue`: `reduce((sum, item) => sum + item.quantity_in_stock, 0)`, a left fold. */
  function TotalValue(items: seq<InventoryItem>): (total: int)
    ensures (forall i :: 0 <= i < |items| ==> items[i].quantityInStock >= 0) ==> total >= 0
  {
    if items == [] then 0
    else TotalValue(items[..|items| - 1]) + items[|items| - 1].quantityInStock
  }

  /** The total of a concatenation is the sum of the totals. */
  lemma {:induction false} TotalValueAppend(a: seq<InventoryItem>, b: seq<InventoryItem>)
    ensures TotalValue(a + b) == TotalValue(a) + TotalValue(b)
    decreases |b|
  {
    if b != [] {
      var b' := b[..|b| - 1];
      assert (a + b)[..|a + b| - 1] == a + b';
      assert (a + b)[|a + b| - 1] == b[|b| - 1];
      TotalValueAppend(a, b');
    } else {
      assert a + b == a;
    }
  }

  /** Replacing one record changes the total by exactly the change in that record's quantity. */
  lemma TotalValueReplace(items: seq<InventoryItem>, k: int, item: InventoryItem)
    requires 0 <= k < |items|
    ensures TotalValue(items[k := item]) == TotalValue(items) - items[k].quantityInStock + item.quantityInStock
  {
    var pre, post := items[..k], items[k + 1..];
    assert items == pre + [items[k]] + post;
    assert items[k := item] == pre + [item] + post;
    TotalValueAppend(pre + [items[k]], post);
    TotalValueAppend(pre + [item], post);
    TotalValueAppend(pre, [items[k]]);
    TotalValueAppend(pre, [item]);
    assert TotalValue([item]) == item.quantityInStock by {
      assert [item][..0] == [];
    }
    assert TotalValue([items[k]]) == items[k].quantityInStock by {
      assert [items[k]][..0] == [];
    }
  }

  /** The summary of two records, one low and one not. */
  lemma SummaryExample(a: InventoryItem, b: InventoryItem)
    requires a.quantityInStock == 3 && a.minimumThreshold == 10
    requires b.quantityInStock == 20 && b.minimumThreshold == 10
    ensures LowStockItems([a, b]) == [a]
    ensures TotalItems([a, b]) == 2
    ensures TotalValue([a, b]) == 23
  {
    assert [a, b][1..] == [b];
    assert [b][1..] == [];
    assert Filter([b], IsLowStock) == [];
    assert [a, b][..1] == [a];
    assert [a][..0] == [];
    assert TotalValue([a]) == 3;
  }

  // ---------------------------------------------------------------------------
  // Categories

  /** `item.category_name || "Uncategorized"`. */
  function CategoryLabel(item: InventoryItem): (tag: string)
    ensures tag != ""
    ensures item.categoryName != "" ==> tag == item.categoryName
    ensures item.categoryName == "" ==> tag == Uncategorized
  {
    if item.categoryName == "" then Uncategorized else item.categoryName
  }

  /** On normalised records the fallback never fires: the label is the category name itself. */
  lemma CategoryLabelOfNormalized(item: InventoryItem)
    requires Normalized(item)
    ensures CategoryLabel(item) == item.categoryName
  {
  }

  /** The labels of all records, in list order (the `.map` inside `new Set(…)`). */
  function Labels(items: seq<InventoryItem>): (labels: seq<string>)
    ensures |labels| == |items|
    ensures forall i :: 0 <= i < |items| ==> labels[i] == CategoryLabel(items[i])
  {
    seq(|items|, i requires 0 <= i < |items| => CategoryLabel(items[i]))
  }

  predicate NoDuplicates<T(==)>(s: seq<T>) {
    forall i, j :: 0 <= i < j < |s| ==> s[i] != s[j]
  }

  /** Where `x` first occurs in `s` (|s| when it does not). */
  function FirstIndex<T(==)>(s: seq<T>, x: T): (k: nat)
    ensures k <= |s|
    ensures k < |s| <==> x in s
    ensures k < |s| ==> s[k] == x && x !in s[..k]
  {
    if s == [] then 0
    else if s[0] == x then 0
    else
      assert s[1..][..FirstIndex(s[1..], x)] == s[1..FirstIndex(s[1..], x) + 1];
      1 + FirstIndex(s[1..], x)
  }

  /** `Array.from(new Set(s))`: each value once, in the order of its first occurrence. */
  function Distinct<T(==,!new)>(s: seq<T>): (r: seq<T>)
    ensures NoDuplicates(r)
    ensures forall x :: x in r <==> x in s
    ensures forall i, j :: 0 <= i < j < |r| ==> FirstIndex(s, r[i]) < FirstIndex(s, r[j])
  {
    if s == [] then []
    else
      var init := s[..|s| - 1];
      var last := s[|s| - 1];
      var prefix := Distinct(init);
      FirstIndexInPrefix(s, |s| - 1);
      if last in prefix then prefix else prefix + [last]
  }

  /** For values occurring in the first n elements, their first index is the same in s and in that prefix. */
  lemma FirstIndexInPrefix<T>(s: seq<T>, n: nat)
    requires n <= |s|
    ensures forall x :: x in s[..n] ==> FirstIndex(s, x) == FirstIndex(s[..n], x)
    ensures forall x :: x in s && x !in s[..n] ==> FirstIndex(s, x) >= n
  {
    forall x | x in s
      ensures x in s[..n] ==> FirstIndex(s, x) == FirstIndex(s[..n], x)
      ensures x !in s[..n] ==> FirstIndex(s, x) >= n
    {
      FirstIndexInPrefixOne(s, n, x);
    }
  }

  /** FirstIndexInPrefix for one value, by induction on the sequence. */
  lemma {:induction false} FirstIndexInPrefixOne<T>(s: seq<T>, n: nat, x: T)
    requires n <= |s|
    ensures x in s[..n] ==> FirstIndex(s, x) == FirstIndex(s[..n], x)
    ensures x !in s[..n] ==> FirstIndex(s, x) >= n
  {
    if n > 0 {
      var t := s[..n];
      if s[0] == x {
        assert t[0] == x;
      } else {
        assert t[1..] == s[1..][..n - 1];
        FirstIndexInPrefixOne(s[1..], n - 1, x);
        assert x in t <==> x in t[1..];
        assert FirstIndex(s, x) == 1 + FirstIndex(s[1..], x);
        if x in t {
          assert FirstIndex(t, x) == 1 + FirstIndex(t[1..], x);
        }
      }
    }
  }

  /** `categoryNames`: the distinct category labels, in order of first appearance. */
  function CategoryNames(items: seq<InventoryItem>): (names: seq<string>)
    ensures NoDuplicates(names)
    ensures forall x :: x in names <==> exists i :: 0 <= i < |items| && CategoryLabel(items[i]) == x
    ensures forall i, j :: 0 <= i < j < |names| ==> FirstIndex(Labels(items), names[i]) < FirstIndex(Labels(items), names[j])
  {
    var labels := Labels(items);
    assert forall x :: x in labels <==> exists i :: 0 <= i < |items| && CategoryLabel(items[i]) == x by {
      forall x | x in labels ensures exists i :: 0 <= i < |items| && CategoryLabel(items[i]) == x {
        var i :| 0 <= i < |labels| && labels[i] == x;
        assert CategoryLabel(items[i]) == x;
      }
    }
    Distinct(labels)
  }

  /** The category pills in the order they are drawn: "All" first, then every category name. */
  function CategoryPills(items: seq<InventoryItem>): (pills: seq<string>)
    ensures |pills| == |CategoryNames(items)| + 1
    ensures pills[0] == AllCategories && pills[1..] == CategoryNames(items)
  {
    [AllCategories] + CategoryNames(items)
  }

  /**
   * The pills are all different exactly when no record's category label is
   * "All"; a category named "All" gets a second "All" pill.
   */
  lemma PillsDistinct(items: seq<InventoryItem>)
    ensures NoDuplicates(CategoryPills(items)) <==>
      forall i :: 0 <= i < |items| ==> CategoryLabel(items[i]) != AllCategories
  {
    var names := CategoryNames(items);
    var pills := CategoryPills(items);
    if forall i :: 0 <= i < |items| ==> CategoryLabel(items[i]) != AllCategories {
      assert AllCategories !in names;
      forall i, j | 0 <= i < j < |pills| ensures pills[i] != pills[j] {
        assert pills[j] == names[j - 1];
        if i > 0 {
          assert pills[i] == names[i - 1];
        }
      }
    } else {
      var i :| 0 <= i < |items| && CategoryLabel(items[i]) == AllCategories;
      assert AllCategories in names;
      var k :| 0 <= k < |names| && names[k] == AllCategories;
      assert pills[0] == pills[k + 1];
    }
  }

  /** Records tagged Drinks, Drinks, Food give the categories Drinks and Food, in that order. */
  lemma CategoryNamesExample(a: InventoryItem, b: InventoryItem, c: InventoryItem)
    requires a.categoryName == "Drinks" && b.categoryName == "Drinks" && c.categoryName == "Food"
    ensures CategoryNames([a, b, c]) == ["Drinks", "Food"]
  {
    var labels := Labels([a, b, c]);
    assert labels == ["Drinks", "Drinks", "Food"];
    assert labels[..2] == ["Drinks", "Drinks"];
    assert labels[..2][..1] == ["Drinks"];
    assert labels[..2][..1][..0] == [];
    assert Distinct(labels[..2][..1]) == ["Drinks"];
    assert Distinct(labels[..2]) == ["Drinks"];
    assert Distinct(labels) == ["Drinks", "Food"];
  }

  // ---------------------------------------------------------------------------
  // Search and category filter

  /** ASCII lower-casing of one character. */
  function LowerChar(c: char): char {
    if 'A' <= c <= 'Z' then (c as int + 32) as char else c
  }

  /** `toLowerCase`, on the ASCII letters. */
  function Lower(s: string): (r: string)
    ensures |r| == |s|
    ensures forall i :: 0 <= i < |s| ==> r[i] == LowerChar(s[i])
  {
    seq(|s|, i requires 0 <= i < |s| => LowerChar(s[i]))
  }

  /** `part` occurs in `text` starting at position k. */
  predicate OccursAt(text: string, part: string, k: int) {
    0 <= k && k + |part| <= |text| && text[k..k + |part|] == part
  }

  /** `text.includes(part)`: `part` occurs in `text` at some position. */
  predicate Contains(text: string, part: string): (b: bool)
    ensures part == [] ==> b
    ensures text == part ==> b
    ensures b ==> |part| <= |text|
  {
    assert part == [] || text == part ==> OccursAt(text, part, 0);
    exists k | 0 <= k <= |text| - |part| :: OccursAt(text, part, k)
  }

  /** The filter's condition for one record. */
  predicate Matches(item: InventoryItem, category: string, search: string) {
    && (category == AllCategories || item.categoryName == category)
    && Contains(Lower(item.ingredient), Lower(search))
  }

  /** `filteredInventory`: the records in the chosen category whose ingredient contains the search text. */
  function FilterInventory(items: seq<InventoryItem>, category: string, search: string): (shown: seq<InventoryItem>)
    ensures IsSubsequence(shown, items)
    ensures forall x :: x in shown <==> x in items && Matches(x, category, search)
  {
    Filter(items, x => Matches(x, category, search))
  }

  /** With category "All" and an empty search the whole list is shown, unchanged. */
  lemma FilterAllEmptyIsIdentity(items: seq<InventoryItem>)
    ensures FilterInventory(items, AllCategories, "") == items
  {
    forall i | 0 <= i < |items| ensures Matches(items[i], AllCategories, "") {
      assert OccursAt(Lower(items[i].ingredient), Lower(""), 0);
    }
  }

  /** Every record shown under a category other than "All" belongs to that category. */
  lemma FilterByCategory(items: seq<InventoryItem>, category: string, search: string)
    requires category != AllCategories
    ensures forall x :: x in FilterInventory(items, category, search) ==> x.categoryName == category
  {
  }

  /**
   * Selecting a pill other than "All", with an empty search, shows exactly the
   * records of that category, in their order; a category literally named "All"
   * can therefore never be shown on its own.
   */
  lemma SelectPillShowsCategory(items: seq<InventoryItem>, pill: string)
    requires pill != AllCategories
    ensures IsSubsequence(FilterInventory(items, pill, ""), items)
    ensures forall x :: x in FilterInventory(items, pill, "") <==> x in items && x.categoryName == pill
  {
    assert Lower("") == "";
  }

  /** A part of a part of a text is a part of the text. */
  lemma ContainsTransitive(text: string, mid: string, part: string)
    requires Contains(text, mid) && Contains(mid, part)
    ensures Contains(text, part)
  {
    var k :| 0 <= k <= |text| - |mid| && OccursAt(text, mid, k);
    var j :| 0 <= j <= |mid| - |part| && OccursAt(mid, part, j);
    forall i | 0 <= i < |part| ensures text[k + j + i] == part[i] {
      assert part[i] == mid[j + i];
    }
    assert OccursAt(text, part, k + j);
  }

  /** Lower-casing distributes over concatenation. */
  lemma LowerAppend(a: string, b: string)
    ensures Lower(a + b) == Lower(a) + Lower(b)
  {
  }

  /** Typing more search text only narrows the list: the new list is a subsequence of the old one. */
  lemma SearchNarrows(items: seq<InventoryItem>, category: string, search: string, more: string)
    ensures IsSubsequence(FilterInventory(items, category, search + more), FilterInventory(items, category, search))
  {
    var p := x => Matches(x, category, search + more);
    var q := x => Matches(x, category, search);
    forall x | p(x) ensures q(x) {
      LowerAppend(search, more);
      var t := Lower(search + more);
      assert OccursAt(t, Lower(search), 0);
      ContainsTransitive(Lower(x.ingredient), t, Lower(search));
    }
    FilterStronger(items, p, q);
  }
}
