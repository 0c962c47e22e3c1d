/** The severity tier of a stock level and the colour each tier is drawn in. */
module StockStatus {

  datatype Status = Low | Medium | High

  /** The one "at or below the minimum" test, shared by the Low tier and the low-stock list. */
  predicate AtOrBelowThreshold(stock: int, threshold: int) {
    stock <= threshold
  }

  /** `getStockStatus(stock, threshold)`. */
  function Classify(stock: int, threshold: int): (s: Status)
    ensures s == Low <==> stock <= threshold
    ensures s == Medium <==> threshold < stock <= 2 * threshold
    ensures s == High <==> stock > threshold && stock > 2 * threshold
  {
    if AtOrBelowThreshold(stock, threshold) then Low
    else if stock <= threshold * 2 then Medium
    else High
  }

  /** The string `getStockStatus` returns for each tier. */
  function Label(s: Status): (tag: string)
    ensures tag != ""
    ensures StockColor(tag) == (match s case Low => Red case Medium => Amber case High => Green)
  {
    match s
    case Low => "low"
    case Medium => "medium"
    case High => "high"
  }

  const Red: string := "#EF4444"
  const Amber: string := "#F59E0B"
  const Green: string := "#10B981"
  const Grey: string := "#6B7280"

  /** `getStockColor(status)`: a colour per known label, grey for anything else. */
  function StockColor(status: string): (color: string)
    ensures color == Grey <==> status !in {"low", "medium", "high"}
  {
    if status == "low" then Red
    else if status == "medium" then Amber
    else if status == "high" then Green
    else Grey
  }

  /** Position of a tier in the order Low < Medium < High. */
  function Rank(s: Status): nat {
    match s
    case Low => 0
    case Medium => 1
    case High => 2
  }

  // ---------------------------------------------------------------------------
  // Lemmas

  /** Every tier is drawn in its own colour, and never in the fallback grey. */
  lemma ColorsDistinguishTiers(s: Status, t: Status)
    ensures StockColor(Label(s)) != Grey
    ensures StockColor(Label(s)) == StockColor(Label(t)) <==> s == t
  {
  }

  /**
   * The colour a stock level is drawn in: red at or below the threshold, amber
   * up to twice the threshold, green above that.
   */
  lemma TierColor(stock: int, threshold: int)
    ensures StockColor(Label(Classify(stock, threshold)))
      == (if stock <= threshold then Red else if stock <= 2 * threshold then Amber else Green)
  {
    var s := Classify(stock, threshold);
    assert StockColor(Label(s)) == (match s case Low => Red case Medium => Amber case High => Green);
  }

  /** With a zero threshold, an empty stock is Low, any positive stock is High, and Medium never occurs. */
  lemma ZeroThreshold(stock: int)
    requires stock >= 0
    ensures Classify(stock, 0) == (if stock == 0 then Low else High)
    ensures Classify(stock, 0) != Medium
  {
  }

  /** The Medium tier is reachable exactly when the threshold is positive. */
  lemma MediumReachable(threshold: int)
    ensures (exists stock :: Classify(stock, threshold) == Medium) <==> threshold > 0
  {
    if threshold > 0 {
      assert Classify(threshold + 1, threshold) == Medium;
    }
  }

  /** More stock never gives a more severe tier. */
  lemma ClassifyMonotone(stock: int, more: int, threshold: int)
    requires stock <= more
    ensures Rank(Classify(stock, threshold)) <= Rank(Classify(more, threshold))
  {
  }

  /** The boundaries: equal to the threshold is Low, equal to twice the threshold is Medium. */
  lemma Boundaries(threshold: int)
    requires threshold > 0
    ensures Classify(threshold, threshold) == Low
    ensures Classify(threshold + 1, threshold) == Medium
    ensures Classify(2 * threshold, threshold) == Medium
    ensures Classify(2 * threshold + 1, threshold) == High
  {
  }
}
