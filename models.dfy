/** `MainBOMStorage` of app/models.py: one row of the main BOM table, its null-tolerant alias
    properties and the LRV-coverage arithmetic built on them. */
module Models {
  import opened Wrappers

  /** Python's `x or 0.0` on a nullable Float column: a null reads as 0.0. */
  function OrZero(x: Option<real>): (r: real)
    ensures x.None? ==> r == 0.0
    ensures x.Some? ==> r == x.value
  {
    x.GetOr(0.0)
  }

  /** Python's `s or default` on a nullable Text column: null and `""` are both falsy. */
  function OrDefault(s: Option<string>, default: string): (r: string)
    ensures s == None || s == Some("") ==> r == default
    ensures s.Some? && s.value != "" ==> r == s.value
  {
    if s.Some? && s.value != "" then s.value else default
  }

  /** The `lrv_coverage` rule: how many LRVs `stock` outfits at `perLrv` units each, and 0.0
      when the per-LRV quantity is not positive. */
  function Coverage(perLrv: real, stock: real): (r: real)
    ensures perLrv > 0.0 && stock >= 0.0 ==> r >= 0.0
    ensures perLrv <= 0.0 ==> r == 0.0
  {
    if perLrv > 0.0 then stock / perLrv else 0.0
  }

  /** Python's `int(x)` on a float: truncation toward zero. */
  function Trunc(x: real): (r: int)
    ensures x >= 0.0 ==> r as real <= x < r as real + 1.0
    ensures x < 0.0 ==> r as real - 1.0 < x <= r as real
  {
    if x >= 0.0 then x.Floor else -((-x).Floor)
  }

  /** With a positive per-LRV quantity, coverage times the per-LRV quantity is the stock. */
  lemma CoverageScales(perLrv: real, stock: real)
    requires perLrv > 0.0
    ensures Coverage(perLrv, stock) * perLrv == stock
  {
  }

  /** If `x` lies in `[c, c + 1)` and `k > 0`, then `s = x * k` lies in `[c * k, (c + 1) * k)`. */
  lemma ScaleBracket(c: real, x: real, k: real, s: real)
    requires k > 0.0 && c <= x < c + 1.0 && x * k == s
    ensures c * k <= s < (c + 1.0) * k
  {
    var below, above := x - c, c + 1.0 - x;
    assert below * k >= 0.0 && below * k == s - c * k;
    assert above * k > 0.0 && above * k == (c + 1.0) * k - s;
  }

  /** The integer coverage stored in `coverage_lrvs` brackets the stock: it is the number of
      complete LRV sets in stock. */
  lemma CoverageLrvsBracketsStock(perLrv: real, stock: real)
    requires perLrv > 0.0 && stock >= 0.0
    ensures var c := Trunc(Coverage(perLrv, stock)) as real;
            c * perLrv <= stock < (c + 1.0) * perLrv
  {
    var x := Coverage(perLrv, stock);
    CoverageScales(perLrv, stock);
    ScaleBracket(Trunc(x) as real, x, perLrv, stock);
  }

  /** The stored columns of one `main_bom_storage` row that the core reads or writes. */
  datatype Row = Row(
    partNumber: string,
    partName: Option<string>,
    supplier: Option<string>,
    description: Option<string>,
    partType: Option<string>,
    qtyNeededPerLrv: Option<real>,
    totalNeededFor233Lrv: Option<real>,
    totalQuantityReceivedByStore: Option<real>,
    quantityShippedOutByStore: Option<real>,
    quantityCurrentlyInStockAtStore: Option<real>,
    quantityBackOrdered: Option<real>,
    notes: Option<string>,
    coverageLrvs: Option<int>)
  {
    /** The `qty_per_lrv` alias. */
    function QtyPerLrv(): real { OrZero(qtyNeededPerLrv) }

    /** The `qty_current_stock` alias. */
    function QtyCurrentStock(): real { OrZero(quantityCurrentlyInStockAtStore) }

    /** The `qty_shipped_out` alias. */
    function QtyShippedOut(): real { OrZero(quantityShippedOutByStore) }

    /** The `lrv_coverage` property. */
    function LrvCoverage(): real { Coverage(QtyPerLrv(), QtyCurrentStock()) }

    /** The row after `calculate_lrv_coverage()`: `coverage_lrvs` holds the truncated coverage,
        every other column is as before. */
    function Recomputed(): (r: Row)
      ensures r == this.(coverageLrvs := r.coverageLrvs)
      ensures r.coverageLrvs == Some(Trunc(LrvCoverage()))
    {
      this.(coverageLrvs := Some(Trunc(LrvCoverage())))
    }
  }

  /** `MainBOMStorage()` with only its part number set: every other column is null. */
  function FreshRow(partNumber: string): (r: Row)
    ensures r.partNumber == partNumber && r.notes.None? && r.coverageLrvs.None?
  {
    Row(partNumber, None, None, None, None, None, None, None, None, None, None, None, None)
  }

  /** A `main_bom_storage` row as an object of the ORM session. */
  class Part {
    var partNumber: string
    var partName: Option<string>
    var supplier: Option<string>
    var description: Option<string>
    var partType: Option<string>
    var qtyNeededPerLrv: Option<real>
    var totalNeededFor233Lrv: Option<real>
    var totalQuantityReceivedByStore: Option<real>
    var quantityShippedOutByStore: Option<real>
    var quantityCurrentlyInStockAtStore: Option<real>
    var quantityBackOrdered: Option<real>
    var notes: Option<string>
    var coverageLrvs: Option<int>

    /** `MainBOMStorage()` followed by setting `part_number`: every other column is null. */
    constructor (partNumber: string)
      ensures Snapshot() == FreshRow(partNumber)
    {
      this.partNumber := partNumber;
      partName, supplier, description, partType, notes := None, None, None, None, None;
      qtyNeededPerLrv, totalNeededFor233Lrv, totalQuantityReceivedByStore := None, None, None;
      quantityShippedOutByStore, quantityCurrentlyInStockAtStore := None, None;
      quantityBackOrdered, coverageLrvs := None, None;
    }

    /** The row this object holds. */
    function Snapshot(): Row
      reads this
    {
      Row(partNumber, partName, supplier, description, partType, qtyNeededPerLrv,
          totalNeededFor233Lrv, totalQuantityReceivedByStore, quantityShippedOutByStore,
          quantityCurrentlyInStockAtStore, quantityBackOrdered, notes, coverageLrvs)
    }

    /** `qty_per_lrv` (models.py:43-46). */
    function QtyPerLrv(): real
      reads this
    {
      OrZero(qtyNeededPerLrv)
    }

    /** `qty_current_stock` (models.py:48-51). */
    function QtyCurrentStock(): real
      reads this
    {
      OrZero(quantityCurrentlyInStockAtStore)
    }

    /** `qty_on_site` (models.py:53-56): it reads the received-by-store column. */
    function QtyOnSite(): real
      reads this
    {
      OrZero(totalQuantityReceivedByStore)
    }

    /** `qty_shipped_out` (models.py:58-61). */
    function QtyShippedOut(): real
      reads this
    {
      OrZero(quantityShippedOutByStore)
    }

    /** `back_order_qty` (models.py:63-66). */
    function BackOrderQty(): real
      reads this
    {
      OrZero(quantityBackOrdered)
    }

    /** `lrv_coverage` (models.py:68-73). */
    function LrvCoverage(): (r: real)
      reads this
      ensures r == Snapshot().LrvCoverage()
      ensures QtyPerLrv() <= 0.0 ==> r == 0.0
      ensures QtyPerLrv() > 0.0 && QtyCurrentStock() >= 0.0 ==> r >= 0.0
    {
      Coverage(QtyPerLrv(), QtyCurrentStock())
    }

    /** `consumable_or_essential` (models.py:75-78): the type, or 'Long Lead' when the type is
        null or empty. */
    function ConsumableOrEssential(): (r: string)
      reads this
      ensures partType.None? || partType == Some("") ==> r == "Long Lead"
      ensures partType.Some? && partType.value != "" ==> r == partType.value
      ensures r != ""
    {
      OrDefault(partType, "Long Lead")
    }

    /** `calculate_lrv_coverage()` (models.py:85-94): returns the coverage and stores its
        truncation in `coverage_lrvs`; nothing else changes. */
    method CalculateLrvCoverage() returns (coverage: real)
      modifies this`coverageLrvs
      ensures coverage == LrvCoverage()
      ensures Snapshot() == old(Snapshot()).Recomputed()
    {
      if QtyPerLrv() > 0.0 {
        coverage := QtyCurrentStock() / QtyPerLrv();
        coverageLrvs := Some(Trunc(coverage));
      } else {
        coverageLrvs := Some(0);
        coverage := 0.0;
      }
    }

    /** `calculate_needed_for_trains(num_trains)` (models.py:96-98). */
    function CalculateNeededForTrains(numTrains: int): (r: real)
      reads this
      ensures qtyNeededPerLrv.None? ==> r == 0.0
      ensures qtyNeededPerLrv.Some? ==> r == qtyNeededPerLrv.value * numTrains as real
    {
      QtyPerLrv() * numTrains as real
    }

    /** `is_low_stock(threshold_trains=10)` (models.py:100-102). An empty part is low on stock
        for every positive threshold, and so is a part without a positive per-LRV quantity,
        whose coverage is 0. */
    predicate IsLowStock(thresholdTrains: real := 10.0): (r: bool)
      reads this
      ensures QtyCurrentStock() <= 0.0 && thresholdTrains > 0.0 ==> r
      ensures QtyPerLrv() <= 0.0 ==> (r <==> thresholdTrains > 0.0)
    {
      LrvCoverage() < thresholdTrains
    }
  }

  /** Recomputing the coverage is idempotent: a second call stores and returns the same. */
  lemma RecomputedIdempotent(r: Row)
    ensures r.Recomputed().Recomputed() == r.Recomputed()
    ensures r.Recomputed().LrvCoverage() == r.LrvCoverage()
  {
  }

  /** With a positive per-LRV quantity, a part is low on stock exactly when its stock is
      less than `threshold` LRVs' worth. */
  lemma LowStockIffBelowThreshold(p: Part, threshold: real)
    requires p.QtyPerLrv() > 0.0
    ensures p.IsLowStock(threshold) <==> p.QtyCurrentStock() < threshold * p.QtyPerLrv()
  {
    var c := p.LrvCoverage();
    var q := p.QtyPerLrv();
    CoverageScales(q, p.QtyCurrentStock());
    if c < threshold {
      assert (threshold - c) * q > 0.0;
    } else {
      assert (c - threshold) * q >= 0.0;
    }
  }
}
