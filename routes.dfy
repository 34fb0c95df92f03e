/** The stock logic of the views in app/routes.py, over a catalog of `main_bom_storage` rows.

    The handlers `delivery_log`, `stock_adjustment`, `export_shipment` and `add_part` change
    rows in place; they are methods of `Inventory`, each tied to a pure function on rows that
    says what one step does. The calculator, autocomplete and dashboard only read the catalog.

    As written, app/routes.py:129, 169, 171, 339 and 340 assign to the read-only `@property`
    aliases `qty_current_stock` and `qty_shipped_out` (app/models.py:48-61), which raises
    `AttributeError`; the model applies the arithmetic those lines state to the stored columns
    the aliases read. Likewise `add_part` (app/routes.py:291-303) passes the aliases and a
    keyword `total_needed_233_lrv` that names no column; the model stores each value in the
    column it evidently means.

    `export_shipment` stamps the division with `datetime.utcnow()` (app/routes.py:353), but
    the module never imports `datetime`: as written each shipment ends in `NameError`, which
    the catch-all handler turns into a rollback. The model commits the shipment and leaves
    the timestamp out. */
module Routes {
  import opened Wrappers
  import opened PyText
  import opened Models
  import opened Forms

  // ---------------------------------------------------------------------------------------
  // Looking a part up by number

  /** No two rows share a part number (the `unique=True` constraint of `part_number`). */
  predicate UniquePartNumbers(rows: seq<Row>) {
    forall i, j :: 0 <= i < j < |rows| ==> rows[i].partNumber != rows[j].partNumber
  }

  /** `filter_by(part_number=pn).first()`: the position of the first row with that number. */
  function IndexOf(rows: seq<Row>, pn: string): (r: Option<nat>)
    ensures r.Some? ==> r.value < |rows| && rows[r.value].partNumber == pn
    ensures r.Some? ==> forall k :: 0 <= k < r.value ==> rows[k].partNumber != pn
    ensures r.None? <==> forall k :: 0 <= k < |rows| ==> rows[k].partNumber != pn
  {
    if rows == [] then None
    else if rows[0].partNumber == pn then Some(0)
    else match IndexOf(rows[1..], pn)
      case None => None
      case Some(k) => Some(k + 1)
  }

  /** Replacing a row by one with the same part number keeps the numbers unique. */
  lemma UniqueAfterUpdate(rows: seq<Row>, i: nat, r: Row)
    requires UniquePartNumbers(rows) && i < |rows| && r.partNumber == rows[i].partNumber
    ensures UniquePartNumbers(rows[i := r])
  {
  }

  /** With unique part numbers, the row found is the only one with that number. */
  lemma IndexOfUnique(rows: seq<Row>, pn: string, k: nat)
    requires UniquePartNumbers(rows) && k < |rows| && rows[k].partNumber == pn
    ensures IndexOf(rows, pn) == Some(k)
  {
  }

  // ---------------------------------------------------------------------------------------
  // One row at a time: what the handlers do to the part they found

  /** `max(0.0, x)`. */
  function Max0(x: real): (r: real)
    ensures r >= 0.0 && r >= x && (r == 0.0 || r == x)
  {
    if 0.0 >= x then 0.0 else x
  }

  /** The row after `delivery_log` (app/routes.py:128-130): the received quantity is added to
      the stock (a null stock counts as 0) and the coverage is recomputed. */
  function Delivered(r: Row, quantity: real): (d: Row)
    ensures d.QtyCurrentStock() == r.QtyCurrentStock() + quantity
    ensures d.coverageLrvs == Some(Trunc(d.LrvCoverage()))
    ensures d == r.(quantityCurrentlyInStockAtStore := d.quantityCurrentlyInStockAtStore,
                    coverageLrvs := d.coverageLrvs)
  {
    r.(quantityCurrentlyInStockAtStore := Some(r.QtyCurrentStock() + quantity)).Recomputed()
  }

  /** The row after `stock_adjustment` (app/routes.py:167-174): `'increase'` adds the
      quantity; any other type takes it away, but never below zero. */
  function Adjusted(r: Row, adjustmentType: string, quantity: real): (a: Row)
    ensures adjustmentType == "increase" ==>
              a.QtyCurrentStock() == r.QtyCurrentStock() + quantity
    ensures adjustmentType != "increase" ==>
              a.QtyCurrentStock() == Max0(r.QtyCurrentStock() - quantity)
    ensures a.coverageLrvs == Some(Trunc(a.LrvCoverage()))
    ensures a == r.(quantityCurrentlyInStockAtStore := a.quantityCurrentlyInStockAtStore,
                    coverageLrvs := a.coverageLrvs)
  {
    var current := r.QtyCurrentStock();
    var stock := if adjustmentType == "increase" then current + quantity
                 else Max0(current - quantity);
    r.(quantityCurrentlyInStockAtStore := Some(stock)).Recomputed()
  }

  /** A decrease leaves a non-negative stock whatever the stock was, and takes exactly the
      quantity when there is that much. */
  lemma DecreaseNeverNegative(r: Row, adjustmentType: string, quantity: real)
    requires adjustmentType != "increase"
    ensures Adjusted(r, adjustmentType, quantity).QtyCurrentStock() >= 0.0
    ensures r.QtyCurrentStock() >= quantity ==>
              Adjusted(r, adjustmentType, quantity).QtyCurrentStock()
                == r.QtyCurrentStock() - quantity
    ensures r.QtyCurrentStock() < quantity ==>
              Adjusted(r, adjustmentType, quantity).QtyCurrentStock() == 0.0
  {
  }

  /** An increase followed by a decrease of the same quantity restores a non-negative stock. */
  lemma IncreaseThenDecrease(r: Row, quantity: real)
    requires r.QtyCurrentStock() >= 0.0 && quantity >= 0.0
    ensures Adjusted(Adjusted(r, "increase", quantity), "decrease", quantity).QtyCurrentStock()
              == r.QtyCurrentStock()
  {
  }

  /** The row after one applied shipment item (app/routes.py:339-341): the quantity moves from
      stock to shipped-out and the coverage is recomputed. */
  function Shipped(r: Row, quantity: real): (s: Row)
    ensures s.QtyCurrentStock() == r.QtyCurrentStock() - quantity
    ensures s.QtyShippedOut() == r.QtyShippedOut() + quantity
    ensures s.coverageLrvs == Some(Trunc(s.LrvCoverage()))
    ensures s == r.(quantityCurrentlyInStockAtStore := s.quantityCurrentlyInStockAtStore,
                    quantityShippedOutByStore := s.quantityShippedOutByStore,
                    coverageLrvs := s.coverageLrvs)
  {
    r.(quantityCurrentlyInStockAtStore := Some(r.QtyCurrentStock() - quantity),
       quantityShippedOutByStore := Some(r.QtyShippedOut() + quantity)).Recomputed()
  }

  // ---------------------------------------------------------------------------------------
  // The shipment loop as a function of the rows and the items

  /** One entry of the posted shipment list. `part_number` may be absent; the quantity is
      taken after `float()`. */
  datatype ShipmentItem = ShipmentItem(partNumber: Option<string>, quantity: real)

  /** One pass of the loop body (app/routes.py:329-344): the new rows, and whether the item
      was shipped. An item is skipped when its quantity is not positive, when no part has its
      number, or when the part has less stock than the quantity. */
  function ShipItem(rows: seq<Row>, item: ShipmentItem): (seq<Row>, bool) {
    if item.quantity <= 0.0 || item.partNumber.None? then (rows, false)
    else match IndexOf(rows, item.partNumber.value)
      case None => (rows, false)
      case Some(i) =>
        if rows[i].QtyCurrentStock() >= item.quantity then
          (rows[i := Shipped(rows[i], item.quantity)], true)
        else (rows, false)
  }

  /** The loop over all items: the rows at the end and `total_shipped`. */
  function ShipAll(rows: seq<Row>, items: seq<ShipmentItem>): (r: (seq<Row>, nat))
    ensures |r.0| == |rows| && r.1 <= |items|
  {
    if items == [] then (rows, 0)
    else
      var (before, count) := ShipAll(rows, items[..|items| - 1]);
      var (after, shipped) := ShipItem(before, items[|items| - 1]);
      (after, if shipped then count + 1 else count)
  }

  /** One more item is one more step of the loop. */
  lemma ShipAllStep(rows: seq<Row>, items: seq<ShipmentItem>, j: nat)
    requires j < |items|
    ensures var (before, count) := ShipAll(rows, items[..j]);
            var (after, shipped) := ShipItem(before, items[j]);
            ShipAll(rows, items[..j + 1]) == (after, if shipped then count + 1 else count)
  {
    assert items[..j + 1][..j] == items[..j] && items[..j + 1][j] == items[j];
  }

  /** What one item conserves: the same part numbers, and for every row the stock plus the
      shipped-out quantity; a non-negative stock stays non-negative. */
  lemma ShipItemConserves(rows: seq<Row>, item: ShipmentItem)
    ensures var after := ShipItem(rows, item).0;
            && |after| == |rows|
            && (forall k :: 0 <= k < |rows| ==> after[k].partNumber == rows[k].partNumber)
            && (forall k :: 0 <= k < |rows| ==>
                  after[k].QtyCurrentStock() + after[k].QtyShippedOut()
                    == rows[k].QtyCurrentStock() + rows[k].QtyShippedOut())
            && (forall k :: 0 <= k < |rows| && rows[k].QtyCurrentStock() >= 0.0 ==>
                  after[k].QtyCurrentStock() >= 0.0)
  {
  }

  /** A shipped item lowers exactly one part's stock by its quantity. */
  lemma ShipItemApplied(rows: seq<Row>, item: ShipmentItem)
    requires ShipItem(rows, item).1
    ensures item.quantity > 0.0 && item.partNumber.Some?
    ensures var i := IndexOf(rows, item.partNumber.value);
            && i.Some? && rows[i.value].QtyCurrentStock() >= item.quantity
            && ShipItem(rows, item).0 == rows[i.value := Shipped(rows[i.value], item.quantity)]
  {
  }

  /** The whole loop conserves stock plus shipped-out per part, keeps non-negative stock
      non-negative, keeps the part numbers, and ships at most one count per item. */
  lemma {:induction false} ShipAllConserves(rows: seq<Row>, items: seq<ShipmentItem>)
    ensures var (after, count) := ShipAll(rows, items);
            && count <= |items|
            && |after| == |rows|
            && (forall k :: 0 <= k < |rows| ==> after[k].partNumber == rows[k].partNumber)
            && (forall k :: 0 <= k < |rows| ==>
                  after[k].QtyCurrentStock() + after[k].QtyShippedOut()
                    == rows[k].QtyCurrentStock() + rows[k].QtyShippedOut())
            && (forall k :: 0 <= k < |rows| && rows[k].QtyCurrentStock() >= 0.0 ==>
                  after[k].QtyCurrentStock() >= 0.0)
  {
    if items != [] {
      ShipAllConserves(rows, items[..|items| - 1]);
      ShipItemConserves(ShipAll(rows, items[..|items| - 1]).0, items[|items| - 1]);
    }
  }

  /** Items that are all skipped (non-positive quantities) change nothing. */
  lemma {:induction false} ShipAllSkipsNonPositive(rows: seq<Row>, items: seq<ShipmentItem>)
    requires forall k :: 0 <= k < |items| ==> items[k].quantity <= 0.0
    ensures ShipAll(rows, items) == (rows, 0)
  {
    if items != [] {
      ShipAllSkipsNonPositive(rows, items[..|items| - 1]);
    }
  }

  // ---------------------------------------------------------------------------------------
  // Records the handlers create

  /** A `delivery_log` row; `bomItem` is the catalog position of the linked part, if its
      number was found. */
  datatype Delivery = Delivery(
    partNumber: string, partName: string, supplier: string, quantityReceived: real,
    notes: string, bomItem: Option<nat>)

  /** A `stock_adjustments` row; it is only ever created for a part that exists, whose
      catalog position is `bomItem`. */
  datatype Adjustment = Adjustment(
    partNumber: string, adjustmentType: string, quantityAdjusted: real, reason: string,
    notes: string, userName: string, bomItem: nat)

  /** An `inventory_division` row. */
  datatype Division = Division(
    divisionName: string, trainsCompleted: int, fullInstallationKits: int, notes: Option<string>)

  /** `filter_by(division_name=name).first()`. */
  function DivisionIndex(divisions: seq<Division>, name: string): (r: Option<nat>)
    ensures r.Some? ==> r.value < |divisions| && divisions[r.value].divisionName == name
    ensures r.None? <==> forall k :: 0 <= k < |divisions| ==> divisions[k].divisionName != name
  {
    if divisions == [] then None
    else if divisions[0].divisionName == name then Some(0)
    else match DivisionIndex(divisions[1..], name)
      case None => None
      case Some(k) => Some(k + 1)
  }

  /** The divisions after `export_shipment` (app/routes.py:347-350): a division of that name
      is created, with the column defaults, only when none exists. */
  function WithDivision(divisions: seq<Division>, name: string): (r: seq<Division>)
    ensures DivisionIndex(r, name).Some?
    ensures DivisionIndex(divisions, name).Some? ==> r == divisions
    ensures DivisionIndex(divisions, name).None? ==>
              r == divisions + [Division(name, 0, 0, None)]
  {
    if DivisionIndex(divisions, name).Some? then divisions
    else
      var r := divisions + [Division(name, 0, 0, None)];
      assert r[|divisions|].divisionName == name;
      r
  }

  // ---------------------------------------------------------------------------------------
  // The new part of `add_part`

  /** The row `add_part` creates from a form (app/routes.py:291-303), the alias keywords
      written to the columns they read: `qty_per_lrv` to `qty_needed_per_lrv`, `qty_on_site`
      to `total_quantity_received_by_store`, `qty_current_stock` to
      `quantity_currently_in_stock_at_store`, `consumable_or_essential` to `type`. The
      `component` keyword names an alias of `description`, which the `description` keyword
      already sets, so the row keeps the form's description. */
  function NewRow(f: BomItemForm): (r: Row)
    ensures r.partNumber == f.partNumber
    ensures r.partName == Some(f.partName) && r.supplier == Some(f.supplier)
    ensures r.description == Some(f.description) && r.partType == Some(f.consumableOrEssential)
    ensures r.notes == Some(f.notes)
    ensures r.QtyPerLrv() == f.qtyPerLrv && r.QtyCurrentStock() == f.qtyCurrentStock
    ensures r.totalQuantityReceivedByStore == Some(f.qtyOnSite)
    ensures r.quantityShippedOutByStore.None? && r.quantityBackOrdered.None?
    ensures r.totalNeededFor233Lrv == Some(r.QtyPerLrv() * 233.0)
    ensures r.coverageLrvs == Some(Trunc(r.LrvCoverage()))
  {
    Row(f.partNumber, Some(f.partName), Some(f.supplier), Some(f.description),
        Some(f.consumableOrEssential), Some(f.qtyPerLrv), Some(f.qtyPerLrv * 233.0),
        Some(f.qtyOnSite), None, Some(f.qtyCurrentStock), None, Some(f.notes), None).Recomputed()
  }

  /** A new part's stock covers a non-negative number of LRVs, and its 233-LRV total is what
      `calculate_needed_for_trains(233)` gives for it. */
  lemma NewRowConsistent(f: BomItemForm)
    requires ValidBomItem(f)
    ensures NewRow(f).LrvCoverage() >= 0.0
    ensures NewRow(f).coverageLrvs.value >= 0
    ensures NewRow(f).totalNeededFor233Lrv.value == Needed(NewRow(f), 233)
  {
  }

  // ---------------------------------------------------------------------------------------
  // The train calculator

  /** `calculate_needed_for_trains(n)` on a row. */
  function Needed(r: Row, numTrains: int): real {
    r.QtyPerLrv() * numTrains as real
  }

  /** `max(0, needed - qty_current_stock)`. */
  function Shortage(r: Row, numTrains: int): (s: real)
    ensures s >= 0.0
    ensures s == 0.0 <==> r.QtyCurrentStock() >= Needed(r, numTrains)
    ensures s > 0.0 ==> s + r.QtyCurrentStock() == Needed(r, numTrains)
  {
    Max0(Needed(r, numTrains) - r.QtyCurrentStock())
  }

  /** One result dictionary of `train_calculator`. */
  datatype CalcResult = CalcResult(
    partNumber: string, partName: Option<string>, qtyPerLrv: real, needed: real,
    currentStock: real, shortage: real)

  /** The result for one part (app/routes.py:198-208 and 215-225). */
  function ResultFor(r: Row, numTrains: int): (c: CalcResult)
    ensures c.partNumber == r.partNumber
    ensures c.shortage >= 0.0
    ensures c.shortage == 0.0 <==> c.currentStock >= c.needed
  {
    CalcResult(r.partNumber, r.partName, r.QtyPerLrv(), Needed(r, numTrains),
               r.QtyCurrentStock(), Shortage(r, numTrains))
  }

  /** One result per row, in catalog order. */
  function ResultsFor(rows: seq<Row>, numTrains: int): (rs: seq<CalcResult>)
    ensures |rs| == |rows|
    ensures forall k :: 0 <= k < |rows| ==> rs[k] == ResultFor(rows[k], numTrains)
  {
    seq(|rows|, k requires 0 <= k < |rows| => ResultFor(rows[k], numTrains))
  }

  /** Non-increasing shortage. */
  predicate SortedByShortage(s: seq<CalcResult>) {
    forall i, j :: 0 <= i < j < |s| ==> s[i].shortage >= s[j].shortage
  }

  /** The results with shortage `v`, in their order. */
  function WithShortage(s: seq<CalcResult>, v: real): seq<CalcResult> {
    if s == [] then []
    else (if s[0].shortage == v then [s[0]] else []) + WithShortage(s[1..], v)
  }

  /** Inserting into a list sorted by non-increasing shortage, after every entry whose
      shortage is at least as large. */
  function InsertByShortage(x: CalcResult, s: seq<CalcResult>): (r: seq<CalcResult>)
    ensures |r| == |s| + 1
    ensures multiset(r) == multiset(s) + multiset{x}
    ensures r[0] == x || (s != [] && r[0] == s[0])
    ensures SortedByShortage(s) ==> SortedByShortage(r)
  {
    if s == [] then [x]
    else if s[0].shortage < x.shortage then
      assert SortedByShortage(s) ==> SortedByShortage([x] + s) by {
        if SortedByShortage(s) { SortedCons(x, s); }
      }
      [x] + s
    else
      var t := s[1..];
      var rest := InsertByShortage(x, t);
      assert s == [s[0]] + t;
      assert SortedByShortage(s) ==> SortedByShortage([s[0]] + rest) by {
        if SortedByShortage(s) {
          SortedTail(s);
          SortedCons(s[0], rest);
        }
      }
      [s[0]] + rest
  }

  /** Putting an entry with at least the first shortage in front keeps a list sorted. */
  lemma SortedCons(a: CalcResult, t: seq<CalcResult>)
    requires SortedByShortage(t) && (t == [] || a.shortage >= t[0].shortage)
    ensures SortedByShortage([a] + t)
  {
    var r := [a] + t;
    forall i, j | 0 <= i < j < |r|
      ensures r[i].shortage >= r[j].shortage
    {
      assert r[j] == t[j - 1];
      if i > 0 {
        assert r[i] == t[i - 1];
      }
    }
  }

  /** `results.sort(key=shortage, reverse=True)`: Python's sort is stable, also in reverse,
      so results of equal shortage keep their order. */
  function SortByShortage(xs: seq<CalcResult>): (r: seq<CalcResult>)
    ensures |r| == |xs|
    ensures multiset(r) == multiset(xs)
    ensures SortedByShortage(r)
  {
    if xs == [] then []
    else
      var init := xs[..|xs| - 1];
      assert xs == init + [xs[|xs| - 1]];
      InsertByShortage(xs[|xs| - 1], SortByShortage(init))
  }

  lemma {:induction false} WithShortageAppend(a: seq<CalcResult>, b: seq<CalcResult>, v: real)
    ensures WithShortage(a + b, v) == WithShortage(a, v) + WithShortage(b, v)
  {
    if a == [] {
      assert a + b == b;
    } else {
      var x, t := a[0], a[1..];
      var h := if x.shortage == v then [x] else [];
      assert WithShortage(a + b, v) == h + WithShortage(t + b, v) by {
        assert (a + b)[0] == x && (a + b)[1..] == t + b;
      }
      assert WithShortage(a, v) == h + WithShortage(t, v);
      WithShortageAppend(t, b, v);
      assert h + (WithShortage(t, v) + WithShortage(b, v)) == (h + WithShortage(t, v)) + WithShortage(b, v);
    }
  }

  lemma {:induction false} WithShortageNone(s: seq<CalcResult>, v: real)
    requires forall k :: 0 <= k < |s| ==> s[k].shortage < v
    ensures WithShortage(s, v) == []
  {
    if s != [] {
      WithShortageNone(s[1..], v);
    }
  }

  /** Dropping the first entry of a sorted list leaves it sorted. */
  lemma SortedTail(s: seq<CalcResult>)
    requires s != [] && SortedByShortage(s)
    ensures SortedByShortage(s[1..])
  {
    forall i, j | 0 <= i < j < |s| - 1
      ensures s[1..][i].shortage >= s[1..][j].shortage
    {
      assert s[1..][i] == s[i + 1] && s[1..][j] == s[j + 1];
    }
  }

  /** Filtering a list that starts with `x`. */
  lemma WithShortageCons(x: CalcResult, s: seq<CalcResult>, v: real)
    ensures WithShortage([x] + s, v) == (if x.shortage == v then [x] else []) + WithShortage(s, v)
  {
    assert ([x] + s)[0] == x && ([x] + s)[1..] == s;
  }

  /** Insertion puts `x` after every entry of its shortage already in the list. */
  lemma {:induction false} InsertKeepsOrder(x: CalcResult, s: seq<CalcResult>, v: real)
    requires SortedByShortage(s)
    ensures WithShortage(InsertByShortage(x, s), v)
              == WithShortage(s, v) + (if x.shortage == v then [x] else [])
  {
    if s == [] {
      WithShortageCons(x, [], v);
    } else if s[0].shortage < x.shortage {
      WithShortageCons(x, s, v);
      if x.shortage == v {
        assert forall k :: 0 <= k < |s| ==> s[k].shortage <= s[0].shortage;
        WithShortageNone(s, v);
      }
    } else {
      var tail := s[1..];
      SortedTail(s);
      var rest := InsertByShortage(x, tail);
      assert InsertByShortage(x, s) == [s[0]] + rest;
      InsertKeepsOrder(x, tail, v);
      WithShortageCons(s[0], rest, v);
      WithShortageCons(s[0], tail, v);
    }
  }

  /** Filtering a list is filtering all but its last entry, then the last entry. */
  lemma WithShortageSnoc(xs: seq<CalcResult>, v: real)
    requires xs != []
    ensures var last := xs[|xs| - 1];
            WithShortage(xs, v)
              == WithShortage(xs[..|xs| - 1], v) + (if last.shortage == v then [last] else [])
  {
    var init, last := xs[..|xs| - 1], xs[|xs| - 1];
    assert xs == init + [last];
    WithShortageAppend(init, [last], v);
    assert [last][1..] == [];
    assert WithShortage([last], v) == (if last.shortage == v then [last] else []) + WithShortage([], v);
  }

  /** The sort is stable: the results of any one shortage come out in their input order. */
  lemma {:induction false} SortIsStable(xs: seq<CalcResult>, v: real)
    ensures WithShortage(SortByShortage(xs), v) == WithShortage(xs, v)
  {
    if xs != [] {
      var init, last := xs[..|xs| - 1], xs[|xs| - 1];
      var sorted := SortByShortage(init);
      assert SortByShortage(xs) == InsertByShortage(last, sorted);
      InsertKeepsOrder(last, sorted, v);
      SortIsStable(init, v);
      WithShortageSnoc(xs, v);
    }
  }

  // ---------------------------------------------------------------------------------------
  // Filtering the catalog

  /** `query.filter(p)`: the rows that satisfy `p`, in catalog order. */
  function Where(rows: seq<Row>, p: Row -> bool): (r: seq<Row>)
    ensures |r| <= |rows|
  {
    if rows == [] then [] else (if p(rows[0]) then [rows[0]] else []) + Where(rows[1..], p)
  }

  /** The filtered rows are exactly the rows that satisfy `p`. */
  lemma {:induction false} WhereMembers(rows: seq<Row>, p: Row -> bool)
    ensures forall x :: x in Where(rows, p) <==> x in rows && p(x)
  {
    if rows != [] {
      WhereMembers(rows[1..], p);
      assert rows == [rows[0]] + rows[1..];
    }
  }

  /** Filtering keeps catalog order: the rows of `a` that pass come before those of `b`. */
  lemma {:induction false} WhereAppend(a: seq<Row>, b: seq<Row>, p: Row -> bool)
    ensures Where(a + b, p) == Where(a, p) + Where(b, p)
  {
    if a == [] {
      assert a + b == b;
    } else {
      var x, t := a[0], a[1..];
      var h := if p(x) then [x] else [];
      assert Where(a + b, p) == h + Where(t + b, p) by {
        assert (a + b)[0] == x && (a + b)[1..] == t + b;
      }
      assert Where(a, p) == h + Where(t, p);
      WhereAppend(t, b, p);
      assert h + (Where(t, p) + Where(b, p)) == (h + Where(t, p)) + Where(b, p);
    }
  }

  /** `query.filter(p).count()` counts the positions whose row satisfies `p`. */
  lemma {:induction false} WhereCountsIndices(rows: seq<Row>, p: Row -> bool)
    ensures |Where(rows, p)| == |set k | 0 <= k < |rows| && p(rows[k])|
  {
    if rows != [] {
      var n := |rows| - 1;
      var init := rows[..n];
      WhereCountsIndices(init, p);
      assert rows == init + [rows[n]];
      WhereAppend(init, [rows[n]], p);
      var before := set k | 0 <= k < |init| && p(init[k]);
      var all := set k | 0 <= k < |rows| && p(rows[k]);
      if p(rows[n]) {
        assert all == before + {n};
      } else {
        assert all == before;
      }
    }
  }

  // ---------------------------------------------------------------------------------------
  // Autocomplete

  /** SQL `s LIKE p` as SQLite evaluates it: `%` stands for any run of characters, `_` for
      exactly one character, and any other character of the pattern matches itself up to
      ASCII case. */
  predicate LikeMatch(s: string, p: string)
    decreases |s| + |p|
  {
    if p == [] then s == []
    else if p[0] == '%' then LikeMatch(s, p[1..]) || (s != [] && LikeMatch(s[1..], p))
    else s != [] && (p[0] == '_' || LowerChar(s[0]) == LowerChar(p[0]))
         && LikeMatch(s[1..], p[1..])
  }

  /** `column.contains(q)`: `column LIKE '%' || q || '%'`. The query is not escaped, so a `%`
      or `_` in it is itself a wildcard. */
  predicate ContainsLike(s: string, q: string) {
    LikeMatch(s, "%" + q + "%")
  }

  /** A query in which LIKE sees no wildcard. */
  predicate NoWildcards(q: string) {
    forall k :: 0 <= k < |q| ==> q[k] != '%' && q[k] != '_'
  }

  /** `q` occurs in `s` at position `i`, up to ASCII case. */
  predicate OccursIgnoringCase(s: string, q: string, i: int) {
    0 <= i <= |s| - |q| && Lower(s[i..i + |q|]) == Lower(q)
  }

  /** A lone `%` matches every string. */
  lemma {:induction false} LikeAnything(s: string)
    ensures LikeMatch(s, "%")
  {
    if s != [] {
      LikeAnything(s[1..]);
    }
  }

  /** A pattern of plain characters followed by `%` matches exactly the strings that start
      with those characters, up to ASCII case. */
  lemma {:induction false} LikePrefix(s: string, q: string)
    requires NoWildcards(q)
    ensures LikeMatch(s, q + "%") <==> |q| <= |s| && Lower(s[..|q|]) == Lower(q)
  {
    if q == [] {
      assert q + "%" == "%";
      LikeAnything(s);
    } else {
      assert (q + "%")[0] == q[0] && (q + "%")[1..] == q[1..] + "%";
      assert NoWildcards(q[1..]) by {
        forall k | 0 <= k < |q[1..]| ensures q[1..][k] != '%' && q[1..][k] != '_' {
          assert q[1..][k] == q[k + 1];
        }
      }
      if s == [] {
        assert !LikeMatch(s, q + "%");
      } else {
        LikePrefix(s[1..], q[1..]);
        assert LikeMatch(s, q + "%") <==>
                 LowerChar(s[0]) == LowerChar(q[0]) && LikeMatch(s[1..], q[1..] + "%");
        var lq := Lower(q);
        assert lq == [LowerChar(q[0])] + Lower(q[1..]);
        if |q| <= |s| {
          var t := s[..|q|];
          assert t[0] == s[0] && t[1..] == s[1..][..|q[1..]|];
          var lt := Lower(t);
          assert lt == [LowerChar(t[0])] + Lower(t[1..]);
          if lt == lq {
            assert lt[0] == lq[0] && lt[1..] == lq[1..];
          }
        }
      }
    }
  }

  /** A leading `%` lets the rest of the pattern match any suffix. */
  lemma {:induction false} LikeAnySuffix(s: string, p: string)
    ensures LikeMatch(s, "%" + p) <==> exists i :: 0 <= i <= |s| && LikeMatch(s[i..], p)
  {
    assert ("%" + p)[0] == '%' && ("%" + p)[1..] == p;
    assert s[0..] == s;
    if s != [] {
      LikeAnySuffix(s[1..], p);
      if LikeMatch(s[1..], "%" + p) {
        var j :| 0 <= j <= |s[1..]| && LikeMatch(s[1..][j..], p);
        assert s[1..][j..] == s[j + 1..];
      }
      if exists i :: 0 <= i <= |s| && LikeMatch(s[i..], p) {
        var i :| 0 <= i <= |s| && LikeMatch(s[i..], p);
        if i > 0 {
          assert s[1..][i - 1..] == s[i..];
        }
      }
    }
  }

  /** For a query without wildcards, `contains` is case-insensitive substring search. */
  lemma ContainsLikeIff(s: string, q: string)
    requires NoWildcards(q)
    ensures ContainsLike(s, q) <==> exists i :: OccursIgnoringCase(s, q, i)
  {
    assert "%" + q + "%" == "%" + (q + "%");
    LikeAnySuffix(s, q + "%");
    forall i | 0 <= i <= |s|
      ensures LikeMatch(s[i..], q + "%") <==> OccursIgnoringCase(s, q, i)
    {
      LikePrefix(s[i..], q);
      if |q| <= |s[i..]| {
        assert s[i..][..|q|] == s[i..i + |q|];
      }
    }
  }

  /** A query that occurs verbatim always matches. */
  lemma ContainsMatchesLike(s: string, q: string)
    requires NoWildcards(q) && Contains(s, q)
    ensures ContainsLike(s, q)
  {
    var i :| 0 <= i <= |s| - |q| && StartsWith(s[i..], q);
    assert s[i..i + |q|] == s[i..][..|q|];
    assert OccursIgnoringCase(s, q, i);
    ContainsLikeIff(s, q);
  }

  /** The query `abc` finds the part number `ABC-1`. */
  lemma MatchIgnoresCase()
    ensures ContainsLike("ABC-1", "abc")
  {
    assert "ABC-1"[0..3] == "ABC";
    assert Lower("ABC") == "abc";
    assert Lower("abc") == "abc";
    assert OccursIgnoringCase("ABC-1", "abc", 0);
    ContainsLikeIff("ABC-1", "abc");
  }

  /** The query `A_C` finds the part number `AXC-7`: `_` is a wildcard. */
  lemma UnderscoreIsWildcard()
    ensures ContainsLike("AXC-7", "A_C")
  {
    var s := "AXC-7";
    assert "%" + "A_C" + "%" == "%" + "A_C%";
    LikeAnySuffix(s, "A_C%");
    LikeAnything("-7");
    assert s[3..] == "-7";
    assert LikeMatch(s[2..], "C%") by { assert s[2..][1..] == s[3..]; assert "C%"[1..] == "%"; }
    assert LikeMatch(s[1..], "_C%") by { assert s[1..][1..] == s[2..]; assert "_C%"[1..] == "C%"; }
    assert LikeMatch(s[0..], "A_C%") by { assert s[0..][1..] == s[1..]; assert "A_C%"[1..] == "_C%"; }
  }

  /** The filter of `part_autocomplete`: the query matches the part number, or the part name
      when there is one (a NULL name makes its LIKE NULL, which the `or_` does not accept). */
  predicate MatchesQuery(r: Row, q: string) {
    ContainsLike(r.partNumber, q) || (r.partName.Some? && ContainsLike(r.partName.value, q))
  }

  /** The matching rows, in catalog order. */
  function Matching(rows: seq<Row>, q: string): (m: seq<Row>)
    ensures |m| <= |rows|
    ensures forall r :: r in m <==> r in rows && MatchesQuery(r, q)
  {
    WhereMembers(rows, r => MatchesQuery(r, q));
    Where(rows, r => MatchesQuery(r, q))
  }
  /** One entry of the JSON list. */
  datatype Suggestion = Suggestion(partNumber: string, partName: string)

  function SuggestionOf(r: Row): Suggestion {
    Suggestion(r.partNumber, OrDefault(r.partName, ""))
  }

  /** The limit of `.limit(10)`. */
  const MaxSuggestions: nat := 10

  /** `part_autocomplete` (app/routes.py:235-244): nothing for a query of fewer than two
      characters; otherwise at most ten matching parts, and all of them when there are no
      more than ten. */
  function Autocomplete(rows: seq<Row>, q: string): (r: seq<Suggestion>)
    ensures |q| < 2 ==> r == []
    ensures |r| <= MaxSuggestions
    ensures forall k :: 0 <= k < |r| ==>
              exists row :: row in rows && MatchesQuery(row, q) && r[k] == SuggestionOf(row)
    ensures |q| >= 2 && |Matching(rows, q)| <= MaxSuggestions ==>
              forall row :: row in rows && MatchesQuery(row, q) ==> SuggestionOf(row) in r
    ensures |q| >= 2 ==> |r| == if |Matching(rows, q)| <= MaxSuggestions
                                then |Matching(rows, q)| else MaxSuggestions
    ensures |q| >= 2 ==> var top := Take(Matching(rows, q), MaxSuggestions);
                         |r| == |top| && forall k :: 0 <= k < |r| ==> r[k] == SuggestionOf(top[k])
  {
    if |q| < 2 then []
    else
      var m := Matching(rows, q);
      var top := Take(m, MaxSuggestions);
      var r := seq(|top|, k requires 0 <= k < |top| => SuggestionOf(top[k]));
      assert forall k :: 0 <= k < |r| ==> top[k] in m && r[k] == SuggestionOf(top[k]);
      assert |m| <= MaxSuggestions ==> forall row :: row in m ==> SuggestionOf(row) in r by {
        if |m| <= MaxSuggestions {
          forall row | row in m ensures SuggestionOf(row) in r {
            var k :| 0 <= k < |m| && m[k] == row;
            assert r[k] == SuggestionOf(row);
          }
        }
      }
      r
  }


  // ---------------------------------------------------------------------------------------
  // Dashboard

  /** The low-stock threshold of the dashboard filters, in LRVs. */
  const LowStockLrvs: real := 10.0

  predicate LowStock(r: Row) { r.LrvCoverage() < LowStockLrvs }

  predicate OutOfStock(r: Row) { r.QtyCurrentStock() <= 0.0 }

  /** `filter(lrv_coverage < 10).count()`: how many rows are low on stock. */
  function CountLowStock(rows: seq<Row>): (n: nat)
    ensures n <= |rows|
    ensures n == |set k | 0 <= k < |rows| && LowStock(rows[k])|
  {
    ghost var p: Row -> bool := LowStock;
    WhereCountsIndices(rows, p);
    assert (set k | 0 <= k < |rows| && LowStock(rows[k])) == (set k | 0 <= k < |rows| && p(rows[k]));
    |Where(rows, LowStock)|
  }

  /** `filter(qty_current_stock <= 0).count()`: how many rows are out of stock. */
  function CountOutOfStock(rows: seq<Row>): (n: nat)
    ensures n <= |rows|
    ensures n == |set k | 0 <= k < |rows| && OutOfStock(rows[k])|
  {
    ghost var p: Row -> bool := OutOfStock;
    WhereCountsIndices(rows, p);
    assert (set k | 0 <= k < |rows| && OutOfStock(rows[k])) == (set k | 0 <= k < |rows| && p(rows[k]));
    |Where(rows, OutOfStock)|
  }

  /** `sum(qty_current_stock)`, a null stock counting as 0. */
  function SumStock(rows: seq<Row>): real {
    if rows == [] then 0.0 else rows[0].QtyCurrentStock() + SumStock(rows[1..])
  }

  /** The first `limit` elements of `s`, or all of them when there are fewer. */
  function Take(s: seq<Row>, limit: nat): (r: seq<Row>)
    ensures r <= s && |r| == if |s| <= limit then |s| else limit
  {
    if |s| <= limit then s else s[..limit]
  }

  /** Taking from a list with a first element keeps that element and takes one fewer from the
      rest. */
  lemma TakeCons(x: Row, s: seq<Row>, limit: nat)
    requires limit > 0
    ensures Take([x] + s, limit) == [x] + Take(s, limit - 1)
  {
    if |s| > limit - 1 {
      assert ([x] + s)[..limit] == [x] + s[..limit - 1];
    }
  }

  /** `query.filter(p).limit(limit)`, scanning the catalog in order and stopping after
      `limit` rows that pass. */
  function FirstWhere(rows: seq<Row>, p: Row -> bool, limit: nat): (r: seq<Row>)
    ensures |r| <= limit
    ensures forall k :: 0 <= k < |r| ==> r[k] in rows && p(r[k])
  {
    if rows == [] || limit == 0 then []
    else if p(rows[0]) then [rows[0]] + FirstWhere(rows[1..], p, limit - 1)
    else FirstWhere(rows[1..], p, limit)
  }

  /** The scan gives the rows that pass, in catalog order, cut off after `limit`. */
  lemma {:induction false} FirstWhereInOrder(rows: seq<Row>, p: Row -> bool, limit: nat)
    ensures FirstWhere(rows, p, limit) == Take(Where(rows, p), limit)
  {
    if rows != [] && limit != 0 {
      var x, t := rows[0], rows[1..];
      if p(x) {
        assert FirstWhere(rows, p, limit) == [x] + FirstWhere(t, p, limit - 1);
        assert Where(rows, p) == [x] + Where(t, p);
        FirstWhereInOrder(t, p, limit - 1);
        TakeCons(x, Where(t, p), limit);
      } else {
        assert FirstWhere(rows, p, limit) == FirstWhere(t, p, limit);
        assert Where(rows, p) == Where(t, p);
        FirstWhereInOrder(t, p, limit);
      }
    }
  }

  /** `filter(lrv_coverage < 10).limit(limit)`: the low-stock rows in catalog order, cut off
      after the first `limit`. */
  function LowStockItems(rows: seq<Row>, limit: nat): (r: seq<Row>)
    ensures r == Take(Where(rows, LowStock), limit)
    ensures |r| == if CountLowStock(rows) <= limit then CountLowStock(rows) else limit
    ensures forall k :: 0 <= k < |r| ==> r[k] in rows && LowStock(r[k])
  {
    FirstWhereInOrder(rows, LowStock, limit);
    FirstWhere(rows, LowStock, limit)
  }

  /** When there are no more than `limit` low-stock rows, every one of them is listed. */
  lemma LowStockItemsComplete(rows: seq<Row>, limit: nat)
    requires CountLowStock(rows) <= limit
    ensures forall x :: x in rows && LowStock(x) ==> x in LowStockItems(rows, limit)
  {
    WhereMembers(rows, LowStock);
  }

  /** An out-of-stock part is low on stock: its coverage is at most 0. */
  lemma OutOfStockIsLowStock(r: Row)
    requires OutOfStock(r)
    ensures LowStock(r)
  {
  }

  lemma {:induction false} OutOfStockAtMostLowStock(rows: seq<Row>)
    ensures CountOutOfStock(rows) <= CountLowStock(rows)
  {
    if rows != [] {
      OutOfStockAtMostLowStock(rows[1..]);
      if OutOfStock(rows[0]) {
        OutOfStockIsLowStock(rows[0]);
      }
    }
  }

  lemma {:induction false} SumStockNonNegative(rows: seq<Row>)
    requires forall k :: 0 <= k < |rows| ==> rows[k].QtyCurrentStock() >= 0.0
    ensures SumStock(rows) >= 0.0
  {
    if rows != [] {
      SumStockNonNegative(rows[1..]);
    }
  }

  /** What `dashboard` and `dashboard_data` report. */
  datatype DashboardData = DashboardData(
    totalParts: nat, lowStockParts: nat, outOfStockParts: nat, totalStockItems: int,
    lowStockItems: seq<Row>)

  /** `dashboard` (app/routes.py:14-37) and `dashboard_data` (app/routes.py:404-407): the
      counts, `int()` of the total stock, and the first fifteen low-stock items. */
  function Dashboard(rows: seq<Row>): (d: DashboardData)
    ensures d.totalParts == |rows|
    ensures d.lowStockParts == CountLowStock(rows) && d.outOfStockParts == CountOutOfStock(rows)
    ensures d.outOfStockParts <= d.lowStockParts <= d.totalParts
    ensures d.totalStockItems == Trunc(SumStock(rows))
    ensures d.lowStockItems == LowStockItems(rows, 15)
    ensures |d.lowStockItems| <= 15
    ensures forall k :: 0 <= k < |d.lowStockItems| ==>
              d.lowStockItems[k] in rows && LowStock(d.lowStockItems[k])
    ensures (forall k :: 0 <= k < |rows| ==> rows[k].QtyCurrentStock() >= 0.0) ==>
              d.totalStockItems >= 0
  {
    OutOfStockAtMostLowStock(rows);
    assert (forall k :: 0 <= k < |rows| ==> rows[k].QtyCurrentStock() >= 0.0) ==>
             SumStock(rows) >= 0.0 by {
      if forall k :: 0 <= k < |rows| ==> rows[k].QtyCurrentStock() >= 0.0 {
        SumStockNonNegative(rows);
      }
    }
    DashboardData(|rows|, CountLowStock(rows), CountOutOfStock(rows), Trunc(SumStock(rows)),
                  LowStockItems(rows, 15))
  }

  // ---------------------------------------------------------------------------------------
  // The catalog and the handlers that change it

  /** The database tables the handlers touch. The catalog holds the rows by value: the
      handlers replace the row of the part they found, where the ORM mutates that object. */
  class Inventory {
    var rows: seq<Row>
    var deliveries: seq<Delivery>
    var adjustments: seq<Adjustment>
    var divisions: seq<Division>

    constructor ()
      ensures Valid()
      ensures rows == [] && deliveries == [] && adjustments == [] && divisions == []
    {
      rows, deliveries, adjustments, divisions := [], [], [], [];
    }

    /** The `unique=True` constraint of `part_number`. */
    predicate Valid()
      reads this
    {
      UniquePartNumbers(rows)
    }

    /** `delivery_log` (app/routes.py:111-133): the delivery is always recorded; a part with
        that number gets the quantity added to its stock and is linked. */
    method RecordDelivery(f: DeliveryForm)
      requires Valid() && ValidDelivery(f)
      modifies this
      ensures Valid()
      ensures adjustments == old(adjustments) && divisions == old(divisions)
      ensures match IndexOf(old(rows), f.partNumber)
        case None =>
          && rows == old(rows)
          && deliveries == old(deliveries) + [Delivery(f.partNumber, f.partName, f.supplier,
                                               f.quantityReceived, f.notes, None)]
        case Some(i) =>
          && rows == old(rows)[i := Delivered(old(rows)[i], f.quantityReceived)]
          && deliveries == old(deliveries) + [Delivery(f.partNumber, f.partName, f.supplier,
                                               f.quantityReceived, f.notes, Some(i))]
    {
      var bomItem := IndexOf(rows, f.partNumber);
      if bomItem.Some? {
        var i := bomItem.value;
        UniqueAfterUpdate(rows, i, Delivered(rows[i], f.quantityReceived));
        rows := rows[i := Delivered(rows[i], f.quantityReceived)];
      }
      deliveries := deliveries + [Delivery(f.partNumber, f.partName, f.supplier,
                                           f.quantityReceived, f.notes, bomItem)];
    }

    /** `stock_adjustment` (app/routes.py:148-177): returns whether the part was found. For an
        unknown number nothing changes; otherwise the adjustment is recorded and applied. */
    method AdjustStock(f: StockAdjustmentForm) returns (found: bool)
      requires Valid() && ValidStockAdjustment(f)
      modifies this
      ensures Valid()
      ensures deliveries == old(deliveries) && divisions == old(divisions)
      ensures found <==> IndexOf(old(rows), f.partNumber).Some?
      ensures match IndexOf(old(rows), f.partNumber)
        case None => rows == old(rows) && adjustments == old(adjustments)
        case Some(i) =>
          && rows == old(rows)[i := Adjusted(old(rows)[i], f.adjustmentType,
                                             f.quantityAdjusted)]
          && adjustments == old(adjustments) + [Adjustment(f.partNumber, f.adjustmentType,
                f.quantityAdjusted, f.reason, f.notes, f.userName, i)]
    {
      var bomItem := IndexOf(rows, f.partNumber);
      if bomItem.None? {
        return false;
      }
      var i := bomItem.value;
      adjustments := adjustments + [Adjustment(f.partNumber, f.adjustmentType,
                                               f.quantityAdjusted, f.reason, f.notes,
                                               f.userName, i)];
      var updated := Adjusted(rows[i], f.adjustmentType, f.quantityAdjusted);
      UniqueAfterUpdate(rows, i, updated);
      rows := rows[i := updated];
      found := true;
    }

    /** `add_part` (app/routes.py:283-309): returns whether the part was added. A number that
        already exists is rejected and nothing changes; otherwise the new part is appended. */
    method AddPart(f: BomItemForm) returns (added: bool)
      requires Valid() && ValidBomItem(f)
      modifies this
      ensures Valid()
      ensures deliveries == old(deliveries) && adjustments == old(adjustments)
      ensures divisions == old(divisions)
      ensures added <==> IndexOf(old(rows), f.partNumber).None?
      ensures rows == if added then old(rows) + [NewRow(f)] else old(rows)
    {
      if IndexOf(rows, f.partNumber).Some? {
        return false;
      }
      rows := rows + [NewRow(f)];
      added := true;
    }

    /** `export_shipment` (app/routes.py:323-355): runs every item through the loop, returns
        `total_shipped`, and makes sure a division of that name exists. */
    method ExportShipment(divisionName: string, items: seq<ShipmentItem>)
      returns (totalShipped: nat)
      requires Valid()
      modifies this
      ensures Valid()
      ensures deliveries == old(deliveries) && adjustments == old(adjustments)
      ensures (rows, totalShipped) == ShipAll(old(rows), items)
      ensures divisions == WithDivision(old(divisions), divisionName)
    {
      totalShipped := 0;
      var j := 0;
      while j < |items|
        invariant 0 <= j <= |items|
        invariant Valid()
        invariant deliveries == old(deliveries) && adjustments == old(adjustments)
        invariant divisions == old(divisions)
        invariant (rows, totalShipped) == ShipAll(old(rows), items[..j])
      {
        var item := items[j];
        ShipAllStep(old(rows), items, j);
        ghost var before := rows;
        if item.quantity > 0.0 && item.partNumber.Some? {
          var bomItem := IndexOf(rows, item.partNumber.value);
          if bomItem.Some? && rows[bomItem.value].QtyCurrentStock() >= item.quantity {
            var i := bomItem.value;
            UniqueAfterUpdate(rows, i, Shipped(rows[i], item.quantity));
            rows := rows[i := Shipped(rows[i], item.quantity)];
            totalShipped := totalShipped + 1;
            assert ShipItem(before, item) == (rows, true);
          } else {
            assert ShipItem(before, item) == (before, false);
          }
        }
        j := j + 1;
      }
      assert items[..j] == items;
      divisions := WithDivision(divisions, divisionName);
    }

    /** The train calculator (app/routes.py:190-228). A blank part number gives one result
        per part, sorted by shortage; a part number gives that part's result, or nothing and
        `notFound` when no part has it. */
    method TrainCalculator(f: TrainCalculatorForm) returns (results: seq<CalcResult>,
                                                             notFound: bool)
      requires ValidTrainCalculator(f)
      ensures var pn := Strip(f.partNumber);
              if pn == [] then
                && !notFound
                && results == SortByShortage(ResultsFor(rows, f.numTrains))
              else match IndexOf(rows, pn)
                case None => notFound && results == []
                case Some(i) => !notFound && results == [ResultFor(rows[i], f.numTrains)]
    {
      var pn := Strip(f.partNumber);
      notFound := false;
      if pn != [] {
        var bomItem := IndexOf(rows, pn);
        if bomItem.Some? {
          results := [ResultFor(rows[bomItem.value], f.numTrains)];
        } else {
          results, notFound := [], true;
        }
        return;
      }
      results := CalculateAll(f.numTrains);
    }

    /** The all-parts branch of the calculator (app/routes.py:213-228): one result per part,
        appended in catalog order, then sorted by shortage, highest first. */
    method CalculateAll(numTrains: int) returns (results: seq<CalcResult>)
      ensures results == SortByShortage(ResultsFor(rows, numTrains))
    {
      var unsorted: seq<CalcResult> := [];
      var k := 0;
      while k < |rows|
        invariant 0 <= k <= |rows|
        invariant unsorted == ResultsFor(rows[..k], numTrains)
      {
        var bomItem := rows[k];
        var needed := Needed(bomItem, numTrains);
        var shortage := Max0(needed - bomItem.QtyCurrentStock());
        assert rows[..k + 1] == rows[..k] + [bomItem];
        unsorted := unsorted + [CalcResult(bomItem.partNumber, bomItem.partName,
                                           bomItem.QtyPerLrv(), needed,
                                           bomItem.QtyCurrentStock(), shortage)];
        k := k + 1;
      }
      assert rows[..k] == rows;
      results := SortByShortage(unsorted);
    }
  }

  /** A train calculator with a blank part number is sorted, has one result per part, and
      lists the parts of any one shortage in catalog order. */
  lemma AllPartsCalculation(rows: seq<Row>, numTrains: int, v: real)
    ensures var rs := SortByShortage(ResultsFor(rows, numTrains));
            && SortedByShortage(rs)
            && multiset(rs) == multiset(ResultsFor(rows, numTrains))
            && WithShortage(rs, v) == WithShortage(ResultsFor(rows, numTrains), v)
  {
    SortIsStable(ResultsFor(rows, numTrains), v);
  }
}
