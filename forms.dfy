/** The validators of app/forms.py, as predicates over the submitted values. They are the
    preconditions under which the handlers of app/routes.py run (`validate_on_submit()`). */
module Forms {
  import opened PyText

  /** `DataRequired()` followed by `Length(max=max)`: not empty, not only whitespace, and at
      most `max` characters. */
  predicate RequiredText(s: string, max: nat) {
    !Blank(s) && |s| <= max
  }

  /** `Optional()` followed by `Length(max=max)`: a blank value passes; any other value has
      at most `max` characters. */
  predicate OptionalText(s: string, max: nat) {
    Blank(s) || |s| <= max
  }

  /** The choices of the adjustment-type select (forms.py:21-23). */
  const AdjustmentTypes: set<string> := {"increase", "decrease"}

  /** The choices of the reason select (forms.py:25-33). */
  const AdjustmentReasons: set<string> := {"damage", "lost", "found", "correction", "other"}

  /** The choices of the part-type select of the BOM item form (forms.py:49-51). */
  const PartTypes: set<string> := {"Essential", "Consumables"}

  /** The smallest quantity a delivery or an adjustment accepts: `NumberRange(min=0.01)`. */
  const MinQuantity: real := 0.01

  /** The range of the train count: `NumberRange(min=1, max=1000)`. */
  const MinTrains: int := 1
  const MaxTrains: int := 1000

  /** `DeliveryForm` (forms.py:7-15); the two dates are not modelled. */
  datatype DeliveryForm = DeliveryForm(
    partNumber: string, partName: string, supplier: string,
    quantityReceived: real, notes: string)

  /** An accepted delivery names a part and adds a positive quantity. */
  predicate ValidDelivery(f: DeliveryForm): (ok: bool)
    ensures ok ==> 0 < |f.partNumber| <= 100 && f.quantityReceived > 0.0
  {
    && RequiredText(f.partNumber, 100)
    && RequiredText(f.partName, 200)
    && RequiredText(f.supplier, 100)
    && f.quantityReceived >= MinQuantity
    && OptionalText(f.notes, 500)
  }

  /** `StockAdjustmentForm` (forms.py:18-35). */
  datatype StockAdjustmentForm = StockAdjustmentForm(
    partNumber: string, adjustmentType: string, quantityAdjusted: real,
    reason: string, notes: string, userName: string)

  /** An accepted adjustment names a part and a user, moves a positive quantity, and is
      either an increase or a decrease. */
  predicate ValidStockAdjustment(f: StockAdjustmentForm): (ok: bool)
    ensures ok ==> 0 < |f.partNumber| <= 100 && 0 < |f.userName| <= 100
    ensures ok ==> f.quantityAdjusted > 0.0
    ensures ok ==> f.adjustmentType == "increase" || f.adjustmentType == "decrease"
  {
    && RequiredText(f.partNumber, 100)
    && f.adjustmentType in AdjustmentTypes
    && f.quantityAdjusted >= MinQuantity
    && f.reason in AdjustmentReasons
    && OptionalText(f.notes, 500)
    && RequiredText(f.userName, 100)
  }

  /** `BOMItemForm` (forms.py:38-52). */
  datatype BomItemForm = BomItemForm(
    partNumber: string, partName: string, description: string, supplier: string,
    component: string, qtyPerLrv: real, qtyOnSite: real, qtyCurrentStock: real,
    backOrderQty: real, consumableOrEssential: string, notes: string)

  /** An accepted BOM item has a part number, a name and a supplier, no negative quantity, and
      a part type that is blank or one of the two choices. The per-LRV quantity is positive:
      `DataRequired()` rejects the falsy `0.0` before `NumberRange(min=0)` is consulted. */
  predicate ValidBomItem(f: BomItemForm): (ok: bool)
    ensures ok ==> 0 < |f.partNumber| <= 100 && 0 < |f.partName| <= 200 && 0 < |f.supplier| <= 100
    ensures ok ==> f.qtyPerLrv > 0.0 && f.qtyOnSite >= 0.0 && f.qtyCurrentStock >= 0.0
                   && f.backOrderQty >= 0.0
    ensures ok ==> Blank(f.consumableOrEssential)
                   || f.consumableOrEssential == "Essential" || f.consumableOrEssential == "Consumables"
  {
    && RequiredText(f.partNumber, 100)
    && RequiredText(f.partName, 200)
    && OptionalText(f.description, 500)
    && RequiredText(f.supplier, 100)
    && OptionalText(f.component, 100)
    && f.qtyPerLrv > 0.0
    && f.qtyOnSite >= 0.0
    && f.qtyCurrentStock >= 0.0
    && f.backOrderQty >= 0.0
    && (Blank(f.consumableOrEssential) || f.consumableOrEssential in PartTypes)
    && OptionalText(f.notes, 500)
  }

  /** `TrainCalculatorForm` (forms.py:70-73). */
  datatype TrainCalculatorForm = TrainCalculatorForm(numTrains: int, partNumber: string)

  /** An accepted train count is between 1 and 1000. */
  predicate ValidTrainCalculator(f: TrainCalculatorForm): (ok: bool)
    ensures ok ==> 1 <= f.numTrains <= 1000
  {
    && MinTrains <= f.numTrains <= MaxTrains
    && OptionalText(f.partNumber, 100)
  }
}
