/**
 * The rows of the order form's "items" repeater and the pure rules about
 * them: what the afterStateUpdated callbacks leave in one row, the sum the
 * grand-total placeholder folds, and the validation rules the row fields
 * declare. A row field the form has not filled yet is null in the form
 * state; PHP arithmetic reads null as 0, and so does this model.
 */
module OrderItems {
  import opened Wrappers

  /** One repeater row: product_id, quantity, unit_amount, total_amount. */
  datatype Item = Item(productId: Option<nat>, quantity: nat, unitAmount: nat, totalAmount: nat)

  /** A freshly added row: nothing selected, nothing filled in. */
  const Blank: Item := Item(None, 0, 0, 0)

  /** The product table as far as the form reads it: product id to price. */
  type Catalog = map<nat, nat>

  /** A row whose total is its quantity times its unit price. */
  predicate LineConsistent(item: Item) {
    item.totalAmount == item.quantity * item.unitAmount
  }

  predicate AllLinesConsistent(items: seq<Item>) {
    forall k :: 0 <= k < |items| ==> LineConsistent(items[k])
  }

  /**
   * The product lookup of the first selection callback: the selected
   * product's price, or 0 when nothing is selected or the id is unknown;
   * the lookup never fails.
   */
  function PriceOf(catalog: Catalog, state: Option<nat>): (price: nat)
    ensures state.Some? && state.value in catalog ==> price == catalog[state.value]
    ensures state.None? || state.value !in catalog ==> price == 0
    ensures price == 0 || price in catalog.Values
  {
    if state.Some? && state.value in catalog then catalog[state.value] else 0
  }

  /** The selected product id as a number in arithmetic (no selection reads as 0). */
  function IdNumber(state: Option<nat>): nat {
    if state.Some? then state.value else 0
  }

  // ---------------------------------------------------------------------
  // Product selection: the Select stores the new product_id, then its three
  // afterStateUpdated callbacks run in the order they were registered.
  // ---------------------------------------------------------------------

  /** The Select itself: the row's product_id becomes the selected state. */
  function StoreSelection(item: Item, state: Option<nat>): Item {
    item.(productId := state)
  }

  /** First callback: unit_amount becomes the looked-up price. */
  function LookUpPrice(item: Item, state: Option<nat>, catalog: Catalog): Item {
    item.(unitAmount := PriceOf(catalog, state))
  }

  /** Second callback: total_amount becomes the callback's state, the product id, times unit_amount. */
  function TotalFromSelection(item: Item, state: Option<nat>): Item {
    item.(totalAmount := IdNumber(state) * item.unitAmount)
  }

  /** Third callback: quantity becomes 1. */
  function ResetQuantity(item: Item): Item {
    item.(quantity := 1)
  }

  /** The row after a product is selected, the three callbacks run in order (as written). */
  function Selected(item: Item, state: Option<nat>, catalog: Catalog): (r: Item)
    ensures r.productId == state && r.quantity == 1
    ensures r.unitAmount == PriceOf(catalog, state)
    ensures r.totalAmount == IdNumber(state) * PriceOf(catalog, state)
  {
    ResetQuantity(TotalFromSelection(LookUpPrice(StoreSelection(item, state), state, catalog), state))
  }

  /**
   * The row after a product is selected, as evidently intended: the total
   * is the fresh quantity 1 times the looked-up price.
   */
  function SelectedFixed(item: Item, state: Option<nat>, catalog: Catalog): (r: Item)
    ensures r.productId == state && r.quantity == 1
    ensures r.unitAmount == PriceOf(catalog, state)
    ensures LineConsistent(r) && r.totalAmount == r.unitAmount
  {
    var priced := ResetQuantity(LookUpPrice(StoreSelection(item, state), state, catalog));
    priced.(totalAmount := priced.quantity * priced.unitAmount)
  }

  /** Quantity callback: total_amount becomes the new quantity times unit_amount. */
  function QuantityChanged(item: Item, quantity: nat): (r: Item)
    ensures LineConsistent(r) && r.quantity == quantity
    ensures r.productId == item.productId && r.unitAmount == item.unitAmount
  {
    item.(quantity := quantity, totalAmount := quantity * item.unitAmount)
  }

  /**
   * As written, a selection leaves a consistent row exactly when the
   * product id is 1 or the product costs nothing (or is unknown).
   */
  lemma SelectedConsistentIff(item: Item, state: Option<nat>, catalog: Catalog)
    ensures LineConsistent(Selected(item, state, catalog))
      <==> IdNumber(state) == 1 || PriceOf(catalog, state) == 0
  {
  }

  /** Concrete case: product 3 at 15000 leaves a row total of 45000 for quantity 1. */
  lemma SelectedTotalUsesProductId()
    ensures var r := Selected(Blank, Some(3), map[3 := 15000]);
      r.quantity == 1 && r.unitAmount == 15000 && r.totalAmount == 45000
      && !LineConsistent(r)
  {
  }

  // ---------------------------------------------------------------------
  // The grand total: the sum of total_amount over the rows, in order.
  // ---------------------------------------------------------------------

  /** Sum of the rows' total_amount (the fold of the placeholder's foreach). */
  function Sum(items: seq<Item>): (total: nat)
    ensures items == [] ==> total == 0
    ensures forall k :: 0 <= k < |items| ==> items[k].totalAmount <= total
  {
    if items == [] then 0 else Sum(items[..|items| - 1]) + items[|items| - 1].totalAmount
  }

  /** The loop of the grand-total placeholder: the accumulator adds each row's total_amount in turn. */
  method Accumulate(items: seq<Item>) returns (total: nat)
    ensures total == Sum(items)
  {
    total := 0;
    var i := 0;
    while i < |items|
      invariant 0 <= i <= |items|
      invariant total == Sum(items[..i])
    {
      assert items[..i + 1][..i] == items[..i];
      total := total + items[i].totalAmount;
      i := i + 1;
    }
    assert items[..i] == items;
  }

  lemma {:induction false} SumAppend(a: seq<Item>, b: seq<Item>)
    ensures Sum(a + b) == Sum(a) + Sum(b)
  {
    if b == [] {
      assert a + b == a;
    } else {
      var c := b[..|b| - 1];
      assert (a + b)[..|a + b| - 1] == a + c;
      SumAppend(a, c);
    }
  }

  lemma SumSingle(x: Item)
    ensures Sum([x]) == x.totalAmount
  {
  }

  /** Removing row k lowers the sum by exactly that row's total_amount. */
  lemma SumRemove(items: seq<Item>, k: nat)
    requires k < |items|
    ensures Sum(items[..k] + items[k + 1..]) + items[k].totalAmount == Sum(items)
  {
    var front, x, back := items[..k], items[k], items[k + 1..];
    assert items[..k + 1] == front + [x];
    assert items == items[..k + 1] + back;
    SumAppend(front + [x], back);
    SumAppend(front, [x]);
    SumAppend(front, back);
    SumSingle(x);
  }

  /** Replacing row k changes the sum by the difference of the two rows' totals. */
  lemma SumUpdate(items: seq<Item>, k: nat, x: Item)
    requires k < |items|
    ensures Sum(items[k := x]) + items[k].totalAmount == Sum(items) + x.totalAmount
  {
    var front, back := items[..k], items[k + 1..];
    assert items[k := x] == (front + [x]) + back;
    SumRemove(items, k);
    SumAppend(front + [x], back);
    SumAppend(front, [x]);
    SumAppend(front, back);
    SumSingle(x);
  }

  /** The sum is 0 exactly when every row's total is 0. */
  lemma {:induction false} SumZeroIff(items: seq<Item>)
    ensures Sum(items) == 0 <==> forall k :: 0 <= k < |items| ==> items[k].totalAmount == 0
  {
    if items != [] {
      var init := items[..|items| - 1];
      SumZeroIff(init);
      assert forall k :: 0 <= k < |init| ==> init[k] == items[k];
    }
  }

  /** Correct selections and quantity changes keep every row's total equal to quantity times price. */
  lemma EditsKeepLinesConsistent(items: seq<Item>, k: nat, state: Option<nat>, catalog: Catalog, quantity: nat)
    requires AllLinesConsistent(items) && k < |items|
    ensures AllLinesConsistent(items[k := SelectedFixed(items[k], state, catalog)])
    ensures AllLinesConsistent(items[k := QuantityChanged(items[k], quantity)])
  {
  }

  // ---------------------------------------------------------------------
  // Validation rules the row fields declare: product_id is required and
  // distinct among sibling rows, quantity is required with minimum 1.
  // ---------------------------------------------------------------------

  /**
   * A validation error and the row it is about. A quantity that was never
   * filled and a quantity of 0 both read as 0 here, so both give
   * QuantityMissingOrBelowMinimum.
   */
  datatype Violation =
    | ProductRequired(row: nat)
    | ProductNotDistinct(row: nat)
    | QuantityMissingOrBelowMinimum(row: nat)

  /** Some other row of the list has the same product as row k. */
  predicate HasTwin(items: seq<Item>, k: nat)
    requires k < |items|
  {
    exists m :: 0 <= m < |items| && m != k && items[m].productId == items[k].productId
  }

  /** Row k passes every rule its fields declare. */
  predicate RowValid(items: seq<Item>, k: nat)
    requires k < |items|
  {
    items[k].productId.Some? && !HasTwin(items, k) && items[k].quantity >= 1
  }

  /** An item list the form accepts: every product chosen and distinct, every quantity at least 1. */
  predicate Accepted(items: seq<Item>) {
    (forall k :: 0 <= k < |items| ==> items[k].productId.Some? && items[k].quantity >= 1)
    && (forall j, k :: 0 <= j < k < |items| ==> items[j].productId != items[k].productId)
  }

  /** The violations of row k alone: product required or distinct, quantity minimum. */
  function RowViolations(items: seq<Item>, k: nat): (r: seq<Violation>)
    requires k < |items|
    ensures r == [] <==> RowValid(items, k)
    ensures forall v :: v in r ==> v.row == k
    ensures ProductRequired(k) in r <==> items[k].productId.None?
    ensures ProductNotDistinct(k) in r <==> items[k].productId.Some? && HasTwin(items, k)
    ensures QuantityMissingOrBelowMinimum(k) in r <==> items[k].quantity < 1
  {
    (if items[k].productId.None? then [ProductRequired(k)]
     else if HasTwin(items, k) then [ProductNotDistinct(k)]
     else [])
    + (if items[k].quantity < 1 then [QuantityMissingOrBelowMinimum(k)] else [])
  }

  /** The violations of rows from..|items|-1, row by row. */
  function ViolationsFrom(items: seq<Item>, from: nat): (r: seq<Violation>)
    requires from <= |items|
    ensures r == [] <==> forall k :: from <= k < |items| ==> RowValid(items, k)
    ensures forall v :: v in r ==> from <= v.row < |items|
    ensures forall k :: from <= k < |items| ==>
      (ProductRequired(k) in r <==> items[k].productId.None?)
    ensures forall k :: from <= k < |items| ==>
      (ProductNotDistinct(k) in r <==> items[k].productId.Some? && HasTwin(items, k))
    ensures forall k :: from <= k < |items| ==>
      (QuantityMissingOrBelowMinimum(k) in r <==> items[k].quantity < 1)
    decreases |items| - from
  {
    if from == |items| then []
    else RowViolations(items, from) + ViolationsFrom(items, from + 1)
  }

  /** Accepted is the same as every row passing its own rules. */
  lemma AcceptedIffRowsValid(items: seq<Item>)
    ensures Accepted(items) <==> forall k :: 0 <= k < |items| ==> RowValid(items, k)
  {
    if Accepted(items) {
      forall k, m | 0 <= k < |items| && 0 <= m < |items| && m != k
        ensures items[m].productId != items[k].productId
      {
        if m < k {
          assert items[m].productId != items[k].productId;
        } else {
          assert items[k].productId != items[m].productId;
        }
      }
    }
    if forall k :: 0 <= k < |items| ==> RowValid(items, k) {
      forall j, k | 0 <= j < k < |items| ensures items[j].productId != items[k].productId {
        assert RowValid(items, k);
      }
      forall k | 0 <= k < |items| ensures items[k].productId.Some? && items[k].quantity >= 1 {
        assert RowValid(items, k);
      }
    }
  }

  /**
   * The validation errors of an item list: none exactly when the list is
   * accepted, and for each row exactly the rules that row breaks.
   */
  function Violations(items: seq<Item>): (r: seq<Violation>)
    ensures r == [] <==> Accepted(items)
    ensures forall v :: v in r ==> v.row < |items|
    ensures forall k :: 0 <= k < |items| ==>
      (ProductRequired(k) in r <==> items[k].productId.None?)
    ensures forall k :: 0 <= k < |items| ==>
      (ProductNotDistinct(k) in r <==> items[k].productId.Some? && HasTwin(items, k))
    ensures forall k :: 0 <= k < |items| ==>
      (QuantityMissingOrBelowMinimum(k) in r <==> items[k].quantity < 1)
  {
    AcceptedIffRowsValid(items);
    ViolationsFrom(items, 0)
  }
}
