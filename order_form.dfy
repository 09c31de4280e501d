/**
 * The order form's in-progress state: the rows of the "items" repeater and
 * the hidden grand_total field, updated in place by the form's callbacks.
 * Each callback here is the afterStateUpdated or content closure of the
 * form schema, called by the framework for one row index.
 */
module OrderForm {
  import opened Wrappers
  import opened OrderItems
  import Money

  class Form {
    var items: seq<Item>
    var grandTotal: nat

    /** Every row's total is its quantity times its price, and grand_total is their sum. */
    ghost predicate Consistent()
      reads this
    {
      AllLinesConsistent(items) && grandTotal == Sum(items)
    }

    /** A form filled with the given rows; grand_total has its default 0. */
    constructor (initial: seq<Item>)
      ensures items == initial && grandTotal == 0
    {
      items := initial;
      grandTotal := 0;
    }

    /**
     * A product is selected in row k: product_id is stored, then the three
     * callbacks run in order, each writing one field of the row (as written).
     */
    method SelectProduct(k: nat, state: Option<nat>, catalog: Catalog)
      requires k < |items|
      modifies this
      ensures items == old(items)[k := Selected(old(items)[k], state, catalog)]
      ensures grandTotal == old(grandTotal)
    {
      items := items[k := StoreSelection(items[k], state)];
      items := items[k := items[k].(unitAmount := PriceOf(catalog, state))];
      items := items[k := items[k].(totalAmount := IdNumber(state) * items[k].unitAmount)];
      items := items[k := items[k].(quantity := 1)];
    }

    /** A product is selected in row k, with the row total taken from the reset quantity. */
    method SelectProductFixed(k: nat, state: Option<nat>, catalog: Catalog)
      requires k < |items|
      modifies this
      ensures items == old(items)[k := SelectedFixed(old(items)[k], state, catalog)]
      ensures grandTotal == old(grandTotal)
      ensures AllLinesConsistent(old(items)) ==> AllLinesConsistent(items)
      ensures Sum(items) + old(items)[k].totalAmount == Sum(old(items)) + PriceOf(catalog, state)
    {
      ghost var before := items;
      items := items[k := StoreSelection(items[k], state)];
      items := items[k := items[k].(unitAmount := PriceOf(catalog, state))];
      items := items[k := items[k].(quantity := 1)];
      items := items[k := items[k].(totalAmount := items[k].quantity * items[k].unitAmount)];
      assert items == before[k := SelectedFixed(before[k], state, catalog)];
      SumUpdate(before, k, items[k]);
    }

    /** The quantity of row k is changed: its total becomes quantity times unit price. */
    method ChangeQuantity(k: nat, quantity: nat)
      requires k < |items|
      modifies this
      ensures items == old(items)[k := QuantityChanged(old(items)[k], quantity)]
      ensures grandTotal == old(grandTotal)
      ensures AllLinesConsistent(old(items)) ==> AllLinesConsistent(items)
    {
      items := items[k := items[k].(quantity := quantity)];
      items := items[k := items[k].(totalAmount := quantity * items[k].unitAmount)];
    }

    /** The repeater's add action: a blank row at the end. */
    method AddItem()
      modifies this
      ensures items == old(items) + [Blank]
      ensures grandTotal == old(grandTotal)
      ensures Sum(items) == Sum(old(items))
    {
      items := items + [Blank];
      assert items[..|items| - 1] == old(items);
    }

    /** The repeater's delete action on row k; the other rows keep their order. */
    method RemoveItem(k: nat)
      requires k < |items|
      modifies this
      ensures items == old(items)[..k] + old(items)[k + 1..]
      ensures grandTotal == old(grandTotal)
      ensures Sum(items) + old(items)[k].totalAmount == Sum(old(items))
    {
      SumRemove(items, k);
      items := items[..k] + items[k + 1..];
    }

    /**
     * The grand-total placeholder's content closure (as written): with no
     * rows it returns the "Rp. 0" label and leaves grand_total alone; otherwise
     * it sums the rows, stores the sum in grand_total and returns its label.
     */
    method RenderGrandTotal() returns (content: string)
      modifies this
      ensures items == old(items)
      ensures content == Money.Display(Sum(items))
      ensures grandTotal == if items == [] then old(grandTotal) else Sum(items)
    {
      var total := 0;
      if items == [] {
        return Money.Display(total);
      }
      total := Accumulate(items);
      grandTotal := total;
      content := Money.Display(total);
    }

    /** The content closure as evidently intended: grand_total always equals the sum shown. */
    method RenderGrandTotalFixed() returns (content: string)
      modifies this
      ensures items == old(items)
      ensures grandTotal == Sum(items) && content == Money.Display(grandTotal)
      ensures AllLinesConsistent(items) ==> Consistent()
    {
      var total := Accumulate(items);
      grandTotal := total;
      content := Money.Display(total);
    }
  }

  /**
   * Removing the only row of an order and re-rendering shows "Rp. 0" but
   * leaves grand_total at the removed row's total.
   */
  method StaleGrandTotalScenario() returns (stored: nat, content: string)
    ensures stored == 15000 && content == "Rp. 0"
  {
    var form := new Form([Blank]);
    form.SelectProduct(0, Some(1), map[1 := 15000]);
    var row := form.items[0];
    assert row.totalAmount == 15000;
    SumSingle(row);
    var _ := form.RenderGrandTotal();
    assert form.grandTotal == 15000;
    form.RemoveItem(0);
    assert form.items == [];
    content := form.RenderGrandTotal();
    Money.DisplayZero();
    stored := form.grandTotal;
  }

  /**
   * Product A (id 1, 15000) with quantity 1, product B (id 2, 5000) with
   * quantity 3, then A's row removed. B's row total right after selection
   * is 2 * 5000 because the product id multiplies the price.
   */
  method PricingScenario() returns (afterSelect: nat, grand: nat, content: string, afterRemove: nat)
    ensures afterSelect == 10000
    ensures grand == 30000 && content == "Rp. 30.000"
    ensures afterRemove == 15000
  {
    var catalog := map[1 := 15000, 2 := 5000];
    var a := Item(Some(1), 1, 15000, 15000);
    var b := Item(Some(2), 3, 5000, 15000);
    var form := new Form([]);
    form.AddItem();
    form.SelectProduct(0, Some(1), catalog);
    assert form.items == [a];
    form.AddItem();
    form.SelectProduct(1, Some(2), catalog);
    assert form.items == [a, Item(Some(2), 1, 5000, 10000)];
    afterSelect := form.items[1].totalAmount;
    form.ChangeQuantity(1, 3);
    assert form.items == [a] + [b];
    SumAppend([a], [b]);
    SumSingle(a);
    SumSingle(b);
    content := form.RenderGrandTotal();
    grand := form.grandTotal;
    Money.DisplayThirtyThousand();
    form.RemoveItem(0);
    var _ := form.RenderGrandTotal();
    afterRemove := form.grandTotal;
  }
}
