# Order pricing of the e-commerce back-office, in Dafny

The back-office's order form (`OrderResource::form`) keeps a repeater of
order rows. Each row has a `product_id`, a `quantity`, a `unit_amount` and a
`total_amount`. The form also has a hidden `grand_total`. Four pieces of
behaviour belong to the repository itself, and this project models them:

- choosing a product in a row: the price lookup, the row total, and the
  quantity reset, run as three callbacks in registration order;
- changing a row's quantity, which recomputes the row total;
- the grand-total placeholder, which folds the rows' totals, stores the sum
  in `grand_total` and shows it as `"Rp. "` plus the number with `.` as the
  thousands separator;
- the validation rules the rows declare (product required and distinct
  among sibling rows, quantity at least 1), and the navigation badge with
  its colour rule.

Files:

- `wrappers.dfy`: `Option`.
- `money.dfy` (module `Money`): `number_format($total, 0, '.', '.')` for
  non-negative integers, the `"Rp. "` label, and `ParseDisplay`, which reads
  the amount back from a label.
- `order_items.dfy` (module `OrderItems`): the row datatype; the callbacks
  as functions on one row; `Sum` and the loop `Accumulate`; the validation
  rules.
- `order_form.dfy` (module `OrderForm`): the class `Form`. Its fields are
  the rows and `grand_total`. Its methods update those fields in place, as
  the closures do through `$set`. Two client methods replay concrete edit
  sequences.
- `navigation.dfy` (module `Navigation`): the badge and its colour.

Modelling decisions:

- `Product::find` is a `Catalog`, a map from product id to price. An id
  missing from the map stands for "no such product", and the price is 0.
- The order count behind the badge is a parameter.
- A field the form has not filled yet is null in the form state. PHP
  arithmetic reads null as 0, and so does the model. `product_id` is an
  `Option<nat>`, because the select can be cleared.
- Prices, quantities and totals are unbounded non-negative integers.

Three places where the code does something other than the evident
intent. The model follows the code in each:

- Product selection. The evident intent is row total = quantity (1) × price.
  The code computes product id × price
  (app/Filament/Resources/OrderResource.php:138), because that callback's
  state is the selected product id. The reset to quantity 1 (:141) comes
  after the total has been written.
- Quantity below 1. The quantity callback (:151-153) recomputes the total
  for any quantity and neither clamps nor rejects it. The minimum of 1
  (:146) applies only as a validation rule (`Accepted`, `Violations`).
- Empty item list. The evident intent is that `grand_total` is 0 when the
  label shows "Rp. 0". With no rows the closure returns (:177) before it
  writes `grand_total` (:183), so `grand_total` keeps its previous value.

The first and third are under "## Findings", each with an as-written member
and a corrected one. The second is modelled as written and needs no
correction: the validation rule rejects such a list on save.

## Model

| member | source | states |
|---|---|---|
| OrderItems.Selected | app/Filament/Resources/OrderResource.php:134-142 | after a selection the row has the chosen product, that product's catalog price (0 when the id is unknown or cleared, never a failure), quantity 1, and total = product id × price, because the total callback runs before the reset |
| OrderItems.SelectedConsistentIff | app/Filament/Resources/OrderResource.php:137-142 | a row left by a selection has total = quantity × price exactly when the product id is 1 or the price is 0 |
| OrderItems.SelectedTotalUsesProductId | app/Filament/Resources/OrderResource.php:137-139 | selecting product 3 priced 15000 leaves quantity 1, unit 15000, total 45000: an inconsistent row |
| OrderItems.SelectedFixed | app/Filament/Resources/OrderResource.php:134-142 | corrected selection: the chosen product, its price, quantity 1, and a row total equal to the price |
| OrderItems.QuantityChanged | app/Filament/Resources/OrderResource.php:151-153 | after a quantity change, total = quantity × unit price; the product and the unit price are unchanged |
| OrderItems.EditsKeepLinesConsistent | app/Filament/Resources/OrderResource.php:151-153 | when every row has total = quantity × price, a corrected selection or a quantity change in one row keeps that true for all rows |
| OrderItems.PriceOf | app/Filament/Resources/OrderResource.php:135 | the looked-up unit price is the selected product's catalog price; with no selection or an unknown id it is 0, and the lookup never fails |
| OrderItems.Sum | app/Filament/Resources/OrderResource.php:179-181 | the sum of the rows' total_amount is 0 for no rows and at least each single row's total |
| OrderItems.Accumulate | app/Filament/Resources/OrderResource.php:179-181 | the foreach accumulator ends equal to the sum of total_amount over all rows |
| OrderItems.SumAppend | app/Filament/Resources/OrderResource.php:179-181 | the sum over two lists laid end to end is the sum of the two sums |
| OrderItems.SumRemove | app/Filament/Resources/OrderResource.php:179-183 | removing row k lowers the sum by exactly that row's total_amount |
| OrderItems.SumUpdate | app/Filament/Resources/OrderResource.php:179-183 | replacing one row changes the sum by the new total minus the old one |
| OrderItems.SumZeroIff | app/Filament/Resources/OrderResource.php:175-181 | the sum is 0 exactly when every row's total is 0, including when there are no rows |
| OrderItems.RowViolations | app/Filament/Resources/OrderResource.php:129-147 | one row's errors: none exactly when the row is valid; all name that row; "product required" exactly when no product is chosen, "not distinct" exactly when another row has the same product, "quantity missing or below minimum" exactly when the quantity is below 1 |
| OrderItems.AcceptedIffRowsValid | app/Filament/Resources/OrderResource.php:129-147 | "no two rows share a product, every product is chosen, every quantity is at least 1" is the same as each row passing its own required/distinct/minimum rules |
| OrderItems.ViolationsFrom | app/Filament/Resources/OrderResource.php:129-147 | for the rows from a given index on: no errors exactly when each of those rows is valid; each error names one of those rows; a row gets "product required" exactly when it has no product, "not distinct" exactly when its product is also chosen in another row, and "quantity missing or below minimum" exactly when its quantity is below 1 |
| OrderItems.Violations | app/Filament/Resources/OrderResource.php:124-147 | an item list has no validation errors exactly when it is accepted; every error names an existing row; for each row, exactly the rules that row breaks are reported (required product, distinct product, quantity minimum) |
| Money.Thousands | app/Filament/Resources/OrderResource.php:185 | the formatted total, number_format with '.' as thousands separator and no decimals, is non-empty and starts and ends with a digit |
| Money.Decimal | app/Filament/Resources/OrderResource.php:185 | the decimal form of a number is a non-empty digit string, with a leading zero only for 0 and one digit exactly below 10 |
| Money.DecimalValue | app/Filament/Resources/OrderResource.php:185 | reading the decimal digits of n back gives n |
| Money.DecimalSplit | app/Filament/Resources/OrderResource.php:185 | from 1000 up, the digits of n are the digits of n / 1000 followed by n mod 1000 padded to three digits |
| Money.ThousandsDigits | app/Filament/Resources/OrderResource.php:185 | removing the dots from the formatted total gives its plain decimal digits |
| Money.ThousandsShape | app/Filament/Resources/OrderResource.php:185 | the formatted total holds only digits and dots; its length is never a multiple of four; a character is a dot exactly when a multiple of four characters remain from it to the end. So one dot stands before each group of three digits from the right, and a dot never comes first |
| Money.Display | app/Filament/Resources/OrderResource.php:185 | the label starts with "Rp. " and has at least one digit after it; stripping "Rp. " and the dots and reading the digits gives back the total, for every total |
| Money.DisplayZero | app/Filament/Resources/OrderResource.php:175-177 | a missing or empty item list shows "Rp. 0" |
| Money.DisplayThirtyThousand | app/Filament/Resources/OrderResource.php:185 | 30000 is shown as "Rp. 30.000" |
| OrderForm.Form.constructor | app/Filament/Resources/OrderResource.php:188-190 | a new form has the given rows and grand_total at its default 0 |
| OrderForm.Form.SelectProduct | app/Filament/Resources/OrderResource.php:134-142 | product selection, as written, writes the fields of row k one by one in callback order; the other rows and grand_total are unchanged |
| OrderForm.Form.SelectProductFixed | app/Filament/Resources/OrderResource.php:134-142 | corrected selection in row k keeps every row's total equal to quantity × price, and the sum changes by the new price minus the old row total |
| OrderForm.Form.ChangeQuantity | app/Filament/Resources/OrderResource.php:151-153 | row k becomes the quantity-changed row; the other rows and grand_total are unchanged; consistent rows stay consistent |
| OrderForm.Form.AddItem | app/Filament/Resources/OrderResource.php:121-123 | the add action appends a blank row and leaves the sum unchanged |
| OrderForm.Form.RemoveItem | app/Filament/Resources/OrderResource.php:121-123 | the delete action removes exactly row k, keeps the other rows in order, and lowers the sum by that row's total |
| OrderForm.Form.RenderGrandTotal | app/Filament/Resources/OrderResource.php:174-186 | as written: the label is "Rp. " plus the formatted sum; grand_total becomes the sum when there are rows and keeps its old value when there are none |
| OrderForm.Form.RenderGrandTotalFixed | app/Filament/Resources/OrderResource.php:174-186 | corrected: grand_total is always the sum and the label shows it; with consistent rows the whole form is consistent |
| OrderForm.StaleGrandTotalScenario | app/Filament/Resources/OrderResource.php:175-183 | one row of 15000, rendered, removed and rendered again, shows "Rp. 0" while grand_total stays 15000 |
| OrderForm.PricingScenario | app/Filament/Resources/OrderResource.php:134-186 | product A (15000) with quantity 1 and product B (5000) with quantity 3 total 30000, shown "Rp. 30.000"; B's row reads 10000 right after selection; removing A leaves 15000 |
| Navigation.Badge | app/Filament/Resources/OrderResource.php:35-38 | the badge is the canonical decimal string of the order count: digits only, reading back as the count, with no leading zero, and a single digit exactly when the count is below 10 (so 0 is "0") |
| Navigation.BadgeColor | app/Filament/Resources/OrderResource.php:40-43 | the colour is "success" exactly when there are more than 10 orders and "danger" exactly otherwise |

## Findings

| source | as written | input that shows it | evidently intended | confidence | as-written member | corrected member |
|---|---|---|---|---|---|---|
| app/Filament/Resources/OrderResource.php:137-139 | the row total on product selection is `$state * unit_amount`, and `$state` is the product id | select product 3 priced 15000: quantity 1, total 45000 | total = quantity (1) × unit price = 15000 | high; not executed | OrderItems.SelectedTotalUsesProductId | OrderItems.SelectedFixed |
| app/Filament/Resources/OrderResource.php:177 | with no rows the closure returns before `$set('grand_total', …)` | one row of 15000 rendered, then removed and rendered again: label "Rp. 0", grand_total 15000 | grand_total = 0 whenever the label shows "Rp. 0" | medium; not executed | OrderForm.StaleGrandTotalScenario | OrderForm.Form.RenderGrandTotalFixed |

## Left out

- OrderItems.Violations: a quantity that was never filled in and a quantity of 0 are the same value here, because a null field reads as 0. The form reports a missing quantity as "required", and it never checks the minimum for it. The model reports both cases as one error, `QuantityMissingOrBelowMinimum`. The same holds for `OrderItems.ViolationsFrom` and `OrderItems.RowViolations`.

- `Product::find` and `getModel()::count()` are database queries. They are a catalog map parameter and an order-count parameter.
- When the framework calls each closure is not modelled: its reactive re-rendering, and which field change triggers which closure. The model calls each closure explicitly, once per event.
- Quantity input that is empty, non-numeric, negative or fractional. PHP float semantics of `number_format` and of numeric strings. All amounts are non-negative integers.
- Validation of the disabled fields `unit_amount` and `total_amount` (`required`, `minValue(1)` at app/Filament/Resources/OrderResource.php:156-169). Whether the framework validates disabled fields is framework behaviour.
- `disableOptionsWhenSelectedInSiblingRepeaterItems` only disables, in the UI, the options already chosen in sibling rows. The uniqueness it aims at is the `distinct` rule in `Accepted`.
- How many blank rows a new repeater starts with is framework behaviour. It is the constructor's parameter.
- Saving rows through the `orderItems` relationship, and dehydration of disabled fields, belong to the framework's save pipeline.
- The other order fields (customer, payment, currency, shipping, notes), the status toggle and its `'Pending'` default, the table, actions and pages. They are declarative configuration with no behaviour of their own.
- The slug callbacks of the Brand, Category and Product resources call `Str::slug`, whose source is not part of this model.
- app/Models/Order.php and app/Models/Product.php only list fillable attributes.
