/** The order resource's navigation badge: the number of orders and its colour. */
module Navigation {
  import Money

  /** getNavigationBadge: the order count, converted to its decimal string. */
  function Badge(orderCount: nat): (badge: string)
    ensures Money.AllDigits(badge) && Money.ValueOf(badge) == orderCount
    ensures |badge| >= 1 && (badge[0] == '0' ==> orderCount == 0)
    ensures orderCount < 10 <==> |badge| == 1
  {
    Money.DecimalValue(orderCount);
    Money.Decimal(orderCount)
  }

  /** getNavigationBadgeColor: 'success' for more than ten orders, 'danger' otherwise. */
  function BadgeColor(orderCount: nat): (color: string)
    ensures color == "success" <==> orderCount > 10
    ensures color == "danger" <==> orderCount <= 10
  {
    if orderCount > 10 then "success" else "danger"
  }
}
