/** The order history page: the status badge colour, the item labels, and
    which sections render. */
module OrdersPage {
  import opened Wrappers
  import opened StoreTypes
  import opened Text

  /** The badge classes of every status share one pattern, differing only in
      the Tailwind colour name. */
  function BadgeClasses(colour: string): (r: string)
    requires |colour| > 0
    ensures |r| > 3 && r[3] == colour[0]
  {
    "bg-" + colour + "-100 text-" + colour + "-800 dark:bg-" + colour + "-900 dark:text-" + colour + "-200"
  }

  const PendingClass := BadgeClasses("yellow")
  const ProcessingClass := BadgeClasses("blue")
  const ShippedClass := BadgeClasses("green")
  const DeliveredClass := BadgeClasses("emerald")
  const CancelledClass := BadgeClasses("red")
  const DefaultClass := BadgeClasses("slate")

  /** `getStatusColor`: the badge classes for an order status, chosen on the
      lowered status, with the slate classes for any other status. */
  function StatusColor(status: string): string {
    var s := Lower(status);
    if s == "pending" then PendingClass
    else if s == "processing" then ProcessingClass
    else if s == "shipped" then ShippedClass
    else if s == "delivered" then DeliveredClass
    else if s == "cancelled" then CancelledClass
    else DefaultClass
  }

  /** The six class strings are pairwise distinct. */
  lemma StatusClassesDistinct()
    ensures PendingClass != ProcessingClass && PendingClass != ShippedClass
    ensures PendingClass != DeliveredClass && PendingClass != CancelledClass
    ensures ProcessingClass != ShippedClass && ProcessingClass != DeliveredClass
    ensures ProcessingClass != CancelledClass && ShippedClass != DeliveredClass
    ensures ShippedClass != CancelledClass && DeliveredClass != CancelledClass
    ensures DefaultClass !in {PendingClass, ProcessingClass, ShippedClass, DeliveredClass, CancelledClass}
  {
    assert PendingClass[3] == 'y' && ProcessingClass[3] == 'b' && ShippedClass[3] == 'g';
    assert DeliveredClass[3] == 'e' && CancelledClass[3] == 'r' && DefaultClass[3] == 's';
  }

  /** The class tells the lowered status back: each of the five known
      statuses has its own class, and every other status gets the default,
      so the function is total with exactly six possible results. */
  lemma StatusColorClassification(status: string)
    ensures StatusColor(status) == PendingClass <==> Lower(status) == "pending"
    ensures StatusColor(status) == ProcessingClass <==> Lower(status) == "processing"
    ensures StatusColor(status) == ShippedClass <==> Lower(status) == "shipped"
    ensures StatusColor(status) == DeliveredClass <==> Lower(status) == "delivered"
    ensures StatusColor(status) == CancelledClass <==> Lower(status) == "cancelled"
    ensures StatusColor(status) == DefaultClass <==>
      Lower(status) !in {"pending", "processing", "shipped", "delivered", "cancelled"}
  {
    StatusClassesDistinct();
  }

  /** Statuses that differ only in letter case get the same class; in
      particular a status and its lowered form do. */
  lemma StatusColorIgnoresCase(a: string, b: string)
    requires SameIgnoringCase(a, b)
    ensures StatusColor(a) == StatusColor(b)
    ensures StatusColor(a) == StatusColor(Lower(a))
  {
    LowerIdempotent(a);
  }

  const FallbackPrefix := "Product #"

  /** The label of an order line: the product's name when the product is
      present with a non-empty name, otherwise "Product #" and the id. */
  function ItemLabel(item: OrderItem): string {
    if item.product.Some? && item.product.value.name != "" then item.product.value.name
    else FallbackPrefix + IntToString(item.productId)
  }

  /** A non-empty product name is shown as is; otherwise the label is the
      fallback, from which the product id can be read back. */
  lemma ItemLabelSpec(item: OrderItem)
    ensures item.product.Some? && item.product.value.name != "" ==> ItemLabel(item) == item.product.value.name
    ensures item.product.None? || item.product.value.name == "" ==>
      && |ItemLabel(item)| > |FallbackPrefix|
      && ItemLabel(item)[..|FallbackPrefix|] == FallbackPrefix
      && ParseInt(ItemLabel(item)[|FallbackPrefix|..]) == item.productId
    ensures ItemLabel(item) != ""
  {
    var shown := ItemLabel(item);
    if item.product.None? || item.product.value.name == "" {
      assert shown[|FallbackPrefix|..] == IntToString(item.productId);
      IntToStringRoundTrip(item.productId);
    }
  }

  /** Two lines that both fall back share a label only when they name the
      same product id. */
  lemma FallbackLabelsDistinguishProducts(a: OrderItem, b: OrderItem)
    requires a.product.None? || a.product.value.name == ""
    requires b.product.None? || b.product.value.name == ""
    ensures ItemLabel(a) == ItemLabel(b) <==> a.productId == b.productId
  {
    ItemLabelSpec(a);
    ItemLabelSpec(b);
  }

  /** One order's card: its id, the status text and badge classes, and the
      item labels when the items section renders. */
  datatype OrderCard = OrderCard(orderId: int, status: string, statusClass: string, itemLabels: Option<seq<string>>)

  datatype OrdersView = Loading | NoOrdersYet | OrderList(cards: seq<OrderCard>)

  function CardFor(o: Order): OrderCard {
    var labels :=
      if o.items.Some? && |o.items.value| > 0 then
        Some(seq(|o.items.value|, i requires 0 <= i < |o.items.value| => ItemLabel(o.items.value[i])))
      else None;
    OrderCard(o.id, o.status, StatusColor(o.status), labels)
  }

  function Render(loading: bool, orders: seq<Order>): OrdersView {
    if loading then Loading
    else if |orders| == 0 then NoOrdersYet
    else OrderList(seq(|orders|, i requires 0 <= i < |orders| => CardFor(orders[i])))
  }

  /** Once loaded, "No orders yet" renders exactly for an empty history;
      otherwise there is one card per order, in order, and a card's items
      section renders exactly when its items are present and non-empty,
      with one label per item. */
  lemma RenderSections(orders: seq<Order>)
    ensures Render(false, orders) == NoOrdersYet <==> |orders| == 0
    ensures Render(false, orders).OrderList? ==>
      && |Render(false, orders).cards| == |orders|
      && forall i :: 0 <= i < |orders| ==>
        var c := Render(false, orders).cards[i];
        && c.orderId == orders[i].id
        && c.status == orders[i].status
        && c.statusClass == StatusColor(orders[i].status)
        && (c.itemLabels.Some? <==> orders[i].items.Some? && |orders[i].items.value| > 0)
        && (c.itemLabels.Some? ==>
              && |c.itemLabels.value| == |orders[i].items.value|
              && forall k :: 0 <= k < |c.itemLabels.value| ==>
                   c.itemLabels.value[k] == ItemLabel(orders[i].items.value[k]))
  {
  }
}
