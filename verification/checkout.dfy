/** The checkout page: the order request built from the cart, what a
    submission does on success and on failure, and the empty-cart redirect.
    The POST itself is an input: its outcome is passed in as a `PostResult`. */
module CheckoutPage {
  import opened Wrappers
  import opened StoreTypes

  /** One entry of the `items` array sent with `POST /orders`. */
  datatype OrderItemRequest = OrderItemRequest(productId: int, quantity: int, price: Price)

  /** The request entry for one cart line: the product's id, the line's
      quantity, and the product's unit price (not the line total). */
  function RequestFor(item: CartItem): OrderItemRequest {
    OrderItemRequest(item.product.id, item.quantity, item.product.price)
  }

  /** `cart.map(...)`: one request entry per cart line, in cart order. */
  function OrderItems(cart: seq<CartItem>): (r: seq<OrderItemRequest>)
    ensures |r| == |cart|
    ensures forall i :: 0 <= i < |cart| ==>
      && r[i].productId == cart[i].product.id
      && r[i].quantity == cart[i].quantity
      && r[i].price == cart[i].product.price
    decreases |cart|
  {
    if |cart| == 0 then [] else [RequestFor(cart[0])] + OrderItems(cart[1..])
  }

  /** The request for two carts laid end to end is the two requests laid end
      to end: the mapping neither reorders nor merges lines. */
  lemma {:induction false} OrderItemsAppend(a: seq<CartItem>, b: seq<CartItem>)
    ensures OrderItems(a + b) == OrderItems(a) + OrderItems(b)
    decreases |a|
  {
    if |a| > 0 {
      var head := RequestFor(a[0]);
      assert (a + b)[0] == a[0];
      assert (a + b)[1..] == a[1..] + b;
      calc {
        OrderItems(a + b);
        [head] + OrderItems(a[1..] + b);
        { OrderItemsAppend(a[1..], b); }
        [head] + (OrderItems(a[1..]) + OrderItems(b));
        ([head] + OrderItems(a[1..])) + OrderItems(b);
        OrderItems(a) + OrderItems(b);
      }
    }
  }

  function CartUnits(cart: seq<CartItem>): int
    decreases |cart|
  {
    if |cart| == 0 then 0 else cart[0].quantity + CartUnits(cart[1..])
  }

  function RequestedUnits(items: seq<OrderItemRequest>): int
    decreases |items|
  {
    if |items| == 0 then 0 else items[0].quantity + RequestedUnits(items[1..])
  }

  /** The order asks for exactly as many units as the cart holds. */
  lemma {:induction false} OrderItemsKeepUnits(cart: seq<CartItem>)
    ensures RequestedUnits(OrderItems(cart)) == CartUnits(cart)
    decreases |cart|
  {
    if |cart| > 0 {
      OrderItemsKeepUnits(cart[1..]);
    }
  }

  /** The outcome of `POST /orders`; a failure may carry the server's `detail`. */
  datatype PostResult = Created | Failed(detail: Option<string>)

  datatype Toast = SuccessToast(message: string) | ErrorToast(message: string)

  /** What one submission does: the request it sends, the cart it leaves,
      the notification it shows and where it navigates. */
  datatype SubmitOutcome = SubmitOutcome(
    request: seq<OrderItemRequest>,
    cartAfter: seq<CartItem>,
    toast: Toast,
    navigateTo: Option<string>)

  /** The server's `detail` when it is a non-empty string, else a fixed text. */
  function FailureMessage(detail: Option<string>): string {
    if detail.Some? && detail.value != "" then detail.value else "Failed to place order"
  }

  /** `handleSubmit`: build the request, POST it, then on success notify,
      clear the cart and go to /orders; on failure only notify. */
  function HandleSubmit(cart: seq<CartItem>, post: PostResult): SubmitOutcome {
    var request := OrderItems(cart);
    match post
    case Created => SubmitOutcome(request, [], SuccessToast("Order placed successfully!"), Some("/orders"))
    case Failed(detail) => SubmitOutcome(request, cart, ErrorToast(FailureMessage(detail)), None)
  }

  /** The cart is cleared only when the POST succeeds; a failed POST leaves
      it untouched, shows the server's detail or the fixed text, and stays on
      the page. The request sent does not depend on the outcome. */
  lemma SubmitClearsOnlyOnSuccess(cart: seq<CartItem>, post: PostResult)
    ensures HandleSubmit(cart, post).request == OrderItems(cart)
    ensures post.Created? ==>
      && HandleSubmit(cart, post).cartAfter == []
      && HandleSubmit(cart, post).navigateTo == Some("/orders")
      && HandleSubmit(cart, post).toast == SuccessToast("Order placed successfully!")
    ensures post.Failed? ==>
      && HandleSubmit(cart, post).cartAfter == cart
      && HandleSubmit(cart, post).navigateTo.None?
      && HandleSubmit(cart, post).toast == ErrorToast(FailureMessage(post.detail))
      && (post.detail.Some? && post.detail.value != "" ==>
            HandleSubmit(cart, post).toast.message == post.detail.value)
      && (post.detail.None? || post.detail.value == "" ==>
            HandleSubmit(cart, post).toast.message == "Failed to place order")
    ensures HandleSubmit(cart, post).cartAfter == [] ==> post.Created? || cart == []
  {
  }

  /** No unit is lost by a submission: on success every unit of the cart is
      in the request and the cart is empty; on failure every unit stays in
      the cart. */
  lemma SubmitConservesUnits(cart: seq<CartItem>, post: PostResult)
    ensures post.Created? ==>
      RequestedUnits(HandleSubmit(cart, post).request) + CartUnits(HandleSubmit(cart, post).cartAfter) == CartUnits(cart)
    ensures post.Failed? ==> CartUnits(HandleSubmit(cart, post).cartAfter) == CartUnits(cart)
    ensures RequestedUnits(HandleSubmit(cart, post).request) == CartUnits(cart)
  {
    OrderItemsKeepUnits(cart);
  }

  /** A failure shows the server's detail exactly when it is present and
      non-empty, and otherwise the fixed text. */
  lemma FailureMessageSpec(detail: Option<string>)
    ensures detail.Some? && detail.value != "" ==> FailureMessage(detail) == detail.value
    ensures detail.None? || detail.value == "" ==> FailureMessage(detail) == "Failed to place order"
    ensures FailureMessage(detail) != ""
  {
  }

  datatype CheckoutView = RedirectToCart(path: string) | CheckoutForm(summary: seq<CartItem>)

  /** The page's render: an empty cart navigates to /cart and shows nothing. */
  function Render(cart: seq<CartItem>): CheckoutView {
    if |cart| == 0 then RedirectToCart("/cart") else CheckoutForm(cart)
  }

  /** The form, and so a submission, exists only for a non-empty cart; an
      empty cart is sent to /cart, and a submitted request is never empty. */
  lemma EmptyCartNeverSubmits(cart: seq<CartItem>, post: PostResult)
    ensures Render(cart).CheckoutForm? <==> |cart| > 0
    ensures |cart| == 0 ==> Render(cart) == RedirectToCart("/cart")
    ensures Render(cart).CheckoutForm? ==> |HandleSubmit(cart, post).request| > 0
  {
  }
}
