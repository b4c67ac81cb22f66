/** The product detail page: the quantity stepper, the add-to-cart decision
    and which parts of the page render. `user` and `isAdmin` are read from the
    authentication store as two separate inputs, as the page reads them. */
module ProductDetailPage {
  import opened Wrappers
  import opened StoreTypes
  import opened Text

  /** The quantity a freshly opened page starts with. */
  const InitialQuantity: int := 1

  datatype StepperEvent = Increment | Decrement

  /** `incrementQuantity`: one more, while below the product's stock. */
  function IncrementQuantity(product: Option<Product>, quantity: int): int {
    if product.Some? && quantity < product.value.stock then quantity + 1 else quantity
  }

  /** `decrementQuantity`: one fewer, while above 1. */
  function DecrementQuantity(quantity: int): int {
    if quantity > 1 then quantity - 1 else quantity
  }

  function Step(product: Option<Product>, quantity: int, e: StepperEvent): int {
    match e
    case Increment => IncrementQuantity(product, quantity)
    case Decrement => DecrementQuantity(quantity)
  }

  /** The quantity after the clicks `events`, in order, starting from `quantity`. */
  function Run(product: Option<Product>, quantity: int, events: seq<StepperEvent>): int
    decreases |events|
  {
    if |events| == 0 then quantity else Run(product, Step(product, quantity, events[0]), events[1..])
  }

  /** The largest quantity the stepper can show for a product: its stock,
      but never below the starting quantity 1. */
  function MaxQuantity(stock: int): int {
    if stock > 1 then stock else 1
  }

  /** Increment adds exactly one below the stock and otherwise changes
      nothing; without a product it changes nothing. */
  lemma IncrementSpec(product: Option<Product>, quantity: int)
    ensures product.Some? && quantity < product.value.stock ==>
      IncrementQuantity(product, quantity) == quantity + 1
    ensures !(product.Some? && quantity < product.value.stock) ==>
      IncrementQuantity(product, quantity) == quantity
    ensures IncrementQuantity(product, quantity) - quantity in {0, 1}
  {
  }

  /** Decrement subtracts exactly one above 1 and otherwise changes nothing. */
  lemma DecrementSpec(quantity: int)
    ensures quantity > 1 ==> DecrementQuantity(quantity) == quantity - 1
    ensures quantity <= 1 ==> DecrementQuantity(quantity) == quantity
    ensures quantity >= 1 ==> DecrementQuantity(quantity) >= 1
  {
  }

  /** One click keeps the quantity within 1..max(1, stock). */
  lemma StepKeepsBounds(p: Product, quantity: int, e: StepperEvent)
    requires 1 <= quantity <= MaxQuantity(p.stock)
    ensures 1 <= Step(Some(p), quantity, e) <= MaxQuantity(p.stock)
  {
  }

  /** Any sequence of clicks from a quantity within bounds stays within bounds. */
  lemma {:induction false} RunKeepsBounds(p: Product, quantity: int, events: seq<StepperEvent>)
    requires 1 <= quantity <= MaxQuantity(p.stock)
    ensures 1 <= Run(Some(p), quantity, events) <= MaxQuantity(p.stock)
    decreases |events|
  {
    if |events| > 0 {
      StepKeepsBounds(p, quantity, events[0]);
      RunKeepsBounds(p, Step(Some(p), quantity, events[0]), events[1..]);
    }
  }

  /** From the starting quantity, no sequence of clicks leaves 1..max(1, stock). */
  lemma ReachableQuantityBounds(p: Product, events: seq<StepperEvent>)
    ensures 1 <= Run(Some(p), InitialQuantity, events) <= MaxQuantity(p.stock)
  {
    RunKeepsBounds(p, InitialQuantity, events);
  }

  /** `n` presses of "+". */
  function Presses(n: nat): (es: seq<StepperEvent>)
    ensures |es| == n
  {
    seq(n, _ => Increment)
  }

  /** Pressing "+" n times from q reaches min(q + n, stock), or stays at q
      when q is already at or above the stock. */
  lemma {:induction false} IncrementsSaturate(p: Product, quantity: int, n: nat)
    ensures quantity >= p.stock ==> Run(Some(p), quantity, Presses(n)) == quantity
    ensures quantity < p.stock ==>
      Run(Some(p), quantity, Presses(n)) == if quantity + n < p.stock then quantity + n else p.stock
    decreases n
  {
    if n > 0 {
      assert Presses(n)[1..] == Presses(n - 1);
      IncrementsSaturate(p, IncrementQuantity(Some(p), quantity), n - 1);
    }
  }

  /** Every quantity in 1..max(1, stock) is reachable from the start, so the
      bounds above are tight. */
  lemma EveryBoundedQuantityReachable(p: Product, target: int)
    requires 1 <= target <= MaxQuantity(p.stock)
    ensures Run(Some(p), InitialQuantity, Presses(target - 1)) == target
  {
    IncrementsSaturate(p, InitialQuantity, target - 1);
  }

  /** The `disabled` attribute of the "+" button. */
  predicate PlusDisabled(p: Product, quantity: int) {
    quantity >= p.stock
  }

  /** The "+" button is disabled exactly when its handler would refuse. */
  lemma PlusDisabledIffNoEffect(p: Product, quantity: int)
    ensures PlusDisabled(p, quantity) <==> IncrementQuantity(Some(p), quantity) == quantity
  {
  }

  /** What one click on "Add to Cart" does. `Added` stands for the call
      `addToCart(product, quantity)` into the cart store. */
  datatype AddOutcome =
    | LoginRequired(toast: string, navigateTo: string)
    | AdminRefused(toast: string)
    | Added(product: Product, quantity: int, toast: string)
    | NoProduct

  /** `handleAddToCart`. */
  function HandleAddToCart(userPresent: bool, isAdmin: bool, product: Option<Product>, quantity: int): AddOutcome {
    if !userPresent then
      LoginRequired("Please login to add items to cart", "/login")
    else if isAdmin then
      AdminRefused("Admin accounts cannot add items to cart")
    else if product.Some? then
      Added(product.value, quantity,
        "Added " + IntToString(quantity) + " " + product.value.name + " to cart")
    else
      NoProduct
  }

  /** Without a user nothing is added and the page routes to /login; an admin
      never adds; a signed-in customer adds the shown product with exactly the
      current quantity. The button sits inside the quantity controls, so
      whenever it is rendered the click adds the shown product with the shown
      quantity: the login and admin refusals cannot be reached from this page. */
  lemma AddToCartGating(userPresent: bool, isAdmin: bool, product: Option<Product>, quantity: int)
    ensures product.Some? && Render(false, product, userPresent, isAdmin, quantity).view.controls.Some? ==>
      && HandleAddToCart(userPresent, isAdmin, product, quantity)
           == Added(product.value, quantity,
                "Added " + IntToString(quantity) + " " + product.value.name + " to cart")
      && Render(false, product, userPresent, isAdmin, quantity).view.controls.value.quantity == quantity
    ensures product.Some? && !HandleAddToCart(userPresent, isAdmin, product, quantity).Added? ==>
      Render(false, product, userPresent, isAdmin, quantity).view.controls.None?
    ensures !userPresent ==>
      HandleAddToCart(userPresent, isAdmin, product, quantity).LoginRequired?
      && HandleAddToCart(userPresent, isAdmin, product, quantity).navigateTo == "/login"
    ensures userPresent && isAdmin ==> HandleAddToCart(userPresent, isAdmin, product, quantity).AdminRefused?
    ensures HandleAddToCart(userPresent, isAdmin, product, quantity).Added? <==>
      userPresent && !isAdmin && product.Some?
    ensures HandleAddToCart(userPresent, isAdmin, product, quantity).Added? ==>
      HandleAddToCart(userPresent, isAdmin, product, quantity).product == product.value
      && HandleAddToCart(userPresent, isAdmin, product, quantity).quantity == quantity
  {
  }

  /** A customer who adds after any clicks on the stepper asks the cart for
      between 1 and the product's stock units, when the product is in stock. */
  lemma AddedQuantityWithinStock(p: Product, events: seq<StepperEvent>)
    requires p.stock >= 1
    ensures var q := Run(Some(p), InitialQuantity, events);
      var o := HandleAddToCart(true, false, Some(p), q);
      o.Added? && 1 <= o.quantity <= p.stock
  {
    ReachableQuantityBounds(p, events);
  }

  datatype StockLabel = InStock(count: int) | OutOfStockLabel

  /** The quantity controls: the shown quantity and whether "+" is disabled. */
  datatype Controls = Controls(quantity: int, plusDisabled: bool)

  datatype DetailView = DetailView(
    stockLabel: StockLabel,
    controls: Option<Controls>,
    outOfStockNotice: bool)

  datatype DetailPage = Loading | Blank | Detail(view: DetailView)

  /** The page's render: a spinner while loading, nothing without a product,
      otherwise the stock label, the controls and the out-of-stock notice. */
  function Render(loading: bool, product: Option<Product>, userPresent: bool, isAdmin: bool, quantity: int): DetailPage {
    if loading then Loading
    else if product.None? then Blank
    else
      var p := product.value;
      Detail(DetailView(
        if p.stock > 0 then InStock(p.stock) else OutOfStockLabel,
        if p.stock > 0 && userPresent && !isAdmin then Some(Controls(quantity, PlusDisabled(p, quantity))) else None,
        p.stock == 0))
  }

  /** The controls render only for a signed-in non-admin and a product in
      stock; the notice renders exactly at zero stock, so the two never
      appear together; a negative stock shows neither but is labelled out of
      stock. */
  lemma RenderConditions(p: Product, userPresent: bool, isAdmin: bool, quantity: int)
    ensures var v := Render(false, Some(p), userPresent, isAdmin, quantity).view;
      && (v.controls.Some? <==> p.stock > 0 && userPresent && !isAdmin)
      && (v.outOfStockNotice <==> p.stock == 0)
      && !(v.controls.Some? && v.outOfStockNotice)
      && (v.stockLabel.InStock? <==> p.stock > 0)
      && (v.stockLabel.InStock? ==> v.stockLabel.count == p.stock)
      && (v.controls.Some? ==>
            && v.controls.value.quantity == quantity
            && (v.controls.value.plusDisabled <==> IncrementQuantity(Some(p), quantity) == quantity))
  {
  }
}
