/** The records exchanged with the API server, as the front-end declares them. */
module StoreTypes {
  import opened Wrappers

  /** A monetary amount. The pages only copy and display prices, so no
      arithmetic is ever written on this type. */
  datatype Price = Price(amount: real)

  datatype Role = Admin | Customer

  datatype User = User(id: int, email: string, username: string, role: Role)

  /** `category` and `imageUrl` are optional fields of the server record. */
  datatype Product = Product(
    id: int,
    name: string,
    description: string,
    price: Price,
    stock: int,
    category: Option<string>,
    imageUrl: Option<string>)

  /** One line of the client-side cart. */
  datatype CartItem = CartItem(product: Product, quantity: int)

  datatype OrderItem = OrderItem(
    id: int,
    orderId: int,
    productId: int,
    quantity: int,
    price: Price,
    product: Option<Product>)

  datatype Order = Order(
    id: int,
    userId: int,
    totalAmount: Price,
    status: string,
    createdAt: string,
    items: Option<seq<OrderItem>>)
}
