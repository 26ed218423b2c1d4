/** Shared vocabulary of the storefront: the product shape the components
    actually use, cart lines, and the side effects a component hands to the
    cart container or the router (modelled as recorded events, since the
    cart container and the router are outside this model). */
module Shop {

  datatype Option<+T> = None | Some(value: T)

  /** A catalogue entry. Prices are whole rupiah, so a natural number. */
  datatype Product = Product(
    id: string,
    name: string,
    price: nat,
    image: string,
    description: string)

  /** A cart line: a product together with how many of it are in the cart. */
  datatype CartItem = CartItem(product: Product, quantity: int)

  /** Requests a component makes of the outside world. */
  datatype Effect =
    | AddToCart(product: Product)
    | ClearCart
    | Navigate(path: string)

  const HomePath: string := "/"
  const CheckoutPath: string := "/checkout"
}
