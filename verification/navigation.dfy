/** The navigation bar: the cart badge, whose count is a left fold of the
    cart's quantities, and the two links highlighted by exact path match. */
module Navigation {
  import opened Shop

  /** Reference definition of the item count: the sum of all quantities. */
  function QuantitySum(items: seq<CartItem>): int {
    if |items| == 0 then 0 else items[0].quantity + QuantitySum(items[1..])
  }

  /** Array.prototype.reduce with `(sum, item) => sum + item.quantity`,
      walking the items from the front with a running sum. */
  function Reduce(sum: int, items: seq<CartItem>): (r: int)
    ensures r == sum + QuantitySum(items)
    decreases |items|
  {
    if |items| == 0 then sum else Reduce(sum + items[0].quantity, items[1..])
  }

  /** The badge count: the fold started at 0. */
  function TotalItems(cart: seq<CartItem>): (n: int)
    ensures n == QuantitySum(cart)
    ensures cart == [] ==> n == 0
  {
    Reduce(0, cart)
  }

  lemma {:induction false} QuantitySumAppend(a: seq<CartItem>, b: seq<CartItem>)
    ensures QuantitySum(a + b) == QuantitySum(a) + QuantitySum(b)
  {
    if |a| > 0 {
      assert (a + b)[1..] == a[1..] + b;
      QuantitySumAppend(a[1..], b);
    } else {
      assert a + b == b;
    }
  }

  /** A line appended to the cart raises the count by exactly its quantity. */
  lemma AppendRaisesTotal(cart: seq<CartItem>, item: CartItem)
    ensures TotalItems(cart + [item]) == TotalItems(cart) + item.quantity
  {
    QuantitySumAppend(cart, [item]);
    assert QuantitySum([item]) == item.quantity;
  }

  /** The badge: shown, with the count, only when the count is positive. */
  function Badge(cart: seq<CartItem>): (b: Option<int>)
    ensures b.Some? <==> QuantitySum(cart) > 0
    ensures b.Some? ==> b.value == QuantitySum(cart) && b.value > 0
  {
    var total := TotalItems(cart);
    if total > 0 then Some(total) else None
  }

  /** With no negative quantities the badge appears exactly when some line
      has a positive quantity. */
  lemma {:induction false} BadgeIffSomePositive(cart: seq<CartItem>)
    requires forall i :: 0 <= i < |cart| ==> cart[i].quantity >= 0
    ensures Badge(cart).Some? <==> exists i :: 0 <= i < |cart| && cart[i].quantity > 0
    decreases |cart|
  {
    if |cart| > 0 {
      BadgeIffSomePositive(cart[1..]);
      NonNegativeSum(cart[1..]);
      if exists i :: 0 <= i < |cart[1..]| && cart[1..][i].quantity > 0 {
        var i :| 0 <= i < |cart[1..]| && cart[1..][i].quantity > 0;
        assert cart[i + 1].quantity > 0;
      }
      if exists i :: 0 <= i < |cart| && cart[i].quantity > 0 {
        var i :| 0 <= i < |cart| && cart[i].quantity > 0;
        if i > 0 {
          assert cart[1..][i - 1].quantity > 0;
        }
      }
    }
  }

  lemma {:induction false} NonNegativeSum(items: seq<CartItem>)
    requires forall i :: 0 <= i < |items| ==> items[i].quantity >= 0
    ensures QuantitySum(items) >= 0
    decreases |items|
  {
    if |items| > 0 {
      NonNegativeSum(items[1..]);
    }
  }

  datatype NavLink = HomeLink | CartLink

  function Target(link: NavLink): string {
    match link
    case HomeLink => HomePath
    case CartLink => CheckoutPath
  }

  /** The links drawn as active for the current path: a link is active when
      the path equals its target exactly. */
  function ActiveLinks(path: string): (r: set<NavLink>)
    ensures HomeLink in r <==> path == "/"
    ensures CartLink in r <==> path == "/checkout"
    ensures |r| <= 1
  {
    var r := set link | link in {HomeLink, CartLink} && path == Target(link);
    assert !(HomeLink in r && CartLink in r) by {
      assert "/"[0] != "/checkout"[1];
      assert |"/"| != |"/checkout"|;
    }
    assert r == {} || r == {HomeLink} || r == {CartLink};
    r
  }
}
