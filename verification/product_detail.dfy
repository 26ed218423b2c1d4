/** The product page: the route's id is looked up in the catalogue with a
    first-match search, and the add-to-cart button hands the product to the
    cart and moves on to checkout. */
module ProductDetail {
  import opened Shop
  import opened Products

  /** Array.prototype.findIndex with `p => p.id === id`: the position of
      the first product with that id, or None when there is none. */
  function FindIndex(ps: seq<Product>, id: string): (r: Option<nat>)
    ensures r.Some? ==> r.value < |ps| && ps[r.value].id == id
    ensures r.Some? ==> forall j :: 0 <= j < r.value ==> ps[j].id != id
    ensures r.None? <==> forall j :: 0 <= j < |ps| ==> ps[j].id != id
    decreases |ps|
  {
    if |ps| == 0 then None
    else if ps[0].id == id then Some(0)
    else match FindIndex(ps[1..], id)
      case None => None
      case Some(k) => Some(k + 1)
  }

  /** Array.prototype.find: the first product with that id, if any. */
  function Find(ps: seq<Product>, id: string): (r: Option<Product>)
    ensures r.Some? ==> r.value.id == id && r.value in ps
    ensures r.None? <==> forall p :: p in ps ==> p.id != id
  {
    match FindIndex(ps, id)
    case None => None
    case Some(k) => Some(ps[k])
  }

  /** Find returns the first match: the entry at the first position whose
      id matches, whatever later entries hold. */
  lemma FindIsFirstMatch(ps: seq<Product>, id: string, i: nat)
    requires i < |ps| && ps[i].id == id
    requires forall j :: 0 <= j < i ==> ps[j].id != id
    ensures Find(ps, id) == Some(ps[i])
  {
  }

  /** With distinct ids, looking up an entry's id yields that entry. */
  lemma FindDistinct(ps: seq<Product>, i: nat)
    requires DistinctIds(ps) && i < |ps|
    ensures Find(ps, ps[i].id) == Some(ps[i])
  {
  }

  /** What the page shows. */
  datatype View = NotFound | Found(product: Product)

  /** The page for a route parameter. The parameter may be absent, in which
      case no catalogue id (all strings) equals it. */
  function Lookup(param: Option<string>): (v: View)
    ensures v.Found? ==> param.Some? && v.product.id == param.value && v.product in Catalogue
    ensures v.NotFound? <==> param.None? || forall p :: p in Catalogue ==> p.id != param.value
  {
    match param
    case None => NotFound
    case Some(id) =>
      match Find(Catalogue, id)
      case None => NotFound
      case Some(p) => Found(p)
  }

  /** Each catalogue id leads to its own entry; every other id to the
      not-found page. */
  lemma LookupCatalogue(id: string)
    ensures id == "1" ==> Lookup(Some(id)) == Found(Catalogue[0])
    ensures id == "2" ==> Lookup(Some(id)) == Found(Catalogue[1])
    ensures id == "3" ==> Lookup(Some(id)) == Found(Catalogue[2])
    ensures id != "1" && id != "2" && id != "3" ==> Lookup(Some(id)) == NotFound
  {
  }

  /** The cart-changing requests among a list of effects, in order. */
  function CartRequests(effects: seq<Effect>): seq<Effect>
    decreases |effects|
  {
    if |effects| == 0 then []
    else if effects[0].Navigate? then CartRequests(effects[1..])
    else [effects[0]] + CartRequests(effects[1..])
  }

  /** handleAddToCart: the cart receives the shown product exactly once,
      and the page then navigates to checkout. */
  function HandleAddToCart(product: Product): (r: seq<Effect>)
    ensures CartRequests(r) == [AddToCart(product)]
    ensures |r| > 0 && r[|r| - 1] == Navigate(CheckoutPath)
    ensures forall i :: 0 <= i < |r| - 1 ==> !r[i].Navigate?
  {
    var r := [AddToCart(product), Navigate(CheckoutPath)];
    assert CartRequests(r[1..]) == [] by {
      assert r[1..][1..] == [];
    }
    r
  }
}
