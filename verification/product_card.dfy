/** A product tile on the listing pages: its discount badge and its
    add-to-cart button. */
module ProductCard {
  import opened Optional
  import opened Catalog
  import Cart

  /** `Math.round`: the nearest integer, halves rounding up. */
  function Round(x: real): (n: int)
    ensures n as real - 0.5 <= x < n as real + 0.5
  {
    (x + 0.5).Floor
  }

  /** The badge is shown when the compare-at price is present and not 0
      (0 reads as false). */
  predicate ShowsBadge(p: Product) {
    p.compareAtPrice.Some? && p.compareAtPrice.value != 0.0
  }

  /** The discount in whole percent against the compare-at price, 0 when
      there is no badge. */
  function DiscountPercent(p: Product): (d: int)
    ensures !ShowsBadge(p) ==> d == 0
    ensures ShowsBadge(p) ==>
      var c := p.compareAtPrice.value;
      d as real - 0.5 <= (c - p.price) / c * 100.0 < d as real + 0.5
  {
    if ShowsBadge(p) then
      var c := p.compareAtPrice.value;
      Round((c - p.price) / c * 100.0)
    else 0
  }

  /** For a genuine markdown (0 <= price <= compare-at, compare-at > 0) the
      discount lies in [0, 100], and it is 0 when nothing is taken off. */
  lemma DiscountBounds(p: Product)
    requires p.compareAtPrice.Some? && p.compareAtPrice.value > 0.0
    requires 0.0 <= p.price <= p.compareAtPrice.value
    ensures 0 <= DiscountPercent(p) <= 100
    ensures p.price == p.compareAtPrice.value ==> DiscountPercent(p) == 0
  {
    var c := p.compareAtPrice.value;
    var x := (c - p.price) / c * 100.0;
    assert 0.0 <= (c - p.price) / c <= 1.0 by {
      assert (c - p.price) / c * c == c - p.price;
    }
    assert 0.0 <= x <= 100.0;
  }

  /** A markup of at least one percent over the compare-at price shows a
      negative discount. */
  lemma MarkupShowsNegative(p: Product)
    requires p.compareAtPrice.Some? && p.compareAtPrice.value > 0.0
    requires p.price >= p.compareAtPrice.value * 1.01
    ensures DiscountPercent(p) < 0
  {
    var c := p.compareAtPrice.value;
    assert (c - p.price) / c * 100.0 <= -1.0 by {
      assert (c - p.price) / c * c == c - p.price;
    }
  }

  /** The badge's number is negative exactly when the price is more than
      half a percent above the compare-at price; a smaller markup rounds to
      0 (JavaScript's -0, which displays as 0). */
  lemma NegativeBadgeExactly(p: Product)
    requires p.compareAtPrice.Some? && p.compareAtPrice.value > 0.0
    ensures DiscountPercent(p) < 0 <==> p.price > p.compareAtPrice.value * 1.005
  {
    var c := p.compareAtPrice.value;
    var x := (c - p.price) / c * 100.0;
    assert x * c == (c - p.price) * 100.0 by {
      assert (c - p.price) / c * c == c - p.price;
    }
    assert x < -0.5 <==> x * c < -0.5 * c by {
      if x < -0.5 { assert (x + 0.5) * c < 0.0; }
      if x * c < -0.5 * c { assert (x + 0.5) * c < 0.0; }
    }
  }

  /** The tile's button state: whether an add is in progress. */
  datatype Tile = Tile(product: Product, isAdding: bool)

  predicate ButtonDisabled(t: Tile) {
    !t.product.inStock || t.isAdding
  }

  /** The button's label, in order of precedence. */
  function ButtonLabel(t: Tile): (l: string)
    ensures !t.product.inStock ==> l == "Out of Stock"
    ensures t.product.inStock && t.isAdding ==> l == "Added!"
    ensures t.product.inStock && !t.isAdding ==> l == "Add to Cart"
  {
    if !t.product.inStock then "Out of Stock" else if t.isAdding then "Added!" else "Add to Cart"
  }

  /** The button reads "Add to Cart" exactly when it can be pressed. */
  lemma LabelShowsEnabled(t: Tile)
    ensures ButtonLabel(t) == "Add to Cart" <==> !ButtonDisabled(t)
  {
  }

  /** `handleAddToCart`: for a product in stock, mark the tile as adding and
      add one of the product; otherwise do nothing. */
  function HandleAddToCart(t: Tile, cart: Cart.Lines): (r: (Tile, Cart.Lines))
    ensures !t.product.inStock ==> r == (t, cart)
    ensures t.product.inStock ==> r.0 == t.(isAdding := true) && r.1 == Cart.AddItem(cart, t.product, 1)
  {
    if !t.product.inStock then (t, cart) else (t.(isAdding := true), Cart.AddItem(cart, t.product, 1))
  }

  /** A click on the button: a disabled button takes no click. */
  function Click(t: Tile, cart: Cart.Lines): (r: (Tile, Cart.Lines))
    ensures ButtonDisabled(t) ==> r == (t, cart)
  {
    if ButtonDisabled(t) then (t, cart) else HandleAddToCart(t, cart)
  }

  /** The timer that ends the "Added!" state. */
  function AddingDone(t: Tile): (r: Tile)
    ensures !r.isAdding && r.product == t.product
  {
    t.(isAdding := false)
  }

  /** An out-of-stock product never reaches the cart; an in-stock click adds
      exactly one of it, leaves every other line alone, and blocks a second
      click until the timer ends. */
  lemma ClickAddsOne(t: Tile, cart: Cart.Lines)
    ensures !t.product.inStock ==> Click(t, cart).1 == cart
    ensures !ButtonDisabled(t) ==>
      var (t', cart') := Click(t, cart);
      && Cart.QuantityOf(cart', t.product.id) == Cart.QuantityOf(cart, t.product.id) + 1
      && Cart.TotalItems(cart') == Cart.TotalItems(cart) + 1
      && (forall id :: id != t.product.id ==> Cart.Find(cart', id) == Cart.Find(cart, id))
      && ButtonDisabled(t')
      && Click(t', cart') == (t', cart')
  {
    Cart.AddItemFinds(cart, t.product, 1);
  }
}
