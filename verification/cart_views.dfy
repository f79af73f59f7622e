/** The two screens that show the cart, the slide-in sidebar and the cart
    page: their quantity buttons, removal and clearing, and the order
    summary (shipping, tax, totals and the free-shipping hint). */
module CartViews {
  import opened Optional
  import opened Cart

  /** What a handler asks the cart store to do. */
  datatype StoreCall = NoCall | RemoveCall(id: string) | UpdateCall(id: string, quantity: int)

  /** Carry out a store call. */
  function Perform(c: Lines, a: StoreCall): Lines {
    match a
    case NoCall => c
    case RemoveCall(id) => RemoveItem(c, id)
    case UpdateCall(id, q) => UpdateQuantity(c, id, q)
  }

  /** The sidebar's quantity button: nothing for an unknown id, removal when
      the new quantity would not be positive, otherwise an update. */
  function SidebarQuantityChange(c: Lines, id: string, delta: int): (a: StoreCall)
    ensures a.NoCall? <==> !HasId(c, id)
    ensures a.RemoveCall? <==> HasId(c, id) && QuantityOf(c, id) + delta <= 0
    ensures a.RemoveCall? ==> a.id == id
    ensures a.UpdateCall? ==> a.id == id && a.quantity > 0 && a.quantity == QuantityOf(c, id) + delta
  {
    match Find(c, id)
    case None => NoCall
    case Some(l) =>
      if l.quantity + delta <= 0 then RemoveCall(id) else UpdateCall(id, l.quantity + delta)
  }

  /** The cart page's quantity button: an update with the new quantity,
      positive or not, for a known id. */
  function PageQuantityChange(c: Lines, id: string, delta: int): (a: StoreCall)
    ensures a.NoCall? <==> !HasId(c, id)
    ensures !a.RemoveCall?
    ensures a.UpdateCall? ==> a.id == id && a.quantity == QuantityOf(c, id) + delta
  {
    match Find(c, id)
    case None => NoCall
    case Some(l) => UpdateCall(id, l.quantity + delta)
  }

  /** The two screens route a non-positive quantity differently, to removal
      or to the store's update, but leave the cart in the same state. */
  lemma QuantityHandlersAgree(c: Lines, id: string, delta: int)
    ensures Perform(c, SidebarQuantityChange(c, id, delta)) == Perform(c, PageQuantityChange(c, id, delta))
  {
  }

  /** The effect of a quantity button on a product in the cart: its line goes
      when the new quantity is not positive and otherwise holds the new
      quantity; no other product's line changes. */
  lemma QuantityChangeEffect(c: Lines, id: string, delta: int)
    requires HasId(c, id)
    ensures var r := Perform(c, PageQuantityChange(c, id, delta));
      && (QuantityOf(c, id) + delta <= 0 ==> !HasId(r, id))
      && (QuantityOf(c, id) + delta > 0 ==> HasId(r, id) && QuantityOf(r, id) == QuantityOf(c, id) + delta)
      && forall other :: other != id ==> Find(r, other) == Find(c, other)
  {
  }

  /** The minus button is disabled at quantity 1 or below. */
  predicate DecrementDisabled(quantity: int) {
    quantity <= 1
  }

  /** While the minus button is enabled, pressing it lowers the quantity by
      one and never removes the line. */
  lemma EnabledDecrementKeepsLine(c: Lines, id: string)
    requires HasId(c, id) && !DecrementDisabled(QuantityOf(c, id))
    ensures SidebarQuantityChange(c, id, -1) == UpdateCall(id, QuantityOf(c, id) - 1)
    ensures QuantityOf(c, id) - 1 >= 1
  {
  }

  /** The remove button (after its short animation delay) removes the line. */
  function HandleRemove(id: string): (a: StoreCall)
    ensures a.RemoveCall? && a.id == id
  {
    RemoveCall(id)
  }

  /** What pressing the remove button does to the cart: the product's line
      is gone, every other product's line is as it was, and the totals drop
      by exactly the removed line's quantity and amount when ids are unique,
      as the store keeps them. */
  lemma RemoveButtonEffect(c: Lines, id: string)
    ensures var r := Perform(c, HandleRemove(id));
      && !HasId(r, id)
      && (forall other :: other != id ==> Find(r, other) == Find(c, other))
      && (UniqueIds(c) ==> TotalItems(r) == TotalItems(c) - QuantityOf(c, id))
      && (UniqueIds(c) ==> TotalPrice(r) == TotalPrice(c) - (match Find(c, id) case None => 0.0 case Some(l) => LineTotal(l)))
  {
    FindAfterRemove(c, id);
    if UniqueIds(c) {
      RemoveItemTotals(c, id);
    }
  }

  /** "Clear cart" empties the cart only when the user confirms. */
  function HandleClearCart(c: Lines, confirmed: bool): (r: Lines)
    ensures confirmed ==> r == [] && TotalItems(r) == 0 && TotalPrice(r) == 0.0
    ensures !confirmed ==> r == c
  {
    if confirmed then ClearCart() else c
  }

  /** Shipping is free strictly above this subtotal. */
  const FreeShippingOver: real := 50.0

  const ShippingFee: real := 9.99

  const TaxRate: real := 0.08

  function Shipping(subtotal: real): (r: real)
    ensures r == 0.0 <==> subtotal > FreeShippingOver
    ensures r == 0.0 || r == ShippingFee
  {
    if subtotal > FreeShippingOver then 0.0 else ShippingFee
  }

  /** A larger subtotal never costs more shipping. */
  lemma ShippingNonIncreasing(s: real, t: real)
    requires s <= t
    ensures Shipping(t) <= Shipping(s)
  {
  }

  function Tax(subtotal: real): (r: real)
    ensures subtotal >= 0.0 ==> 0.0 <= r <= subtotal
  {
    subtotal * TaxRate
  }

  /** The sidebar's total: subtotal plus shipping, no tax. */
  function SidebarTotal(subtotal: real): (r: real)
    ensures r - subtotal == Shipping(subtotal)
  {
    subtotal + Shipping(subtotal)
  }

  /** The cart page's total: subtotal plus shipping plus tax. */
  function PageTotal(subtotal: real): (r: real)
    ensures r - SidebarTotal(subtotal) == Tax(subtotal)
  {
    subtotal + Shipping(subtotal) + Tax(subtotal)
  }

  /** Crossing the free-shipping line makes the total drop: 50 costs more
      than 50.01. */
  lemma TotalDropsPastThreshold()
    ensures PageTotal(50.0) > PageTotal(50.01)
    ensures SidebarTotal(50.0) > SidebarTotal(50.01)
  {
  }

  /** The sidebar's footer, shown only when the cart has lines. */
  datatype SidebarFooter = NoFooter | Footer(subtotal: real, shipping: real, total: real)

  function SidebarView(c: Lines): (v: SidebarFooter)
    ensures v.NoFooter? <==> c == []
    ensures v.Footer? ==> v.subtotal == TotalPrice(c) && v.total == v.subtotal + v.shipping
                          && (v.shipping == 0.0 <==> v.subtotal > FreeShippingOver)
  {
    if c == [] then NoFooter
    else
      var s := TotalPrice(c);
      Footer(s, Shipping(s), SidebarTotal(s))
  }

  /** The cart page: the empty state, or the order summary. */
  datatype CartPage = EmptyCart | Summary(subtotal: real, shipping: real, tax: real, total: real)

  function CartPageView(c: Lines): (v: CartPage)
    ensures v.EmptyCart? <==> c == []
    ensures v.Summary? ==> v.subtotal == TotalPrice(c) && v.total == v.subtotal + v.shipping + v.tax
                           && v.tax == v.subtotal * TaxRate
                           && (v.shipping == 0.0 <==> v.subtotal > FreeShippingOver)
  {
    if c == [] then EmptyCart
    else
      var s := TotalPrice(c);
      Summary(s, Shipping(s), Tax(s), PageTotal(s))
  }

  /** The sidebar's free-shipping hint as written: shown below a subtotal of
      50, asking for the difference to 50. */
  function SidebarHint(subtotal: real): (h: Option<real>)
    ensures h.Some? <==> subtotal < FreeShippingOver
    ensures h.Some? ==> subtotal + h.value == FreeShippingOver
  {
    if subtotal < FreeShippingOver then Some(FreeShippingOver - subtotal) else None
  }

  /** The cart page's hint as written: shown whenever shipping is charged,
      asking for the difference to 50. */
  function PageHint(subtotal: real): (h: Option<real>)
    ensures h.Some? <==> Shipping(subtotal) > 0.0
    ensures h.Some? ==> subtotal + h.value == FreeShippingOver
  {
    if Shipping(subtotal) > 0.0 then Some(FreeShippingOver - subtotal) else None
  }

  /** Adding the amount either hint asks for leaves the subtotal at exactly
      50, which is still charged shipping; and at exactly 50 the sidebar
      shows no hint although shipping is charged. */
  lemma HintsFallShort(subtotal: real)
    ensures SidebarHint(subtotal).Some? ==> Shipping(subtotal + SidebarHint(subtotal).value) == ShippingFee
    ensures PageHint(subtotal).Some? ==> Shipping(subtotal + PageHint(subtotal).value) == ShippingFee
    ensures Shipping(FreeShippingOver) == ShippingFee && SidebarHint(FreeShippingOver).None?
  {
  }

  /** A concrete case: at 40 the hint asks for 10 more, and 50 still pays
      9.99 shipping. */
  lemma HintAtForty()
    ensures SidebarHint(40.0) == Some(10.0) && PageHint(40.0) == Some(10.0)
    ensures Shipping(40.0 + 10.0) == 9.99
  {
  }

  /** The smallest amount in whole cents. */
  const Cent: real := 0.01

  /** A hint that keeps its promise: shown exactly when shipping is charged,
      asking for one cent more than the distance to 50. */
  function FreeShippingHint(subtotal: real): (h: Option<real>)
    ensures h.Some? <==> Shipping(subtotal) > 0.0
    ensures h.Some? ==> h.value > 0.0
  {
    if Shipping(subtotal) > 0.0 then Some(FreeShippingOver - subtotal + Cent) else None
  }

  /** Adding the hinted amount earns free shipping, and one cent less does
      not: for subtotals in whole cents it is the least amount that does. */
  lemma FreeShippingHintSuffices(subtotal: real)
    requires FreeShippingHint(subtotal).Some?
    ensures Shipping(subtotal + FreeShippingHint(subtotal).value) == 0.0
    ensures Shipping(subtotal + FreeShippingHint(subtotal).value - Cent) == ShippingFee
  {
  }
}
