/** The admin order list: the status and text filter and the status badge
    colours. */
module AdminOrders {
  import opened Text
  import Seqs

  datatype OrderStatus = Pending | Processing | Shipped | Delivered | Cancelled

  datatype PaymentStatus = PaymentPending | Paid | Failed

  datatype Order = Order(
    id: string,
    orderNumber: string,
    customer: string,
    email: string,
    items: int,
    total: real,
    status: OrderStatus,
    date: string,
    paymentStatus: PaymentStatus
  )

  /** The status dropdown: "all", or one status. */
  datatype StatusFilter = AllStatuses | OnlyStatus(status: OrderStatus)

  /** The query occurs, ignoring case, in the order number, the customer or
      the e-mail. */
  predicate MatchesSearch(o: Order, q: string) {
    ContainsIgnoringCase(o.orderNumber, q) || ContainsIgnoringCase(o.customer, q) || ContainsIgnoringCase(o.email, q)
  }

  predicate Shown(o: Order, f: StatusFilter, q: string) {
    (f.AllStatuses? || o.status == f.status) && MatchesSearch(o, q)
  }

  /** `filteredOrders`: the shown orders, in list order. */
  function FilterOrders(orders: seq<Order>, f: StatusFilter, q: string): (r: seq<Order>)
    ensures forall o :: o in r <==> o in orders && Shown(o, f, q)
    ensures Seqs.IsSubseq(r, orders) && |r| <= |orders|
  {
    var r := Seqs.Filter(orders, (o: Order) => Shown(o, f, q));
    assert forall o :: o in orders && Shown(o, f, q) ==> o in r by {
      forall o | o in orders && Shown(o, f, q)
        ensures o in r
      {
        var i :| 0 <= i < |orders| && orders[i] == o;
      }
    }
    r
  }

  /** With one status selected, every shown order has exactly that status. */
  lemma SelectedStatusOnly(orders: seq<Order>, s: OrderStatus, q: string)
    ensures forall o :: o in FilterOrders(orders, OnlyStatus(s), q) ==> o.status == s
  {
  }

  /** With "all" and an empty query every order is shown, in order. */
  lemma NoFilterShowsAll(orders: seq<Order>)
    ensures FilterOrders(orders, AllStatuses, "") == orders
  {
    forall i | 0 <= i < |orders|
      ensures Shown(orders[i], AllStatuses, "")
    {
      ContainsEmptyQuery(orders[i].orderNumber);
    }
    Seqs.FilterKeepsAll(orders, (o: Order) => Shown(o, AllStatuses, ""));
  }

  /** Only the order number, customer and e-mail are searched: the other
      fields never change whether an order matches. */
  lemma SearchIgnoresOtherFields(o: Order, p: Order, q: string)
    requires o.orderNumber == p.orderNumber && o.customer == p.customer && o.email == p.email
    ensures MatchesSearch(o, q) <==> MatchesSearch(p, q)
  {
  }

  /** The badge colour for each status. */
  function StatusColor(s: OrderStatus): (c: string)
    ensures |c| > 0
  {
    match s
    case Pending => "bg-yellow-100 text-yellow-700"
    case Processing => "bg-blue-100 text-blue-700"
    case Shipped => "bg-purple-100 text-purple-700"
    case Delivered => "bg-green-100 text-green-700"
    case Cancelled => "bg-red-100 text-red-700"
  }

  /** Each status has its own colour. */
  lemma StatusColorsDistinct(s: OrderStatus, t: OrderStatus)
    requires s != t
    ensures StatusColor(s) != StatusColor(t)
  {
    assert StatusColor(s)[3] != StatusColor(t)[3] || StatusColor(s)[4] != StatusColor(t)[4];
  }
}
