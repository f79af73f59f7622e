/** The admin customer list and its search box. */
module AdminCustomers {
  import opened Text
  import Seqs

  datatype CustomerStatus = Active | Inactive

  datatype Customer = Customer(
    id: string,
    name: string,
    email: string,
    phone: string,
    orders: int,
    totalSpent: real,
    lastOrder: string,
    status: CustomerStatus
  )

  /** The query occurs, ignoring case, in the name or the e-mail. */
  predicate Matches(c: Customer, q: string) {
    ContainsIgnoringCase(c.name, q) || ContainsIgnoringCase(c.email, q)
  }

  /** `filteredCustomers`: the matching customers, in list order. */
  function FilterCustomers(customers: seq<Customer>, q: string): (r: seq<Customer>)
    ensures forall c :: c in r <==> c in customers && Matches(c, q)
    ensures Seqs.IsSubseq(r, customers) && |r| <= |customers|
  {
    var r := Seqs.Filter(customers, (c: Customer) => Matches(c, q));
    assert forall c :: c in customers && Matches(c, q) ==> c in r by {
      forall c | c in customers && Matches(c, q)
        ensures c in r
      {
        var i :| 0 <= i < |customers| && customers[i] == c;
      }
    }
    r
  }

  /** An empty query shows every customer, in order. */
  lemma EmptyQueryShowsAll(customers: seq<Customer>)
    ensures FilterCustomers(customers, "") == customers
  {
    forall i | 0 <= i < |customers|
      ensures Matches(customers[i], "")
    {
      ContainsEmptyQuery(customers[i].name);
    }
    Seqs.FilterKeepsAll(customers, (c: Customer) => Matches(c, ""));
  }

  /** Phone, status and the other figures never change whether a customer
      matches. */
  lemma SearchIgnoresOtherFields(c: Customer, d: Customer, q: string)
    requires c.name == d.name && c.email == d.email
    ensures Matches(c, q) <==> Matches(d, q)
  {
  }
}
