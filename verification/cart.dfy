/** The cart store the cart screens call into: lines of (product, quantity)
    keyed by product id, with add, remove, update, clear and the two totals.
    Its source is not part of this model; the operations follow the
    behaviour its callers rely on. */
module Cart {
  import opened Optional
  import opened Catalog
  import Seqs

  datatype Line = Line(product: Product, quantity: int)

  type Lines = seq<Line>

  predicate HasId(c: Lines, id: string) {
    exists i :: 0 <= i < |c| && c[i].product.id == id
  }

  /** No product id has two lines. */
  ghost predicate UniqueIds(c: Lines) {
    forall i, j :: 0 <= i < j < |c| ==> c[i].product.id != c[j].product.id
  }

  /** `items.find(i => i.product.id === id)`: the first line for the id. */
  function Find(c: Lines, id: string): (r: Option<Line>)
    ensures r.None? <==> !HasId(c, id)
    ensures r.Some? ==> r.value in c && r.value.product.id == id
  {
    if c == [] then None
    else if c[0].product.id == id then Some(c[0])
    else
      var r := Find(c[1..], id);
      assert forall i :: 1 <= i < |c| ==> c[i] == c[1..][i - 1];
      assert HasId(c, id) ==> HasId(c[1..], id);
      r
  }

  /** The quantity in the cart for an id, 0 when it has no line. */
  function QuantityOf(c: Lines, id: string): int {
    match Find(c, id)
    case None => 0
    case Some(l) => l.quantity
  }

  /** `getTotalItems()`: the sum of the quantities. */
  function TotalItems(c: Lines): int {
    if c == [] then 0 else c[0].quantity + TotalItems(c[1..])
  }

  function LineTotal(l: Line): real {
    l.product.price * l.quantity as real
  }

  /** `getTotalPrice()`: the sum of price times quantity. */
  function TotalPrice(c: Lines): real {
    if c == [] then 0.0 else LineTotal(c[0]) + TotalPrice(c[1..])
  }

  lemma {:induction false} TotalsAppend(a: Lines, b: Lines)
    ensures TotalItems(a + b) == TotalItems(a) + TotalItems(b)
    ensures TotalPrice(a + b) == TotalPrice(a) + TotalPrice(b)
  {
    if a == [] {
      assert a + b == b;
    } else {
      assert (a + b)[1..] == a[1..] + b;
      TotalsAppend(a[1..], b);
    }
  }

  /** `addItem(product, quantity)`: raise the quantity of the product's line,
      or append a new line when there is none. */
  function AddItem(c: Lines, p: Product, q: int): (r: Lines)
    ensures |r| == if HasId(c, p.id) then |c| else |c| + 1
  {
    if c == [] then [Line(p, q)]
    else if c[0].product.id == p.id then [c[0].(quantity := c[0].quantity + q)] + c[1..]
    else
      assert HasId(c, p.id) <==> HasId(c[1..], p.id) by {
        assert forall i :: 1 <= i < |c| ==> c[i] == c[1..][i - 1];
      }
      [c[0]] + AddItem(c[1..], p, q)
  }

  /** After adding, the product's line holds the old quantity plus the added
      one, every other product's line is as before, and the item total grows
      by the added quantity. */
  lemma {:induction false} AddItemFinds(c: Lines, p: Product, q: int)
    ensures var r := AddItem(c, p, q);
      && Find(r, p.id).Some?
      && Find(r, p.id).value.quantity == QuantityOf(c, p.id) + q
      && (forall id :: id != p.id ==> Find(r, id) == Find(c, id))
      && TotalItems(r) == TotalItems(c) + q
  {
    if c != [] && c[0].product.id != p.id {
      AddItemFinds(c[1..], p, q);
      var r := AddItem(c, p, q);
      assert r[1..] == AddItem(c[1..], p, q);
    }
  }

  /** Adding keeps product ids unique. */
  lemma {:induction false} AddItemKeepsUnique(c: Lines, p: Product, q: int)
    requires UniqueIds(c)
    ensures UniqueIds(AddItem(c, p, q))
  {
    if c != [] && c[0].product.id != p.id {
      var tail := c[1..];
      AddItemKeepsUnique(tail, p, q);
      var rest := AddItem(tail, p, q);
      AddItemFinds(tail, p, q);
      forall i | 0 <= i < |rest|
        ensures rest[i].product.id != c[0].product.id
      {
        var id := rest[i].product.id;
        assert HasId(rest, id);
        if id != p.id {
          assert Find(tail, id).Some?;
          var j :| 0 <= j < |tail| && tail[j].product.id == id;
          assert tail[j] == c[j + 1];
        }
      }
      assert AddItem(c, p, q) == [c[0]] + rest;
    }
  }

  /** Adding the same product several times adds up the quantities. */
  function AddAll(c: Lines, p: Product, qs: seq<int>): Lines
    decreases |qs|
  {
    if qs == [] then c else AddAll(AddItem(c, p, qs[0]), p, qs[1..])
  }

  function Sum(qs: seq<int>): int {
    if qs == [] then 0 else qs[0] + Sum(qs[1..])
  }

  lemma {:induction false} RepeatedAddsSum(c: Lines, p: Product, qs: seq<int>)
    requires qs != []
    ensures QuantityOf(AddAll(c, p, qs), p.id) == QuantityOf(c, p.id) + Sum(qs)
    decreases |qs|
  {
    var c1 := AddItem(c, p, qs[0]);
    AddItemFinds(c, p, qs[0]);
    if qs[1..] != [] {
      RepeatedAddsSum(c1, p, qs[1..]);
    }
  }

  /** A line keeps its place when it is for a different product. */
  function KeepsLine(id: string): Line -> bool {
    (l: Line) => l.product.id != id
  }

  /** `removeItem(id)`: drop the line for the id, if any. */
  function RemoveItem(c: Lines, id: string): (r: Lines)
    ensures !HasId(r, id)
    ensures forall l :: l in r <==> l in c && l.product.id != id
    ensures Seqs.IsSubseq(r, c)
  {
    var r := Seqs.Filter(c, KeepsLine(id));
    assert forall i :: 0 <= i < |r| ==> r[i] in r;
    assert forall l :: l in c && l.product.id != id ==> l in r by {
      forall l | l in c && l.product.id != id
        ensures l in r
      {
        var i :| 0 <= i < |c| && c[i] == l;
      }
    }
    r
  }

  /** Removing a product's line takes away exactly its quantity and its
      price times quantity. */
  lemma {:induction false} RemoveItemTotals(c: Lines, id: string)
    requires UniqueIds(c)
    ensures TotalItems(RemoveItem(c, id)) == TotalItems(c) - QuantityOf(c, id)
    ensures TotalPrice(RemoveItem(c, id)) == TotalPrice(c) - (match Find(c, id) case None => 0.0 case Some(l) => LineTotal(l))
  {
    if c != [] {
      var tail := c[1..];
      assert UniqueIds(tail);
      RemoveItemTotals(tail, id);
      assert RemoveItem(c, id) == Seqs.Filter(c, KeepsLine(id));
      if c[0].product.id == id {
        assert !HasId(tail, id) by {
          forall i | 0 <= i < |tail|
            ensures tail[i].product.id != id
          {
            assert tail[i] == c[i + 1];
          }
        }
        Seqs.FilterKeepsAll(tail, KeepsLine(id));
      } else {
        assert Find(c, id) == Find(tail, id);
      }
    }
  }

  /** Lines for the id get quantity `q`; every other line is untouched. */
  function SetQuantity(c: Lines, id: string, q: int): (r: Lines)
    ensures |r| == |c|
    ensures forall i :: 0 <= i < |c| ==> r[i].product == c[i].product
    ensures forall i :: 0 <= i < |c| && c[i].product.id != id ==> r[i] == c[i]
    ensures forall i :: 0 <= i < |c| && c[i].product.id == id ==> r[i].quantity == q
  {
    if c == [] then []
    else
      [if c[0].product.id == id then c[0].(quantity := q) else c[0]] + SetQuantity(c[1..], id, q)
  }

  /** `updateQuantity(id, q)`: set the quantity, or remove the line when
      `q <= 0`. */
  function UpdateQuantity(c: Lines, id: string, q: int): (r: Lines)
    ensures q <= 0 ==> !HasId(r, id)
    ensures q > 0 ==> (HasId(r, id) <==> HasId(c, id))
    ensures q > 0 && HasId(c, id) ==> QuantityOf(r, id) == q
    ensures forall other :: other != id ==> Find(r, other) == Find(c, other)
  {
    if q <= 0 then
      var r := RemoveItem(c, id);
      FindAfterRemove(c, id);
      r
    else
      var r := SetQuantity(c, id, q);
      FindAfterSet(c, id, q);
      r
  }

  lemma {:induction false} FindAfterRemove(c: Lines, id: string)
    ensures forall other :: other != id ==> Find(RemoveItem(c, id), other) == Find(c, other)
  {
    if c != [] {
      FindAfterRemove(c[1..], id);
      assert RemoveItem(c, id) == Seqs.Filter(c, KeepsLine(id));
      assert RemoveItem(c[1..], id) == Seqs.Filter(c[1..], KeepsLine(id));
    }
  }

  lemma {:induction false} FindAfterSet(c: Lines, id: string, q: int)
    ensures forall other :: other != id ==> Find(SetQuantity(c, id, q), other) == Find(c, other)
    ensures HasId(SetQuantity(c, id, q), id) <==> HasId(c, id)
    ensures HasId(c, id) ==> QuantityOf(SetQuantity(c, id, q), id) == q
  {
    var r := SetQuantity(c, id, q);
    if c != [] {
      FindAfterSet(c[1..], id, q);
      assert r[1..] == SetQuantity(c[1..], id, q);
      assert HasId(c, id) <==> c[0].product.id == id || HasId(c[1..], id) by {
        assert forall i :: 1 <= i < |c| ==> c[i] == c[1..][i - 1];
      }
      assert HasId(r, id) <==> r[0].product.id == id || HasId(r[1..], id) by {
        assert forall i :: 1 <= i < |r| ==> r[i] == r[1..][i - 1];
      }
    }
  }

  /** `clearCart()`. */
  function ClearCart(): (r: Lines)
    ensures TotalItems(r) == 0 && TotalPrice(r) == 0.0
    ensures forall id :: !HasId(r, id)
  {
    []
  }

  /** Adding after removing is the same as adding to a cart that never had
      the product: a fresh line at the end with the added quantity. */
  lemma RemoveThenAddIsFresh(c: Lines, p: Product, q: int)
    ensures AddItem(RemoveItem(c, p.id), p, q) == RemoveItem(c, p.id) + [Line(p, q)]
  {
    FreshAdd(RemoveItem(c, p.id), p, q);
  }

  lemma {:induction false} FreshAdd(c: Lines, p: Product, q: int)
    requires !HasId(c, p.id)
    ensures AddItem(c, p, q) == c + [Line(p, q)]
  {
    if c != [] {
      assert c[0].product.id != p.id;
      assert !HasId(c[1..], p.id) by {
        forall i | 0 <= i < |c[1..]|
          ensures c[1..][i].product.id != p.id
        {
          assert c[1..][i] == c[i + 1];
        }
      }
      FreshAdd(c[1..], p, q);
      assert c == [c[0]] + c[1..];
    }
  }

  /** Adding a product whose existing line (if any) carries the same record
      raises the price total by price times quantity. */
  lemma {:induction false} AddItemPrice(c: Lines, p: Product, q: int)
    requires forall i :: 0 <= i < |c| && c[i].product.id == p.id ==> c[i].product == p
    ensures TotalPrice(AddItem(c, p, q)) == TotalPrice(c) + p.price * q as real
  {
    if c == [] {
    } else if c[0].product.id == p.id {
      var l := c[0].(quantity := c[0].quantity + q);
      assert AddItem(c, p, q) == [l] + c[1..];
      assert TotalPrice([l] + c[1..]) == LineTotal(l) + TotalPrice(c[1..]);
    } else {
      AddItemPrice(c[1..], p, q);
      assert AddItem(c, p, q) == [c[0]] + AddItem(c[1..], p, q);
    }
  }

  /** A small cart: adding two of a product priced 10 and then one of a
      different product priced 5 gives three items costing 25. */
  lemma TwoProductsExample(a: Product, b: Product)
    requires a.id != b.id && a.price == 10.0 && b.price == 5.0
    ensures var c := AddItem(AddItem([], a, 2), b, 1);
      TotalItems(c) == 3 && TotalPrice(c) == 25.0
  {
    var c1 := AddItem([], a, 2);
    assert c1 == [Line(a, 2)];
    assert c1[1..] == [];
    var c := AddItem(c1, b, 1);
    assert c == [Line(a, 2)] + AddItem([], b, 1);
    assert c[1..] == [Line(b, 1)];
    assert c[1..][1..] == [];
    assert TotalItems(c[1..]) == 1;
    assert TotalPrice(c[1..]) == 5.0;
    assert LineTotal(c[0]) == 20.0;
  }
}
