/** The product listing page: the filter panel's state, the pipeline that
    turns the catalogue into the shown list, and the panel's small actions
    (toggle a flavour, tell whether any filter is active, clear them all). */
module Storefront {
  import opened Optional
  import opened Text
  import opened Catalog
  import Seqs
  import Sorting

  datatype SortOption = Default | PriceLow | PriceHigh | NameAsc | NameDesc

  datatype StockFilter = AnyStock | InStockOnly | OutOfStockOnly

  /** Everything the filter panel holds. `low` and `high` are the two ends
      of the price slider. */
  datatype Filters = Filters(
    category: CategoryFilter,
    query: string,
    flavours: seq<string>,
    low: real,
    high: real,
    stock: StockFilter,
    newOnly: bool,
    sort: SortOption
  )

  // ---- The tests each stage applies ----

  /** A product was created after `cutoff`, the instant thirty days before now. */
  predicate IsNewProduct(createdAt: int, cutoff: int) {
    createdAt > cutoff
  }

  /** The lower-cased query occurs in the lower-cased name, description or
      one of the benefits. The query is not trimmed. */
  predicate MatchesQuery(p: Product, q: string) {
    || ContainsIgnoringCase(p.name, q)
    || ContainsIgnoringCase(p.description, q)
    || exists b :: b in p.benefits && ContainsIgnoringCase(b, q)
  }

  /** The product has a flavour, the flavour is not the empty string (which
      JavaScript treats as false), and it is one of the selected ones. */
  predicate HasSelectedFlavour(p: Product, flavours: seq<string>) {
    p.flavour.Some? && p.flavour.value != "" && p.flavour.value in flavours
  }

  predicate InPriceRange(p: Product, low: real, high: real) {
    low <= p.price <= high
  }

  predicate StockAdmits(s: StockFilter, p: Product) {
    match s
    case AnyStock => true
    case InStockOnly => p.inStock
    case OutOfStockOnly => !p.inStock
  }

  /** Every condition a product must meet to be listed; a stage that is
      switched off contributes `true`. */
  predicate Admits(f: Filters, cutoff: int, p: Product) {
    AdmitsUpTo(f, cutoff, 6, p)
  }

  /** The conditions of the first `k` stages. */
  predicate AdmitsUpTo(f: Filters, cutoff: int, k: nat, p: Product) {
    && InCategory(f.category, p)
    && (k >= 2 ==> IsBlank(f.query) || MatchesQuery(p, f.query))
    && (k >= 3 ==> |f.flavours| == 0 || HasSelectedFlavour(p, f.flavours))
    && (k >= 4 ==> InPriceRange(p, f.low, f.high))
    && (k >= 5 ==> StockAdmits(f.stock, p))
    && (k >= 6 ==> !f.newOnly || IsNewProduct(p.createdAt, cutoff))
  }

  function UpTo(f: Filters, cutoff: int, k: nat): Product -> bool {
    (p: Product) => AdmitsUpTo(f, cutoff, k, p)
  }

  function SearchTest(q: string): Product -> bool {
    (p: Product) => MatchesQuery(p, q)
  }

  function FlavourTest(flavours: seq<string>): Product -> bool {
    (p: Product) => HasSelectedFlavour(p, flavours)
  }

  function PriceTest(low: real, high: real): Product -> bool {
    (p: Product) => InPriceRange(p, low, high)
  }

  function StockTest(s: StockFilter): Product -> bool {
    (p: Product) => StockAdmits(s, p)
  }

  function NewTest(cutoff: int): Product -> bool {
    (p: Product) => IsNewProduct(p.createdAt, cutoff)
  }

  // ---- The pipeline, stage by stage, as the page runs it ----

  function CategoryStage(all: seq<Product>, c: CategoryFilter): seq<Product> {
    match c
    case AllCategories => all
    case OnlyCategory(k) => ProductsByCategory(all, k)
  }

  function SearchStage(s: seq<Product>, q: string): seq<Product> {
    if !IsBlank(q) then Seqs.Filter(s, SearchTest(q)) else s
  }

  function FlavourStage(s: seq<Product>, flavours: seq<string>): seq<Product> {
    if |flavours| > 0 then Seqs.Filter(s, FlavourTest(flavours)) else s
  }

  function StockStage(s: seq<Product>, stock: StockFilter): seq<Product> {
    if stock.AnyStock? then s else Seqs.Filter(s, StockTest(stock))
  }

  function NewStage(s: seq<Product>, newOnly: bool, cutoff: int): seq<Product> {
    if newOnly then Seqs.Filter(s, NewTest(cutoff)) else s
  }

  /** The list `filteredProducts` holds before sorting. */
  function Filtered(all: seq<Product>, f: Filters, cutoff: int): (r: seq<Product>)
    ensures |r| <= |all|
  {
    var p0 := CategoryStage(all, f.category);
    var p1 := SearchStage(p0, f.query);
    var p2 := FlavourStage(p1, f.flavours);
    var p3 := Seqs.Filter(p2, PriceTest(f.low, f.high));
    var p4 := StockStage(p3, f.stock);
    var p5 := NewStage(p4, f.newOnly, cutoff);
    p5
  }

  // ---- The pipeline is one filter by the conjunction of the stages ----

  /** A stage that filters by `step` after a list that is already `before`'s filter. */
  lemma StageIsFilter(all: seq<Product>, x: seq<Product>, before: Product -> bool,
                      step: Product -> bool, after: Product -> bool)
    requires x == Seqs.Filter(all, before)
    requires forall i :: 0 <= i < |all| ==> after(all[i]) == (before(all[i]) && step(all[i]))
    ensures Seqs.Filter(x, step) == Seqs.Filter(all, after)
  {
    Seqs.FilterFilter(all, before, step, after);
  }

  /** A stage that is switched off keeps a list that is already the filter it needs. */
  lemma SkippedStage(all: seq<Product>, x: seq<Product>, before: Product -> bool, after: Product -> bool)
    requires x == Seqs.Filter(all, before)
    requires forall i :: 0 <= i < |all| ==> after(all[i]) == before(all[i])
    ensures x == Seqs.Filter(all, after)
  {
    Seqs.FilterCongruent(all, before, after);
  }

  lemma CategoryStageIsFilter(all: seq<Product>, f: Filters, cutoff: int)
    ensures CategoryStage(all, f.category) == Seqs.Filter(all, UpTo(f, cutoff, 1))
  {
    match f.category
    case AllCategories =>
      Seqs.FilterKeepsAll(all, UpTo(f, cutoff, 1));
    case OnlyCategory(k) =>
      Seqs.FilterCongruent(all, (p: Product) => p.category == k, UpTo(f, cutoff, 1));
  }

  /** The stages together keep exactly the catalogue entries every active
      filter admits, in catalogue order. */
  lemma FilteredIsOneFilter(all: seq<Product>, f: Filters, cutoff: int)
    ensures Filtered(all, f, cutoff) == Seqs.Filter(all, UpTo(f, cutoff, 6))
  {
    var p0 := CategoryStage(all, f.category);
    CategoryStageIsFilter(all, f, cutoff);
    var p1 := SearchStage(p0, f.query);
    SearchStageIsFilter(all, f, cutoff, p0);
    var p2 := FlavourStage(p1, f.flavours);
    FlavourStageIsFilter(all, f, cutoff, p1);
    var p3 := Seqs.Filter(p2, PriceTest(f.low, f.high));
    PriceStageIsFilter(all, f, cutoff, p2);
    var p4 := StockStage(p3, f.stock);
    StockStageIsFilter(all, f, cutoff, p3);
    NewStageIsFilter(all, f, cutoff, p4);
  }

  lemma SearchStageIsFilter(all: seq<Product>, f: Filters, cutoff: int, p0: seq<Product>)
    requires p0 == Seqs.Filter(all, UpTo(f, cutoff, 1))
    ensures SearchStage(p0, f.query) == Seqs.Filter(all, UpTo(f, cutoff, 2))
  {
    if !IsBlank(f.query) {
      StageIsFilter(all, p0, UpTo(f, cutoff, 1), SearchTest(f.query), UpTo(f, cutoff, 2));
    } else {
      SkippedStage(all, p0, UpTo(f, cutoff, 1), UpTo(f, cutoff, 2));
    }
  }

  lemma FlavourStageIsFilter(all: seq<Product>, f: Filters, cutoff: int, p1: seq<Product>)
    requires p1 == Seqs.Filter(all, UpTo(f, cutoff, 2))
    ensures FlavourStage(p1, f.flavours) == Seqs.Filter(all, UpTo(f, cutoff, 3))
  {
    if |f.flavours| > 0 {
      StageIsFilter(all, p1, UpTo(f, cutoff, 2), FlavourTest(f.flavours), UpTo(f, cutoff, 3));
    } else {
      SkippedStage(all, p1, UpTo(f, cutoff, 2), UpTo(f, cutoff, 3));
    }
  }

  lemma PriceStageIsFilter(all: seq<Product>, f: Filters, cutoff: int, p2: seq<Product>)
    requires p2 == Seqs.Filter(all, UpTo(f, cutoff, 3))
    ensures Seqs.Filter(p2, PriceTest(f.low, f.high)) == Seqs.Filter(all, UpTo(f, cutoff, 4))
  {
    StageIsFilter(all, p2, UpTo(f, cutoff, 3), PriceTest(f.low, f.high), UpTo(f, cutoff, 4));
  }

  lemma StockStageIsFilter(all: seq<Product>, f: Filters, cutoff: int, p3: seq<Product>)
    requires p3 == Seqs.Filter(all, UpTo(f, cutoff, 4))
    ensures StockStage(p3, f.stock) == Seqs.Filter(all, UpTo(f, cutoff, 5))
  {
    if !f.stock.AnyStock? {
      StageIsFilter(all, p3, UpTo(f, cutoff, 4), StockTest(f.stock), UpTo(f, cutoff, 5));
    } else {
      SkippedStage(all, p3, UpTo(f, cutoff, 4), UpTo(f, cutoff, 5));
    }
  }

  lemma NewStageIsFilter(all: seq<Product>, f: Filters, cutoff: int, p4: seq<Product>)
    requires p4 == Seqs.Filter(all, UpTo(f, cutoff, 5))
    ensures NewStage(p4, f.newOnly, cutoff) == Seqs.Filter(all, UpTo(f, cutoff, 6))
  {
    if f.newOnly {
      StageIsFilter(all, p4, UpTo(f, cutoff, 5), NewTest(cutoff), UpTo(f, cutoff, 6));
    } else {
      SkippedStage(all, p4, UpTo(f, cutoff, 5), UpTo(f, cutoff, 6));
    }
  }

  /** Soundness and completeness of the filters: a product is listed exactly
      when it is in the catalogue and every active filter admits it; the
      listing keeps catalogue order and adds nothing. */
  lemma FilteredMembership(all: seq<Product>, f: Filters, cutoff: int)
    ensures forall p :: p in Filtered(all, f, cutoff) <==> p in all && Admits(f, cutoff, p)
    ensures Seqs.IsSubseq(Filtered(all, f, cutoff), all)
  {
    FilteredIsOneFilter(all, f, cutoff);
  }

  // ---- Sorting ----

  function PriceAscending(): (Product, Product) -> bool {
    (a: Product, b: Product) => a.price <= b.price
  }

  function PriceDescending(): (Product, Product) -> bool {
    (a: Product, b: Product) => b.price <= a.price
  }

  /** `a.name.localeCompare(b.name) <= 0`, for a locale order on names. */
  function NameAscending(order: (string, string) -> bool): (Product, Product) -> bool {
    (a: Product, b: Product) => order(a.name, b.name)
  }

  /** `b.name.localeCompare(a.name) <= 0`. */
  function NameDescending(order: (string, string) -> bool): (Product, Product) -> bool {
    (a: Product, b: Product) => order(b.name, a.name)
  }

  lemma PriceOrdersArePreorders()
    ensures Sorting.TotalPreorder(PriceAscending())
    ensures Sorting.TotalPreorder(PriceDescending())
  {
  }

  lemma NameOrdersArePreorders(order: (string, string) -> bool)
    requires Sorting.TotalPreorder(order)
    ensures Sorting.TotalPreorder(NameAscending(order))
    ensures Sorting.TotalPreorder(NameDescending(order))
  {
    var asc, desc := NameAscending(order), NameDescending(order);
    assert forall a: Product, b: Product :: asc(a, b) == order(a.name, b.name);
    assert forall a: Product, b: Product :: desc(a, b) == order(b.name, a.name);
  }

  /** The comparator each sort option uses, as "may come first". */
  function Comparator(sort: SortOption, order: (string, string) -> bool): (Product, Product) -> bool {
    match sort
    case NameAsc => NameAscending(order)
    case NameDesc => NameDescending(order)
    case PriceHigh => PriceDescending()
    case _ => PriceAscending()
  }

  lemma ComparatorIsPreorder(sort: SortOption, order: (string, string) -> bool)
    requires Sorting.TotalPreorder(order)
    ensures Sorting.TotalPreorder(Comparator(sort, order))
  {
    match sort
    case NameAsc => NameOrdersArePreorders(order);
    case NameDesc => NameOrdersArePreorders(order);
    case _ => PriceOrdersArePreorders();
  }

  /** The sort step: a copy of the list, sorted by the chosen comparator;
      the default option leaves the order alone. `order` stands for
      `localeCompare`, a total preorder on names. */
  function ApplySort(s: seq<Product>, sort: SortOption, order: (string, string) -> bool): (r: seq<Product>)
    requires Sorting.TotalPreorder(order)
    ensures multiset(r) == multiset(s)
    ensures sort.Default? ==> r == s
    ensures !sort.Default? ==> Sorting.SortedBy(Comparator(sort, order), r)
  {
    ComparatorIsPreorder(sort, order);
    if sort.Default? then s else Sorting.Sort(s, Comparator(sort, order))
  }

  /** The list the page shows. */
  function ShownProducts(all: seq<Product>, f: Filters, cutoff: int, order: (string, string) -> bool): (r: seq<Product>)
    requires Sorting.TotalPreorder(order)
  {
    ApplySort(Filtered(all, f, cutoff), f.sort, order)
  }

  /** The shown list is a rearrangement of the filtered one, in the order the
      sort option asks for. */
  lemma ShownOrder(all: seq<Product>, f: Filters, cutoff: int, order: (string, string) -> bool)
    requires Sorting.TotalPreorder(order)
    ensures var r := ShownProducts(all, f, cutoff, order);
      && multiset(r) == multiset(Filtered(all, f, cutoff))
      && (f.sort.Default? ==> r == Filtered(all, f, cutoff))
      && (f.sort.PriceLow? ==> forall i, j :: 0 <= i < j < |r| ==> r[i].price <= r[j].price)
      && (f.sort.PriceHigh? ==> forall i, j :: 0 <= i < j < |r| ==> r[i].price >= r[j].price)
      && (f.sort.NameAsc? ==> forall i, j :: 0 <= i < j < |r| ==> order(r[i].name, r[j].name))
      && (f.sort.NameDesc? ==> forall i, j :: 0 <= i < j < |r| ==> order(r[j].name, r[i].name))
  {
    var r := ShownProducts(all, f, cutoff, order);
    var leq := Comparator(f.sort, order);
    if !f.sort.Default? {
      assert forall i, j :: 0 <= i < j < |r| ==> leq(r[i], r[j]);
    }
  }

  /** Products that compare equal under the chosen sort keep their filtered order. */
  lemma ShownKeepsTies(all: seq<Product>, f: Filters, cutoff: int, order: (string, string) -> bool, z: Product)
    requires Sorting.TotalPreorder(order)
    ensures var leq := Comparator(f.sort, order);
      Seqs.Filter(ShownProducts(all, f, cutoff, order), Sorting.Ties(leq, z))
      == Seqs.Filter(Filtered(all, f, cutoff), Sorting.Ties(leq, z))
  {
    if !f.sort.Default? {
      ComparatorIsPreorder(f.sort, order);
      var s, leq := Filtered(all, f, cutoff), Comparator(f.sort, order);
      assert ShownProducts(all, f, cutoff, order) == Sorting.Sort(s, leq);
      Sorting.SortIsStable(s, leq, z);
    }
  }

  /** Every product the page shows is in the catalogue and meets every active filter. */
  lemma ShownAreAdmitted(all: seq<Product>, f: Filters, cutoff: int, order: (string, string) -> bool)
    requires Sorting.TotalPreorder(order)
    ensures forall p :: p in ShownProducts(all, f, cutoff, order) <==> p in all && Admits(f, cutoff, p)
  {
    FilteredMembership(all, f, cutoff);
    var r, s := ShownProducts(all, f, cutoff, order), Filtered(all, f, cutoff);
    assert forall p :: p in r <==> p in multiset(r);
    assert forall p :: p in s <==> p in multiset(s);
  }

  // ---- Price bounds, flavour list, and the panel's actions ----

  /** `Math.min(...prices)`. */
  function MinPrice(all: seq<Product>): (r: real)
    requires all != []
    ensures forall p :: p in all ==> r <= p.price
    ensures exists p :: p in all && p.price == r
  {
    if |all| == 1 then all[0].price
    else
      var m := MinPrice(all[1..]);
      assert forall p :: p in all[1..] ==> p in all;
      assert forall p :: p in all ==> p == all[0] || p in all[1..];
      if all[0].price <= m then all[0].price else m
  }

  /** `Math.max(...prices)`. */
  function MaxPrice(all: seq<Product>): (r: real)
    requires all != []
    ensures forall p :: p in all ==> p.price <= r
    ensures exists p :: p in all && p.price == r
  {
    if |all| == 1 then all[0].price
    else
      var m := MaxPrice(all[1..]);
      assert forall p :: p in all[1..] ==> p in all;
      assert forall p :: p in all ==> p == all[0] || p in all[1..];
      if all[0].price >= m then all[0].price else m
  }

  /** A flavour worth offering: present and not the empty string. */
  predicate OffersFlavour(p: Product) {
    p.flavour.Some? && p.flavour.value != ""
  }

  /** The product offers the flavour `x`. */
  predicate OffersAs(p: Product, x: string) {
    OffersFlavour(p) && p.flavour.value == x
  }

  /** Keeps the products that do not offer `x`. */
  function Without(x: string): Product -> bool {
    (p: Product) => !OffersAs(p, x)
  }

  /** The position of the first product offering `x`, or `|all|` when none
      does. */
  function FirstOffer(all: seq<Product>, x: string): (k: nat)
    ensures k <= |all|
    ensures k < |all| ==> OffersAs(all[k], x)
    ensures forall m :: 0 <= m < k ==> !OffersAs(all[m], x)
    decreases |all|
  {
    if all == [] || OffersAs(all[0], x) then 0
    else
      var k := 1 + FirstOffer(all[1..], x);
      assert forall m :: 0 < m < k ==> all[m] == all[1..][m - 1];
      k
  }

  /** The flavours of the catalogue with repeats dropped, in order of first
      appearance, as `Array.from(new Set(...))` lists them. */
  function AllFlavours(all: seq<Product>): (r: seq<string>)
    ensures Seqs.NoDuplicates(r)
    ensures forall x :: x in r <==> exists p :: p in all && OffersFlavour(p) && p.flavour.value == x
    ensures forall i, j :: 0 <= i < j < |r| ==> FirstOffer(all, r[i]) < FirstOffer(all, r[j])
    decreases |all|
  {
    if all == [] then []
    else if !OffersFlavour(all[0]) then
      assert forall p :: p in all && p != all[0] ==> p in all[1..];
      AllFlavours(all[1..])
    else
      var x := all[0].flavour.value;
      var rest := Seqs.Filter(all[1..], Without(x));
      var tail := AllFlavours(rest);
      assert forall p :: p in all && p != all[0] ==> p in all[1..];
      assert forall p :: p in all[1..] && OffersFlavour(p) && p.flavour.value != x ==> p in rest;
      assert x !in tail;
      assert forall j :: 0 < j < |[x] + tail| ==> ([x] + tail)[j] == tail[j - 1];
      FirstAppearanceCons(all, x, tail);
      [x] + tail
  }

  /** The order step of `AllFlavours`: the first product's flavour, then
      the flavours of the rest in their order of first appearance. */
  lemma FirstAppearanceCons(all: seq<Product>, x: string, tail: seq<string>)
    requires all != [] && OffersAs(all[0], x) && x !in tail
    requires forall i, j :: 0 <= i < j < |tail| ==>
      FirstOffer(Seqs.Filter(all[1..], Without(x)), tail[i]) < FirstOffer(Seqs.Filter(all[1..], Without(x)), tail[j])
    ensures forall i, j :: 0 <= i < j < |[x] + tail| ==> FirstOffer(all, ([x] + tail)[i]) < FirstOffer(all, ([x] + tail)[j])
  {
    var r := [x] + tail;
    assert forall j :: 0 < j < |r| ==> r[j] == tail[j - 1];
    forall i, j | 0 <= i < j < |r|
      ensures FirstOffer(all, r[i]) < FirstOffer(all, r[j])
    {
      if 0 < i {
        DropKeepsFirstOrder(all[1..], x, tail[i - 1], tail[j - 1]);
      }
    }
  }

  /** Dropping the products that offer `x` keeps the order in which the
      other flavours first appear. */
  lemma {:induction false} DropKeepsFirstOrder(s: seq<Product>, x: string, y: string, z: string)
    requires y != x && z != x
    requires FirstOffer(Seqs.Filter(s, Without(x)), y) < FirstOffer(Seqs.Filter(s, Without(x)), z)
    ensures FirstOffer(s, y) < FirstOffer(s, z)
    decreases |s|
  {
    if s != [] {
      var f := Seqs.Filter(s, Without(x));
      if OffersAs(s[0], x) {
        assert f == Seqs.Filter(s[1..], Without(x));
        DropKeepsFirstOrder(s[1..], x, y, z);
      } else {
        assert f == [s[0]] + Seqs.Filter(s[1..], Without(x));
        if !OffersAs(s[0], y) && !OffersAs(s[0], z) {
          DropKeepsFirstOrder(s[1..], x, y, z);
        }
      }
    }
  }

  /** `toggleFlavour`: remove the flavour if it is selected, else append it. */
  function ToggleFlavour(sel: seq<string>, x: string): (r: seq<string>)
    ensures x in r <==> x !in sel
    ensures forall y :: y != x ==> (y in r <==> y in sel)
    ensures Seqs.NoDuplicates(sel) ==> Seqs.NoDuplicates(r)
  {
    if x in sel then
      assert Seqs.NoDuplicates(sel) ==> Seqs.NoDuplicates(Seqs.Filter(sel, (y: string) => y != x)) by {
        if Seqs.NoDuplicates(sel) {
          Seqs.FilterNoDuplicates(sel, (y: string) => y != x);
        }
      }
      Seqs.Filter(sel, (y: string) => y != x)
    else
      assert forall i :: 0 <= i < |sel| ==> sel[i] in sel;
      sel + [x]
  }

  /** Toggling a flavour that was not selected, twice, gives back the same selection. */
  lemma ToggleTwiceRestores(sel: seq<string>, x: string)
    requires x !in sel
    ensures ToggleFlavour(ToggleFlavour(sel, x), x) == sel
  {
    Seqs.FilterAppend(sel, [x], (y: string) => y != x);
    Seqs.FilterKeepsAll(sel, (y: string) => y != x);
  }

  /** Toggling any flavour twice gives back the same set of selected flavours. */
  lemma ToggleTwiceSameSet(sel: seq<string>, x: string)
    ensures forall y :: y in ToggleFlavour(ToggleFlavour(sel, x), x) <==> y in sel
  {
  }

  /** Only membership in the selection matters to the flavour filter, so two
      selections with the same members list the same products. */
  lemma FlavourFilterSeesOnlyMembers(all: seq<Product>, f: Filters, g: Filters, cutoff: int)
    requires g == f.(flavours := g.flavours)
    requires forall y :: y in f.flavours <==> y in g.flavours
    ensures Filtered(all, f, cutoff) == Filtered(all, g, cutoff)
  {
    FilteredIsOneFilter(all, f, cutoff);
    FilteredIsOneFilter(all, g, cutoff);
    assert |f.flavours| == 0 <==> |g.flavours| == 0 by {
      if |f.flavours| > 0 { assert f.flavours[0] in g.flavours; }
      if |g.flavours| > 0 { assert g.flavours[0] in f.flavours; }
    }
    Seqs.FilterCongruent(all, UpTo(f, cutoff, 6), UpTo(g, cutoff, 6));
  }

  /** `hasActiveFilters`: some filter differs from its cleared value. The
      sort option is not a filter. */
  predicate HasActiveFilters(f: Filters, minPrice: real, maxPrice: real) {
    || !f.category.AllCategories?
    || !IsBlank(f.query)
    || |f.flavours| > 0
    || f.low != minPrice
    || f.high != maxPrice
    || !f.stock.AnyStock?
    || f.newOnly
  }

  /** `clearFilters`: every control back to its initial value, the sort included. */
  function ClearFilters(minPrice: real, maxPrice: real): (f: Filters)
    ensures !HasActiveFilters(f, minPrice, maxPrice)
    ensures f.sort.Default?
  {
    var f := Filters(AllCategories, "", [], minPrice, maxPrice, AnyStock, false, Default);
    EmptyIsBlank();
    InactiveWhenReset(f, minPrice, maxPrice);
    f
  }

  lemma InactiveWhenReset(f: Filters, minPrice: real, maxPrice: real)
    requires f.category.AllCategories? && IsBlank(f.query) && f.flavours == []
    requires f.low == minPrice && f.high == maxPrice && f.stock.AnyStock? && !f.newOnly
    ensures !HasActiveFilters(f, minPrice, maxPrice)
  {
  }

  /** With no active filter and a price range spanning the catalogue, the
      whole catalogue is listed in catalogue order. */
  lemma InactiveFiltersShowAll(all: seq<Product>, f: Filters, cutoff: int)
    requires all != []
    requires !HasActiveFilters(f, MinPrice(all), MaxPrice(all))
    ensures Filtered(all, f, cutoff) == all
  {
    FilteredIsOneFilter(all, f, cutoff);
    var lo, hi := MinPrice(all), MaxPrice(all);
    forall i | 0 <= i < |all|
      ensures UpTo(f, cutoff, 6)(all[i])
    {
      assert all[i] in all;
      assert lo <= all[i].price <= hi;
    }
    Seqs.FilterKeepsAll(all, UpTo(f, cutoff, 6));
  }

  /** After clearing, the page shows the whole catalogue in its own order. */
  lemma ClearedShowsCatalogue(all: seq<Product>, lo: real, hi: real, cutoff: int, order: (string, string) -> bool)
    requires all != [] && lo == MinPrice(all) && hi == MaxPrice(all)
    requires Sorting.TotalPreorder(order)
    ensures ShownProducts(all, ClearFilters(lo, hi), cutoff, order) == all
  {
    InactiveUnsortedShowsAll(all, ClearFilters(lo, hi), cutoff, order);
  }

  /** With no active filter and the default order, the whole catalogue is
      listed in catalogue order. */
  lemma InactiveUnsortedShowsAll(all: seq<Product>, f: Filters, cutoff: int, order: (string, string) -> bool)
    requires all != []
    requires Sorting.TotalPreorder(order)
    requires !HasActiveFilters(f, MinPrice(all), MaxPrice(all)) && f.sort.Default?
    ensures ShownProducts(all, f, cutoff, order) == all
  {
    InactiveFiltersShowAll(all, f, cutoff);
  }
}
