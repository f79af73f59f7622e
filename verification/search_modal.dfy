/** The header's search modal: the first eight catalogue matches for the
    typed query, and a keyboard selection that moves through them. */
module SearchModal {
  import opened Optional
  import opened Text
  import opened Catalog
  import Seqs
  import Storefront

  /** The modal shows at most this many results. */
  const MaxResults: nat := 8

  /** The modal's test: the listing page's text match, or the query occurring
      in the category id. */
  predicate ModalMatch(p: Product, q: string) {
    Storefront.MatchesQuery(p, q) || ContainsIgnoringCase(CategoryId(p.category), q)
  }

  function ModalTest(q: string): Product -> bool {
    (p: Product) => ModalMatch(p, q)
  }

  /** The search effect: nothing for a blank query, otherwise the first
      eight matches in catalogue order. */
  function SearchResults(all: seq<Product>, q: string): (r: seq<Product>)
    ensures |r| <= MaxResults
    ensures IsBlank(q) ==> r == []
  {
    if IsBlank(q) then [] else Seqs.Take(Seqs.Filter(all, ModalTest(q)), MaxResults)
  }

  /** For a query that is not blank, the results are exactly the first
      min(8, n) of the n matches, in catalogue order; each is a catalogue
      entry that matches. */
  lemma SearchResultsAreFirstMatches(all: seq<Product>, q: string)
    requires !IsBlank(q)
    ensures var m, r := Seqs.Filter(all, ModalTest(q)), SearchResults(all, q);
      && |r| == (if |m| < MaxResults then |m| else MaxResults)
      && r == m[..|r|]
      && forall p :: p in r ==> p in all && ModalMatch(p, q)
  {
    var m, r := Seqs.Filter(all, ModalTest(q)), SearchResults(all, q);
    assert forall p :: p in r ==> p in m;
  }

  /** A product the listing page's search finds is also a modal match. */
  lemma ListingMatchesAreModalMatches(p: Product, q: string)
    ensures Storefront.MatchesQuery(p, q) ==> ModalMatch(p, q)
  {
  }

  /** Every result the modal shows is one of the modal's matches, and when
      there are fewer than eight matches it shows all of them. */
  lemma FewMatchesAllShown(all: seq<Product>, q: string)
    requires !IsBlank(q)
    requires |Seqs.Filter(all, ModalTest(q))| <= MaxResults
    ensures SearchResults(all, q) == Seqs.Filter(all, ModalTest(q))
  {
    SearchResultsAreFirstMatches(all, q);
  }

  datatype ModalState = ModalState(query: string, results: seq<Product>, selected: int, open: bool)

  datatype Key = Escape | ArrowDown | ArrowUp | Enter | OtherKey

  /** What a step produces: the new state and the page to navigate to, if any. */
  datatype Outcome = Outcome(state: ModalState, navigateTo: Option<string>)

  /** The state when the modal is first mounted. */
  function Initial(open: bool): (s: ModalState)
    ensures s.selected == -1 && s.results == [] && s.query == ""
  {
    ModalState("", [], -1, open)
  }

  /** The state invariant: the results are the search effect's for the
      query, and the selection is -1 or a position among them. */
  ghost predicate Valid(all: seq<Product>, s: ModalState) {
    s.results == SearchResults(all, s.query) && -1 <= s.selected < |s.results|
  }

  lemma InitialValid(all: seq<Product>, open: bool)
    ensures Valid(all, Initial(open))
  {
    EmptyIsBlank();
  }

  /** `setSearchQuery` followed by the search effect: new results and no selection. */
  function SetQuery(all: seq<Product>, s: ModalState, q: string): (r: ModalState)
    ensures r.query == q && r.open == s.open
    ensures r.selected == -1
    ensures Valid(all, r)
  {
    s.(query := q, results := SearchResults(all, q), selected := -1)
  }

  function ProductPath(slug: string): string {
    "/products/" + slug
  }

  /** `handleProductClick`: navigate to the product, close, clear the query. */
  function Choose(all: seq<Product>, s: ModalState, i: int): (o: Outcome)
    requires 0 <= i < |s.results|
    ensures o.navigateTo == Some(ProductPath(s.results[i].slug))
    ensures !o.state.open && o.state.query == "" && o.state.results == []
    ensures Valid(all, o.state)
  {
    EmptyIsBlank();
    Outcome(SetQuery(all, s.(open := false), ""), Some(ProductPath(s.results[i].slug)))
  }

  /** ArrowDown's update of the selection among `count` results. */
  function MoveDown(selected: int, count: int): int {
    if selected < count - 1 then selected + 1 else selected
  }

  /** ArrowUp's update of the selection. */
  function MoveUp(selected: int): int {
    if selected > 0 then selected - 1 else -1
  }

  /** The window's keydown handler. */
  function OnKey(all: seq<Product>, s: ModalState, k: Key): (o: Outcome)
    ensures !s.open ==> o == Outcome(s, None)
    ensures o.navigateTo.Some? <==> s.open && k == Enter && 0 <= s.selected < |s.results|
    ensures o.navigateTo.Some? ==> o.navigateTo.value == ProductPath(s.results[s.selected].slug)
                                   && o.state.query == "" && !o.state.open
    ensures o.navigateTo.None? && !(s.open && k == Escape) ==> o.state.open == s.open
    ensures s.open && k == Escape ==> !o.state.open
    ensures o.state.query != s.query ==> o.state.query == ""
  {
    if !s.open then Outcome(s, None)
    else
      match k
      case Escape => Outcome(s.(open := false), None)
      case ArrowDown =>
        Outcome(s.(selected := MoveDown(s.selected, |s.results|)), None)
      case ArrowUp =>
        Outcome(s.(selected := MoveUp(s.selected)), None)
      case Enter =>
        if 0 <= s.selected < |s.results| then Choose(all, s, s.selected) else Outcome(s, None)
      case OtherKey => Outcome(s, None)
  }

  /** ArrowDown moves down by one, stopping at the last result; ArrowUp moves
      up by one, stopping at -1 (no selection). */
  lemma ArrowKeysStayInBounds(all: seq<Product>, s: ModalState)
    requires s.open && Valid(all, s)
    ensures var d := OnKey(all, s, ArrowDown).state.selected;
      s.selected <= d <= s.selected + 1 && d < |s.results| && (d == s.selected <==> s.selected == |s.results| - 1)
    ensures var u := OnKey(all, s, ArrowUp).state.selected;
      s.selected - 1 <= u <= s.selected && -1 <= u && (u == s.selected <==> s.selected == -1)
  {
  }

  /** Every event keeps the invariant. */
  lemma OnKeyKeepsValid(all: seq<Product>, s: ModalState, k: Key)
    requires Valid(all, s)
    ensures Valid(all, OnKey(all, s, k).state)
  {
    if s.open && k == Enter && 0 <= s.selected < |s.results| {
      assert OnKey(all, s, k) == Choose(all, s, s.selected);
    } else {
      OnKeyMovesOnlySelection(all, s, k);
      SelectionMoveKeepsValid(all, s, OnKey(all, s, k).state);
    }
  }

  /** Apart from choosing a result, a key changes at most the selection and
      whether the modal is open, and keeps the selection in range. */
  lemma OnKeyMovesOnlySelection(all: seq<Product>, s: ModalState, k: Key)
    requires -1 <= s.selected < |s.results|
    requires !(s.open && k == Enter && 0 <= s.selected < |s.results|)
    ensures var t := OnKey(all, s, k).state;
      t.query == s.query && t.results == s.results && -1 <= t.selected < |t.results|
  {
  }

  /** Moving the selection within the results, the query untouched, keeps the invariant. */
  lemma SelectionMoveKeepsValid(all: seq<Product>, s: ModalState, t: ModalState)
    requires Valid(all, s)
    requires t.query == s.query && t.results == s.results && -1 <= t.selected < |t.results|
    ensures Valid(all, t)
  {
  }

  /** Typing keeps the invariant and drops the selection. */
  lemma TypingKeepsValid(all: seq<Product>, s: ModalState, q: string)
    ensures Valid(all, SetQuery(all, s, q))
    ensures SetQuery(all, s, q).selected == -1
  {
  }

  /** Clicking a shown result does what Enter does on a selected one. */
  lemma ClickIsEnter(all: seq<Product>, s: ModalState, i: int)
    requires s.open && 0 <= i < |s.results|
    ensures Choose(all, s, i) == OnKey(all, s.(selected := i), Enter)
  {
  }

  /** The selection after pressing ArrowDown `n` times. */
  function DownTimes(selected: int, count: int, n: nat): int
    decreases n
  {
    if n == 0 then selected else DownTimes(MoveDown(selected, count), count, n - 1)
  }

  /** The selection after pressing ArrowUp `n` times. */
  function UpTimes(selected: int, n: nat): int
    decreases n
  {
    if n == 0 then selected else UpTimes(MoveUp(selected), n - 1)
  }

  function Min(a: int, b: int): int {
    if a <= b then a else b
  }

  function Max(a: int, b: int): int {
    if a >= b then a else b
  }

  /** From any valid selection, `n` ArrowDowns land `n` further down or on
      the last result, whichever comes first. */
  lemma {:induction false} DownTimesLands(selected: int, count: int, n: nat)
    requires -1 <= selected < count
    ensures DownTimes(selected, count, n) == Max(selected, Min(selected + n, count - 1))
    decreases n
  {
    if n > 0 {
      DownTimesLands(MoveDown(selected, count), count, n - 1);
    }
  }

  /** From any valid selection, `n` ArrowUps land `n` further up or on -1. */
  lemma {:induction false} UpTimesLands(selected: int, n: nat)
    requires -1 <= selected
    ensures UpTimes(selected, n) == Max(selected - n, -1)
    decreases n
  {
    if n > 0 {
      UpTimesLands(MoveUp(selected), n - 1);
    }
  }
}
