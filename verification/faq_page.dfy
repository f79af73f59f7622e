/** The FAQ page: a category selector over a fixed list of questions, and
    an open-item index into the filtered list. */
module FaqPage {
  import opened Optional
  import Seqs
  import FaqAccordion

  datatype FaqCategory = Products | Shipping | Returns | Account | General

  /** The selector's buttons: "All", then the five categories. */
  datatype Selection = All | Only(category: FaqCategory)

  datatype Faq = Faq(category: FaqCategory, question: string, answer: string)

  function Repeat(c: FaqCategory, n: nat): (r: seq<FaqCategory>)
    ensures |r| == n && forall i :: 0 <= i < n ==> r[i] == c
  {
    if n == 0 then [] else [c] + Repeat(c, n - 1)
  }

  /** The categories of the page's sixteen questions, in page order: four
      about products, four about shipping, three about returns, two about
      accounts and three general ones. */
  const FaqCategories: seq<FaqCategory> :=
    Repeat(Products, 4) + Repeat(Shipping, 4) + Repeat(Returns, 3) + Repeat(Account, 2) + Repeat(General, 3)

  function InCategory(c: FaqCategory): Faq -> bool {
    (f: Faq) => f.category == c
  }

  /** `filteredFAQs`: every question for "All", otherwise those of the
      category, in page order. */
  function Filtered(faqs: seq<Faq>, s: Selection): (r: seq<Faq>)
    ensures s == All ==> r == faqs
    ensures s.Only? ==> forall f :: f in r <==> f in faqs && f.category == s.category
    ensures Seqs.IsSubseq(r, faqs)
  {
    if s == All then
      Seqs.FilterKeepsAll(faqs, (f: Faq) => true);
      faqs
    else
      var r := Seqs.Filter(faqs, InCategory(s.category));
      assert forall f :: f in faqs && f.category == s.category ==> f in r by {
        forall f | f in faqs && f.category == s.category
          ensures f in r
        {
          var i :| 0 <= i < |faqs| && faqs[i] == f;
        }
      }
      r
  }

  function Count(faqs: seq<Faq>, c: FaqCategory): nat {
    |Filtered(faqs, Only(c))|
  }

  function Categories(faqs: seq<Faq>): seq<FaqCategory> {
    if faqs == [] then [] else [faqs[0].category] + Categories(faqs[1..])
  }

  /** Every question has one of the five categories, so the five counts add
      up to the whole list. */
  lemma CountsSum(faqs: seq<Faq>)
    ensures Count(faqs, Products) + Count(faqs, Shipping) + Count(faqs, Returns)
          + Count(faqs, Account) + Count(faqs, General) == |faqs|
  {
    CategoriesLength(faqs);
    CountMatchesCategories(faqs, Products);
    CountMatchesCategories(faqs, Shipping);
    CountMatchesCategories(faqs, Returns);
    CountMatchesCategories(faqs, Account);
    CountMatchesCategories(faqs, General);
    OccurrencesSum(Categories(faqs));
  }

  lemma {:induction false} OccurrencesSum(cs: seq<FaqCategory>)
    ensures Occurrences(cs, Products) + Occurrences(cs, Shipping) + Occurrences(cs, Returns)
          + Occurrences(cs, Account) + Occurrences(cs, General) == |cs|
  {
    if cs != [] {
      OccurrencesSum(cs[1..]);
    }
  }

  function Occurrences(cs: seq<FaqCategory>, c: FaqCategory): nat {
    if cs == [] then 0 else (if cs[0] == c then 1 else 0) + Occurrences(cs[1..], c)
  }

  lemma {:induction false} OccurrencesAppend(a: seq<FaqCategory>, b: seq<FaqCategory>, c: FaqCategory)
    ensures Occurrences(a + b, c) == Occurrences(a, c) + Occurrences(b, c)
  {
    if a == [] {
      assert a + b == b;
    } else {
      assert (a + b)[0] == a[0];
      assert (a + b)[1..] == a[1..] + b;
      OccurrencesAppend(a[1..], b, c);
    }
  }

  lemma {:induction false} OccurrencesRepeat(x: FaqCategory, n: nat, c: FaqCategory)
    ensures Occurrences(Repeat(x, n), c) == if x == c then n else 0
  {
    if n > 0 {
      OccurrencesRepeat(x, n - 1, c);
    }
  }

  lemma {:induction false} CategoriesLength(faqs: seq<Faq>)
    ensures |Categories(faqs)| == |faqs|
  {
    if faqs != [] {
      CategoriesLength(faqs[1..]);
    }
  }

  lemma {:induction false} CountMatchesCategories(faqs: seq<Faq>, c: FaqCategory)
    ensures Count(faqs, c) == Occurrences(Categories(faqs), c)
  {
    if faqs != [] {
      CountMatchesCategories(faqs[1..], c);
      assert faqs == [faqs[0]] + faqs[1..];
      Seqs.FilterAppend([faqs[0]], faqs[1..], InCategory(c));
    }
  }

  /** How many of the page's questions a category holds. */
  lemma PageOccurrences(c: FaqCategory)
    ensures Occurrences(FaqCategories, c) == match c
      case Products => 4 case Shipping => 4 case Returns => 3 case Account => 2 case General => 3
  {
    var a := Repeat(Products, 4);
    var b := Repeat(Shipping, 4);
    var d := Repeat(Returns, 3);
    var e := Repeat(Account, 2);
    var f := Repeat(General, 3);
    OccurrencesAppend(a + b + d + e, f, c);
    OccurrencesAppend(a + b + d, e, c);
    OccurrencesAppend(a + b, d, c);
    OccurrencesAppend(a, b, c);
    OccurrencesRepeat(Products, 4, c);
    OccurrencesRepeat(Shipping, 4, c);
    OccurrencesRepeat(Returns, 3, c);
    OccurrencesRepeat(Account, 2, c);
    OccurrencesRepeat(General, 3, c);
  }

  /** The page's list: sixteen questions, four, four, three, two and three
      per category, so "All" shows sixteen. */
  lemma PageCounts(faqs: seq<Faq>)
    requires Categories(faqs) == FaqCategories
    ensures |faqs| == 16 && |Filtered(faqs, All)| == 16
    ensures Count(faqs, Products) == 4 && Count(faqs, Shipping) == 4 && Count(faqs, Returns) == 3
    ensures Count(faqs, Account) == 2 && Count(faqs, General) == 3
  {
    CategoriesLength(faqs);
    forall c
      ensures Count(faqs, c) == Occurrences(FaqCategories, c)
    {
      CountMatchesCategories(faqs, c);
    }
    PageOccurrences(Products);
    PageOccurrences(Shipping);
    PageOccurrences(Returns);
    PageOccurrences(Account);
    PageOccurrences(General);
  }

  /** The page's state: the selected button and the open position. */
  datatype PageState = PageState(selection: Selection, openIndex: FaqAccordion.OpenIndex)

  const InitialState: PageState := PageState(All, FaqAccordion.InitialOpen)

  /** Clicking a question toggles its position. */
  function ClickQuestion(st: PageState, k: int): (r: PageState)
    ensures r.selection == st.selection
    ensures FaqAccordion.IsOpen(r.openIndex, k) <==> !FaqAccordion.IsOpen(st.openIndex, k)
  {
    st.(openIndex := FaqAccordion.Toggle(st.openIndex, k))
  }

  /** Choosing a category keeps the open position as it was. */
  function SelectCategory(st: PageState, s: Selection): (r: PageState)
    ensures r.selection == s && r.openIndex == st.openIndex
  {
    st.(selection := s)
  }

  /** The question shown open, if the open position is in the list. */
  function OpenFaq(faqs: seq<Faq>, st: PageState): Option<Faq> {
    var shown := Filtered(faqs, st.selection);
    match st.openIndex
    case Some(k) => if 0 <= k < |shown| then Some(shown[k]) else None
    case None => None
  }

  /** Because the position is kept, switching category opens whichever
      question of the new list sits at that position. */
  lemma SwitchKeepsPosition(faqs: seq<Faq>, st: PageState, s: Selection)
    requires st.openIndex.Some? && 0 <= st.openIndex.value < |Filtered(faqs, s)|
    ensures OpenFaq(faqs, SelectCategory(st, s)) == Some(Filtered(faqs, s)[st.openIndex.value])
  {
  }
}
