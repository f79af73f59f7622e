/** The admin review moderation screen: approving, rejecting and deleting
    reviews, the status and text filter, and the summary figures. */
module AdminReviews {
  import opened Optional
  import opened Text
  import Seqs

  datatype ReviewStatus = Approved | Pending | Rejected

  datatype Review = Review(
    id: string,
    product: string,
    productId: string,
    customer: string,
    customerEmail: string,
    rating: int,
    comment: string,
    date: string,
    status: ReviewStatus,
    verified: bool
  )

  /** The two moderation buttons; neither sets a review back to pending. */
  datatype Decision = Approve | Reject

  function Outcome(d: Decision): (s: ReviewStatus)
    ensures s != Pending
  {
    match d
    case Approve => Approved
    case Reject => Rejected
  }

  /** `handleStatusChange`: the reviews with the id take the decided status. */
  function ChangeStatus(reviews: seq<Review>, id: string, d: Decision): (r: seq<Review>)
    ensures |r| == |reviews|
    ensures forall i :: 0 <= i < |r| && reviews[i].id != id ==> r[i] == reviews[i]
    ensures forall i :: 0 <= i < |r| && reviews[i].id == id ==> r[i] == reviews[i].(status := Outcome(d))
  {
    if reviews == [] then []
    else
      var x := reviews[0];
      [if x.id == id then x.(status := Outcome(d)) else x] + ChangeStatus(reviews[1..], id, d)
  }

  /** A status change can only lower the number of pending reviews. */
  lemma ChangeStatusNeverAddsPending(reviews: seq<Review>, id: string, d: Decision)
    ensures Count(ChangeStatus(reviews, id, d), Pending) <= Count(reviews, Pending)
    ensures forall i :: 0 <= i < |reviews| && ChangeStatus(reviews, id, d)[i].status == Pending ==> reviews[i].status == Pending
  {
    ChangePendingCount(reviews, id, d);
  }

  lemma {:induction false} ChangePendingCount(reviews: seq<Review>, id: string, d: Decision)
    ensures Count(ChangeStatus(reviews, id, d), Pending) <= Count(reviews, Pending)
  {
    if reviews != [] {
      var x := reviews[0];
      var y := if x.id == id then x.(status := Outcome(d)) else x;
      var tail := ChangeStatus(reviews[1..], id, d);
      ChangePendingCount(reviews[1..], id, d);
      assert ChangeStatus(reviews, id, d) == [y] + tail;
      assert reviews == [x] + reviews[1..];
      CountCons(y, tail, Pending);
      CountCons(x, reviews[1..], Pending);
    }
  }

  /** `handleDelete`: on confirmation, drop every review with the id. */
  function Delete(reviews: seq<Review>, id: string, confirmed: bool): (r: seq<Review>)
    ensures !confirmed ==> r == reviews
    ensures confirmed ==> forall x :: x in r <==> x in reviews && x.id != id
    ensures Seqs.IsSubseq(r, reviews)
  {
    if confirmed then
      var r := Seqs.Filter(reviews, (x: Review) => x.id != id);
      assert forall x :: x in reviews && x.id != id ==> x in r by {
        forall x | x in reviews && x.id != id
          ensures x in r
        {
          var i :| 0 <= i < |reviews| && reviews[i] == x;
        }
      }
      r
    else
      Seqs.SubseqRefl(reviews);
      reviews
  }

  /** The status dropdown: "all", or one status. */
  datatype StatusFilter = AllStatuses | OnlyStatus(status: ReviewStatus)

  /** The filter's test: the status fits, and the query occurs, ignoring
      case, in the product, the customer or the comment. */
  predicate Shown(x: Review, f: StatusFilter, q: string) {
    && (f.AllStatuses? || x.status == f.status)
    && (ContainsIgnoringCase(x.product, q) || ContainsIgnoringCase(x.customer, q) || ContainsIgnoringCase(x.comment, q))
  }

  function FilterReviews(reviews: seq<Review>, f: StatusFilter, q: string): (r: seq<Review>)
    ensures forall x :: x in r <==> x in reviews && Shown(x, f, q)
    ensures Seqs.IsSubseq(r, reviews) && |r| <= |reviews|
  {
    var r := Seqs.Filter(reviews, (x: Review) => Shown(x, f, q));
    assert forall x :: x in reviews && Shown(x, f, q) ==> x in r by {
      forall x | x in reviews && Shown(x, f, q)
        ensures x in r
      {
        var i :| 0 <= i < |reviews| && reviews[i] == x;
      }
    }
    r
  }

  /** With "all" and an empty query every review is shown, in order. */
  lemma NoFilterShowsAll(reviews: seq<Review>)
    ensures FilterReviews(reviews, AllStatuses, "") == reviews
  {
    forall i | 0 <= i < |reviews|
      ensures Shown(reviews[i], AllStatuses, "")
    {
      ContainsEmptyQuery(reviews[i].product);
    }
    Seqs.FilterKeepsAll(reviews, (x: Review) => Shown(x, AllStatuses, ""));
  }

  function StatusIs(s: ReviewStatus): Review -> bool {
    (x: Review) => x.status == s
  }

  function StatusIsNot(s: ReviewStatus): Review -> bool {
    (x: Review) => x.status != s
  }

  /** The number of reviews with a status. */
  function Count(reviews: seq<Review>, s: ReviewStatus): nat {
    |Seqs.Filter(reviews, StatusIs(s))|
  }

  lemma CountCons(x: Review, rest: seq<Review>, s: ReviewStatus)
    ensures Count([x] + rest, s) == (if x.status == s then 1 else 0) + Count(rest, s)
  {
    Seqs.FilterAppend([x], rest, StatusIs(s));
  }

  /** Every review has one of the three statuses, so the three counts add
      up to the total. */
  lemma {:induction false} StatusCountsSum(reviews: seq<Review>)
    ensures Count(reviews, Approved) + Count(reviews, Pending) + Count(reviews, Rejected) == |reviews|
  {
    var notApproved := Seqs.Filter(reviews, StatusIsNot(Approved));
    Seqs.FilterSplitCount(reviews, StatusIs(Approved), StatusIsNot(Approved));
    Seqs.FilterFilter(reviews, StatusIsNot(Approved), StatusIs(Pending), StatusIs(Pending));
    Seqs.FilterFilter(reviews, StatusIsNot(Approved), StatusIsNot(Pending), StatusIs(Rejected));
    Seqs.FilterSplitCount(notApproved, StatusIs(Pending), StatusIsNot(Pending));
  }

  function SumRatings(reviews: seq<Review>): int {
    if reviews == [] then 0 else reviews[0].rating + SumRatings(reviews[1..])
  }

  /** The mean rating; there is none for an empty list, where the page
      divides by zero. */
  function AverageRating(reviews: seq<Review>): (a: Option<real>)
    ensures a.None? <==> reviews == []
  {
    if |reviews| == 0 then None else Some(SumRatings(reviews) as real / |reviews| as real)
  }

  lemma {:induction false} SumRatingsBounds(reviews: seq<Review>, lo: int, hi: int)
    requires forall i :: 0 <= i < |reviews| ==> lo <= reviews[i].rating <= hi
    ensures lo * |reviews| <= SumRatings(reviews) <= hi * |reviews|
  {
    if reviews != [] {
      SumRatingsBounds(reviews[1..], lo, hi);
    }
  }

  /** The mean lies between the lowest and highest possible rating. */
  lemma AverageWithinRatings(reviews: seq<Review>, lo: int, hi: int)
    requires reviews != []
    requires forall i :: 0 <= i < |reviews| ==> lo <= reviews[i].rating <= hi
    ensures lo as real <= AverageRating(reviews).value <= hi as real
  {
    SumRatingsBounds(reviews, lo, hi);
    var n := |reviews|;
    var s := SumRatings(reviews);
    CastProduct(lo, n);
    CastProduct(hi, n);
    CastOrder(lo * n, s);
    CastOrder(s, hi * n);
    DivideBetween(s as real, n as real, lo as real, hi as real);
  }

  lemma CastProduct(a: int, b: int)
    ensures (a * b) as real == a as real * b as real
  {
  }

  lemma CastOrder(a: int, b: int)
    requires a <= b
    ensures a as real <= b as real
  {
  }

  lemma DivideBetween(s: real, n: real, a: real, b: real)
    requires n > 0.0 && a * n <= s <= b * n
    ensures a <= s / n <= b
  {
    var q := s / n;
    assert q * n == s;
    assert (q - a) * n == s - a * n;
    assert (b - q) * n == b * n - s;
  }

  /** The buttons offered for a review in each status. */
  function Offered(s: ReviewStatus): (ds: seq<Decision>)
    ensures forall d :: d in ds ==> Outcome(d) != s
  {
    match s
    case Pending => [Approve, Reject]
    case Approved => [Reject]
    case Rejected => [Approve]
  }

  /** Every offered button changes the status, none leads back to pending,
      and from pending both others are offered. */
  lemma OfferedTransitions(s: ReviewStatus)
    ensures forall d :: d in Offered(s) ==> Outcome(d) != s && Outcome(d) != Pending
    ensures s != Approved ==> Approve in Offered(s)
    ensures s != Rejected ==> Reject in Offered(s)
  {
  }

  /** A sequence of moderation decisions applied one after another. Once
      reviewed, a review stays reviewed, and the last decision sets its
      status. */
  function ApplyDecisions(s: ReviewStatus, ds: seq<Decision>): ReviewStatus
    decreases |ds|
  {
    if ds == [] then s else ApplyDecisions(Outcome(ds[0]), ds[1..])
  }

  lemma {:induction false} NeverBackToPending(s: ReviewStatus, ds: seq<Decision>)
    requires ds != [] || s != Pending
    ensures ApplyDecisions(s, ds) != Pending
    ensures ds != [] ==> ApplyDecisions(s, ds) == Outcome(ds[|ds| - 1])
    decreases |ds|
  {
    if ds != [] {
      NeverBackToPending(Outcome(ds[0]), ds[1..]);
    }
  }
}
