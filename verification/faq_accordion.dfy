/** The reusable FAQ accordion: at most one item open at a time. */
module FaqAccordion {
  import opened Optional

  /** The open item's position, or none. */
  type OpenIndex = Option<int>

  /** The first item starts open. */
  const InitialOpen: OpenIndex := Some(0)

  predicate IsOpen(o: OpenIndex, k: int) {
    o == Some(k)
  }

  /** `toggleItem`: close the open item, or open another and close the
      previous one. */
  function Toggle(o: OpenIndex, k: int): (r: OpenIndex)
    ensures IsOpen(r, k) <==> !IsOpen(o, k)
    ensures forall j :: j != k ==> !IsOpen(r, j)
  {
    if o == Some(k) then None else Some(k)
  }

  /** Two items are never open at once. */
  lemma AtMostOneOpen(o: OpenIndex, j: int, k: int)
    requires IsOpen(o, j) && IsOpen(o, k)
    ensures j == k
  {
  }

  /** Toggling the same item twice leaves it open exactly when it was, and
      closes whichever other item was open. */
  lemma ToggleTwice(o: OpenIndex, k: int)
    ensures forall j :: IsOpen(Toggle(Toggle(o, k), k), j) <==> j == k && IsOpen(o, k)
  {
  }

  /** After a sequence of clicks, at most the last clicked item is open. */
  function Clicks(o: OpenIndex, ks: seq<int>): OpenIndex
    decreases |ks|
  {
    if ks == [] then o else Clicks(Toggle(o, ks[0]), ks[1..])
  }

  lemma {:induction false} OnlyLastClickedOpen(o: OpenIndex, ks: seq<int>)
    requires ks != []
    ensures forall j :: IsOpen(Clicks(o, ks), j) ==> j == ks[|ks| - 1]
    decreases |ks|
  {
    if |ks| > 1 {
      OnlyLastClickedOpen(Toggle(o, ks[0]), ks[1..]);
    } else {
      assert Clicks(o, ks) == Toggle(o, ks[0]);
    }
  }
}
