/** The ordered set of (expiration, timer address) pairs, kept as a strictly increasing sequence. */
module TimerEntries {

  type Address = nat

  const UINTPTR_MAX: nat := 0xFFFF_FFFF_FFFF_FFFF

  datatype Entry = Entry(when: int, timer: Address)

  predicate Less(a: Entry, b: Entry) {
    a.when < b.when || (a.when == b.when && a.timer < b.timer)
  }

  ghost predicate Sorted(es: seq<Entry>) {
    forall i, j | 0 <= i < j < |es| :: Less(es[i], es[j])
  }

  /** The number of entries before the first one that is not below `e`. */
  function LowerBound(es: seq<Entry>, e: Entry): (n: nat)
    ensures n <= |es|
    ensures forall i | 0 <= i < n :: Less(es[i], e)
    ensures n < |es| ==> !Less(es[n], e)
  {
    if es == [] || !Less(es[0], e) then 0 else 1 + LowerBound(es[1..], e)
  }

  function InsertEntry(es: seq<Entry>, e: Entry): seq<Entry> {
    var n := LowerBound(es, e);
    if n < |es| && es[n] == e then es else es[..n] + [e] + es[n..]
  }

  function EraseEntry(es: seq<Entry>, e: Entry): seq<Entry> {
    var n := LowerBound(es, e);
    if n < |es| && es[n] == e then es[..n] + es[n + 1..] else es
  }

  /** In a sorted sequence every entry from the lower bound on is at least `e`. */
  lemma LowerBoundSplits(es: seq<Entry>, e: Entry)
    requires Sorted(es)
    ensures forall i | LowerBound(es, e) <= i < |es| :: es[i] == e || Less(e, es[i])
    ensures e in es <==> LowerBound(es, e) < |es| && es[LowerBound(es, e)] == e
  {
  }

  lemma InsertKeepsOrder(es: seq<Entry>, e: Entry)
    requires Sorted(es)
    ensures Sorted(InsertEntry(es, e))
    ensures forall x :: x in InsertEntry(es, e) <==> x in es || x == e
    ensures InsertEntry(es, e) != []
    ensures InsertEntry(es, e)[0].when == if es == [] || e.when < es[0].when then e.when else es[0].when
  {
  }

  lemma EraseKeepsOrder(es: seq<Entry>, e: Entry)
    requires Sorted(es)
    ensures Sorted(EraseEntry(es, e))
    ensures forall x :: x in EraseEntry(es, e) <==> x in es && x != e
  {
    LowerBoundSplits(es, e);
    if e in es {
      RemoveAt(es, LowerBound(es, e));
    }
  }

  lemma RemoveAt(es: seq<Entry>, n: nat)
    requires Sorted(es) && n < |es|
    ensures var r := es[..n] + es[n + 1..];
      Sorted(r) && forall x :: x in r <==> x in es && x != es[n]
  {
  }
}
