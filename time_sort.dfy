/**
 * `offer_updates.sort(key=lambda offer: offer['timestamp'])`: Python's list
 * sort is stable.  It is modelled by an insertion sort that places each
 * element after every element with a timestamp not above its own, and is
 * proved to return a stable permutation sorted by timestamp.
 */
module TimeSort {
  import opened Events
  import opened Sequences

  /** The offers with timestamp `t`, in their order. */
  function AtTime(s: seq<OfferUpdate>, t: Timestamp): seq<OfferUpdate>
  {
    Filter(s, (e: OfferUpdate) => e.timestamp == t)
  }

  /** Insert `x` after the last element whose timestamp is not above its own. */
  function Insert(r: seq<OfferUpdate>, x: OfferUpdate): (out: seq<OfferUpdate>)
    ensures multiset(out) == multiset(r) + multiset{x}
  {
    if r == [] || r[|r| - 1].timestamp <= x.timestamp then r + [x]
    else
      assert r == r[..|r| - 1] + [r[|r| - 1]];
      Insert(r[..|r| - 1], x) + [r[|r| - 1]]
  }

  function SortByTime(s: seq<OfferUpdate>): seq<OfferUpdate>
  {
    if s == [] then [] else Insert(SortByTime(s[..|s| - 1]), s[|s| - 1])
  }

  lemma {:induction false} InsertSorted(r: seq<OfferUpdate>, x: OfferUpdate)
    requires Sorted(r, OfferTime)
    ensures Sorted(Insert(r, x), OfferTime)
  {
    if r != [] && r[|r| - 1].timestamp > x.timestamp {
      var r' := r[..|r| - 1];
      var last := r[|r| - 1];
      assert Sorted(r', OfferTime);
      InsertSorted(r', x);
      var front := Insert(r', x);
      forall a | 0 <= a < |front| ensures OfferTime(front[a]) <= OfferTime(last) {
        assert front[a] in multiset(r') + multiset{x};
        if front[a] != x {
          var i :| 0 <= i < |r'| && r'[i] == front[a];
          assert r[i] == front[a];
        }
      }
    }
  }

  /** Inserting `x` appends it to the offers of its own timestamp and leaves the others alone. */
  lemma {:induction false} InsertStable(r: seq<OfferUpdate>, x: OfferUpdate, t: Timestamp)
    ensures AtTime(Insert(r, x), t) == AtTime(r, t) + (if x.timestamp == t then [x] else [])
  {
    if r == [] || r[|r| - 1].timestamp <= x.timestamp {
      assert (r + [x])[..|r|] == r;
    } else {
      var r' := r[..|r| - 1];
      var last := r[|r| - 1];
      var front := Insert(r', x);
      InsertStable(r', x, t);
      assert (front + [last])[..|front|] == front;
    }
  }

  /** The sort is a stable permutation sorted by timestamp. */
  lemma {:induction false} SortByTimeIsStableSort(s: seq<OfferUpdate>)
    ensures Sorted(SortByTime(s), OfferTime)
    ensures multiset(SortByTime(s)) == multiset(s)
    ensures forall t :: AtTime(SortByTime(s), t) == AtTime(s, t)
  {
    if s != [] {
      var s' := s[..|s| - 1];
      var x := s[|s| - 1];
      assert s == s' + [x];
      SortByTimeIsStableSort(s');
      InsertSorted(SortByTime(s'), x);
      forall t ensures AtTime(SortByTime(s), t) == AtTime(s, t) {
        InsertStable(SortByTime(s'), x, t);
      }
    }
  }
}
