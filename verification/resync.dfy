/**
 Keeping the height table aligned with the items when the host hands in a new
 data collection: the table takes the new length, keeps earlier heights at
 matching indices and fills the rest with the default height.
 */
module Resync {
  import opened Layout

  /** Element-wise comparison of two lists: same length and equal at every index. */
  function ArraysEqual<T(==)>(a: seq<T>, b: seq<T>): (r: bool)
    ensures r <==> a == b
  {
    |a| == |b| && forall i :: 0 <= i < |a| ==> a[i] == b[i]
  }

  /** `n` default heights. */
  function DefaultHeights(n: nat): (hs: seq<int>)
    ensures |hs| == n
    ensures forall i :: 0 <= i < n ==> hs[i] == DefaultCardHeight
  {
    seq(n, _ => DefaultCardHeight)
  }

  /**
   Height table for a new collection of `n` items, given the previous table.
   When nothing changes the previous table itself is kept.
   */
  function ResyncHeights(n: nat, prev: seq<int>): (next: seq<int>)
    ensures |next| == n
    ensures forall i :: 0 <= i < n && i < |prev| ==> next[i] == prev[i]
    ensures forall i :: |prev| <= i < n ==> next[i] == DefaultCardHeight
  {
    var next := seq(n, i requires 0 <= i < n => CardHeight(prev, i));
    if ArraysEqual(prev, next) then prev else next
  }

  /** A shorter collection keeps a prefix of the previous table. */
  lemma ResyncTruncates(n: nat, prev: seq<int>)
    requires n <= |prev|
    ensures ResyncHeights(n, prev) == prev[..n]
  {
  }

  /** A longer collection keeps the whole previous table and pads it with defaults. */
  lemma ResyncPads(n: nat, prev: seq<int>)
    requires |prev| <= n
    ensures ResyncHeights(n, prev) == prev + DefaultHeights(n - |prev|)
  {
    var r := ResyncHeights(n, prev);
    var padded := prev + DefaultHeights(n - |prev|);
    forall i | 0 <= i < n
      ensures r[i] == padded[i]
    {
      if i >= |prev| {
        assert padded[i] == DefaultHeights(n - |prev|)[i - |prev|];
      }
    }
  }

  /** A table that already has the collection's length is kept as it is. */
  lemma ResyncKeepsAlignedTable(prev: seq<int>)
    ensures ResyncHeights(|prev|, prev) == prev
  {
  }

  /** Resynchronising twice to the same length changes nothing more. */
  lemma ResyncIdempotent(n: nat, prev: seq<int>)
    ensures ResyncHeights(n, ResyncHeights(n, prev)) == ResyncHeights(n, prev)
  {
    ResyncKeepsAlignedTable(ResyncHeights(n, prev));
  }

  /** Starting from no measurements, every card gets the default height. */
  lemma ResyncFromNothing(n: nat)
    ensures ResyncHeights(n, []) == DefaultHeights(n)
  {
  }
}
