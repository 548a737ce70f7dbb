/**
 Reordering of the working list: the splice-based "move" that removes the
 element at one index and reinserts it at another, measured against the list
 with the element already removed (list-move semantics, not a swap).
 */
module Reorder {

  /** The list without its element at `i`. */
  function RemoveAt<T>(s: seq<T>, i: nat): seq<T>
    requires i < |s|
  {
    s[..i] + s[i + 1..]
  }

  /** The list with `x` inserted so that it sits at index `i`. */
  function InsertAt<T>(s: seq<T>, i: nat, x: T): seq<T>
    requires i <= |s|
  {
    s[..i] + [x] + s[i..]
  }

  /** Removing what was just inserted gives the list back. */
  lemma RemoveInsert<T>(s: seq<T>, i: nat, x: T)
    requires i <= |s|
    ensures InsertAt(s, i, x)[i] == x
    ensures RemoveAt(InsertAt(s, i, x), i) == s
  {
    var t := InsertAt(s, i, x);
    assert t[..i] == s[..i];
    assert t[i + 1..] == s[i..];
  }

  /** Reinserting a removed element at its old index gives the list back. */
  lemma InsertRemove<T>(s: seq<T>, i: nat)
    requires i < |s|
    ensures InsertAt(RemoveAt(s, i), i, s[i]) == s
  {
    var r := RemoveAt(s, i);
    assert r[..i] == s[..i];
    assert r[i..] == s[i + 1..];
    assert s == s[..i] + [s[i]] + s[i + 1..];
  }

  /** Removing an element and inserting it anywhere keeps the same multiset. */
  lemma RemoveInsertPermutes<T>(s: seq<T>, from: nat, to: nat)
    requires from < |s| && to < |s|
    ensures multiset(InsertAt(RemoveAt(s, from), to, s[from])) == multiset(s)
  {
    var r := RemoveAt(s, from);
    assert s == s[..from] + [s[from]] + s[from + 1..];
    assert multiset(s) == multiset(s[..from]) + multiset{s[from]} + multiset(s[from + 1..]);
    assert multiset(r) == multiset(s[..from]) + multiset(s[from + 1..]);
    assert r == r[..to] + r[to..];
    assert multiset(r) == multiset(r[..to]) + multiset(r[to..]);
    assert multiset(InsertAt(r, to, s[from])) == multiset(r[..to]) + multiset{s[from]} + multiset(r[to..]);
    assert multiset(InsertAt(r, to, s[from])) == multiset(r) + multiset{s[from]};
  }

  /** Whether `moveItem` may be asked to move `from` to `to` in a list of length `n`. */
  predicate MoveAllowed(n: nat, from: int, to: int) {
    from == to || n == 0 || (0 <= from < n && 0 <= to < n)
  }

  /**
   Move the element at `from` so that it ends up at `to`. Equal indices and
   the empty list leave the list as it is.
   */
  function MoveItem<T>(list: seq<T>, from: int, to: int): (r: seq<T>)
    requires MoveAllowed(|list|, from, to)
    ensures |r| == |list|
    ensures multiset(r) == multiset(list)
    ensures from == to || |list| == 0 ==> r == list
    ensures from != to && |list| > 0 ==> r[to] == list[from]
    ensures from != to && |list| > 0 ==> RemoveAt(r, to) == RemoveAt(list, from)
  {
    if from == to || |list| == 0 then list
    else
      var r := InsertAt(RemoveAt(list, from), to, list[from]);
      RemoveInsert(RemoveAt(list, from), to, list[from]);
      RemoveInsertPermutes(list, from, to);
      r
  }

  /**
   Index in the original list of the element that a move from `from` to `to`
   places at `k`: the moved element lands at `to`, the elements between the two
   indices shift by one towards `from`, and all others stay put.
   */
  function SourceIndex(from: nat, to: nat, k: nat): nat {
    if k == to then from
    else if from < to && from <= k < to then k + 1
    else if to < from && to < k <= from then k - 1
    else k
  }

  /** Element-wise description of a move. */
  lemma MoveItemIndex<T>(list: seq<T>, from: nat, to: nat)
    requires from < |list| && to < |list|
    ensures forall k :: 0 <= k < |list| ==>
      SourceIndex(from, to, k) < |list| && MoveItem(list, from, to)[k] == list[SourceIndex(from, to, k)]
  {
    var r := MoveItem(list, from, to);
    if from != to {
      var rest := RemoveAt(list, from);
      assert r == rest[..to] + [list[from]] + rest[to..];
      forall k | 0 <= k < |list|
        ensures SourceIndex(from, to, k) < |list| && r[k] == list[SourceIndex(from, to, k)]
      {
        if k < to {
          assert r[k] == rest[k];
        } else if k > to {
          assert r[k] == rest[k - 1];
        }
      }
    }
  }

  /** Moving back from `to` to `from` undoes the move. */
  lemma {:induction false} MoveItemInverse<T>(list: seq<T>, from: nat, to: nat)
    requires from < |list| && to < |list|
    ensures MoveItem(MoveItem(list, from, to), to, from) == list
  {
    if from != to {
      var r := MoveItem(list, from, to);
      assert MoveItem(r, to, from) == InsertAt(RemoveAt(list, from), from, list[from]);
      InsertRemove(list, from);
    }
  }

  /** Moving the first of four elements to the end or to slot 2, and the last to the front. */
  lemma MoveItemExamples()
    ensures MoveItem("ABCD", 0, 3) == "BCDA"
    ensures MoveItem("ABCD", 0, 2) == "BCAD"
    ensures MoveItem("ABCD", 3, 0) == "DABC"
  {
    assert RemoveAt("ABCD", 0) == "BCD";
    assert InsertAt("BCD", 2, 'A') == "BCAD";
    assert InsertAt("BCD", 3, 'A') == "BCDA";
    assert RemoveAt("ABCD", 3) == "ABC";
    assert InsertAt("ABC", 0, 'D') == "DABC";
  }

  /** Pairs two equally long lists position by position. */
  function Zip<A, B>(a: seq<A>, b: seq<B>): (z: seq<(A, B)>)
    requires |a| == |b|
  {
    seq(|a|, i requires 0 <= i < |a| => (a[i], b[i]))
  }

  /**
   Applying one move to two parallel lists is the same as moving the pairs:
   each element keeps the partner it had before the move.
   */
  lemma MoveItemZip<A, B>(a: seq<A>, b: seq<B>, from: nat, to: nat)
    requires |a| == |b|
    requires from < |a| && to < |a|
    ensures MoveItem(Zip(a, b), from, to) == Zip(MoveItem(a, from, to), MoveItem(b, from, to))
  {
    MoveItemIndex(a, from, to);
    MoveItemIndex(b, from, to);
    MoveItemIndex(Zip(a, b), from, to);
  }
}
