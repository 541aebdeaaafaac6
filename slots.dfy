// The slot discipline of the actor list in Code/Game/Map.cpp, stated on plain
// sequences of optional entries: a spawn reuses the lowest empty slot or
// appends, a kill empties one slot, and the end-of-frame sweep empties the
// marked ones. Slots never move and the list never shrinks.
module Slots {
  import opened Wrappers

  /** The lowest empty slot, or the length when every slot is occupied. */
  function FirstFree<T>(s: seq<Option<T>>): (i: nat)
    ensures i <= |s|
    ensures i < |s| ==> s[i].None?
    ensures forall j :: 0 <= j < i ==> s[j].Some?
  {
    if |s| == 0 then 0
    else if s[0].None? then 0
    else 1 + FirstFree(s[1..])
  }

  /** Put `x` at position `i`, appending when `i` is one past the end. */
  function Place<T>(s: seq<Option<T>>, i: nat, x: T): (r: seq<Option<T>>)
    requires i <= |s|
  {
    if i == |s| then s + [Some(x)] else s[i := Some(x)]
  }

  /** Empty slot `i`. */
  function ClearAt<T>(s: seq<Option<T>>, i: nat): (r: seq<Option<T>>)
    requires i < |s|
  {
    s[i := None]
  }

  /** Empty every slot whose mark is set. */
  function ClearMarked<T>(s: seq<Option<T>>, marked: seq<bool>): (r: seq<Option<T>>)
    requires |marked| == |s|
    ensures |r| == |s|
    ensures forall i :: 0 <= i < |s| ==> r[i] == if marked[i] then None else s[i]
  {
    seq(|s|, i requires 0 <= i < |s| => if marked[i] then None else s[i])
  }

  /** Every occupied slot of `a` holds the same entry in `b`, which is no shorter. */
  predicate Extends<T(==)>(a: seq<Option<T>>, b: seq<Option<T>>)
  {
    |a| <= |b| && forall i :: 0 <= i < |a| && a[i].Some? ==> b[i] == a[i]
  }

  /** The number of occupied slots. */
  function Occupied<T>(s: seq<Option<T>>): (n: nat)
    ensures n <= |s|
  {
    if |s| == 0 then 0 else Occupied(s[..|s| - 1]) + (if s[|s| - 1].Some? then 1 else 0)
  }

  /**
   * Spawning into the lowest free slot: the entry lands there, no other slot
   * changes, and the list grows by one exactly when it had no empty slot.
   */
  lemma PlaceFirstFree<T>(s: seq<Option<T>>, x: T)
    ensures var r := Place(s, FirstFree(s), x);
      && r[FirstFree(s)] == Some(x)
      && (forall j :: 0 <= j < |s| && j != FirstFree(s) ==> r[j] == s[j])
      && (|r| == |s| + 1 <==> forall j :: 0 <= j < |s| ==> s[j].Some?)
      && (|r| == |s| <==> exists j :: 0 <= j < |s| && s[j].None?)
      && Extends(s, r)
  {
  }

  /** Extension is a preorder. */
  lemma ExtendsTrans<T>(a: seq<Option<T>>, b: seq<Option<T>>, c: seq<Option<T>>)
    requires Extends(a, b) && Extends(b, c)
    ensures Extends(a, c)
  {
  }

  lemma ExtendsRefl<T>(a: seq<Option<T>>)
    ensures Extends(a, a)
  {
  }

  /** The sweep is idempotent and never adds an entry. */
  lemma ClearMarkedIdempotent<T>(s: seq<Option<T>>, marked: seq<bool>)
    requires |marked| == |s|
    ensures ClearMarked(ClearMarked(s, marked), marked) == ClearMarked(s, marked)
    ensures forall i :: 0 <= i < |s| && ClearMarked(s, marked)[i].Some? ==> s[i].Some?
  {
  }

  /** Occupancy after an update of one slot. */
  lemma {:induction false} OccupiedUpdate<T>(s: seq<Option<T>>, i: nat, v: Option<T>)
    requires i < |s|
    ensures Occupied(s[i := v]) ==
      Occupied(s) - (if s[i].Some? then 1 else 0) + (if v.Some? then 1 else 0)
    decreases |s|
  {
    var s' := s[i := v];
    if i == |s| - 1 {
      assert s'[..|s'| - 1] == s[..|s| - 1];
    } else {
      assert s'[..|s'| - 1] == s[..|s| - 1][i := v];
      OccupiedUpdate(s[..|s| - 1], i, v);
    }
  }

  /** A spawn adds exactly one occupied slot. */
  lemma OccupiedPlace<T>(s: seq<Option<T>>, x: T)
    ensures Occupied(Place(s, FirstFree(s), x)) == Occupied(s) + 1
  {
    var f := FirstFree(s);
    if f == |s| {
      assert (s + [Some(x)])[..|s|] == s;
    } else {
      OccupiedUpdate(s, f, Some(x));
    }
  }

  /** Emptying an occupied slot removes exactly one occupied slot. */
  lemma OccupiedClear<T>(s: seq<Option<T>>, i: nat)
    requires i < |s| && s[i].Some?
    ensures Occupied(ClearAt(s, i)) == Occupied(s) - 1
  {
    OccupiedUpdate(s, i, None);
  }
}
