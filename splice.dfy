/** The two uses of JavaScript's `Array.prototype.splice` that the planner makes on its
    ordered collections (task arrays and the list of phase entries): cutting one element
    out, and putting one element in. `Move` is the pair of them, as both `moveTask` and
    `movePhase` perform it. */
module Splice {

  /** `s.splice(i, 1)`: the sequence without its element at index `i`. */
  function Remove<T>(s: seq<T>, i: nat): (r: seq<T>)
    requires i < |s|
    ensures |r| == |s| - 1
    ensures forall k :: 0 <= k < i ==> r[k] == s[k]
    ensures forall k :: i <= k < |r| ==> r[k] == s[k + 1]
    ensures multiset(r) + multiset{s[i]} == multiset(s)
  {
    assert s == s[..i] + [s[i]] + s[i + 1..];
    s[..i] + s[i + 1..]
  }

  /** `s.splice(i, 0, x)`: `x` inserted before index `i`; like JavaScript, an index past
      the end is clamped to the length, so that the element is appended. */
  function InsertAt<T>(s: seq<T>, i: nat, x: T): (r: seq<T>)
    ensures |r| == |s| + 1
    ensures r[Min(i, |s|)] == x
    ensures forall k :: 0 <= k < Min(i, |s|) ==> r[k] == s[k]
    ensures forall k :: Min(i, |s|) < k < |r| ==> r[k] == s[k - 1]
    ensures multiset(r) == multiset(s) + multiset{x}
  {
    var j := Min(i, |s|);
    assert s == s[..j] + s[j..];
    s[..j] + [x] + s[j..]
  }

  /** An index at or past the end appends: `splice(s.length, 0, x)` is `push(x)`. */
  lemma InsertPastEnd<T>(s: seq<T>, i: nat, x: T)
    requires i >= |s|
    ensures InsertAt(s, i, x) == s + [x]
  {
    assert s[..|s|] == s && s[|s|..] == [];
  }

  function Min(a: nat, b: nat): nat
  {
    if a <= b then a else b
  }

  /** Cut the element at `from` out and put it back at `to`. */
  function Move<T>(s: seq<T>, from: nat, to: nat): (r: seq<T>)
    requires from < |s| && to < |s|
  {
    InsertAt(Remove(s, from), to, s[from])
  }

  /** What a move promises: same length, same elements, the moved element lands at `to`,
      and taking it out again gives back the others in their old relative order. */
  lemma MoveProperties<T>(s: seq<T>, from: nat, to: nat)
    requires from < |s| && to < |s|
    ensures |Move(s, from, to)| == |s|
    ensures multiset(Move(s, from, to)) == multiset(s)
    ensures Move(s, from, to)[to] == s[from]
    ensures Remove(Move(s, from, to), to) == Remove(s, from)
  {
    var rest := Remove(s, from);
    var r := InsertAt(rest, to, s[from]);
    assert Min(to, |rest|) == to;
    var back := Remove(r, to);
    assert |back| == |rest|;
    forall k | 0 <= k < |back|
      ensures back[k] == rest[k]
    {
      if k < to {
        assert back[k] == r[k];
      } else {
        assert back[k] == r[k + 1];
      }
    }
  }

  /** Removing an element and re-inserting it where it was is the identity. */
  lemma RemoveThenInsertSame<T>(s: seq<T>, i: nat)
    requires i < |s|
    ensures InsertAt(Remove(s, i), i, s[i]) == s
  {
    var r := InsertAt(Remove(s, i), i, s[i]);
    forall k | 0 <= k < |s|
      ensures r[k] == s[k]
    {
    }
  }
}
