/** The drag-and-drop reorder every view performs on a copy of a collection:
    `findIndex` locates the dragged and the target element, then
    `copy.splice(from, 1)` takes the dragged element out and
    `copy.splice(to, 0, dragged)` puts it back in front of the element that
    is now at `to`. */
module Reorder {
  import opened Common
  import Repository

  /** `xs.findIndex(x => idOf(x) === id)`: the first position carrying the
      id, or -1. */
  function FindIndex<T>(xs: seq<T>, id: Id, idOf: T -> Id): (r: int)
    ensures -1 <= r < |xs|
    ensures r == -1 <==> forall i :: 0 <= i < |xs| ==> idOf(xs[i]) != id
    ensures r >= 0 ==> idOf(xs[r]) == id && forall i :: 0 <= i < r ==> idOf(xs[i]) != id
  {
    if xs == [] then -1
    else if idOf(xs[0]) == id then 0
    else var r := FindIndex(xs[1..], id, idOf); if r == -1 then -1 else r + 1
  }

  /** The search succeeds exactly when some element carries the id. */
  lemma FindIndexFound<T>(xs: seq<T>, id: Id, idOf: T -> Id)
    ensures FindIndex(xs, id, idOf) >= 0 <==> Repository.HasId(xs, id, idOf)
  {
  }

  /** The two splices on a sequence: remove position `from`, then insert the
      removed element at position `to` of what is left. */
  function Moved<T>(s: seq<T>, from: nat, to: nat): seq<T>
    requires from < |s| && to < |s|
  {
    var rest := s[..from] + s[from + 1..];
    rest[..to] + [s[from]] + rest[to..]
  }

  /** Where each position of the moved sequence takes its element from. */
  function MovedSource(from: nat, to: nat, i: nat): nat {
    if i == to then from
    else if from <= to && from <= i < to then i + 1
    else if to < from && to < i <= from then i - 1
    else i
  }

  /** The move position by position: the dragged element lands at `to`, the
      elements between the two positions shift by one towards `from`, and
      the rest stay where they were. */
  lemma MovedIndex<T>(s: seq<T>, from: nat, to: nat)
    requires from < |s| && to < |s|
    ensures |Moved(s, from, to)| == |s|
    ensures forall i :: 0 <= i < |s| ==> MovedSource(from, to, i) < |s| && Moved(s, from, to)[i] == s[MovedSource(from, to, i)]
  {
    var rest := s[..from] + s[from + 1..];
    var m := rest[..to] + [s[from]] + rest[to..];
    forall i | 0 <= i < |s|
      ensures MovedSource(from, to, i) < |s| && m[i] == s[MovedSource(from, to, i)]
    {
      if i < to {
        assert m[i] == rest[i];
      } else if i > to {
        assert m[i] == rest[i - 1];
      }
    }
  }

  /** The move keeps the length and every element with its multiplicity. */
  lemma MovedPermutation<T>(s: seq<T>, from: nat, to: nat)
    requires from < |s| && to < |s|
    ensures |Moved(s, from, to)| == |s|
    ensures multiset(Moved(s, from, to)) == multiset(s)
    ensures Moved(s, from, to)[to] == s[from]
  {
    var rest := s[..from] + s[from + 1..];
    calc {
      multiset(Moved(s, from, to));
      multiset(rest[..to]) + multiset{s[from]} + multiset(rest[to..]);
      { assert rest == rest[..to] + rest[to..]; }
      multiset(rest) + multiset{s[from]};
      multiset(s[..from]) + multiset(s[from + 1..]) + multiset{s[from]};
      { assert s == s[..from] + [s[from]] + s[from + 1..]; }
      multiset(s);
    }
  }

  /** Moving an element onto its own position changes nothing. */
  lemma MovedSame<T>(s: seq<T>, i: nat)
    requires i < |s|
    ensures Moved(s, i, i) == s
  {
    MovedIndex(s, i, i);
  }

  /** The two splices done in place on the array. */
  method MoveInPlace<T>(a: array<T>, from: nat, to: nat)
    requires from < a.Length && to < a.Length
    modifies a
    ensures a[..] == Moved(old(a[..]), from, to)
  {
    ghost var s := a[..];
    MovedIndex(s, from, to);
    if from <= to {
      ShiftDown(a, from, to);
    } else {
      ShiftUp(a, from, to);
    }
    assert forall i :: 0 <= i < a.Length ==> a[i] == s[MovedSource(from, to, i)];
  }

  /** Moving forward: the elements after `from` up to `to` shift down by one. */
  method ShiftDown<T>(a: array<T>, from: nat, to: nat)
    requires from <= to < a.Length
    modifies a
    ensures forall i :: 0 <= i < a.Length ==> a[i] == old(a[MovedSource(from, to, i)])
  {
    var dragged := a[from];
    var k := from;
    while k < to
      invariant from <= k <= to
      invariant forall i :: 0 <= i < a.Length && !(from <= i < k) ==> a[i] == old(a[i])
      invariant forall i :: from <= i < k ==> a[i] == old(a[i + 1])
    {
      a[k] := a[k + 1];
      k := k + 1;
    }
    a[to] := dragged;
  }

  /** Moving backward: the elements from `to` up to before `from` shift up by one. */
  method ShiftUp<T>(a: array<T>, from: nat, to: nat)
    requires to < from < a.Length
    modifies a
    ensures forall i :: 0 <= i < a.Length ==> a[i] == old(a[MovedSource(from, to, i)])
  {
    var dragged := a[from];
    var k := from;
    while k > to
      invariant to <= k <= from
      invariant forall i :: 0 <= i < a.Length && !(k < i <= from) ==> a[i] == old(a[i])
      invariant forall i :: k < i <= from ==> a[i] == old(a[i - 1])
    {
      a[k] := a[k - 1];
      k := k - 1;
    }
    a[to] := dragged;
  }

  /** `const copy = [...xs]` followed by the two splices on the copy. */
  method SpliceCopy<T>(xs: seq<T>, from: nat, to: nat) returns (copy: array<T>)
    requires from < |xs| && to < |xs|
    ensures fresh(copy)
    ensures copy[..] == Moved(xs, from, to)
  {
    copy := new T[|xs|](i requires 0 <= i < |xs| => xs[i]);
    assert copy[..] == xs;
    MoveInPlace(copy, from, to);
  }
}
