/** The list transforms behind every entity collection of the data provider:
    `update` maps a shallow merge over the elements whose id matches and
    `delete` filters them out. Both are written once, over any entity kind,
    with the kind's id projection `idOf` as a parameter. */
module Repository {
  import opened Common

  /** The ids of a collection, in collection order. */
  function Ids<T>(xs: seq<T>, idOf: T -> Id): seq<Id> {
    Map(xs, idOf)
  }

  predicate Distinct(ids: seq<Id>) {
    forall i, j :: 0 <= i < j < |ids| ==> ids[i] != ids[j]
  }

  predicate HasId<T>(xs: seq<T>, id: Id, idOf: T -> Id) {
    exists i :: 0 <= i < |xs| && idOf(xs[i]) == id
  }

  // ---------------------------------------------------------------------------
  // Adding with a clock-derived id.

  /** Every id was issued by the clock strictly before `now`. */
  predicate IssuedBefore(ids: seq<Id>, now: nat) {
    forall i :: 0 <= i < |ids| ==> exists t: nat :: t < now && ids[i] == Decimal(t)
  }

  /** While the clock only moves forward, the id `Date.now().toString()` is
      new, so appending the entity keeps the ids distinct, and the grown
      collection was again issued before any later instant. */
  lemma ClockIdFresh(ids: seq<Id>, now: nat)
    requires IssuedBefore(ids, now)
    requires Distinct(ids)
    ensures Decimal(now) !in ids
    ensures Distinct(ids + [Decimal(now)])
    ensures IssuedBefore(ids + [Decimal(now)], now + 1)
  {
    forall i | 0 <= i < |ids|
      ensures ids[i] != Decimal(now)
    {
      var t: nat :| t < now && ids[i] == Decimal(t);
      if ids[i] == Decimal(now) {
        DecimalInjective(t, now);
        assert false;
      }
    }
    var grown := ids + [Decimal(now)];
    forall i | 0 <= i < |grown|
      ensures exists t: nat :: t < now + 1 && grown[i] == Decimal(t)
    {
      if i < |ids| {
        var t: nat :| t < now && ids[i] == Decimal(t);
        assert grown[i] == Decimal(t);
      } else {
        assert grown[i] == Decimal(now);
      }
    }
  }

  /** Appending keeps every earlier element and its position. */
  lemma AppendKeeps<T>(xs: seq<T>, x: T, idOf: T -> Id)
    ensures |xs + [x]| == |xs| + 1 && (xs + [x])[|xs|] == x
    ensures (xs + [x])[..|xs|] == xs
    ensures Ids(xs + [x], idOf) == Ids(xs, idOf) + [idOf(x)]
  {
  }

  // ---------------------------------------------------------------------------
  // `xs.map(x => x.id === id ? merge(x) : x)`.

  function UpdateWhere<T>(xs: seq<T>, id: Id, idOf: T -> Id, merge: T -> T): (r: seq<T>)
    ensures |r| == |xs|
    ensures forall i :: 0 <= i < |xs| && idOf(xs[i]) != id ==> r[i] == xs[i]
    ensures forall i :: 0 <= i < |xs| && idOf(xs[i]) == id ==> r[i] == merge(xs[i])
  {
    if xs == [] then []
    else [if idOf(xs[0]) == id then merge(xs[0]) else xs[0]] + UpdateWhere(xs[1..], id, idOf, merge)
  }

  /** Updating an id no element carries changes nothing. */
  lemma UpdateAbsent<T>(xs: seq<T>, id: Id, idOf: T -> Id, merge: T -> T)
    requires !HasId(xs, id, idOf)
    ensures UpdateWhere(xs, id, idOf, merge) == xs
  {
  }

  /** A merge that keeps the id of what it merges into keeps the ids of the
      whole collection, and so its order. */
  lemma UpdateKeepsIds<T>(xs: seq<T>, id: Id, idOf: T -> Id, merge: T -> T)
    requires forall i :: 0 <= i < |xs| && idOf(xs[i]) == id ==> idOf(merge(xs[i])) == id
    ensures Ids(UpdateWhere(xs, id, idOf, merge), idOf) == Ids(xs, idOf)
  {
  }

  /** With distinct ids, an update touches exactly the one element that
      carries the id. */
  lemma UpdateUnique<T>(xs: seq<T>, j: int, idOf: T -> Id, merge: T -> T)
    requires 0 <= j < |xs|
    requires Distinct(Ids(xs, idOf))
    ensures UpdateWhere(xs, idOf(xs[j]), idOf, merge) == xs[j := merge(xs[j])]
  {
    var r := UpdateWhere(xs, idOf(xs[j]), idOf, merge);
    forall i | 0 <= i < |xs|
      ensures r[i] == xs[j := merge(xs[j])][i]
    {
      if i != j {
        assert Ids(xs, idOf)[i] != Ids(xs, idOf)[j];
      }
    }
  }

  /** With distinct ids, updating with an element of the collection itself,
      where the merge gives back that element, leaves the collection as it was. */
  lemma UpdateWithMember<T>(xs: seq<T>, v: T, idOf: T -> Id, merge: T -> T)
    requires v in xs
    requires merge(v) == v
    requires Distinct(Ids(xs, idOf))
    ensures UpdateWhere(xs, idOf(v), idOf, merge) == xs
  {
    var j :| 0 <= j < |xs| && xs[j] == v;
    UpdateUnique(xs, j, idOf, merge);
  }

  // ---------------------------------------------------------------------------
  // `xs.filter(x => x.id !== id)`.

  function KeepOther<T>(id: Id, idOf: T -> Id): T -> bool {
    x => idOf(x) != id
  }

  function DeleteWhere<T>(xs: seq<T>, id: Id, idOf: T -> Id): seq<T> {
    Filter(xs, KeepOther(id, idOf))
  }

  /** Deleting removes every element that carries the id and keeps every
      element that does not. */
  lemma DeleteExact<T>(xs: seq<T>, id: Id, idOf: T -> Id)
    ensures !HasId(DeleteWhere(xs, id, idOf), id, idOf)
    ensures forall i :: 0 <= i < |xs| && idOf(xs[i]) != id ==> xs[i] in DeleteWhere(xs, id, idOf)
    ensures |DeleteWhere(xs, id, idOf)| + Count(xs, (x: T) => idOf(x) == id) == |xs|
  {
    var r := DeleteWhere(xs, id, idOf);
    assert forall i :: 0 <= i < |r| ==> KeepOther(id, idOf)(r[i]);
    CountIsFilterLength(xs, KeepOther(id, idOf));
    CountSplit(xs, KeepOther(id, idOf), (x: T) => idOf(x) == id);
  }

  /** Deleting keeps the relative order of the rest: deleting from a
      concatenation deletes from each part. */
  lemma DeleteKeepsOrder<T>(xs: seq<T>, ys: seq<T>, id: Id, idOf: T -> Id)
    ensures DeleteWhere(xs + ys, id, idOf) == DeleteWhere(xs, id, idOf) + DeleteWhere(ys, id, idOf)
  {
    FilterConcat(xs, ys, KeepOther(id, idOf));
  }

  /** Deleting an id no element carries changes nothing, and deleting twice
      is deleting once. */
  lemma DeleteAbsentIdempotent<T>(xs: seq<T>, id: Id, idOf: T -> Id)
    ensures !HasId(xs, id, idOf) ==> DeleteWhere(xs, id, idOf) == xs
    ensures DeleteWhere(DeleteWhere(xs, id, idOf), id, idOf) == DeleteWhere(xs, id, idOf)
  {
    if !HasId(xs, id, idOf) {
      FilterAll(xs, KeepOther(id, idOf));
    }
    FilterIdempotent(xs, KeepOther(id, idOf));
  }
}
