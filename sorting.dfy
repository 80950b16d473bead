/** The comparator the lending and reminder lists sort with: an entity that
    is done (returned, completed) goes after every entity that is not, and
    within each group entities go in ascending order of a date. The list is
    sorted by `Array.prototype.sort`, which is stable; the model is an
    insertion sort on that key, proved stable by `SortStable`. */
module Sorting {

  import opened Common

  /** The sort key: whether the entity is done, and its date. */
  datatype Key = Key(done: bool, date: int)

  /** The comparator `(a, b) => ...` returns a non-positive number. */
  predicate KeyLe(a: Key, b: Key) {
    (!a.done && b.done) || (a.done == b.done && a.date <= b.date)
  }

  predicate Sorted<T>(xs: seq<T>, key: T -> Key) {
    forall i, j :: 0 <= i < j < |xs| ==> KeyLe(key(xs[i]), key(xs[j]))
  }

  /** Puts `x` in front of the first element it does not go after. */
  function Insert<T>(x: T, ys: seq<T>, key: T -> Key): (r: seq<T>)
    ensures |r| == |ys| + 1
    ensures multiset(r) == multiset(ys) + multiset{x}
  {
    if ys == [] || KeyLe(key(x), key(ys[0])) then [x] + ys
    else
      assert ys == [ys[0]] + ys[1..];
      [ys[0]] + Insert(x, ys[1..], key)
  }

  /** A key no later than `x` and than every element of `ys` is no later
      than any element of the insertion. */
  lemma {:induction false} InsertLowerBound<T>(x: T, ys: seq<T>, key: T -> Key, b: Key)
    requires KeyLe(b, key(x))
    requires forall j :: 0 <= j < |ys| ==> KeyLe(b, key(ys[j]))
    ensures forall j :: 0 <= j < |ys| + 1 ==> KeyLe(b, key(Insert(x, ys, key)[j]))
  {
    if ys != [] && !KeyLe(key(x), key(ys[0])) {
      InsertLowerBound(x, ys[1..], key, b);
    }
  }

  /** Inserting into a sorted list keeps it sorted. */
  lemma {:induction false} InsertSorted<T>(x: T, ys: seq<T>, key: T -> Key)
    requires Sorted(ys, key)
    ensures Sorted(Insert(x, ys, key), key)
  {
    if ys != [] && !KeyLe(key(x), key(ys[0])) {
      var rest := Insert(x, ys[1..], key);
      InsertSorted(x, ys[1..], key);
      InsertLowerBound(x, ys[1..], key, key(ys[0]));
      assert Insert(x, ys, key) == [ys[0]] + rest;
    }
  }

  /** The sorted list: the same entities, ordered by the comparator. */
  function SortByKey<T>(xs: seq<T>, key: T -> Key): (r: seq<T>)
    ensures multiset(r) == multiset(xs)
    ensures |r| == |xs|
    ensures Sorted(r, key)
  {
    if xs == [] then []
    else
      assert xs == [xs[0]] + xs[1..];
      InsertSorted(xs[0], SortByKey(xs[1..], key), key);
      Insert(xs[0], SortByKey(xs[1..], key), key)
  }

  /** Sorting neither adds nor drops an entity. */
  lemma SortKeepsMembers<T>(xs: seq<T>, key: T -> Key)
    ensures forall x :: x in SortByKey(xs, key) <==> x in xs
  {
    var r := SortByKey(xs, key);
    assert forall x :: x in r <==> x in multiset(r);
    assert forall x :: x in xs <==> x in multiset(xs);
  }

  /** The test for the entities that share the key `k`. */
  function SameKey<T>(key: T -> Key, k: Key): T -> bool {
    x => key(x) == k
  }

  /** Inserting `x` leaves the entities of any one key in their order, and
      puts `x` before the entities that share its key. */
  lemma {:induction false} InsertStable<T>(x: T, ys: seq<T>, key: T -> Key, k: Key)
    ensures Filter(Insert(x, ys, key), SameKey(key, k))
         == Filter([x], SameKey(key, k)) + Filter(ys, SameKey(key, k))
  {
    var same := SameKey(key, k);
    if ys == [] || KeyLe(key(x), key(ys[0])) {
      FilterConcat([x], ys, same);
    } else {
      var y, tail := ys[0], ys[1..];
      var rest := Insert(x, tail, key);
      assert Insert(x, ys, key) == [y] + rest;
      assert ys == [y] + tail;
      FilterConcat([y], rest, same);
      FilterConcat([y], tail, same);
      InsertStable(x, tail, key, k);
      // `x` goes after `y`, so at most one of them has the key `k`.
      var fx, fy, ft := Filter([x], same), Filter([y], same), Filter(tail, same);
      assert fx == [] || fy == [] by {
        assert key(x) != key(y);
        FilterOne(x, same);
        FilterOne(y, same);
      }
      assert fy + (fx + ft) == fx + (fy + ft);
    }
  }

  /** A one-element list is kept whole or emptied. */
  lemma FilterOne<T>(x: T, keep: T -> bool)
    ensures Filter([x], keep) == if keep(x) then [x] else []
  {
    assert [x][1..] == [];
  }

  /** The sort is stable: the entities that share a key keep the order
      they had in the input. */
  lemma {:induction false} SortStable<T>(xs: seq<T>, key: T -> Key, k: Key)
    ensures Filter(SortByKey(xs, key), SameKey(key, k)) == Filter(xs, SameKey(key, k))
  {
    if xs != [] {
      SortStable(xs[1..], key, k);
      InsertStable(xs[0], SortByKey(xs[1..], key), key, k);
      assert xs == [xs[0]] + xs[1..];
      FilterConcat([xs[0]], xs[1..], SameKey(key, k));
    }
  }

  /** In a sorted list every entity that is not done comes before every
      entity that is, and within each group the dates ascend. */
  lemma SortedGroups<T>(xs: seq<T>, key: T -> Key, i: int, j: int)
    requires Sorted(xs, key)
    requires 0 <= i < j < |xs|
    ensures key(xs[i]).done ==> key(xs[j]).done
    ensures key(xs[i]).done == key(xs[j]).done ==> key(xs[i]).date <= key(xs[j]).date
  {
  }
}
