/** `Array.prototype.sort` with a numeric comparator, on lists of positions.
    The sort is stable, so among equal keys the earlier position comes first;
    `SortByKey` is a stable insertion sort and `SortedIsUnique` shows that any
    stable sort gives the same answer. */
module Sorting {

  /** Every position in `s` indexes `key`. */
  predicate InRange(key: seq<real>, s: seq<nat>)
  {
    forall k :: 0 <= k < |s| ==> s[k] < |key|
  }

  predicate NoDuplicates(s: seq<nat>)
  {
    forall p, q :: 0 <= p < q < |s| ==> s[p] != s[q]
  }

  /** Position `a` goes before position `b`: smaller key, or equal key and earlier position. */
  predicate Precedes(key: seq<real>, a: nat, b: nat)
    requires a < |key| && b < |key|
  {
    key[a] < key[b] || (key[a] == key[b] && a < b)
  }

  /** `s` lists its positions in increasing key order, ties in position order. */
  predicate Ordered(key: seq<real>, s: seq<nat>)
    requires InRange(key, s)
  {
    forall p, q :: 0 <= p < q < |s| ==> Precedes(key, s[p], s[q])
  }

  /** Puts `i` into the list `sorted`, after the elements at its end that precede it. */
  function Insert(key: seq<real>, sorted: seq<nat>, i: nat): (r: seq<nat>)
    requires InRange(key, sorted) && i < |key|
    ensures InRange(key, r) && |r| == |sorted| + 1
    decreases |sorted|
  {
    if sorted == [] then [i]
    else
      var n := |sorted| - 1;
      var last := sorted[n];
      if Precedes(key, last, i) then sorted + [i]
      else Insert(key, sorted[..n], i) + [last]
  }

  /** Inserting adds exactly `i`. */
  lemma {:induction false} InsertMultiset(key: seq<real>, sorted: seq<nat>, i: nat)
    requires InRange(key, sorted) && i < |key|
    ensures multiset(Insert(key, sorted, i)) == multiset(sorted) + multiset{i}
    decreases |sorted|
  {
    if sorted != [] {
      var n := |sorted| - 1;
      var last := sorted[n];
      if !Precedes(key, last, i) {
        var init := sorted[..n];
        assert sorted == init + [last];
        InsertMultiset(key, init, i);
        assert Insert(key, sorted, i) == Insert(key, init, i) + [last];
      }
    }
  }

  /** Inserting into an ordered list keeps it ordered. */
  lemma {:induction false} InsertOrdered(key: seq<real>, sorted: seq<nat>, i: nat)
    requires InRange(key, sorted) && Ordered(key, sorted) && i < |key| && i !in sorted
    ensures Ordered(key, Insert(key, sorted, i))
    decreases |sorted|
  {
    if sorted != [] {
      var n := |sorted| - 1;
      var last := sorted[n];
      if Precedes(key, last, i) {
        AppendOrdered(key, sorted, i);
      } else {
        var init := sorted[..n];
        assert sorted == init + [last];
        assert last in sorted && i != last;
        assert Precedes(key, i, last);
        assert forall p :: 0 <= p < n ==> init[p] == sorted[p] && Precedes(key, init[p], last);
        InsertOrdered(key, init, i);
        InsertMultiset(key, init, i);
        var front := Insert(key, init, i);
        AllPrecede(key, front, init, i, last);
        AppendOrdered(key, front, last);
        assert Insert(key, sorted, i) == front + [last];
      }
    }
  }

  /** When everything in `s` and `i` precedes `x`, so does everything in a
      list made of the elements of `s` and `i`. */
  lemma AllPrecede(key: seq<real>, r: seq<nat>, s: seq<nat>, i: nat, x: nat)
    requires InRange(key, r) && InRange(key, s) && i < |key| && x < |key|
    requires multiset(r) == multiset(s) + multiset{i}
    requires Precedes(key, i, x) && forall p :: 0 <= p < |s| ==> Precedes(key, s[p], x)
    ensures forall p :: 0 <= p < |r| ==> Precedes(key, r[p], x)
  {
    forall p | 0 <= p < |r| ensures Precedes(key, r[p], x) {
      assert r[p] in multiset(r);
      if r[p] != i {
        assert r[p] in s;
      }
    }
  }

  /** An ordered list stays ordered when an element that everything in it
      precedes is put at its end. */
  lemma AppendOrdered(key: seq<real>, s: seq<nat>, x: nat)
    requires InRange(key, s) && Ordered(key, s) && x < |key|
    requires forall p :: 0 <= p < |s| ==> Precedes(key, s[p], x)
    ensures InRange(key, s + [x]) && Ordered(key, s + [x])
  {
  }

  /** The stable sort of the positions `s` by `key`. */
  function SortByKey(key: seq<real>, s: seq<nat>): (r: seq<nat>)
    requires InRange(key, s)
    ensures InRange(key, r) && |r| == |s|
    decreases |s|
  {
    if s == [] then []
    else
      var n := |s| - 1;
      Insert(key, SortByKey(key, s[..n]), s[n])
  }

  /** Sorting positions without duplicates orders them and keeps exactly the same positions. */
  lemma {:induction false} SortByKeyOrdered(key: seq<real>, s: seq<nat>)
    requires InRange(key, s) && NoDuplicates(s)
    ensures Ordered(key, SortByKey(key, s))
    ensures multiset(SortByKey(key, s)) == multiset(s)
    decreases |s|
  {
    if s != [] {
      var n := |s| - 1;
      assert s == s[..n] + [s[n]];
      SortByKeyOrdered(key, s[..n]);
      var front := SortByKey(key, s[..n]);
      assert s[n] !in s[..n];
      assert s[n] !in multiset(front);
      InsertOrdered(key, front, s[n]);
      InsertMultiset(key, front, s[n]);
    }
  }

  /** An ordered list has no duplicates: no position precedes itself. */
  lemma OrderedNoDuplicates(key: seq<real>, r: seq<nat>)
    requires InRange(key, r) && Ordered(key, r)
    ensures NoDuplicates(r)
  {
    forall p, q | 0 <= p < q < |r| ensures r[p] != r[q] {
      assert Precedes(key, r[p], r[q]);
    }
  }

  /** The head of an ordered list precedes every other element of it. */
  lemma HeadPrecedes(key: seq<real>, r: seq<nat>, x: nat)
    requires InRange(key, r) && Ordered(key, r) && x in r
    ensures x == r[0] || Precedes(key, r[0], x)
  {
    var p :| 0 <= p < |r| && r[p] == x;
  }

  lemma OrderedTail(key: seq<real>, r: seq<nat>)
    requires r != [] && InRange(key, r) && Ordered(key, r)
    ensures InRange(key, r[1..]) && Ordered(key, r[1..])
  {
    assert forall p :: 0 <= p < |r| - 1 ==> r[1..][p] == r[p + 1];
  }

  lemma MultisetTail(r1: seq<nat>, r2: seq<nat>)
    requires r1 != [] && r2 != [] && r1[0] == r2[0] && multiset(r1) == multiset(r2)
    ensures multiset(r1[1..]) == multiset(r2[1..])
  {
    assert r1 == [r1[0]] + r1[1..];
    assert r2 == [r2[0]] + r2[1..];
    assert multiset(r1) == multiset{r1[0]} + multiset(r1[1..]);
    assert multiset(r2) == multiset{r1[0]} + multiset(r2[1..]);
    assert multiset(r1[1..]) == multiset(r1) - multiset{r1[0]};
  }

  /** Two ordered lists with the same elements are equal: the ordering
      together with the elements determines the result. */
  lemma {:induction false} SortedIsUnique(key: seq<real>, r1: seq<nat>, r2: seq<nat>)
    requires InRange(key, r1) && InRange(key, r2)
    requires Ordered(key, r1) && Ordered(key, r2)
    requires multiset(r1) == multiset(r2)
    ensures r1 == r2
    decreases |r1|
  {
    if r1 != [] {
      assert |r1| == |multiset(r1)| == |r2|;
      assert r1[0] in multiset(r2) && r2[0] in multiset(r1);
      HeadPrecedes(key, r2, r1[0]);
      HeadPrecedes(key, r1, r2[0]);
      MultisetTail(r1, r2);
      OrderedTail(key, r1);
      OrderedTail(key, r2);
      SortedIsUnique(key, r1[1..], r2[1..]);
      assert r1 == [r1[0]] + r1[1..];
      assert r2 == [r2[0]] + r2[1..];
    }
  }
}
