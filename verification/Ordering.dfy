/** Text order and canonical lists: a sorted list is determined by what it holds. */
module Ordering {
  /** At most, in the order of Go's strings. */
  predicate AtMost(a: string, b: string) {
    a == "" || (b != "" && (a[0] < b[0] || (a[0] == b[0] && AtMost(a[1..], b[1..]))))
  }

  /** A beginning of a text comes first. */
  lemma {:induction false} BeginningIsFirst(common: string, rest: string)
    ensures AtMost(common, common + rest)
  {
    if common != "" {
      BeginningIsFirst(common[1..], rest);
      assert (common + rest)[1..] == common[1..] + rest;
    }
  }

  /** Otherwise the first difference decides. */
  lemma {:induction false} FirstDifferenceDecides(a: string, b: string, i: nat)
    requires i < |a| && i < |b| && a[i] != b[i] && a[..i] == b[..i]
    ensures AtMost(a, b) <==> a[i] < b[i]
  {
    if i > 0 {
      assert a[0] == a[..i][0] && b[0] == b[..i][0];
      assert a[1..][..i - 1] == a[..i][1..] && b[1..][..i - 1] == b[..i][1..];
      FirstDifferenceDecides(a[1..], b[1..], i - 1);
    }
  }

  lemma {:induction false} AtMostTotal(a: string, b: string)
    ensures AtMost(a, b) || AtMost(b, a)
  {
    if a != "" && b != "" && a[0] == b[0] {
      AtMostTotal(a[1..], b[1..]);
    }
  }

  lemma {:induction false} AtMostAntisymmetric(a: string, b: string)
    requires AtMost(a, b) && AtMost(b, a)
    ensures a == b
  {
    if a != "" && b != "" {
      AtMostAntisymmetric(a[1..], b[1..]);
      assert a == [a[0]] + a[1..] && b == [b[0]] + b[1..];
    }
  }

  lemma {:induction false} AtMostTransitive(a: string, b: string, c: string)
    requires AtMost(a, b) && AtMost(b, c)
    ensures AtMost(a, c)
  {
    if a != "" && b != "" && c != "" && a[0] == b[0] == c[0] {
      AtMostTransitive(a[1..], b[1..], c[1..]);
    }
  }

  ghost predicate TotalOrder<T(!new)>(leq: (T, T) -> bool) {
    && (forall a, b :: leq(a, b) || leq(b, a))
    && (forall a, b :: leq(a, b) && leq(b, a) ==> a == b)
    && (forall a, b, c :: leq(a, b) && leq(b, c) ==> leq(a, c))
  }

  lemma TextsAreOrdered()
    ensures TotalOrder(AtMost)
  {
    forall a, b ensures AtMost(a, b) || AtMost(b, a) {
      AtMostTotal(a, b);
    }
    forall a, b | AtMost(a, b) && AtMost(b, a) ensures a == b {
      AtMostAntisymmetric(a, b);
    }
    forall a, b, c | AtMost(a, b) && AtMost(b, c) ensures AtMost(a, c) {
      AtMostTransitive(a, b, c);
    }
  }

  // ---------------------------------------------------------------- sorting

  predicate Ascending<T>(items: seq<T>, leq: (T, T) -> bool) {
    forall i, j | 0 <= i < j < |items| :: leq(items[i], items[j])
  }

  function Insert<T>(item: T, items: seq<T>, leq: (T, T) -> bool): (longer: seq<T>)
    ensures multiset(longer) == multiset(items) + multiset{item}
  {
    if items == [] || leq(item, items[0]) then [item] + items
    else
      assert items == [items[0]] + items[1..];
      [items[0]] + Insert(item, items[1..], leq)
  }

  function Sorted<T>(items: seq<T>, leq: (T, T) -> bool): (sorted: seq<T>)
    ensures multiset(sorted) == multiset(items)
  {
    if items == [] then []
    else
      assert items == [items[0]] + items[1..];
      Insert(items[0], Sorted(items[1..], leq), leq)
  }

  lemma {:induction false} InsertKeepsAscending<T(!new)>(item: T, items: seq<T>, leq: (T, T) -> bool)
    requires TotalOrder(leq) && Ascending(items, leq)
    ensures Ascending(Insert(item, items, leq), leq)
  {
    if items != [] && !leq(item, items[0]) {
      var rest := Insert(item, items[1..], leq);
      InsertKeepsAscending(item, items[1..], leq);
      forall k | 0 <= k < |rest| ensures leq(items[0], rest[k]) {
        assert rest[k] in multiset(rest);
        if rest[k] != item {
          assert rest[k] in multiset(items[1..]);
        }
      }
    }
  }

  lemma {:induction false} SortedIsAscending<T(!new)>(items: seq<T>, leq: (T, T) -> bool)
    requires TotalOrder(leq)
    ensures Ascending(Sorted(items, leq), leq)
  {
    if items != [] {
      SortedIsAscending(items[1..], leq);
      InsertKeepsAscending(items[0], Sorted(items[1..], leq), leq);
    }
  }

  lemma RestOfSame<T>(a: seq<T>, b: seq<T>)
    requires a != [] && b != [] && multiset(a) == multiset(b) && a[0] == b[0]
    ensures multiset(a[1..]) == multiset(b[1..])
  {
    assert a == [a[0]] + a[1..] && b == [b[0]] + b[1..];
    assert multiset(a[1..]) == multiset(a) - multiset{a[0]};
    assert multiset(b[1..]) == multiset(b) - multiset{b[0]};
  }

  /** Two ascending lists of the same items are the same list, so it does not matter which sort made them. */
  lemma {:induction false} AscendingIsUnique<T(!new)>(a: seq<T>, b: seq<T>, leq: (T, T) -> bool)
    requires TotalOrder(leq) && Ascending(a, leq) && Ascending(b, leq) && multiset(a) == multiset(b)
    ensures a == b
  {
    assert |a| == |multiset(a)| == |multiset(b)| == |b|;
    if a != [] {
      FirstIsLeast(a, b, leq);
      FirstIsLeast(b, a, leq);
      assert a[0] == b[0];
      RestOfSame(a, b);
      assert Ascending(a[1..], leq) && Ascending(b[1..], leq);
      AscendingIsUnique(a[1..], b[1..], leq);
      assert a == [a[0]] + a[1..] && b == [b[0]] + b[1..];
    }
  }

  lemma FirstIsLeast<T(!new)>(a: seq<T>, b: seq<T>, leq: (T, T) -> bool)
    requires TotalOrder(leq) && Ascending(a, leq) && multiset(a) == multiset(b) && a != [] && b != []
    ensures leq(a[0], b[0])
  {
    assert b[0] in multiset(b);
    assert b[0] in multiset(a);
    var i :| 0 <= i < |a| && a[i] == b[0];
    assert leq(a[0], a[0]);
  }

  /** Sorting forgets the order of a list and nothing else. */
  lemma SortedIsCanonical<T(!new)>(a: seq<T>, b: seq<T>, leq: (T, T) -> bool)
    requires TotalOrder(leq)
    ensures Sorted(a, leq) == Sorted(b, leq) <==> multiset(a) == multiset(b)
  {
    if multiset(a) == multiset(b) {
      SortedIsAscending(a, leq);
      SortedIsAscending(b, leq);
      AscendingIsUnique(Sorted(a, leq), Sorted(b, leq), leq);
    }
  }

  // ---------------------------------------------------------------- the sort of the Jenkins client

  /** A list with one item put in at a place. */
  function PutAt<T>(items: seq<T>, item: T, place: nat): (longer: seq<T>)
    requires place <= |items|
    ensures |longer| == |items| + 1
  {
    items[..place] + [item] + items[place..]
  }

  lemma PutAtKeepsItems<T>(items: seq<T>, item: T, place: nat)
    requires place <= |items|
    ensures multiset(PutAt(items, item, place)) == multiset(items + [item])
  {
    assert items == items[..place] + items[place..];
  }

  lemma AtMostBefore(items: seq<string>, item: string, place: nat)
    requires Ascending(items, AtMost) && place <= |items| && (place > 0 ==> AtMost(items[place - 1], item))
    ensures forall k | 0 <= k < place :: AtMost(items[k], item)
  {
    forall k | 0 <= k < place ensures AtMost(items[k], item) {
      if k < place - 1 {
        AtMostTransitive(items[k], items[place - 1], item);
      }
    }
  }

  /** `now` is `was` with the item at `i` moved down to `j`, the ones between moved up. */
  ghost predicate MovedDown(was: seq<string>, now: seq<string>, i: nat, j: nat) {
    && |now| == |was| && j <= i < |was|
    && (forall k {:trigger now[k]} | 0 <= k < j :: now[k] == was[k])
    && now[j] == was[i]
    && (forall k {:trigger now[k]} | j < k <= i :: now[k] == was[k - 1])
    && forall k {:trigger now[k]} | i < k < |was| :: now[k] == was[k]
  }

  lemma MovedDownIsPut(was: seq<string>, now: seq<string>, i: nat, j: nat)
    requires MovedDown(was, now, i, j)
    ensures now[..i + 1] == PutAt(was[..i], was[i], j)
    ensures multiset(now) == multiset(was)
  {
    assert now == now[..i + 1] + was[i + 1..];
    assert was == was[..i] + [was[i]] + was[i + 1..];
    PutAtKeepsItems(was[..i], was[i], j);
  }

  /** Where the item stops, the list up to there is sorted. */
  lemma MovedDownIsSorted(was: seq<string>, now: seq<string>, i: nat, j: nat)
    requires MovedDown(was, now, i, j) && Ascending(was[..i], AtMost)
    requires j > 0 ==> AtMost(was[j - 1], was[i])
    requires forall k | j <= k < i :: AtMost(was[i], was[k])
    ensures Ascending(now[..i + 1], AtMost) && multiset(now) == multiset(was)
  {
    MovedDownIsPut(was, now, i, j);
    AtMostBefore(was[..i], was[i], j);
  }

  lemma MovedDownStep(was: seq<string>, now: seq<string>, i: nat, j: nat)
    requires MovedDown(was, now, i, j) && j > 0
    ensures MovedDown(was, now[j := now[j - 1]][j - 1 := now[j]], i, j - 1)
  {
  }

  /** One step of the inner loop: an item changes places with the one before it. */
  method SwapDown(values: array<string>, j: nat)
    requires 0 < j < values.Length
    modifies values
    ensures values[..] == old(values[..])[j := old(values[j - 1])][j - 1 := old(values[j])]
  {
    values[j], values[j - 1] := values[j - 1], values[j];
  }

  /** Whether the item at `j` has to move further. */
  method MustSink(values: array<string>, j: nat) returns (sinks: bool)
    requires j < values.Length
    ensures sinks <==> j > 0 && !AtMost(values[..][j - 1], values[..][j])
  {
    sinks := j > 0 && !AtMost(values[j - 1], values[j]);
  }

  /** The inner loop: the item at `i` moves down past every item above it. */
  method Sink(values: array<string>, i: nat) returns (ghost j: nat)
    requires i < values.Length
    modifies values
    ensures MovedDown(old(values[..]), values[..], i, j)
    ensures j > 0 ==> AtMost(old(values[..])[j - 1], old(values[..])[i])
    ensures forall k | j <= k < i :: AtMost(old(values[..])[i], old(values[..])[k])
  {
    ghost var was := values[..];
    var at := i;
    var sinks := MustSink(values, at);
    while sinks
      invariant 0 <= at <= i && MovedDown(was, values[..], i, at)
      invariant sinks <==> at > 0 && !AtMost(was[at - 1], was[i])
      invariant forall k | at <= k < i :: AtMost(was[i], was[k])
      decreases at
    {
      AtMostTotal(was[i], was[at - 1]);
      MovedDownStep(was, values[..], i, at);
      SwapDown(values, at);
      at := at - 1;
      sinks := MustSink(values, at);
    }
    j := at;
  }

  /** `sortStrings` */
  method SortStrings(values: array<string>)
    modifies values
    ensures values[..] == Sorted(old(values[..]), AtMost)
  {
    TextsAreOrdered();
    var i := 1;
    ghost var was := values[..];
    while i < values.Length
      invariant 1 <= i && (i <= values.Length || values.Length == 0)
      invariant values.Length > 0 ==> Ascending(values[..][..i], AtMost)
      invariant multiset(values[..]) == multiset(was)
    {
      ghost var before := values[..];
      ghost var j := Sink(values, i);
      MovedDownIsSorted(before, values[..], i, j);
      i := i + 1;
    }
    assert values.Length > 0 ==> values[..][..i] == values[..];
    SortedIsAscending(was, AtMost);
    AscendingIsUnique(values[..], Sorted(was, AtMost), AtMost);
  }
}
