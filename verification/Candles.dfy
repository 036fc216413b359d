/** Sorting and removing duplicates among fetched candles
    (app/modules/marketdata/infrastructure/providers/exchange/binance/adapter.py,
    app/modules/marketdata/application/services.py). */
module Candles {
  import opened Wrappers

  datatype Candle = Candle(symbol: string, timeframe: string, openedAt: real, close: real)

  type Key = (string, string, int)

  /** Seconds truncated toward zero. */
  function WholeSecond(c: Candle): int {
    if c.openedAt >= 0.0 then c.openedAt.Floor else -(-c.openedAt).Floor
  }

  function KeyOf(c: Candle): Key {
    (c.symbol, c.timeframe, WholeSecond(c))
  }

  function Keys<K>(candles: seq<Candle>, key: Candle -> K): set<K> {
    set c | c in candles :: key(c)
  }

  /** The first candle of each key, in order. */
  function Unique<K(==)>(candles: seq<Candle>, key: Candle -> K): seq<Candle> {
    if candles == [] then []
    else
      var front, last := candles[..|candles| - 1], candles[|candles| - 1];
      if key(last) in Keys(front, key) then Unique(front, key) else Unique(front, key) + [last]
  }

  // The library's stable sort, as a function: later candles go behind earlier ones that opened
  // no later.

  function Inserted(sorted: seq<Candle>, c: Candle): seq<Candle> {
    if sorted == [] || sorted[|sorted| - 1].openedAt <= c.openedAt then sorted + [c]
    else Inserted(sorted[..|sorted| - 1], c) + [sorted[|sorted| - 1]]
  }

  function Sorted(candles: seq<Candle>): seq<Candle> {
    if candles == [] then [] else Inserted(Sorted(candles[..|candles| - 1]), candles[|candles| - 1])
  }

  lemma UniqueNext<K>(candles: seq<Candle>, c: Candle, key: Candle -> K)
    ensures Keys(candles + [c], key) == Keys(candles, key) + {key(c)}
    ensures Unique(candles + [c], key) == if key(c) in Keys(candles, key) then Unique(candles, key) else Unique(candles, key) + [c]
  {
    assert (candles + [c])[..|candles|] == candles;
    assert forall x :: x in candles + [c] <==> x in candles || x == c;
  }

  method SortUnique(candles: seq<Candle>) returns (out: seq<Candle>)
    ensures out == Unique(Sorted(candles), WholeSecond)
  {
    var sorted := Sorted(candles);
    var seen: set<int> := {};
    out := [];
    for i := 0 to |sorted|
      invariant seen == Keys(sorted[..i], WholeSecond) && out == Unique(sorted[..i], WholeSecond)
    {
      assert sorted[..i + 1] == sorted[..i] + [sorted[i]];
      UniqueNext(sorted[..i], sorted[i], WholeSecond);
      var ts := WholeSecond(sorted[i]);
      if ts !in seen {
        seen := seen + {ts};
        out := out + [sorted[i]];
      }
    }
    assert sorted[..|sorted|] == sorted;
  }

  method Dedupe(candles: seq<Candle>) returns (unique: seq<Candle>)
    ensures unique == Unique(candles, KeyOf)
  {
    var seen: set<Key> := {};
    unique := [];
    for i := 0 to |candles|
      invariant seen == Keys(candles[..i], KeyOf) && unique == Unique(candles[..i], KeyOf)
    {
      assert candles[..i + 1] == candles[..i] + [candles[i]];
      UniqueNext(candles[..i], candles[i], KeyOf);
      var key := KeyOf(candles[i]);
      if key !in seen {
        seen := seen + {key};
        unique := unique + [candles[i]];
      }
    }
    assert candles[..|candles|] == candles;
  }

  /** The whole second is the instant with its fraction cut off. */
  lemma WholeSecondMeaning(c: Candle)
    ensures c.openedAt >= 0.0 ==> 0.0 <= c.openedAt - (WholeSecond(c) as real) < 1.0
    ensures c.openedAt < 0.0 ==> -1.0 < c.openedAt - (WholeSecond(c) as real) <= 0.0
  {}

  /** Candles are duplicates exactly if symbol, timeframe and whole second agree. */
  lemma SameKeyIff(c: Candle, d: Candle)
    ensures KeyOf(c) == KeyOf(d) <==>
            c.symbol == d.symbol && c.timeframe == d.timeframe && WholeSecond(c) == WholeSecond(d)
  {}

  // ----- What removing duplicates keeps ------------------------------------------------------

  /** Increasing positions in a sequence of length n. */
  predicate Ascending(positions: seq<nat>, n: nat) {
    && (forall k :: 0 <= k < |positions| ==> positions[k] < n)
    && (forall j, k :: 0 <= j < k < |positions| ==> positions[j] < positions[k])
  }

  predicate FirstOf<K(==)>(candles: seq<Candle>, key: Candle -> K, i: nat) {
    i < |candles| && forall j :: 0 <= j < i ==> key(candles[j]) != key(candles[i])
  }

  lemma FirstsBefore<K>(candles: seq<Candle>, key: Candle -> K)
    requires candles != []
    ensures forall i: nat :: i < |candles| - 1 ==> (FirstOf(candles[..|candles| - 1], key, i) <==> FirstOf(candles, key, i))
  {}

  /** The positions at which a key first occurs. */
  function Firsts<K(==)>(candles: seq<Candle>, key: Candle -> K): (positions: seq<nat>)
    ensures Ascending(positions, |candles|)
    ensures forall i: nat :: i in positions <==> FirstOf(candles, key, i)
  {
    if candles == [] then []
    else
      var n := |candles| - 1;
      FirstsBefore(candles, key);
      var earlier := Firsts(candles[..n], key);
      if FirstOf(candles, key, n) then earlier + [n] else earlier
  }

  predicate PickedBy(picked: seq<Candle>, candles: seq<Candle>, positions: seq<nat>) {
    && |picked| == |positions|
    && forall k :: 0 <= k < |positions| ==> positions[k] < |candles| && picked[k] == candles[positions[k]]
  }

  lemma PickedOneMore(picked: seq<Candle>, candles: seq<Candle>, positions: seq<nat>, n: nat)
    requires PickedBy(picked, candles, positions) && n < |candles|
    ensures PickedBy(picked + [candles[n]], candles, positions + [n])
  {}

  lemma RepeatedIff<K>(candles: seq<Candle>, key: Candle -> K)
    requires candles != []
    ensures var n := |candles| - 1; key(candles[n]) in Keys(candles[..n], key) <==> !FirstOf(candles, key, n)
  {
    var n := |candles| - 1;
    if !FirstOf(candles, key, n) {
      var j :| 0 <= j < n && key(candles[j]) == key(candles[n]);
      assert candles[..n][j] == candles[j];
    }
  }

  /** Exactly the candles at those positions are kept, in their order. */
  lemma {:induction false} UniqueKeepsFirsts<K>(candles: seq<Candle>, key: Candle -> K)
    ensures PickedBy(Unique(candles, key), candles, Firsts(candles, key))
  {
    if candles == [] {
    } else {
      var n := |candles| - 1;
      UniqueKeepsFirsts(candles[..n], key);
      assert PickedBy(Unique(candles[..n], key), candles, Firsts(candles[..n], key));
      RepeatedIff(candles, key);
      hide FirstOf, Keys;
      PickedOneMore(Unique(candles[..n], key), candles, Firsts(candles[..n], key), n);
    }
  }

  predicate DistinctKeys<K(==)>(candles: seq<Candle>, key: Candle -> K) {
    forall i, j :: 0 <= i < j < |candles| ==> key(candles[i]) != key(candles[j])
  }

  lemma NewKeyStaysDistinct<K>(candles: seq<Candle>, c: Candle, key: Candle -> K)
    requires DistinctKeys(candles, key)
    ensures key(c) !in Keys(candles, key) ==> DistinctKeys(candles + [c], key)
  {
    forall i | 0 <= i < |candles| ensures key(candles[i]) in Keys(candles, key) {
      assert candles[i] in candles;
    }
  }

  lemma {:induction false} UniqueHasDistinctKeys<K>(candles: seq<Candle>, key: Candle -> K)
    ensures DistinctKeys(Unique(candles, key), key) && Keys(Unique(candles, key), key) == Keys(candles, key)
    ensures forall c :: c in Unique(candles, key) ==> c in candles
  {
    if candles == [] {
    } else {
      var n := |candles| - 1;
      UniqueHasDistinctKeys(candles[..n], key);
      assert candles == candles[..n] + [candles[n]];
      UniqueNext(candles[..n], candles[n], key);
      UniqueNext(Unique(candles[..n], key), candles[n], key);
      NewKeyStaysDistinct(Unique(candles[..n], key), candles[n], key);
      hide Keys, DistinctKeys;
    }
  }

  lemma {:induction false} DistinctIsUnique<K>(candles: seq<Candle>, key: Candle -> K)
    requires DistinctKeys(candles, key)
    ensures Unique(candles, key) == candles
  {
    if candles == [] {
    } else {
      var n := |candles| - 1;
      DistinctIsUnique(candles[..n], key);
      forall c | c in candles[..n] ensures key(c) != key(candles[n]) {
        var i :| 0 <= i < n && candles[i] == c;
      }
    }
  }

  /** Removing duplicates twice removes no more than once. */
  lemma UniqueIdempotent<K>(candles: seq<Candle>, key: Candle -> K)
    ensures Unique(Unique(candles, key), key) == Unique(candles, key)
  {
    UniqueHasDistinctKeys(candles, key);
    DistinctIsUnique(Unique(candles, key), key);
  }

  // ----- Sorting ----------------------------------------------------------------------------

  predicate Ordered(candles: seq<Candle>) {
    forall i, j :: 0 <= i < j < |candles| ==> candles[i].openedAt <= candles[j].openedAt
  }

  /** The candles that opened at one instant, in order. */
  function At(candles: seq<Candle>, t: real): seq<Candle> {
    if candles == [] then []
    else
      var front, last := candles[..|candles| - 1], candles[|candles| - 1];
      if last.openedAt == t then At(front, t) + [last] else At(front, t)
  }

  lemma AtNext(candles: seq<Candle>, c: Candle, t: real)
    ensures At(candles + [c], t) == if c.openedAt == t then At(candles, t) + [c] else At(candles, t)
  {
    assert (candles + [c])[..|candles|] == candles;
  }

  lemma {:induction false} InsertedRearranges(sorted: seq<Candle>, c: Candle)
    ensures multiset(Inserted(sorted, c)) == multiset(sorted) + multiset{c}
  {
    if sorted == [] {
    } else {
      var front, last := sorted[..|sorted| - 1], sorted[|sorted| - 1];
      InsertedRearranges(front, c);
      assert sorted == front + [last];
    }
  }

  lemma OrderedNext(candles: seq<Candle>, last: Candle)
    requires Ordered(candles) && forall x :: x in candles ==> x.openedAt <= last.openedAt
    ensures Ordered(candles + [last])
  {}

  lemma {:induction false} InsertedOrdered(sorted: seq<Candle>, c: Candle)
    requires Ordered(sorted)
    ensures Ordered(Inserted(sorted, c))
  {
    if sorted == [] || sorted[|sorted| - 1].openedAt <= c.openedAt {
      OrderedNext(sorted, c);
    } else {
      var front, last := sorted[..|sorted| - 1], sorted[|sorted| - 1];
      InsertedOrdered(front, c);
      InsertedRearranges(front, c);
      forall x | x in Inserted(front, c) ensures x.openedAt <= last.openedAt {
        assert x in multiset(Inserted(front, c));
        assert x in front || x == c;
      }
      OrderedNext(Inserted(front, c), last);
    }
  }

  lemma {:induction false} InsertedAt(sorted: seq<Candle>, c: Candle, t: real)
    requires Ordered(sorted)
    ensures At(Inserted(sorted, c), t) == if c.openedAt == t then At(sorted, t) + [c] else At(sorted, t)
  {
    if sorted == [] || sorted[|sorted| - 1].openedAt <= c.openedAt {
      AtNext(sorted, c, t);
    } else {
      var front, last := sorted[..|sorted| - 1], sorted[|sorted| - 1];
      InsertedAt(front, c, t);
      assert sorted == front + [last];
      AtNext(front, last, t);
      AtNext(Inserted(front, c), last, t);
    }
  }

  /** The sort rearranges, orders, and keeps the order of simultaneous candles. */
  lemma {:induction false} SortedFacts(candles: seq<Candle>, t: real)
    ensures multiset(Sorted(candles)) == multiset(candles) && Ordered(Sorted(candles))
    ensures At(Sorted(candles), t) == At(candles, t)
  {
    if candles == [] {
    } else {
      var front, last := candles[..|candles| - 1], candles[|candles| - 1];
      SortedFacts(front, t);
      InsertedRearranges(Sorted(front), last);
      InsertedOrdered(Sorted(front), last);
      InsertedAt(Sorted(front), last, t);
      assert candles == front + [last];
      hide Inserted, Ordered;
    }
  }

  predicate Increasing(candles: seq<Candle>) {
    forall i, j :: 0 <= i < j < |candles| ==> WholeSecond(candles[i]) < WholeSecond(candles[j])
  }

  lemma SecondsMonotone(c: Candle, d: Candle)
    requires c.openedAt <= d.openedAt
    ensures WholeSecond(c) <= WholeSecond(d)
  {}

  lemma IncreasingNext(candles: seq<Candle>, last: Candle)
    requires Increasing(candles) && forall c :: c in candles ==> WholeSecond(c) < WholeSecond(last)
    ensures Increasing(candles + [last])
  {
    hide WholeSecond;
  }

  lemma {:induction false} UniqueIncreasing(candles: seq<Candle>)
    requires Ordered(candles)
    ensures Increasing(Unique(candles, WholeSecond))
  {
    if candles == [] {
    } else {
      var n := |candles| - 1;
      var front, last := candles[..n], candles[n];
      UniqueIncreasing(front);
      var u := Unique(front, WholeSecond);
      UniqueHasDistinctKeys(front, WholeSecond);
      if WholeSecond(last) !in Keys(front, WholeSecond) {
        forall c | c in u ensures WholeSecond(c) < WholeSecond(last) {
          var i :| 0 <= i < n && candles[i] == c;
          SecondsMonotone(c, last);
        }
        hide WholeSecond, Increasing;
        IncreasingNext(u, last);
      }
    }
  }

  lemma SameMembers(a: seq<Candle>, b: seq<Candle>)
    requires multiset(a) == multiset(b)
    ensures forall c :: c in a <==> c in b
    ensures Keys(a, WholeSecond) == Keys(b, WholeSecond)
  {
    forall c ensures c in a <==> c in b {
      assert c in a <==> c in multiset(a);
      assert c in b <==> c in multiset(b);
    }
  }

  lemma {:induction false} NoneAt(candles: seq<Candle>, t: real, last: Candle)
    requires t == last.openedAt && WholeSecond(last) !in Keys(candles, WholeSecond)
    ensures At(candles, t) == []
  {
    if candles == [] {
    } else {
      var front, c := candles[..|candles| - 1], candles[|candles| - 1];
      assert c in candles && forall x :: x in front ==> x in candles;
      NoneAt(front, t, last);
      assert c.openedAt == t ==> WholeSecond(c) == WholeSecond(last);
    }
  }

  lemma {:induction false} FirstInSecond(sorted: seq<Candle>, c: Candle)
    requires Ordered(sorted) && c in Unique(sorted, WholeSecond)
    ensures forall d :: d in sorted && WholeSecond(d) == WholeSecond(c) ==> c.openedAt <= d.openedAt
    ensures At(sorted, c.openedAt) != [] && At(sorted, c.openedAt)[0] == c
  {
    hide WholeSecond;
    var front, last := sorted[..|sorted| - 1], sorted[|sorted| - 1];
    assert sorted == front + [last];
    UniqueHasDistinctKeys(front, WholeSecond);
    if c in Unique(front, WholeSecond) {
      FirstInSecond(front, c);
    } else {
      assert c == last && WholeSecond(last) !in Keys(front, WholeSecond);
      NoneAt(front, last.openedAt, last);
    }
  }

  /** The adapter's result has strictly increasing whole seconds, exactly the seconds fetched,
      and for each the first of the fetched candles that opened earliest in it. */
  lemma SortUniqueFacts(candles: seq<Candle>, c: Candle)
    requires c in Unique(Sorted(candles), WholeSecond)
    ensures Increasing(Unique(Sorted(candles), WholeSecond))
    ensures Keys(Unique(Sorted(candles), WholeSecond), WholeSecond) == Keys(candles, WholeSecond)
    ensures c in candles && forall d :: d in candles && WholeSecond(d) == WholeSecond(c) ==> c.openedAt <= d.openedAt
    ensures At(candles, c.openedAt) != [] && At(candles, c.openedAt)[0] == c
  {
    var sorted := Sorted(candles);
    SortedFacts(candles, c.openedAt);
    SameMembers(sorted, candles);
    UniqueIncreasing(sorted);
    UniqueHasDistinctKeys(sorted, WholeSecond);
    FirstInSecond(sorted, c);
    hide Unique, Sorted, WholeSecond, Ordered, Increasing, At;
  }

  // ----- Order of arrival ----------------------------------------------------------------------

  lemma {:induction false} AtMembers(candles: seq<Candle>, t: real, c: Candle)
    ensures c in At(candles, t) <==> c in candles && c.openedAt == t
  {
    if candles == [] {
    } else {
      AtMembers(candles[..|candles| - 1], t, c);
      assert candles == candles[..|candles| - 1] + [candles[|candles| - 1]];
    }
  }

  ghost predicate SameAtEachInstant(a: seq<Candle>, b: seq<Candle>) {
    forall t :: At(a, t) == At(b, t)
  }

  lemma LastNoLater(a: seq<Candle>, b: seq<Candle>)
    requires a != [] && Ordered(b) && SameAtEachInstant(a, b)
    ensures b != [] && a[|a| - 1].openedAt <= b[|b| - 1].openedAt
  {
    var x := a[|a| - 1];
    AtMembers(a, x.openedAt, x);
    AtMembers(b, x.openedAt, x);
    assert At(a, x.openedAt) == At(b, x.openedAt);
    var j :| 0 <= j < |b| && b[j] == x;
  }

  lemma SameFront(p: seq<Candle>, x: Candle, q: seq<Candle>, y: Candle)
    requires p + [x] == q + [y]
    ensures p == q && x == y
  {
    assert |p + [x]| == |q + [y]|;
    assert p == (p + [x])[..|p|] && q == (q + [y])[..|q|];
    assert (p + [x])[|p|] == x && (q + [y])[|q|] == y;
  }

  lemma {:induction false} OrderedSame(a: seq<Candle>, b: seq<Candle>)
    requires Ordered(a) && Ordered(b) && SameAtEachInstant(a, b)
    ensures a == b
  {
    if a != [] {
      LastNoLater(a, b);
      LastNoLater(b, a);
      var front, x, front', y := a[..|a| - 1], a[|a| - 1], b[..|b| - 1], b[|b| - 1];
      assert a == front + [x] && b == front' + [y];
      forall t ensures At(front, t) == At(front', t) && (t == x.openedAt ==> x == y) {
        assert At(a, t) == At(b, t);
        AtNext(front, x, t);
        AtNext(front', y, t);
        if t == x.openedAt {
          SameFront(At(front, t), x, At(front', t), y);
        }
      }
      assert At(front, x.openedAt) == At(front', x.openedAt);
      OrderedSame(front, front');
    } else if b != [] {
      LastNoLater(b, a);
    }
  }

  /** The adapter's result does not depend on the order in which the vendor sent candles that
      opened at different instants. */
  lemma {:induction false} ArrivalOrderIrrelevant(candles: seq<Candle>, other: seq<Candle>)
    requires SameAtEachInstant(candles, other)
    ensures Unique(Sorted(candles), WholeSecond) == Unique(Sorted(other), WholeSecond)
  {
    SortedFacts(candles, 0.0);
    SortedFacts(other, 0.0);
    forall t ensures At(Sorted(candles), t) == At(Sorted(other), t) {
      SortedFacts(candles, t);
      SortedFacts(other, t);
    }
    OrderedSame(Sorted(candles), Sorted(other));
  }

  // ----- The ingest service ----------------------------------------------------------------------

  predicate OneSeries(candles: seq<Candle>) {
    forall c, d :: c in candles && d in candles ==> c.symbol == d.symbol && c.timeframe == d.timeframe
  }

  /** After the adapter, the service finds no duplicates. */
  lemma {:induction false} SecondDedupeIdle(candles: seq<Candle>)
    requires OneSeries(candles)
    ensures Unique(Unique(Sorted(candles), WholeSecond), KeyOf) == Unique(Sorted(candles), WholeSecond)
  {
    var out := Unique(Sorted(candles), WholeSecond);
    UniqueHasDistinctKeys(Sorted(candles), WholeSecond);
    assert DistinctKeys(out, KeyOf) by {
      hide Unique, Sorted;
    }
    DistinctIsUnique(out, KeyOf);
  }

  datatype Summary = Summary(fetched: nat, appended: nat, duplicates: nat)

  function SummaryOf(unique: nat, appended: nat): Summary {
    Summary(unique, appended, if unique > appended then unique - appended else 0)
  }

  // What the source answers, and how many of the rows it is given the store reports appended.
  method Sync(source: Result<seq<Candle>, string>, append: seq<Candle> -> nat)
    returns (result: Result<Summary, string>, published: seq<seq<Candle>>)
    ensures source.Failure? ==> result == Failure(source.error) && published == []
    ensures source.Success? && source.value == [] ==> result == Success(Summary(0, 0, 0)) && published == []
    ensures source.Success? && source.value != [] ==>
              var unique := Unique(source.value, KeyOf);
              && published == [unique]
              && result == Success(SummaryOf(|unique|, append(unique)))
  {
    published := [];
    if source.Failure? {
      return Failure(source.error), published;
    }
    if source.value == [] {
      return Success(Summary(0, 0, 0)), published;
    }
    var candles := Dedupe(source.value);
    var appended := append(candles);
    published := [candles];
    result := Success(Summary(|candles|, appended, if |candles| > appended then |candles| - appended else 0));
  }

  lemma {:induction false} RepeatsDropped(candles: seq<Candle>, repeats: seq<Candle>)
    requires forall c :: c in repeats ==> KeyOf(c) in Keys(candles, KeyOf)
    ensures Unique(candles + repeats, KeyOf) == Unique(candles, KeyOf) && Keys(candles + repeats, KeyOf) == Keys(candles, KeyOf)
  {
    hide KeyOf;
    if repeats == [] {
      assert candles + repeats == candles;
    } else {
      var n := |repeats| - 1;
      assert forall c :: c in repeats[..n] ==> c in repeats;
      RepeatsDropped(candles, repeats[..n]);
      assert candles + repeats == candles + repeats[..n] + [repeats[n]];
      UniqueNext(candles + repeats[..n], repeats[n], KeyOf);
    }
  }

  /** Repeated candles never show in the summary: repeating what was fetched, in any order after
      it, changes nothing, and duplicates are reported exactly when the store appends fewer rows
      than it is given. */
  lemma {:induction false} RepeatsDoNotShow(candles: seq<Candle>, repeats: seq<Candle>, appended: nat)
    requires forall c :: c in repeats ==> c in candles
    ensures Unique(candles + repeats, KeyOf) == Unique(candles, KeyOf)
    ensures SummaryOf(|Unique(candles, KeyOf)|, appended).duplicates == 0 <==> appended >= |Unique(candles, KeyOf)|
  {
    RepeatsDropped(candles, repeats);
  }

  lemma {:induction false} UniqueIsShorter<K>(candles: seq<Candle>, key: Candle -> K)
    ensures |Unique(candles, key)| <= |candles|
    ensures |Unique(candles, key)| == |candles| ==> Unique(candles, key) == candles
  {
    if candles == [] {
    } else {
      var n := |candles| - 1;
      UniqueIsShorter(candles[..n], key);
      assert candles == candles[..n] + [candles[n]];
    }
  }

  /** The summary is true exactly if nothing had to be removed: only then are the reported
      duplicates the fetched candles that the store has not appended. In particular, with a
      store that appends all it is given, the removed candles are reported only if there are none. */
  lemma SummaryTrueIff(candles: seq<Candle>, appended: nat)
    requires appended <= |Unique(candles, KeyOf)|
    ensures SummaryOf(|Unique(candles, KeyOf)|, appended).duplicates == |candles| - appended <==> DistinctKeys(candles, KeyOf)
    ensures SummaryOf(|Unique(candles, KeyOf)|, appended).fetched == |candles| <==> DistinctKeys(candles, KeyOf)
  {
    UniqueIsShorter(candles, KeyOf);
    if DistinctKeys(candles, KeyOf) {
      DistinctIsUnique(candles, KeyOf);
    } else {
      UniqueHasDistinctKeys(candles, KeyOf);
    }
    hide Unique, DistinctKeys;
  }

  /** One candle fetched twice and stored once: 1 fetched, 1 appended, no duplicate. */
  lemma RepeatNotReported(c: Candle)
    ensures Unique([c, c], KeyOf) == [c] && SummaryOf(|Unique([c, c], KeyOf)|, 1) == Summary(1, 1, 0)
  {
    assert [c, c] == [c] + [c];
    DistinctIsUnique([c], KeyOf);
    UniqueNext([c], c, KeyOf);
    assert c in [c];
    hide Unique;
  }
}
