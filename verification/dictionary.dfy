/**
 * `Dictionary.map(transform:)`: a new dictionary built by inserting the
 * transformed pair of every entry, in the dictionary's unspecified
 * iteration order, a later insertion replacing an earlier one with the
 * same new key.
 */
module Dictionaries {

  /** The new keys the transform gives the entries of `d`. */
  ghost function NewKeys<K, V, K2, V2>(d: map<K, V>, transform: (K, V) -> (K2, V2)): set<K2> {
    set k | k in d :: transform(k, d[k]).0
  }

  /** No two entries are given the same new key. */
  ghost predicate InjectiveOnKeys<K, V, K2, V2>(d: map<K, V>, transform: (K, V) -> (K2, V2)) {
    forall a, b :: a in d && b in d && transform(a, d[a]).0 == transform(b, d[b]).0 ==> a == b
  }

  /** Every key of the iteration order is a key of the dictionary. */
  ghost predicate Within<K, V>(d: map<K, V>, order: seq<K>) {
    forall i :: 0 <= i < |order| ==> order[i] in d
  }

  /** No key is visited twice. */
  ghost predicate Distinct<K>(order: seq<K>) {
    forall i, j :: 0 <= i < j < |order| ==> order[i] != order[j]
  }

  /** The dictionary obtained by inserting the transformed entries of `order` into an empty one, in that order. */
  ghost function Inserted<K, V, K2, V2>(d: map<K, V>, transform: (K, V) -> (K2, V2), order: seq<K>): map<K2, V2>
    requires Within(d, order)
  {
    if |order| == 0 then map[]
    else
      var last := order[|order| - 1];
      var entry := transform(last, d[last]);
      Inserted(d, transform, order[..|order| - 1])[entry.0 := entry.1]
  }

  /**
   * The result's keys are exactly the transformed keys, each value is the
   * transformed value of an entry given that key, and the result has at
   * most as many entries as the receiver (so an empty receiver gives an
   * empty result). When no two entries share a new key, it has exactly as
   * many, and every entry's transformed pair is in it. The receiver, a
   * value, is left as it was.
   */
  method MapEntries<K(==), V, K2(==), V2>(d: map<K, V>, transform: (K, V) -> (K2, V2)) returns (result: map<K2, V2>)
    ensures result.Keys == NewKeys(d, transform)
    ensures forall k2 :: k2 in result ==> exists k :: k in d && transform(k, d[k]) == (k2, result[k2])
    ensures |result| <= |d|
    ensures InjectiveOnKeys(d, transform) ==> |result| == |d|
    ensures InjectiveOnKeys(d, transform) ==> forall k :: k in d ==> result[transform(k, d[k]).0] == transform(k, d[k]).1
  {
    result := map[];
    var keys := d.Keys;
    // The keys in the order the loop visits them.
    ghost var order: seq<K> := [];
    while keys != {}
      invariant keys <= d.Keys
      invariant Within(d, order) && Distinct(order)
      invariant forall k :: k in order <==> k in d && k !in keys
      invariant result == Inserted(d, transform, order)
      decreases keys
    {
      var key :| key in keys;
      var entry := transform(key, d[key]);
      assert (order + [key])[..|order|] == order;
      result := result[entry.0 := entry.1];
      order := order + [key];
      keys := keys - {key};
    }
    InsertedAll(d, transform, order);
  }

  /** Inserting every key once, in any order, gives the promised dictionary. */
  lemma InsertedAll<K, V, K2, V2>(d: map<K, V>, transform: (K, V) -> (K2, V2), order: seq<K>)
    requires Within(d, order) && Distinct(order)
    requires forall k :: k in order <==> k in d
    ensures Inserted(d, transform, order).Keys == NewKeys(d, transform)
    ensures forall k2 :: k2 in Inserted(d, transform, order) ==>
      exists k :: k in d && transform(k, d[k]) == (k2, Inserted(d, transform, order)[k2])
    ensures |Inserted(d, transform, order)| <= |d|
    ensures InjectiveOnKeys(d, transform) ==> |Inserted(d, transform, order)| == |d|
    ensures InjectiveOnKeys(d, transform) ==>
      forall k :: k in d ==> Inserted(d, transform, order)[transform(k, d[k]).0] == transform(k, d[k]).1
  {
    AllKeys(d, transform, order);
    AllValues(d, transform, order);
    InsertedCount(d, transform, order);
    DistinctCount(d, order);
    if InjectiveOnKeys(d, transform) {
      AllExact(d, transform, order);
    }
  }

  /** Visiting every key gives exactly the new keys. */
  lemma AllKeys<K, V, K2, V2>(d: map<K, V>, transform: (K, V) -> (K2, V2), order: seq<K>)
    requires Within(d, order)
    requires forall k :: k in order <==> k in d
    ensures Inserted(d, transform, order).Keys == NewKeys(d, transform)
  {
    InsertedKeys(d, transform, order);
    forall k | k in d ensures transform(k, d[k]).0 in Inserted(d, transform, order) {
      assert k in order;
      var i :| 0 <= i < |order| && order[i] == k;
    }
  }

  /** Visiting every key, each value comes from an entry of `d`. */
  lemma AllValues<K, V, K2, V2>(d: map<K, V>, transform: (K, V) -> (K2, V2), order: seq<K>)
    requires Within(d, order)
    ensures forall k2 :: k2 in Inserted(d, transform, order) ==>
      exists k :: k in d && transform(k, d[k]) == (k2, Inserted(d, transform, order)[k2])
  {
    var result := Inserted(d, transform, order);
    InsertedValues(d, transform, order);
    forall k2 | k2 in result ensures exists k :: k in d && transform(k, d[k]) == (k2, result[k2]) {
      var i :| 0 <= i < |order| && transform(order[i], d[order[i]]) == (k2, result[k2]);
      assert order[i] in d;
    }
  }

  /** Visiting every key once with an injective transform, every entry's pair is in the result. */
  lemma AllExact<K, V, K2, V2>(d: map<K, V>, transform: (K, V) -> (K2, V2), order: seq<K>)
    requires Within(d, order) && Distinct(order) && InjectiveOnKeys(d, transform)
    requires forall k :: k in order <==> k in d
    ensures forall k :: k in d ==>
      && transform(k, d[k]).0 in Inserted(d, transform, order)
      && Inserted(d, transform, order)[transform(k, d[k]).0] == transform(k, d[k]).1
  {
    InsertedExact(d, transform, order);
    forall k | k in d
      ensures && transform(k, d[k]).0 in Inserted(d, transform, order)
              && Inserted(d, transform, order)[transform(k, d[k]).0] == transform(k, d[k]).1
    {
      assert k in order;
      var i :| 0 <= i < |order| && order[i] == k;
    }
  }

  /** The keys of the inserted dictionary are the new keys of the visited entries. */
  lemma {:induction false} InsertedKeys<K, V, K2, V2>(d: map<K, V>, transform: (K, V) -> (K2, V2), order: seq<K>)
    requires Within(d, order)
    ensures forall k2 :: k2 in Inserted(d, transform, order) ==>
      exists i :: 0 <= i < |order| && transform(order[i], d[order[i]]).0 == k2
    ensures forall i :: 0 <= i < |order| ==> transform(order[i], d[order[i]]).0 in Inserted(d, transform, order)
  {
    if |order| > 0 {
      var prefix := order[..|order| - 1];
      InsertedKeys(d, transform, prefix);
      forall i | 0 <= i < |order| ensures transform(order[i], d[order[i]]).0 in Inserted(d, transform, order) {
        if i < |prefix| {
          assert prefix[i] == order[i];
        }
      }
      forall k2 | k2 in Inserted(d, transform, prefix)
        ensures exists i :: 0 <= i < |order| && transform(order[i], d[order[i]]).0 == k2
      {
        var i :| 0 <= i < |prefix| && transform(prefix[i], d[prefix[i]]).0 == k2;
        assert order[i] == prefix[i];
      }
    }
  }

  /** Each value of the inserted dictionary is the transformed value of a visited entry with that new key. */
  lemma {:induction false} InsertedValues<K, V, K2, V2>(d: map<K, V>, transform: (K, V) -> (K2, V2), order: seq<K>)
    requires Within(d, order)
    ensures forall k2 :: k2 in Inserted(d, transform, order) ==>
      exists i :: 0 <= i < |order| && transform(order[i], d[order[i]]) == (k2, Inserted(d, transform, order)[k2])
  {
    if |order| > 0 {
      var prefix := order[..|order| - 1];
      var last := |order| - 1;
      InsertedValues(d, transform, prefix);
      forall k2 | k2 in Inserted(d, transform, order)
        ensures exists i :: 0 <= i < |order| && transform(order[i], d[order[i]]) == (k2, Inserted(d, transform, order)[k2])
      {
        if k2 == transform(order[last], d[order[last]]).0 {
          assert transform(order[last], d[order[last]]) == (k2, Inserted(d, transform, order)[k2]);
        } else {
          assert Inserted(d, transform, order) == Inserted(d, transform, prefix)[transform(order[last], d[order[last]]).0 := transform(order[last], d[order[last]]).1];
          assert k2 in Inserted(d, transform, prefix) && Inserted(d, transform, order)[k2] == Inserted(d, transform, prefix)[k2];
          var i :| 0 <= i < |prefix| && transform(prefix[i], d[prefix[i]]) == (k2, Inserted(d, transform, prefix)[k2]);
          assert order[i] == prefix[i];
        }
      }
    }
  }

  /**
   * Each insertion adds at most one key; with an injective transform and
   * no key visited twice, exactly one.
   */
  lemma {:induction false} InsertedCount<K, V, K2, V2>(d: map<K, V>, transform: (K, V) -> (K2, V2), order: seq<K>)
    requires Within(d, order)
    ensures |Inserted(d, transform, order)| <= |order|
    ensures InjectiveOnKeys(d, transform) && Distinct(order) ==> |Inserted(d, transform, order)| == |order|
  {
    if |order| > 0 {
      var prefix := order[..|order| - 1];
      var last := order[|order| - 1];
      var entry := transform(last, d[last]);
      InsertedCount(d, transform, prefix);
      var before := Inserted(d, transform, prefix);
      UpdateCount(before, entry.0, entry.1);
      if InjectiveOnKeys(d, transform) && Distinct(order) {
        InsertedKeys(d, transform, prefix);
        forall i | 0 <= i < |prefix| ensures transform(prefix[i], d[prefix[i]]).0 != entry.0 {
          assert prefix[i] == order[i] != last;
        }
      }
    }
  }

  /** With an injective transform and no key visited twice, every visited entry's pair is in the result. */
  lemma {:induction false} InsertedExact<K, V, K2, V2>(d: map<K, V>, transform: (K, V) -> (K2, V2), order: seq<K>)
    requires Within(d, order) && Distinct(order) && InjectiveOnKeys(d, transform)
    ensures forall i :: 0 <= i < |order| ==>
      && transform(order[i], d[order[i]]).0 in Inserted(d, transform, order)
      && Inserted(d, transform, order)[transform(order[i], d[order[i]]).0] == transform(order[i], d[order[i]]).1
  {
    if |order| > 0 {
      var prefix := order[..|order| - 1];
      var last := order[|order| - 1];
      InsertedExact(d, transform, prefix);
      InsertedKeys(d, transform, order);
      forall i | 0 <= i < |order|
        ensures && transform(order[i], d[order[i]]).0 in Inserted(d, transform, order)
                && Inserted(d, transform, order)[transform(order[i], d[order[i]]).0] == transform(order[i], d[order[i]]).1
      {
        if i < |prefix| {
          assert prefix[i] == order[i] != last;
        }
      }
    }
  }

  /** A map update adds a key exactly when the key is new. */
  lemma UpdateCount<A, B>(m: map<A, B>, k: A, v: B)
    ensures k in m ==> |m[k := v]| == |m|
    ensures k !in m ==> |m[k := v]| == |m| + 1
  {
    if k in m {
      assert m[k := v].Keys == m.Keys;
    } else {
      assert m[k := v].Keys == m.Keys + {k};
    }
  }

  /** An order that visits every key of `d` exactly once has as many keys as `d`. */
  lemma DistinctCount<K, V>(d: map<K, V>, order: seq<K>)
    requires Distinct(order)
    requires forall k :: k in order <==> k in d
    ensures |order| == |d|
  {
    DistinctElements(order);
    assert (set k | k in order) == d.Keys;
  }

  /** A sequence without repetitions has as many elements as its set of elements. */
  lemma {:induction false} DistinctElements<K>(order: seq<K>)
    requires Distinct(order)
    ensures |set k | k in order| == |order|
  {
    if |order| > 0 {
      var prefix := order[..|order| - 1];
      var last := order[|order| - 1];
      DistinctElements(prefix);
      assert (set k | k in order) == (set k | k in prefix) + {last};
      assert last !in prefix by {
        forall i | 0 <= i < |prefix| ensures prefix[i] != last {
          assert prefix[i] == order[i];
        }
      }
    }
  }
}
