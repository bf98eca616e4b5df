/** Lists of keyed items read into a map that refuses a repeated key, and compared with an expected map. */
module Inventories {
  datatype Item<K, V> = Item(key: K, value: V)

  /** No key occurs twice. */
  predicate OncePerKey<K(==), V>(es: seq<Item<K, V>>) {
    forall i, j :: 0 <= i < j < |es| ==> es[i].key != es[j].key
  }

  predicate Agrees<K(==), V(==)>(es: seq<Item<K, V>>, m: map<K, V>) {
    forall i :: 0 <= i < |es| ==> es[i].key in m && m[es[i].key] == es[i].value
  }

  predicate Covers<K(==), V>(es: seq<Item<K, V>>, m: map<K, V>) {
    forall k :: k in m ==> exists i :: 0 <= i < |es| && es[i].key == k
  }

  /** The items are those of the map, each exactly once. */
  predicate Lists<K(==), V(==)>(es: seq<Item<K, V>>, m: map<K, V>) {
    OncePerKey(es) && Agrees(es, m) && Covers(es, m)
  }

  /** Reading one more item either repeats a key, which no map can list, or extends the map by it. */
  lemma OneMoreItem<K, V>(es: seq<Item<K, V>>, i: nat, m: map<K, V>)
    requires i < |es| && Lists(es[..i], m)
    ensures es[i].key in m ==> !OncePerKey(es)
    ensures es[i].key !in m ==> Lists(es[..i + 1], m[es[i].key := es[i].value])
  {
    var before, upTo := es[..i], es[..i + 1];
    assert upTo == before + [es[i]];
    if es[i].key in m {
      var j :| 0 <= j < |before| && before[j].key == es[i].key;
      assert es[j] == before[j];
    } else {
      var more := m[es[i].key := es[i].value];
      forall k | k in more
        ensures exists j :: 0 <= j < |upTo| && upTo[j].key == k
      {
        if k in m {
          var j :| 0 <= j < |before| && before[j].key == k;
          assert upTo[j].key == k;
        } else {
          assert upTo[i].key == k;
        }
      }
    }
  }

  lemma ListedMapIsDetermined<K, V>(es: seq<Item<K, V>>, m: map<K, V>, n: map<K, V>)
    requires Lists(es, m) && Lists(es, n)
    ensures m == n
  {
    ListedIsWithin(es, m, n);
    ListedIsWithin(es, n, m);
  }

  lemma ListedIsWithin<K, V>(es: seq<Item<K, V>>, m: map<K, V>, n: map<K, V>)
    requires Lists(es, m) && Agrees(es, n)
    ensures forall k :: k in m ==> k in n && n[k] == m[k]
  {
    forall k | k in m
      ensures k in n && n[k] == m[k]
    {
      var i :| 0 <= i < |es| && es[i].key == k;
    }
  }
}
