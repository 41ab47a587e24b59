/**
 * The `product_metrics` skeleton built from the product listing
 * (lambda_function.py:72-76): an insertion-ordered dictionary keyed by
 * product uid holding the product name, iterated in insertion order by the
 * per-product loop (lambda_function.py:84).
 */
module ProductMap {

  /** One product listing entry: `productUid` and `productName`. */
  datatype Product = Product(uid: string, name: string)

  /**
   * An insertion-ordered dictionary: `keys` gives the iteration order,
   * `entries` the current value of each key.
   */
  datatype OrderedMap<K(!new), V> = OrderedMap(keys: seq<K>, entries: map<K, V>) {

    ghost predicate Valid() {
      && (forall i, j :: 0 <= i < j < |keys| ==> keys[i] != keys[j])
      && (forall k :: k in entries <==> k in keys)
    }

    /**
     * `d.update({k: v})`: a new key is appended to the iteration order; an
     * existing key gets the new value and keeps its position.
     */
    function Put(k: K, v: V): (r: OrderedMap<K, V>)
      ensures Valid() ==> r.Valid()
      ensures r.entries.Keys == entries.Keys + {k} && r.entries[k] == v
      ensures forall k' :: k' in entries && k' != k ==> r.entries[k'] == entries[k']
      ensures k in entries ==> r.keys == keys
      ensures k !in entries ==> r.keys == keys + [k]
    {
      if k in entries then OrderedMap(keys, entries[k := v])
      else OrderedMap(keys + [k], entries[k := v])
    }
  }

  function Empty<K(!new), V>(): OrderedMap<K, V>
  {
    OrderedMap([], map[])
  }

  /** The uids of the listing, in listing order, duplicates included. */
  function Uids(listing: seq<Product>): (us: seq<string>)
  {
    seq(|listing|, i requires 0 <= i < |listing| => listing[i].uid)
  }

  /** The position of the first occurrence of `x` in `s`. */
  function FirstIndex<T(==)>(s: seq<T>, x: T): (n: nat)
    requires x in s
    ensures n < |s| && s[n] == x && x !in s[..n]
  {
    if s[0] == x then 0
    else
      assert s == [s[0]] + s[1..];
      var n := 1 + FirstIndex(s[1..], x);
      assert s[..n] == [s[0]] + s[1..][..n - 1];
      n
  }

  lemma {:induction false} FirstIndexInPrefix<T>(s: seq<T>, t: seq<T>, x: T)
    requires x in s
    ensures x in s + t && FirstIndex(s + t, x) == FirstIndex(s, x)
  {
    if s[0] != x {
      assert s == [s[0]] + s[1..];
      assert (s + t)[1..] == s[1..] + t;
      FirstIndexInPrefix(s[1..], t, x);
    }
  }

  lemma {:induction false} FirstIndexOfNew<T>(s: seq<T>, x: T)
    requires x !in s
    ensures FirstIndex(s + [x], x) == |s|
  {
    if s != [] {
      assert (s + [x])[1..] == s[1..] + [x];
      FirstIndexOfNew(s[1..], x);
    }
  }

  /**
   * `keys` lists uids of `us`, and of any two keys the earlier one first
   * appears earlier in `us`.
   */
  ghost predicate InFirstAppearanceOrder(keys: seq<string>, us: seq<string>)
  {
    && (forall k | k in keys :: k in us)
    && (forall a, b :: 0 <= a < b < |keys| ==> FirstIndex(us, keys[a]) < FirstIndex(us, keys[b]))
  }

  lemma OrderKeptByLaterUids(keys: seq<string>, us: seq<string>, t: seq<string>)
    requires InFirstAppearanceOrder(keys, us)
    ensures InFirstAppearanceOrder(keys, us + t)
  {
    forall a | 0 <= a < |keys|
      ensures FirstIndex(us + t, keys[a]) == FirstIndex(us, keys[a])
    {
      FirstIndexInPrefix(us, t, keys[a]);
    }
  }

  lemma OrderKeptByNewUid(keys: seq<string>, us: seq<string>, u: string)
    requires InFirstAppearanceOrder(keys, us) && u !in us
    ensures InFirstAppearanceOrder(keys + [u], us + [u])
  {
    OrderKeptByLaterUids(keys, us, [u]);
    FirstIndexOfNew(us, u);
    var keys' := keys + [u];
    forall a, b | 0 <= a < b < |keys'|
      ensures FirstIndex(us + [u], keys'[a]) < FirstIndex(us + [u], keys'[b])
    {
      assert keys'[a] == keys[a];
      if b < |keys| {
        assert keys'[b] == keys[b];
      }
    }
  }

  /** The dictionary the listing loop leaves behind: one `update` per entry, in listing order. */
  function ProductMapOf(listing: seq<Product>): (m: OrderedMap<string, string>)
    ensures m.Valid()
  {
    if listing == [] then Empty()
    else
      var last := listing[|listing| - 1];
      ProductMapOf(listing[..|listing| - 1]).Put(last.uid, last.name)
  }

  /** There is exactly one key per distinct uid of the listing. */
  lemma {:induction false} ProductMapKeys(listing: seq<Product>)
    ensures forall u :: u in ProductMapOf(listing).entries <==> u in Uids(listing)
    ensures forall u :: u in ProductMapOf(listing).keys <==> u in Uids(listing)
  {
    if listing != [] {
      var n := |listing| - 1;
      ProductMapKeys(listing[..n]);
      assert Uids(listing) == Uids(listing[..n]) + [listing[n].uid];
    }
  }

  /** Each key holds the name of the LAST listing entry with that uid. */
  lemma {:induction false} ProductMapName(listing: seq<Product>, i: nat)
    requires i < |listing|
    requires forall j :: i < j < |listing| ==> listing[j].uid != listing[i].uid
    ensures listing[i].uid in ProductMapOf(listing).entries
    ensures ProductMapOf(listing).entries[listing[i].uid] == listing[i].name
  {
    var n := |listing| - 1;
    if i < n {
      ProductMapName(listing[..n], i);
    }
  }

  /** Iteration follows the order in which uids first appear in the listing. */
  lemma {:induction false} ProductMapOrder(listing: seq<Product>)
    ensures InFirstAppearanceOrder(ProductMapOf(listing).keys, Uids(listing))
  {
    if listing != [] {
      var n := |listing| - 1;
      var front := listing[..n];
      var u := listing[n].uid;
      ProductMapOrder(front);
      ProductMapKeys(front);
      assert Uids(listing) == Uids(front) + [u];
      if u in ProductMapOf(front).entries {
        OrderKeptByLaterUids(ProductMapOf(front).keys, Uids(front), [u]);
      } else {
        OrderKeptByNewUid(ProductMapOf(front).keys, Uids(front), u);
      }
    }
  }

  /**
   * The listing loop: one dictionary update per listing entry
   * (lambda_function.py:75-76).
   */
  method BuildProductMap(listing: seq<Product>) returns (productMetrics: OrderedMap<string, string>)
    ensures productMetrics == ProductMapOf(listing)
  {
    productMetrics := Empty();
    for i := 0 to |listing|
      invariant productMetrics == ProductMapOf(listing[..i])
    {
      assert listing[..i + 1][..i] == listing[..i];
      productMetrics := productMetrics.Put(listing[i].uid, listing[i].name);
    }
    assert listing[..|listing|] == listing;
  }

  /** The entries of the dictionary as products, in iteration order. */
  function Entries(m: OrderedMap<string, string>): (ps: seq<Product>)
    requires m.Valid()
    ensures |ps| == |m.keys|
    ensures forall i | 0 <= i < |ps| :: ps[i].uid == m.keys[i] && ps[i].uid in m.entries && ps[i].name == m.entries[m.keys[i]]
  {
    seq(|m.keys|, i requires 0 <= i < |m.keys| => Product(m.keys[i], m.entries[m.keys[i]]))
  }

  /** A sequence without repetitions has as many elements as the set of its elements. */
  lemma {:induction false} DistinctCardinality<T>(s: seq<T>)
    requires forall i, j :: 0 <= i < j < |s| ==> s[i] != s[j]
    ensures |set x | x in s| == |s|
  {
    if s != [] {
      var n := |s| - 1;
      DistinctCardinality(s[..n]);
      assert (set x | x in s) == (set x | x in s[..n]) + {s[n]};
      assert s[n] !in s[..n];
    }
  }

  /** The dictionary has exactly as many entries as the listing has distinct uids. */
  lemma ProductCount(listing: seq<Product>)
    ensures |ProductMapOf(listing).keys| == |set u | u in Uids(listing)|
  {
    var keys := ProductMapOf(listing).keys;
    ProductMapKeys(listing);
    DistinctCardinality(keys);
    assert (set u | u in keys) == (set u | u in Uids(listing));
  }
}
