/** The repository discipline shared by every collection: a string-keyed map
    read with `Find`, written with `Insert`, read-modify-written with `Modify`
    and a key removed with `Remove`. Error messages are parameters, since
    each collection words its own. */
module Repository {
  import opened Wrappers

  /** Every stored record sits under its own identifier. */
  ghost predicate KeyedBy<T>(m: map<string, T>, idOf: T -> string) {
    forall k :: k in m ==> idOf(m[k]) == k
  }

  /** `values` lists the store in the key order `order`, which names every key
      exactly once. The order itself is left open: it is the backing tree's. */
  ghost predicate Enumerates<T>(m: map<string, T>, order: seq<string>, values: seq<T>) {
    && |values| == |order|
    && (forall i, j :: 0 <= i < j < |order| ==> order[i] != order[j])
    && (forall k :: k in m ==> k in order)
    && (forall i :: 0 <= i < |order| ==> order[i] in m && values[i] == m[order[i]])
  }

  function Find<T>(m: map<string, T>, id: string, notFound: string): (r: Result<T, string>) {
    if id in m then Ok(m[id]) else Err(notFound)
  }

  function Insert<T>(m: map<string, T>, id: string, v: T): (m': map<string, T>) {
    m[id := v]
  }

  /** Reads the record under `id`, merges, writes the merge back and returns it. */
  function Modify<T>(m: map<string, T>, id: string, merge: T -> T, failed: string)
    : (r: (Result<T, string>, map<string, T>))
  {
    if id in m then
      var merged := merge(m[id]);
      (Ok(merged), m[id := merged])
    else
      (Err(failed), m)
  }

  function Remove<T>(m: map<string, T>, id: string, failed: string)
    : (r: (Result<T, string>, map<string, T>))
  {
    if id in m then (Ok(m[id]), m - {id}) else (Err(failed), m)
  }

  /** The store's `values()`: every stored record, once per key, in an order
      the model does not fix. `order` only names that order for the contract. */
  method List<T(==)>(m: map<string, T>) returns (values: seq<T>, ghost order: seq<string>)
    ensures Enumerates(m, order, values)
    ensures |values| == |m|
    ensures forall v :: v in values <==> v in m.Values
  {
    var rest := m.Keys;
    values, order := [], [];
    while rest != {}
      invariant rest <= m.Keys
      invariant |values| == |order|
      invariant forall i, j :: 0 <= i < j < |order| ==> order[i] != order[j]
      invariant forall i :: 0 <= i < |order| ==> order[i] in m && order[i] !in rest && values[i] == m[order[i]]
      invariant forall k :: k in m && k !in rest ==> k in order
      decreases rest
    {
      var k :| k in rest;
      order := order + [k];
      values := values + [m[k]];
      rest := rest - {k};
    }
    ListingIsTheStore(m, order, values);
  }

  /** A duplicate-free sequence has as many elements as the set it covers. */
  lemma {:induction false} DistinctCover<K>(order: seq<K>, keys: set<K>)
    requires forall i, j :: 0 <= i < j < |order| ==> order[i] != order[j]
    requires forall k :: k in keys <==> k in order
    ensures |order| == |keys|
  {
    if order != [] {
      var rest := keys - {order[0]};
      forall k | k in rest
        ensures k in order[1..]
      {
        var i :| 0 <= i < |order| && order[i] == k;
        assert i != 0;
        assert order[1..][i - 1] == k;
      }
      DistinctCover(order[1..], rest);
    }
  }

  /** A listing holds exactly the stored records, one per key. */
  lemma ListingIsTheStore<T>(m: map<string, T>, order: seq<string>, values: seq<T>)
    requires Enumerates(m, order, values)
    ensures |values| == |m|
    ensures forall v :: v in values <==> v in m.Values
  {
    DistinctCover(order, m.Keys);
    forall v | v in m.Values
      ensures v in values
    {
      var k :| k in m && m[k] == v;
      var i :| 0 <= i < |order| && order[i] == k;
      assert values[i] == v;
    }
  }
}
