/** Python's `dict` as the gateway uses it: a map that also remembers the order
    in which its keys were inserted, and the one eviction rule both in-memory
    tables share (first inserted, first evicted). */
module OrderedDict {
  import opened Wrappers

  datatype Dict<K(==), V> = Dict(keys: seq<K>, values: map<K, V>) {

    ghost predicate Valid() {
      && (forall i, j :: 0 <= i < j < |keys| ==> keys[i] != keys[j])
      && (forall k | k in keys :: k in values)
      && (forall k | k in values :: k in keys)
    }

    /** `d[k] = v`: a new key goes last, an existing key keeps its place. */
    function Set(k: K, v: V): Dict<K, V> {
      Dict(if k in values then keys else keys + [k], values[k := v])
    }

    /** `del d[next(iter(d))]` */
    function DelFirst(): Dict<K, V>
      requires |keys| > 0
    {
      Dict(keys[1..], values - {keys[0]})
    }

    /** Which key a bounded put of `k` evicts, if any. */
    function Victim(max: nat, k: K): Option<K>
      requires max >= 1
    {
      if k !in values && |keys| >= max then Some(keys[0]) else None
    }

    /** A put that first evicts the oldest key when a new key finds the table full. */
    function FifoPut(max: nat, k: K, v: V): Dict<K, V>
      requires max >= 1
    {
      (if Victim(max, k).Some? then DelFirst() else this).Set(k, v)
    }
  }

  function Empty<K(==), V>(): Dict<K, V> { Dict([], map[]) }

  /** The eviction both tables spell out before their `d[k] = v`. */
  method FifoInsert<K(==,!new), V>(d: Dict<K, V>, max: nat, k: K, v: V) returns (e: Dict<K, V>)
    requires d.Valid() && max >= 1 && |d.keys| <= max
    ensures e == d.FifoPut(max, k, v) && PutEffect(d, e, max, k, v)
  {
    FifoPutEffect(d, max, k, v);
    e := d;
    if k !in e.values && |e.keys| >= max {
      e := e.DelFirst();
    }
    e := e.Set(k, v);
  }

  /** What one bounded put does to the whole table: validity and the bound are
      kept, the new value is readable, the victim (and nothing else) is gone,
      every other entry and the relative order of the survivors are untouched. */
  ghost predicate PutEffect<K(!new), V>(d: Dict<K, V>, e: Dict<K, V>, max: nat, k: K, v: V)
    requires max >= 1
  {
    && e.Valid() && |e.keys| <= max
    && k in e.values && e.values[k] == v
    && (forall x :: x != k ==> (x in e.values <==> x in d.values && d.Victim(max, k) != Some(x)))
    && (forall x | x in e.values && x != k :: x in d.values && e.values[x] == d.values[x])
    && (k in d.values ==> e.keys == d.keys)
    && (k !in d.values ==> e.keys == (if |d.keys| == max then d.keys[1..] else d.keys) + [k])
  }

  lemma {:induction false} FifoPutEffect<K(!new), V>(d: Dict<K, V>, max: nat, k: K, v: V)
    requires d.Valid() && max >= 1 && |d.keys| <= max
    ensures PutEffect(d, d.FifoPut(max, k, v), max, k, v)
  {
  }
}
