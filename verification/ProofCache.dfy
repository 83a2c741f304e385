/** The bounded proof cache: payment hash to proof bytes, first inserted first
    evicted. It refines an unbounded map restricted to the most recent insertions. */
module ProofCache {
  import opened OrderedDict

  const PROOF_CACHE_MAX: nat := 10_000

  class Cache<K(==,!new), V> {
    var entries: Dict<K, V>
    const max: nat := PROOF_CACHE_MAX

    ghost predicate Valid()
      reads this
    {
      entries.Valid() && |entries.keys| <= max
    }

    constructor ()
      ensures Valid() && entries == Empty()
    {
      entries := Empty();
    }

    method Put(k: K, v: V)
      requires Valid()
      modifies this`entries
      ensures Valid()
      ensures entries == old(entries).FifoPut(max, k, v)
    {
      entries := FifoInsert(entries, max, k, v);
    }
  }

  datatype Entry<K, V> = Entry(key: K, value: V)

  /** The cache after a history of puts into an empty cache. */
  function PutAll<K(==), V>(puts: seq<Entry<K, V>>, max: nat): Dict<K, V>
    requires max >= 1
  {
    if puts == [] then Empty()
    else
      var last := puts[|puts| - 1];
      PutAll(puts[..|puts| - 1], max).FifoPut(max, last.key, last.value)
  }

  /** The unbounded map the cache approximates: the last value put per key. */
  function Latest<K(==), V>(puts: seq<Entry<K, V>>): map<K, V> {
    if puts == [] then map[]
    else Latest(puts[..|puts| - 1])[puts[|puts| - 1].key := puts[|puts| - 1].value]
  }

  /** The insertions among the puts: those that found their key absent. */
  function Insertions<K(==), V>(puts: seq<Entry<K, V>>, max: nat): seq<K>
    requires max >= 1
  {
    if puts == [] then []
    else
      var before := puts[..|puts| - 1];
      var k := puts[|puts| - 1].key;
      if k in PutAll(before, max).values then Insertions(before, max) else Insertions(before, max) + [k]
  }

  /** `keys` are the (at most `max`) last elements of `log`. */
  ghost predicate MostRecent<K>(keys: seq<K>, log: seq<K>, max: nat) {
    && |keys| == (if |log| < max then |log| else max)
    && keys == log[|log| - |keys|..]
  }

  lemma {:induction false} StaysValid<K(!new), V>(puts: seq<Entry<K, V>>, max: nat)
    requires max >= 1
    ensures PutAll(puts, max).Valid() && |PutAll(puts, max).keys| <= max
  {
    if puts != [] {
      var last := puts[|puts| - 1];
      StaysValid(puts[..|puts| - 1], max);
      FifoPutEffect(PutAll(puts[..|puts| - 1], max), max, last.key, last.value);
    }
  }

  /** After any history the cache holds exactly the `max` most recent
      insertions, in insertion order: overwrites keep their place and evict nothing. */
  lemma {:induction false} HoldsMostRecentInsertions<K(!new), V>(puts: seq<Entry<K, V>>, max: nat)
    requires max >= 1
    ensures MostRecent(PutAll(puts, max).keys, Insertions(puts, max), max)
  {
    if puts != [] {
      var before, last := puts[..|puts| - 1], puts[|puts| - 1];
      HoldsMostRecentInsertions(before, max);
      StaysValid(before, max);
      FifoPutEffect(PutAll(before, max), max, last.key, last.value);
      if last.key !in PutAll(before, max).values {
        MostRecentStep(Insertions(before, max), PutAll(before, max).keys, max, last.key);
      }
    }
  }

  /** Every hit is the last value put for that key. */
  lemma {:induction false} HitsAreLatest<K(!new), V>(puts: seq<Entry<K, V>>, max: nat, k: K)
    requires max >= 1 && k in PutAll(puts, max).values
    ensures k in Latest(puts) && PutAll(puts, max).values[k] == Latest(puts)[k]
  {
    if puts != [] {
      var before, last := puts[..|puts| - 1], puts[|puts| - 1];
      StaysValid(before, max);
      FifoPutEffect(PutAll(before, max), max, last.key, last.value);
      if k != last.key {
        HitsAreLatest(before, max, k);
      }
    }
  }

  lemma MostRecentStep<K>(log: seq<K>, keys: seq<K>, max: nat, k: K)
    requires max >= 1 && MostRecent(keys, log, max)
    ensures MostRecent((if |keys| == max then keys[1..] else keys) + [k], log + [k], max)
  {
  }
}
