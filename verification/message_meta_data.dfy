/**
 * MetaData: an immutable map from string keys to opaque values, carried by every
 * message. Operations that look like updates build a new value.
 */
module MessageMetaData {
  import opened Results

  datatype MetaData<V> = MetaData(entries: map<string, V>)

  /** The empty MetaData (`MetaData.emptyInstance()`). */
  function Empty<V>(): MetaData<V>
  {
    MetaData(map[])
  }

  /** The value stored under `key`, if any. */
  function Lookup<V>(md: MetaData<V>, key: string): Option<V>
  {
    if key in md.entries then Some(md.entries[key]) else None
  }

  /** True when no key is held by both operands. */
  predicate Disjoint<V>(a: MetaData<V>, b: MetaData<V>)
  {
    a.entries.Keys !! b.entries.Keys
  }

  /** `MetaData.from(map)`: a snapshot holding exactly the pairs of `m`. */
  function From<V>(m: map<string, V>): (md: MetaData<V>)
    ensures md.entries.Keys == m.Keys
    ensures forall k :: Lookup(md, k) == (if k in m then Some(m[k]) else None)
  {
    MetaData(m)
  }

  /**
   * `mergedWith`: every key of either operand is kept, and a key held by only one
   * operand keeps that operand's value. Which value a key held by both operands
   * keeps is deliberately left unstated.
   */
  function MergedWith<V>(md: MetaData<V>, other: MetaData<V>): (r: MetaData<V>)
    ensures r.entries.Keys == md.entries.Keys + other.entries.Keys
    ensures forall k :: k in md.entries && k !in other.entries ==> Lookup(r, k) == Lookup(md, k)
    ensures forall k :: k in other.entries && k !in md.entries ==> Lookup(r, k) == Lookup(other, k)
  {
    MetaData(md.entries + other.entries)
  }

  /** `MetaData.from` of a one-entry map holds exactly that key with that value. */
  lemma FromSingleton<V>(key: string, value: V)
    ensures From(map[key := value]).entries.Keys == {key}
    ensures Lookup(From(map[key := value]), key) == Some(value)
  {
  }

  /** Over disjoint keys, each key of the merge takes its value from whichever operand holds it. */
  lemma MergeDisjointPointwise<V>(a: MetaData<V>, b: MetaData<V>, k: string)
    requires Disjoint(a, b)
    ensures Lookup(MergedWith(a, b), k) == (if k in a.entries then Lookup(a, k) else Lookup(b, k))
  {
  }

  /** Over disjoint keys, the order of the operands does not matter. */
  lemma MergeDisjointCommutes<V>(a: MetaData<V>, b: MetaData<V>)
    requires Disjoint(a, b)
    ensures MergedWith(a, b) == MergedWith(b, a)
  {
    forall k | k in a.entries || k in b.entries
      ensures Lookup(MergedWith(a, b), k) == Lookup(MergedWith(b, a), k)
    {
      MergeDisjointPointwise(a, b, k);
      MergeDisjointPointwise(b, a, k);
    }
    assert MergedWith(a, b).entries == MergedWith(b, a).entries;
  }

  /** The empty MetaData is an identity for merging, on either side. */
  lemma MergeEmptyIdentity<V>(a: MetaData<V>)
    ensures MergedWith(a, Empty()) == a
    ensures MergedWith(Empty(), a) == a
  {
    assert MergedWith(Empty(), a).entries == a.entries;
  }

  /** Repeated merges in a fixed order give the same result however they are grouped. */
  lemma MergeAssociative<V>(a: MetaData<V>, b: MetaData<V>, c: MetaData<V>)
    ensures MergedWith(MergedWith(a, b), c) == MergedWith(a, MergedWith(b, c))
  {
    assert MergedWith(MergedWith(a, b), c).entries == MergedWith(a, MergedWith(b, c)).entries;
  }
}
