/** The lookup join (`MapKeyZipperIterDataPipe`, functional name `zip_with_map`): each
    source item's key is looked up in a keyed collection, and the join yields the item
    merged with the value found, in source order. A missing key ends the pass with a
    `KeyError` that names both the item and its key. `__len__` caches the source's
    length in the `length` field. */
module MapKeyZip {
  import opened Common

  /** The join's own `KeyError`, raised in place of the collection's `KeyError` or
      `IndexError` for a key it does not hold. */
  datatype LookupError<T, K> = KeyError(item: T, key: K)

  /** What one pass yields before it ends, and the exception it ends with, if any. */
  datatype Trace<Y, E> = Trace(items: seq<Y>, error: Option<E>)

  /** One pass of `__iter__` over `source`, looking keys up in `mapping`. */
  function LookupJoin<T, K(==), V, O>(source: seq<T>, mapping: map<K, V>, keyFn: T -> K,
                                     mergeFn: Option<(T, V) -> O>): (r: Trace<Merged<T, V, O>, LookupError<T, K>>)
    ensures |r.items| <= |source|
    ensures r.error.None? <==> |r.items| == |source|
    ensures forall n :: 0 <= n < |r.items| ==>
      keyFn(source[n]) in mapping && r.items[n] == Combine(mergeFn, source[n], mapping[keyFn(source[n])])
    ensures r.error.Some? ==>
      && keyFn(source[|r.items|]) !in mapping
      && r.error.value == KeyError(source[|r.items|], keyFn(source[|r.items|]))
  {
    if source == [] then Trace([], None)
    else
      var key := keyFn(source[0]);
      if key !in mapping then Trace([], Some(KeyError(source[0], key)))
      else
        var rest := LookupJoin(source[1..], mapping, keyFn, mergeFn);
        Trace([Combine(mergeFn, source[0], mapping[key])] + rest.items, rest.error)
  }

  /** A pass ends without an exception exactly when every source key is in the mapping;
      otherwise it stops at the first source item whose key is missing. */
  lemma LookupJoinTotal<T, K, V, O>(source: seq<T>, mapping: map<K, V>, keyFn: T -> K,
                                    mergeFn: Option<(T, V) -> O>)
    ensures var r := LookupJoin(source, mapping, keyFn, mergeFn);
      && (r.error.None? <==> forall n :: 0 <= n < |source| ==> keyFn(source[n]) in mapping)
      && (r.error.Some? ==> forall n :: 0 <= n < |r.items| ==> keyFn(source[n]) in mapping)
  {
  }

  function First(t: (string, int)): string { t.0 }

  function AddValue(t: (string, int), v: int): (string, int) { (t.0, t.1 + v) }

  /** The docstring example: each source pair picks up the value stored under its first
      component; the entry under "d" is never asked for. */
  lemma DocExample()
    ensures LookupJoin([("a", 1), ("b", 2), ("c", 3)],
                       map["a" := 100, "b" := 200, "c" := 300, "d" := 400],
                       First, Some(AddValue)).items
            == [Merge(("a", 101)), Merge(("b", 202)), Merge(("c", 303))]
  {
  }

  /** A key the collection does not hold ends the pass at that item. */
  lemma MissingKeyExample()
    ensures LookupJoin([("a", 1), ("x", 2), ("c", 3)],
                       map["a" := 100, "c" := 300], First, Some(AddValue))
            == Trace([Merge(("a", 101))], Some(KeyError(("x", 2), "x")))
  {
  }

  /** A constructed lookup join. The inputs and functions are fixed at construction;
      `length` is the cache of `__len__`, -1 until first computed. */
  class MapKeyZipper<T, K(==), V, O> {
    const source: seq<T>
    const mapping: map<K, V>
    const keyFn: T -> K
    const mergeFn: Option<(T, V) -> O>
    var length: int

    ghost predicate Valid()
      reads this
    {
      length >= -1
    }

    /** `__init__`; `merge_fn` defaults to none, so that the join yields plain pairs. */
    constructor (source: seq<T>, mapping: map<K, V>, keyFn: T -> K, mergeFn: Option<(T, V) -> O> := None)
      ensures Valid()
      ensures this.source == source && this.mapping == mapping
      ensures this.keyFn == keyFn && this.mergeFn == mergeFn
      ensures length == -1
    {
      this.source := source;
      this.mapping := mapping;
      this.keyFn := keyFn;
      this.mergeFn := mergeFn;
      length := -1;
    }

    /** `__iter__`: the pass, which does not depend on the length cache. It raises nothing
        exactly when every source key is in the collection, and then yields one value per
        source item. */
    function Iter(): (r: Trace<Merged<T, V, O>, LookupError<T, K>>)
      ensures r.error.None? <==> forall n :: 0 <= n < |source| ==> keyFn(source[n]) in mapping
      ensures r.error.None? ==> |r.items| == |source|
    {
      LookupJoinTotal(source, mapping, keyFn, mergeFn);
      LookupJoin(source, mapping, keyFn, mergeFn)
    }

    /** `__len__`. `reported` is what `len` of the source answers at this call, None when
        it raises; the first answer is cached and every later call returns it. */
    method Len(reported: Option<nat>) returns (r: Option<nat>)
      requires Valid()
      modifies this
      ensures Valid()
      ensures old(length) != -1 ==> r == Some(old(length)) && length == old(length)
      ensures old(length) == -1 ==> r == reported && length == (if reported.Some? then reported.value else -1)
    {
      if length == -1 {
        if reported.None? {
          return None;
        }
        length := reported.value;
      }
      r := Some(length);
    }
  }

  /** Callers see the cache: once a length is reported, later answers of the source no
      longer matter. */
  method LenIsCached<T, K(==), V, O>(z: MapKeyZipper<T, K, V, O>, first: nat, later: Option<nat>)
    returns (a: Option<nat>, b: Option<nat>)
    requires z.Valid() && z.length == -1
    modifies z
    ensures a == Some(first) && b == Some(first)
  {
    a := z.Len(Some(first));
    b := z.Len(later);
  }
}
