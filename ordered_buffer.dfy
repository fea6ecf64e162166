/** The insertion-ordered dictionary the streaming join buffers reference items in
    (Python's `OrderedDict`), as a sequence of key/value entries, oldest first.
    Only the operations the join uses are modelled: membership, insertion of a new key
    at the end, removal of the oldest entry and removal of the entry under a given key. */
module OrderedBuffer {

  /** The key of entry `i`. */
  function KeyAt<K, V>(b: seq<(K, V)>, i: nat): K
    requires i < |b|
  {
    b[i].0
  }

  /** `k in buffer`. */
  predicate Has<K(==), V>(b: seq<(K, V)>, k: K)
  {
    exists i :: 0 <= i < |b| && KeyAt(b, i) == k
  }

  /** An entry's key is held. */
  lemma HasAt<K, V>(b: seq<(K, V)>, i: nat)
    requires i < |b|
    ensures Has(b, b[i].0)
  {
    assert KeyAt(b, i) == b[i].0;
  }

  /** A key that is not held is the key of no entry. */
  lemma NotHas<K, V>(b: seq<(K, V)>, k: K)
    requires !Has(b, k)
    ensures forall i :: 0 <= i < |b| ==> b[i].0 != k
  {
    forall i | 0 <= i < |b| ensures b[i].0 != k {
      assert KeyAt(b, i) == b[i].0;
    }
  }

  /** A key that is the key of no entry is not held. */
  lemma NoEntryHas<K, V>(b: seq<(K, V)>, k: K)
    requires forall i :: 0 <= i < |b| ==> b[i].0 != k
    ensures !Has(b, k)
  {
  }

  /** A dictionary holds each key at most once. */
  ghost predicate DistinctKeys<K, V>(b: seq<(K, V)>)
  {
    forall i, j :: 0 <= i < j < |b| ==> b[i].0 != b[j].0
  }

  /** Position of the (first) entry stored under `k`. */
  function IndexOf<K(==), V>(b: seq<(K, V)>, k: K): (i: nat)
    requires Has(b, k)
    ensures i < |b| && b[i].0 == k
    ensures forall j :: 0 <= j < i ==> b[j].0 != k
  {
    if b[0].0 == k then 0
    else
      assert Has(b[1..], k) by {
        var w :| 0 <= w < |b| && KeyAt(b, w) == k;
        assert KeyAt(b[1..], w - 1) == k;
      }
      1 + IndexOf(b[1..], k)
  }

  /** `buffer.pop(k)`: the value stored under `k`, and the dictionary without that entry.
      Every other entry stays, in its original insertion order. */
  function Pop<K(==), V>(b: seq<(K, V)>, k: K): (r: (V, seq<(K, V)>))
    requires Has(b, k)
    ensures exists i :: 0 <= i < |b| && b[i] == (k, r.0)
    ensures |r.1| == |b| - 1
    ensures forall j :: 0 <= j < IndexOf(b, k) ==> r.1[j] == b[j]
    ensures forall j :: IndexOf(b, k) <= j < |r.1| ==> r.1[j] == b[j + 1]
    ensures DistinctKeys(b) ==> DistinctKeys(r.1) && !Has(r.1, k)
  {
    var i := IndexOf(b, k);
    var rest := b[..i] + b[i + 1..];
    assert forall j :: 0 <= j < |rest| ==> rest[j] == if j < i then b[j] else b[j + 1];
    (b[i].1, rest)
  }

  /** A pop leaves every other key where it was: held afterwards exactly when held before. */
  lemma PopKeepsOtherKeys<K, V>(b: seq<(K, V)>, k: K, k': K)
    requires Has(b, k) && k' != k
    ensures Has(Pop(b, k).1, k') <==> Has(b, k')
  {
    var i, rest := IndexOf(b, k), Pop(b, k).1;
    if Has(b, k') {
      var w :| 0 <= w < |b| && KeyAt(b, w) == k';
      assert KeyAt(rest, if w < i then w else w - 1) == k';
    }
    if Has(rest, k') {
      var w :| 0 <= w < |rest| && KeyAt(rest, w) == k';
      assert KeyAt(b, if w < i then w else w + 1) == k';
    }
  }

  /** Appending an entry under a key the dictionary does not hold keeps keys distinct and
      adds exactly that key. */
  lemma AppendNew<K, V>(b: seq<(K, V)>, k: K, v: V)
    requires DistinctKeys(b) && forall i :: 0 <= i < |b| ==> b[i].0 != k
    ensures DistinctKeys(b + [(k, v)])
    ensures forall k' :: Has(b + [(k, v)], k') <==> Has(b, k') || k' == k
  {
    var n := b + [(k, v)];
    assert KeyAt(n, |b|) == k;
    forall k' ensures Has(n, k') <==> Has(b, k') || k' == k {
      if Has(b, k') {
        var w :| 0 <= w < |b| && KeyAt(b, w) == k';
        assert KeyAt(n, w) == k';
      }
      if Has(n, k') && k' != k {
        var w :| 0 <= w < |n| && KeyAt(n, w) == k';
        assert KeyAt(b, w) == k';
      }
    }
  }

  /** Dropping the oldest entries keeps keys distinct. */
  lemma DropOldest<K, V>(b: seq<(K, V)>, d: nat)
    requires DistinctKeys(b) && d <= |b|
    ensures DistinctKeys(b[d..])
  {
  }
}
