/** The streaming key-zipper join (`IterKeyZipperIterDataPipe`, functional name
    `zip_with_iter`).

    One pass walks the source side in order. For each source item it computes the item's
    key and, while that key is not in an insertion-ordered buffer, pulls the next reference
    item and buffers it under its reference key. A reference key that is already buffered is
    an error; when `buffer_size` is set and the buffer already holds more than `buffer_size`
    entries, the oldest entry is evicted first (the first eviction of a pass warns). Once the
    key is buffered, its entry is popped and the join yields the pair, or the merge
    function's result, wrapped with the key when `keep_key` is set.

    `Pass` is the pass written as functions over the pass state; `Iterate` is the same pass
    written as torchdata writes it, with a nested loop over local state, and is proved to
    compute `Pass`. What a pass guarantees is proved about `Pass` in module
    IterKeyZipProofs. */
module IterKeyZip {
  import opened Common
  import opened OrderedBuffer

  /** The constructor's default `buffer_size`. */
  const DefaultBufferSize: int := 10000

  type Positive = n: int | n > 0 witness 1

  /** A constructed join: both input sides as finite sequences and the settings fixed at
      construction. Nothing here changes during a pass; each pass builds its own state. */
  datatype IterKeyZipper<!T, K, O> = IterKeyZipper(
    source: seq<T>,
    refSource: seq<T>,
    keyFn: T -> K,
    refKeyFn: T -> K,
    keepKey: bool,
    bufferSize: Option<Positive>,  // None: unbounded buffer
    mergeFn: Option<(T, T) -> O>)

  /** The constructor's `ValueError` for a `buffer_size` that is neither None nor positive. */
  datatype ConfigError = InvalidBufferSize

  /** `__init__`, with its defaults: no `ref_key_fn`, no `keep_key`, a `buffer_size` of
      `DefaultBufferSize` and no `merge_fn`. It rejects a non-positive `buffer_size` and
      lets `ref_key_fn` default to `key_fn`. */
  function New<T, K, O>(source: seq<T>, refSource: seq<T>, keyFn: T -> K,
                        refKeyFn: Option<T -> K> := None, keepKey: bool := false,
                        bufferSize: Option<int> := Some(DefaultBufferSize),
                        mergeFn: Option<(T, T) -> O> := None): (r: Result<IterKeyZipper<T, K, O>, ConfigError>)
    ensures r.Failure? <==> bufferSize.Some? && bufferSize.value <= 0
    ensures r.Success? ==>
      && r.value.source == source && r.value.refSource == refSource
      && r.value.keyFn == keyFn
      && r.value.refKeyFn == (if refKeyFn.None? then keyFn else refKeyFn.value)
      && r.value.keepKey == keepKey && r.value.mergeFn == mergeFn
      && (r.value.bufferSize.None? <==> bufferSize.None?)
      && (bufferSize.Some? ==> r.value.bufferSize.value as int == bufferSize.value)
  {
    if bufferSize.Some? && bufferSize.value <= 0 then Failure(InvalidBufferSize)
    else
      var size: Option<Positive> := if bufferSize.None? then None else Some(bufferSize.value);
      Success(IterKeyZipper(source, refSource, keyFn,
                            if refKeyFn.None? then keyFn else refKeyFn.value,
                            keepKey, size, mergeFn))
  }

  /** Given only its three required arguments, the join keys both sides with `key_fn`,
      yields plain pairs, and evicts once the buffer holds more than 10000 entries. */
  lemma NewDefaults<T, K, O>(source: seq<T>, refSource: seq<T>, keyFn: T -> K)
    ensures New<T, K, O>(source, refSource, keyFn)
         == Success(IterKeyZipper(source, refSource, keyFn, keyFn, false, Some(10000), None))
  {
  }

  /** `__len__`: the length of the source side, which is how many values a pass yields
      when it raises nothing. */
  function Len<T, K(==), O>(z: IterKeyZipper<T, K, O>): (n: nat)
    ensures Pass(z).error.None? <==> |Pass(z).outputs| == n
  {
    |z.source|
  }

  /** One yielded value: `res`, or `(key, res)` when `keep_key` is set. */
  datatype Yielded<K, T, O> = Plain(res: Merged<T, T, O>) | Keyed(key: K, res: Merged<T, T, O>)

  /** The exceptions a pass can raise: `BufferError` when the reference side runs out
      before the key of `data` is found, `ValueError` on a duplicate reference key. */
  datatype ZipError<T> = BufferError(data: T) | DuplicateKeyError

  /** The local state of one pass: the buffer (oldest entry first), the position of the
      reference iterator, `warn_once_flag`, and, as observations, how many times the
      warning was issued and how many entries were evicted. */
  datatype PassState<K, T> = PassState(
    buffer: seq<(K, T)>,
    cursor: nat,
    warnOnce: bool,
    warnings: nat,
    evictions: nat)

  /** What a pass yields before it ends, how it ends, and its state at that point. */
  datatype PassResult<K, T, O> = PassResult(
    outputs: seq<Yielded<K, T, O>>,
    error: Option<ZipError<T>>,
    state: PassState<K, T>)

  /** The state of the inner `while` loop when it stops, and the exception it stops with. */
  datatype FillResult<K, T> = FillResult(state: PassState<K, T>, error: Option<ZipError<T>>)

  /** Fresh state at the start of every pass. */
  function Start<K, T>(): PassState<K, T>
  {
    PassState([], 0, true, 0, 0)
  }

  /** What is yielded for `data` matched with `refItem`. */
  function Emit<T, K, O>(z: IterKeyZipper<T, K, O>, data: T, refItem: T): (y: Yielded<K, T, O>)
    ensures y.res == Combine(z.mergeFn, data, refItem)
    ensures y.Keyed? <==> z.keepKey
    ensures y.Keyed? ==> y.key == z.keyFn(data)
  {
    var res := Combine(z.mergeFn, data, refItem);
    if z.keepKey then Keyed(z.keyFn(data), res) else Plain(res)
  }

  /** Buffering a pulled reference item whose key is not yet buffered: first, when the
      buffer already holds more than `buffer_size` entries, the oldest one is evicted (the
      warning is issued only while `warn_once_flag` is still set); then the item is appended. */
  function Insert<T, K, O>(z: IterKeyZipper<T, K, O>, st: PassState<K, T>, refKey: K, refData: T): PassState<K, T>
  {
    var evict := z.bufferSize.Some? && |st.buffer| > z.bufferSize.value;
    PassState(
      (if evict then st.buffer[1..] else st.buffer) + [(refKey, refData)],
      st.cursor,
      st.warnOnce && !evict,
      if evict && st.warnOnce then st.warnings + 1 else st.warnings,
      if evict then st.evictions + 1 else st.evictions)
  }

  /** The inner loop: pull reference items until `key` is buffered. */
  function Fill<T, K(==), O>(z: IterKeyZipper<T, K, O>, key: K, data: T, st: PassState<K, T>): (r: FillResult<K, T>)
    ensures r.error.None? ==> Has(r.state.buffer, key)
    ensures st.cursor <= r.state.cursor
    ensures st.cursor <= |z.refSource| ==> r.state.cursor <= |z.refSource|
    decreases |z.refSource| - st.cursor
  {
    if Has(st.buffer, key) then FillResult(st, None)
    else if st.cursor >= |z.refSource| then FillResult(st, Some(BufferError(data)))
    else
      var refData := z.refSource[st.cursor];
      var refKey := z.refKeyFn(refData);
      var pulled := st.(cursor := st.cursor + 1);
      if Has(st.buffer, refKey) then FillResult(pulled, Some(DuplicateKeyError))
      else Fill(z, key, data, Insert(z, pulled, refKey, refData))
  }

  /** The outer loop from source position `i` on, with `outputs` yielded so far. */
  function Run<T, K(==), O>(z: IterKeyZipper<T, K, O>, i: nat, st: PassState<K, T>,
                            outputs: seq<Yielded<K, T, O>>): (r: PassResult<K, T, O>)
    requires i <= |z.source|
    ensures |outputs| <= |r.outputs| <= |outputs| + (|z.source| - i)
    ensures r.error.None? <==> |r.outputs| == |outputs| + (|z.source| - i)
    decreases |z.source| - i
  {
    if i == |z.source| then PassResult(outputs, None, st)
    else
      var data := z.source[i];
      var key := z.keyFn(data);
      var f := Fill(z, key, data, st);
      if f.error.Some? then PassResult(outputs, f.error, f.state)
      else
        var (refItem, rest) := Pop(f.state.buffer, key);
        Run(z, i + 1, f.state.(buffer := rest), outputs + [Emit(z, data, refItem)])
  }

  /** One pass (`__iter__`) run to its end. */
  function Pass<T, K(==), O>(z: IterKeyZipper<T, K, O>): (r: PassResult<K, T, O>)
    ensures |r.outputs| <= |z.source|
    ensures r.error.None? <==> |r.outputs| == |z.source|
  {
    Run(z, 0, Start(), [])
  }

  /** The inner `while` loop of `__iter__` as torchdata writes it, on the pass's local
      state: pull reference items until `key` is buffered. */
  method FillBuffer<T, K(==), O>(z: IterKeyZipper<T, K, O>, key: K, data: T, st: PassState<K, T>)
    returns (f: FillResult<K, T>)
    requires st.cursor <= |z.refSource|
    ensures f == Fill(z, key, data, st)
  {
    var s := st;
    while !Has(s.buffer, key)
      invariant s.cursor <= |z.refSource|
      invariant Fill(z, key, data, s) == Fill(z, key, data, st)
      decreases |z.refSource| - s.cursor
    {
      if s.cursor >= |z.refSource| {
        return FillResult(s, Some(BufferError(data)));
      }
      var refData := z.refSource[s.cursor];
      var refKey := z.refKeyFn(refData);
      s := s.(cursor := s.cursor + 1);
      if Has(s.buffer, refKey) {
        return FillResult(s, Some(DuplicateKeyError));
      }
      if z.bufferSize.Some? && |s.buffer| > z.bufferSize.value {
        if s.warnOnce {
          s := s.(warnOnce := false, warnings := s.warnings + 1);
        }
        s := s.(buffer := s.buffer[1..], evictions := s.evictions + 1);
      }
      s := s.(buffer := s.buffer + [(refKey, refData)]);
    }
    f := FillResult(s, None);
  }

  /** `__iter__` as torchdata writes it: a `for` loop over the source that runs the inner
      loop (`FillBuffer`) for each item, pops the match and yields, on local state. */
  method Iterate<T, K(==), O>(z: IterKeyZipper<T, K, O>) returns (r: PassResult<K, T, O>)
    ensures r == Pass(z)
  {
    var st: PassState<K, T> := Start();
    var outputs: seq<Yielded<K, T, O>> := [];
    for i := 0 to |z.source|
      invariant st.cursor <= |z.refSource|
      invariant Run(z, i, st, outputs) == Pass(z)
    {
      var data := z.source[i];
      var key := z.keyFn(data);
      var f := FillBuffer(z, key, data, st);
      if f.error.Some? {
        return PassResult(outputs, f.error, f.state);
      }
      var (refItem, rest) := Pop(f.state.buffer, key);
      st := f.state.(buffer := rest);
      var res := Combine(z.mergeFn, data, refItem);
      outputs := outputs + [if z.keepKey then Keyed(key, res) else Plain(res)];
    }
    r := PassResult(outputs, None, st);
  }
}
