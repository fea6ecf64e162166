/** What one pass of the streaming join guarantees, proved about `IterKeyZip.Pass` (and so,
    through `IterKeyZip.Iterate`'s postcondition, about the loop the source runs). */
module IterKeyZipProofs {
  import opened Common
  import opened OrderedBuffer
  import opened IterKeyZip

  /** `x` is one of the first `c` reference items, i.e. the pass has pulled it. */
  ghost predicate Pulled<T, K, O>(z: IterKeyZipper<T, K, O>, x: T, c: nat)
  {
    exists j :: 0 <= j < c && j < |z.refSource| && z.refSource[j] == x
  }

  /** What holds of the pass state at every step of a pass. */
  ghost predicate Inv<T, K, O>(z: IterKeyZipper<T, K, O>, st: PassState<K, T>)
  {
    && st.cursor <= |z.refSource|
    && DistinctKeys(st.buffer)
    // every buffered entry is a pulled reference item stored under its reference key
    && (forall e :: 0 <= e < |st.buffer| ==>
          st.buffer[e].0 == z.refKeyFn(st.buffer[e].1) && Pulled(z, st.buffer[e].1, st.cursor))
    // eviction is checked before insertion, so one entry more than buffer_size can be held
    && (z.bufferSize.Some? ==> |st.buffer| <= z.bufferSize.value + 1)
    && (z.bufferSize.None? ==> st.evictions == 0)
    // the warning is issued on the first eviction and never again
    && st.warnOnce == (st.evictions == 0)
    && st.warnings == (if st.evictions == 0 then 0 else 1)
  }

  /** The entries the pass buffers for reference items `a` up to `b`, in pull order. */
  ghost function Entries<T, K, O>(z: IterKeyZipper<T, K, O>, a: nat, b: nat): (r: seq<(K, T)>)
    requires a <= b <= |z.refSource|
    ensures |r| == b - a
    decreases b - a
  {
    if a == b then [] else [(z.refKeyFn(z.refSource[a]), z.refSource[a])] + Entries(z, a + 1, b)
  }

  ghost predicate IsDuplicate<T>(e: Option<ZipError<T>>)
  {
    e.Some? && e.value.DuplicateKeyError?
  }

  ghost predicate IsBufferError<T>(e: Option<ZipError<T>>)
  {
    e.Some? && e.value.BufferError?
  }

  lemma InsertKeepsInv<T, K, O>(z: IterKeyZipper<T, K, O>, st: PassState<K, T>)
    requires Inv(z, st) && st.cursor < |z.refSource|
    requires !Has(st.buffer, z.refKeyFn(z.refSource[st.cursor]))
    ensures var n := Insert(z, st.(cursor := st.cursor + 1), z.refKeyFn(z.refSource[st.cursor]), z.refSource[st.cursor]);
      && Inv(z, n)
      && |n.buffer| + n.evictions == |st.buffer| + st.evictions + 1
  {
    var x := z.refSource[st.cursor];
    var pulled := st.(cursor := st.cursor + 1);
    var n := Insert(z, pulled, z.refKeyFn(x), x);
    var evict := z.bufferSize.Some? && |st.buffer| > z.bufferSize.value;
    var kept := if evict then st.buffer[1..] else st.buffer;
    DropOldest(st.buffer, if evict then 1 else 0);
    NotHas(st.buffer, z.refKeyFn(x));
    AppendNew(kept, z.refKeyFn(x), x);
    forall e | 0 <= e < |n.buffer|
      ensures n.buffer[e].0 == z.refKeyFn(n.buffer[e].1) && Pulled(z, n.buffer[e].1, n.cursor)
    {
      if e < |kept| {
        var d := if evict then 1 else 0;
        assert n.buffer[e] == st.buffer[e + d];
        var j :| 0 <= j < st.cursor && j < |z.refSource| && z.refSource[j] == st.buffer[e + d].1;
        assert 0 <= j < n.cursor;
      } else {
        assert n.buffer[e] == (z.refKeyFn(x), x);
        assert z.refSource[st.cursor] == x;
      }
    }
  }

  /** The inner loop keeps the invariant, and every pulled reference item is accounted for:
      it is still buffered, was evicted, or (on a duplicate key) was dropped. */
  lemma {:induction false} FillKeepsInv<T, K, O>(z: IterKeyZipper<T, K, O>, key: K, data: T, st: PassState<K, T>)
    requires Inv(z, st)
    ensures var r := Fill(z, key, data, st);
      && Inv(z, r.state)
      && st.cursor <= r.state.cursor
      && st.evictions <= r.state.evictions
      && r.state.cursor + |st.buffer| + st.evictions
         == st.cursor + |r.state.buffer| + r.state.evictions + (if IsDuplicate(r.error) then 1 else 0)
    decreases |z.refSource| - st.cursor
  {
    if !Has(st.buffer, key) && st.cursor < |z.refSource| {
      var refData := z.refSource[st.cursor];
      var refKey := z.refKeyFn(refData);
      if !Has(st.buffer, refKey) {
        InsertKeepsInv(z, st);
        FillKeepsInv(z, key, data, Insert(z, st.(cursor := st.cursor + 1), refKey, refData));
      }
    }
  }

  /** The reference side is pulled lazily: nothing is pulled when the key is already
      buffered, and otherwise items are pulled up to and including the first one carrying
      the key, and no further. On an error, none of the pulled items carried the key. */
  lemma {:induction false} FillIsLazy<T, K, O>(z: IterKeyZipper<T, K, O>, key: K, data: T, st: PassState<K, T>)
    requires st.cursor <= |z.refSource|
    ensures var r := Fill(z, key, data, st);
      && (Has(st.buffer, key) ==> r == FillResult(st, None))
      && (!Has(st.buffer, key) && r.error.None? ==> st.cursor < r.state.cursor)
      && st.cursor <= r.state.cursor
      && (forall c :: st.cursor <= c < r.state.cursor ==>
            (z.refKeyFn(z.refSource[c]) == key <==> r.error.None? && c == r.state.cursor - 1))
    decreases |z.refSource| - st.cursor
  {
    if !Has(st.buffer, key) && st.cursor < |z.refSource| {
      var refData := z.refSource[st.cursor];
      var refKey := z.refKeyFn(refData);
      if !Has(st.buffer, refKey) {
        var n := Insert(z, st.(cursor := st.cursor + 1), refKey, refData);
        assert n.buffer[|n.buffer| - 1] == (refKey, refData);
        if refKey != key {
          var d := if |n.buffer| == |st.buffer| then 1 else 0;
          NotHas(st.buffer, key);
          forall e | 0 <= e < |n.buffer| ensures n.buffer[e].0 != key {
            if e < |n.buffer| - 1 {
              assert n.buffer[e] == st.buffer[e + d];
            }
          }
          NoEntryHas(n.buffer, key);
        } else {
          HasAt(n.buffer, |n.buffer| - 1);
        }
        FillIsLazy(z, key, data, n);
      }
    }
  }

  /** The inner loop's two ways to fail. `BufferError` names the source item and comes only
      once the reference side is exhausted; `ValueError` comes when the item just pulled has
      a key the buffer already holds. */
  lemma {:induction false} FillErrors<T, K, O>(z: IterKeyZipper<T, K, O>, key: K, data: T, st: PassState<K, T>)
    requires st.cursor <= |z.refSource|
    ensures var r := Fill(z, key, data, st);
      && (IsBufferError(r.error) ==>
            r.error.value.data == data && r.state.cursor == |z.refSource| && !Has(r.state.buffer, key))
      && (IsDuplicate(r.error) ==>
            r.state.cursor > st.cursor && Has(r.state.buffer, z.refKeyFn(z.refSource[r.state.cursor - 1])))
      && (r.error.Some? ==> IsBufferError(r.error) || IsDuplicate(r.error))
    decreases |z.refSource| - st.cursor
  {
    if !Has(st.buffer, key) && st.cursor < |z.refSource| {
      var refData := z.refSource[st.cursor];
      var refKey := z.refKeyFn(refData);
      if !Has(st.buffer, refKey) {
        FillErrors(z, key, data, Insert(z, st.(cursor := st.cursor + 1), refKey, refData));
      }
    }
  }

  /** The duplicate test runs on the buffer as it is before any eviction: a pulled reference
      item whose key the buffer holds raises `ValueError` straight away, even when the buffer
      is full and that key's entry is the oldest one. */
  lemma FillRejectsBuffered<T, K, O>(z: IterKeyZipper<T, K, O>, key: K, data: T, st: PassState<K, T>)
    requires !Has(st.buffer, key) && st.cursor < |z.refSource|
    requires Has(st.buffer, z.refKeyFn(z.refSource[st.cursor]))
    ensures Fill(z, key, data, st) == FillResult(st.(cursor := st.cursor + 1), Some(DuplicateKeyError))
  {
  }

  /** One insertion drops at most the single oldest entry and appends the new one. */
  lemma InsertShape<T, K, O>(z: IterKeyZipper<T, K, O>, st: PassState<K, T>, refKey: K, refData: T)
    ensures var n := Insert(z, st, refKey, refData);
      && n.cursor == st.cursor
      && (n.evictions == st.evictions + 1 <==> z.bufferSize.Some? && |st.buffer| > z.bufferSize.value)
      && st.evictions <= n.evictions <= st.evictions + 1
      && n.evictions - st.evictions <= |st.buffer|
      && n.buffer == st.buffer[n.evictions - st.evictions..] + [(refKey, refData)]
  {
  }

  /** `a` is what remains of `b` once some of its first elements are dropped. */
  ghost predicate IsSuffix<X>(a: seq<X>, b: seq<X>)
  {
    |a| <= |b| && b[|b| - |a|..] == a
  }

  /** One insertion step of the FIFO argument, on plain sequences: if `rest` is what remains
      of `b[d..] + [x]` followed by `tail`, it is what remains of `b` followed by `x` and
      `tail`, with `d` more entries dropped. */
  lemma SuffixStep<X>(b: seq<X>, d: nat, x: X, tail: seq<X>, rest: seq<X>, dropped: int)
    requires d <= |b|
    requires |rest| + dropped == |b[d..] + [x]| + |tail| && IsSuffix(rest, b[d..] + [x] + tail)
    ensures |rest| + (dropped + d) == |b| + |[x] + tail| && IsSuffix(rest, b + ([x] + tail))
  {
    var e, f := b[d..] + [x] + tail, b + ([x] + tail);
    assert e == f[d..];
    assert f[|f| - |rest|..] == e[|e| - |rest|..];
  }

  lemma EntriesFirst<T, K, O>(z: IterKeyZipper<T, K, O>, a: nat, b: nat)
    requires a < b <= |z.refSource|
    ensures Entries(z, a, b) == [(z.refKeyFn(z.refSource[a]), z.refSource[a])] + Entries(z, a + 1, b)
  {
  }

  /** The inner loop when the key is missing and the next reference key is new: it buffers
      that item and goes on. */
  lemma FillPulls<T, K, O>(z: IterKeyZipper<T, K, O>, key: K, data: T, st: PassState<K, T>)
    requires !Has(st.buffer, key) && st.cursor < |z.refSource|
    requires !Has(st.buffer, z.refKeyFn(z.refSource[st.cursor]))
    ensures Fill(z, key, data, st)
         == Fill(z, key, data, Insert(z, st.(cursor := st.cursor + 1), z.refKeyFn(z.refSource[st.cursor]), z.refSource[st.cursor]))
  {
  }

  /** Eviction is first in, first out, from state `st` on: unless the inner loop stops on a
      duplicate key, the buffer afterwards is what remains of the old buffer followed by every
      item pulled once exactly as many of the oldest entries as were evicted are dropped. */
  ghost predicate FifoFrom<T, K, O>(z: IterKeyZipper<T, K, O>, key: K, data: T, st: PassState<K, T>)
    requires st.cursor <= |z.refSource|
  {
    var r := Fill(z, key, data, st);
    !IsDuplicate(r.error) ==>
      && |r.state.buffer| + (r.state.evictions - st.evictions) == |st.buffer| + (r.state.cursor - st.cursor)
      && IsSuffix(r.state.buffer, st.buffer + Entries(z, st.cursor, r.state.cursor))
  }

  /** One pull keeps the FIFO shape: if it holds after buffering the pulled item, it held
      before. */
  lemma FifoPull<T, K, O>(z: IterKeyZipper<T, K, O>, key: K, data: T, st: PassState<K, T>)
    requires !Has(st.buffer, key) && st.cursor < |z.refSource|
    requires !Has(st.buffer, z.refKeyFn(z.refSource[st.cursor]))
    requires FifoFrom(z, key, data, Insert(z, st.(cursor := st.cursor + 1), z.refKeyFn(z.refSource[st.cursor]), z.refSource[st.cursor]))
    ensures FifoFrom(z, key, data, st)
  {
    var x := (z.refKeyFn(z.refSource[st.cursor]), z.refSource[st.cursor]);
    var pulled := st.(cursor := st.cursor + 1);
    var n := Insert(z, pulled, x.0, x.1);
    FillPulls(z, key, data, st);
    InsertShape(z, pulled, x.0, x.1);
    var r := Fill(z, key, data, n);
    if !IsDuplicate(r.error) {
      EntriesFirst(z, st.cursor, r.state.cursor);
      SuffixStep(st.buffer, n.evictions - st.evictions, x, Entries(z, n.cursor, r.state.cursor),
                 r.state.buffer, r.state.evictions - n.evictions);
    }
  }

  /** Eviction is first in, first out over the whole inner loop. */
  lemma {:induction false} FillIsFifo<T, K, O>(z: IterKeyZipper<T, K, O>, key: K, data: T, st: PassState<K, T>)
    requires st.cursor <= |z.refSource|
    ensures FifoFrom(z, key, data, st)
    decreases |z.refSource| - st.cursor
  {
    if !Has(st.buffer, key) && st.cursor < |z.refSource| && !Has(st.buffer, z.refKeyFn(z.refSource[st.cursor])) {
      FillIsFifo(z, key, data, Insert(z, st.(cursor := st.cursor + 1), z.refKeyFn(z.refSource[st.cursor]), z.refSource[st.cursor]));
      FifoPull(z, key, data, st);
    } else {
      assert st.buffer + Entries(z, st.cursor, st.cursor) == st.buffer;
    }
  }

  /** Popping the matched key keeps the invariant; the popped item is a pulled reference
      item whose reference key is the requested key. */
  lemma PopKeepsInv<T, K, O>(z: IterKeyZipper<T, K, O>, st: PassState<K, T>, key: K)
    requires Inv(z, st) && Has(st.buffer, key)
    ensures var (refItem, rest) := Pop(st.buffer, key);
      && Inv(z, st.(buffer := rest))
      && |rest| == |st.buffer| - 1
      && z.refKeyFn(refItem) == key
      && Pulled(z, refItem, st.cursor)
  {
    var (refItem, rest) := Pop(st.buffer, key);
    var p :| 0 <= p < |st.buffer| && st.buffer[p] == (key, refItem);
    assert st.buffer[p].0 == z.refKeyFn(st.buffer[p].1);
    var i := IndexOf(st.buffer, key);
    forall e | 0 <= e < |rest|
      ensures rest[e].0 == z.refKeyFn(rest[e].1) && Pulled(z, rest[e].1, st.cursor)
    {
      assert rest[e] == st.buffer[if e < i then e else e + 1];
    }
  }

  /** Output `y` for source item `n` is what the join yields for that item matched with a
      reference item pulled before position `c` whose reference key is the item's key. */
  ghost predicate IsMatch<T, K, O>(z: IterKeyZipper<T, K, O>, n: nat, y: Yielded<K, T, O>, c: nat)
    requires n < |z.source|
  {
    exists j :: 0 <= j < c && j < |z.refSource|
      && z.refKeyFn(z.refSource[j]) == z.keyFn(z.source[n])
      && y == Emit(z, z.source[n], z.refSource[j])
  }

  ghost predicate AllMatched<T, K, O>(z: IterKeyZipper<T, K, O>, outputs: seq<Yielded<K, T, O>>, c: nat)
  {
    |outputs| <= |z.source| && forall n :: 0 <= n < |outputs| ==> IsMatch(z, n, outputs[n], c)
  }

  /** The entry the outer loop pops for source item `i` once the inner loop has found its
      key, and the state it goes on with. */
  function Matched<T, K(==), O>(z: IterKeyZipper<T, K, O>, i: nat, f: FillResult<K, T>): (T, PassState<K, T>)
    requires i < |z.source| && Has(f.state.buffer, z.keyFn(z.source[i]))
  {
    var p := Pop(f.state.buffer, z.keyFn(z.source[i]));
    (p.0, f.state.(buffer := p.1))
  }

  /** One round of the outer loop: the inner loop for source item `i`, then either its
      exception or the popped match and the rest of the pass. */
  lemma RunStep<T, K, O>(z: IterKeyZipper<T, K, O>, i: nat, st: PassState<K, T>, outputs: seq<Yielded<K, T, O>>)
    requires i < |z.source|
    ensures var f := Fill(z, z.keyFn(z.source[i]), z.source[i], st);
      && (f.error.Some? ==> Run(z, i, st, outputs) == PassResult(outputs, f.error, f.state))
      && (f.error.None? ==>
            var m := Matched(z, i, f);
            Run(z, i, st, outputs) == Run(z, i + 1, m.1, outputs + [Emit(z, z.source[i], m.0)]))
  {
  }

  /** The outer loop from position `i` on keeps the invariant and accounts for every
      pulled reference item: matched, still buffered, evicted, or the duplicate that ended
      the pass. */
  lemma {:induction false} RunKeepsInv<T, K, O>(z: IterKeyZipper<T, K, O>, i: nat, st: PassState<K, T>,
                                                outputs: seq<Yielded<K, T, O>>)
    requires i <= |z.source| && |outputs| == i
    requires Inv(z, st) && st.cursor == |outputs| + |st.buffer| + st.evictions
    ensures var r := Run(z, i, st, outputs);
      && Inv(z, r.state)
      && r.state.cursor == |r.outputs| + |r.state.buffer| + r.state.evictions + (if IsDuplicate(r.error) then 1 else 0)
    decreases |z.source| - i
  {
    if i < |z.source| {
      var f := Fill(z, z.keyFn(z.source[i]), z.source[i], st);
      FillKeepsInv(z, z.keyFn(z.source[i]), z.source[i], st);
      RunStep(z, i, st, outputs);
      if f.error.None? {
        var m := Matched(z, i, f);
        PopKeepsInv(z, f.state, z.keyFn(z.source[i]));
        RunKeepsInv(z, i + 1, m.1, outputs + [Emit(z, z.source[i], m.0)]);
      }
    }
  }

  /** The outer loop from position `i` on yields at most one output per source item, exactly
      one each when it ends without an exception, and never moves the reference cursor back. */
  lemma {:induction false} RunCounts<T, K, O>(z: IterKeyZipper<T, K, O>, i: nat, st: PassState<K, T>,
                                              outputs: seq<Yielded<K, T, O>>)
    requires i <= |z.source| && |outputs| == i && st.cursor <= |z.refSource|
    ensures var r := Run(z, i, st, outputs);
      && st.cursor <= r.state.cursor <= |z.refSource|
      && i <= |r.outputs| <= |z.source|
      && (r.error.None? <==> |r.outputs| == |z.source|)
    decreases |z.source| - i
  {
    if i < |z.source| {
      var f := Fill(z, z.keyFn(z.source[i]), z.source[i], st);
      RunStep(z, i, st, outputs);
      if f.error.None? {
        var m := Matched(z, i, f);
        RunCounts(z, i + 1, m.1, outputs + [Emit(z, z.source[i], m.0)]);
      }
    }
  }

  /** Every output of the outer loop is its source item matched with a pulled reference
      item of the same key. */
  lemma {:induction false} RunMatches<T, K, O>(z: IterKeyZipper<T, K, O>, i: nat, st: PassState<K, T>,
                                               outputs: seq<Yielded<K, T, O>>)
    requires i <= |z.source| && |outputs| == i
    requires Inv(z, st) && AllMatched(z, outputs, st.cursor)
    ensures var r := Run(z, i, st, outputs);
      AllMatched(z, r.outputs, r.state.cursor)
    decreases |z.source| - i
  {
    if i < |z.source| {
      var data := z.source[i];
      var key := z.keyFn(data);
      var f := Fill(z, key, data, st);
      FillKeepsInv(z, key, data, st);
      if f.error.None? {
        var (refItem, rest) := Pop(f.state.buffer, key);
        PopKeepsInv(z, f.state, key);
        var next := f.state.(buffer := rest);
        var y := Emit(z, data, refItem);
        var j :| 0 <= j < f.state.cursor && j < |z.refSource| && z.refSource[j] == refItem;
        assert IsMatch(z, i, y, next.cursor);
        var outs := outputs + [y];
        assert Run(z, i, st, outputs) == Run(z, i + 1, next, outs);
        forall n | 0 <= n < |outs| ensures IsMatch(z, n, outs[n], next.cursor) {
          if n < i {
            assert IsMatch(z, n, outputs[n], st.cursor);
          }
        }
        RunMatches(z, i + 1, next, outs);
      } else {
        assert Run(z, i, st, outputs) == PassResult(outputs, f.error, f.state);
      }
    }
  }

  /** How the outer loop can end early: with the result of the inner loop for the first
      source item left without output, run from some state that has not run past the
      reference side. Which state that is, is left open here. */
  lemma {:induction false} RunErrors<T, K, O>(z: IterKeyZipper<T, K, O>, i: nat, st: PassState<K, T>,
                                              outputs: seq<Yielded<K, T, O>>)
    requires i <= |z.source| && |outputs| == i && st.cursor <= |z.refSource|
    ensures var r := Run(z, i, st, outputs);
      && i <= |r.outputs|
      && (r.error.Some? ==>
            && |r.outputs| < |z.source|
            && exists s: PassState<K, T> :: s.cursor <= |z.refSource| &&
                 Fill(z, z.keyFn(z.source[|r.outputs|]), z.source[|r.outputs|], s) == FillResult(r.state, r.error))
    decreases |z.source| - i
  {
    if i < |z.source| {
      var f := Fill(z, z.keyFn(z.source[i]), z.source[i], st);
      RunStep(z, i, st, outputs);
      if f.error.None? {
        var m := Matched(z, i, f);
        RunErrors(z, i + 1, m.1, outputs + [Emit(z, z.source[i], m.0)]);
      }
    }
  }

  /** A pass yields at most one output per source item, in source order; it yields exactly
      one per item exactly when it ends without an exception; and output `n` is what the
      join yields for source item `n` matched with a reference item of the same key. */
  lemma PassOutputs<T, K, O>(z: IterKeyZipper<T, K, O>)
    ensures var r := Pass(z);
      && |r.outputs| <= |z.source|
      && (r.error.None? <==> |r.outputs| == |z.source|)
      && (r.error.None? ==> |r.outputs| == Len(z))
      && forall n :: 0 <= n < |r.outputs| ==> IsMatch(z, n, r.outputs[n], r.state.cursor)
  {
    RunCounts(z, 0, Start(), []);
    RunMatches(z, 0, Start(), []);
  }

  /** The inner loop's failure facts, for a given outcome of it. */
  lemma FailedFill<T, K, O>(z: IterKeyZipper<T, K, O>, key: K, data: T, s: PassState<K, T>, f: FillResult<K, T>)
    requires s.cursor <= |z.refSource| && Fill(z, key, data, s) == f
    ensures IsBufferError(f.error) ==> f.error.value.data == data && f.state.cursor == |z.refSource| && !Has(f.state.buffer, key)
    ensures IsDuplicate(f.error) ==> f.state.cursor > 0 && Has(f.state.buffer, z.refKeyFn(z.refSource[f.state.cursor - 1]))
    ensures f.error.Some? ==> IsBufferError(f.error) || IsDuplicate(f.error)
  {
    FillErrors(z, key, data, s);
  }

  /** The exceptions of a pass. `BufferError` carries the first source item without an
      output, whose key is not buffered, and comes only after the whole reference side has
      been pulled. `ValueError` comes right after pulling a reference item whose key the
      buffer holds. Nothing else ends a pass early. */
  lemma PassErrors<T, K, O>(z: IterKeyZipper<T, K, O>)
    ensures var r := Pass(z);
      && r.state.cursor <= |z.refSource|
      && (IsBufferError(r.error) ==>
            && |r.outputs| < |z.source|
            && r.error.value.data == z.source[|r.outputs|]
            && r.state.cursor == |z.refSource|
            && !Has(r.state.buffer, z.keyFn(z.source[|r.outputs|])))
      && (IsDuplicate(r.error) ==>
            0 < r.state.cursor && Has(r.state.buffer, z.refKeyFn(z.refSource[r.state.cursor - 1])))
      && (r.error.Some? ==> IsBufferError(r.error) || IsDuplicate(r.error))
  {
    var r := Pass(z);
    RunCounts(z, 0, Start(), []);
    RunErrors(z, 0, Start(), []);
    if r.error.Some? {
      var data := z.source[|r.outputs|];
      var s: PassState<K, T> :| s.cursor <= |z.refSource| &&
        Fill(z, z.keyFn(data), data, s) == FillResult(r.state, r.error);
      FailedFill(z, z.keyFn(data), data, s, FillResult(r.state, r.error));
    }
  }

  /** The buffer at the end of a pass: distinct keys, never more than `buffer_size + 1`
      entries, nothing evicted and no warning when unbounded, and a single warning once
      anything was evicted. Every pulled reference item was matched, is still buffered, was
      evicted, or was the duplicate that ended the pass. */
  lemma PassBuffer<T, K, O>(z: IterKeyZipper<T, K, O>)
    ensures var r := Pass(z);
      && DistinctKeys(r.state.buffer)
      && (z.bufferSize.Some? ==> |r.state.buffer| <= z.bufferSize.value + 1)
      && (z.bufferSize.None? ==> r.state.evictions == 0 && r.state.warnings == 0)
      && r.state.warnings == (if r.state.evictions == 0 then 0 else 1)
      && r.state.cursor == |r.outputs| + |r.state.buffer| + r.state.evictions + (if IsDuplicate(r.error) then 1 else 0)
  {
    RunKeepsInv(z, 0, Start(), []);
  }

  ghost predicate DistinctRefKeys<T, K, O>(z: IterKeyZipper<T, K, O>)
  {
    forall a, b :: 0 <= a < b < |z.refSource| ==> z.refKeyFn(z.refSource[a]) != z.refKeyFn(z.refSource[b])
  }

  ghost predicate DistinctSourceKeys<T, K, O>(z: IterKeyZipper<T, K, O>)
  {
    forall a, b :: 0 <= a < b < |z.source| ==> z.keyFn(z.source[a]) != z.keyFn(z.source[b])
  }

  /** Some reference item at position `c` or later carries key `k`. */
  ghost predicate InRest<T, K, O>(z: IterKeyZipper<T, K, O>, c: nat, k: K)
  {
    exists j :: c <= j < |z.refSource| && z.refKeyFn(z.refSource[j]) == k
  }

  /** With an unbounded buffer and unique reference keys, the inner loop finds every key that
      is buffered or still ahead on the reference side, and loses no such key. */
  lemma {:induction false} FillFinds<T, K, O>(z: IterKeyZipper<T, K, O>, key: K, data: T, st: PassState<K, T>)
    requires z.bufferSize.None? && DistinctRefKeys(z) && Inv(z, st)
    requires Has(st.buffer, key) || InRest(z, st.cursor, key)
    ensures var r := Fill(z, key, data, st);
      && r.error.None?
      && Inv(z, r.state)
      && forall k :: Has(st.buffer, k) || InRest(z, st.cursor, k) ==> Has(r.state.buffer, k) || InRest(z, r.state.cursor, k)
    decreases |z.refSource| - st.cursor
  {
    if !Has(st.buffer, key) {
      var refData := z.refSource[st.cursor];
      var refKey := z.refKeyFn(refData);
      forall e | 0 <= e < |st.buffer| ensures st.buffer[e].0 != refKey {
        var j :| 0 <= j < st.cursor && j < |z.refSource| && z.refSource[j] == st.buffer[e].1;
        assert st.buffer[e].0 == z.refKeyFn(z.refSource[j]);
      }
      NoEntryHas(st.buffer, refKey);
      var n := Insert(z, st.(cursor := st.cursor + 1), refKey, refData);
      InsertKeepsInv(z, st);
      assert n.buffer == st.buffer + [(refKey, refData)];
      assert n.buffer[|st.buffer|] == (refKey, refData);
      forall k | Has(st.buffer, k) || InRest(z, st.cursor, k) ensures Has(n.buffer, k) || InRest(z, n.cursor, k) {
        if Has(st.buffer, k) {
          var e :| 0 <= e < |st.buffer| && KeyAt(st.buffer, e) == k;
          assert n.buffer[e] == st.buffer[e];
          HasAt(n.buffer, e);
        } else {
          var j :| st.cursor <= j < |z.refSource| && z.refKeyFn(z.refSource[j]) == k;
          if j == st.cursor {
            HasAt(n.buffer, |st.buffer|);
          }
        }
      }
      FillFinds(z, key, data, n);
    }
  }

  /** With a bounded buffer and unique reference keys, the inner loop finds a key that is
      buffered, or that the reference side carries at position `j` when the buffer can take
      every item up to `j` without exceeding `buffer_size`; it evicts nothing on the way. */
  lemma {:induction false} FillFindsWithinBound<T, K, O>(z: IterKeyZipper<T, K, O>, key: K, data: T,
                                                         st: PassState<K, T>, j: nat)
    requires z.bufferSize.Some? && DistinctRefKeys(z) && Inv(z, st)
    requires st.cursor <= j < |z.refSource| && z.refKeyFn(z.refSource[j]) == key
    requires |st.buffer| + (j - st.cursor) <= z.bufferSize.value
    ensures var r := Fill(z, key, data, st);
      && r.error.None?
      && r.state.evictions == st.evictions
      && r.state.cursor <= j + 1
    decreases j - st.cursor
  {
    if !Has(st.buffer, key) {
      var refData := z.refSource[st.cursor];
      var refKey := z.refKeyFn(refData);
      forall e | 0 <= e < |st.buffer| ensures st.buffer[e].0 != refKey {
        assert Pulled(z, st.buffer[e].1, st.cursor);
        var i :| 0 <= i < st.cursor && i < |z.refSource| && z.refSource[i] == st.buffer[e].1;
        assert st.buffer[e].0 == z.refKeyFn(z.refSource[i]);
      }
      NoEntryHas(st.buffer, refKey);
      var n := Insert(z, st.(cursor := st.cursor + 1), refKey, refData);
      InsertKeepsInv(z, st);
      if j == st.cursor {
        HasAt(n.buffer, |n.buffer| - 1);
      } else {
        FillFindsWithinBound(z, key, data, n, j);
      }
    }
  }

  lemma {:induction false} RunCompletes<T, K, O>(z: IterKeyZipper<T, K, O>, i: nat, st: PassState<K, T>,
                                                 outputs: seq<Yielded<K, T, O>>)
    requires i <= |z.source|
    requires z.bufferSize.None? && DistinctRefKeys(z) && DistinctSourceKeys(z) && Inv(z, st)
    requires forall n :: i <= n < |z.source| ==>
      Has(st.buffer, z.keyFn(z.source[n])) || InRest(z, st.cursor, z.keyFn(z.source[n]))
    ensures Run(z, i, st, outputs).error.None?
    decreases |z.source| - i
  {
    if i < |z.source| {
      var data := z.source[i];
      var key := z.keyFn(data);
      FillFinds(z, key, data, st);
      var f := Fill(z, key, data, st);
      var (refItem, rest) := Pop(f.state.buffer, key);
      PopKeepsInv(z, f.state, key);
      var next := f.state.(buffer := rest);
      forall n | i + 1 <= n < |z.source|
        ensures Has(next.buffer, z.keyFn(z.source[n])) || InRest(z, next.cursor, z.keyFn(z.source[n]))
      {
        var k := z.keyFn(z.source[n]);
        assert k != key;
        assert Has(f.state.buffer, k) || InRest(z, f.state.cursor, k);
        PopKeepsOtherKeys(f.state.buffer, key, k);
      }
      assert Run(z, i, st, outputs) == Run(z, i + 1, next, outputs + [Emit(z, data, refItem)]);
      RunCompletes(z, i + 1, next, outputs + [Emit(z, data, refItem)]);
    }
  }

  /** The join's promise: with an unbounded buffer, unique keys on both sides and every
      source key among the reference keys, a pass ends without an exception and yields, for
      each source item in order, that item matched with the reference item of its key. */
  lemma CompletePass<T, K, O>(z: IterKeyZipper<T, K, O>)
    requires z.bufferSize.None? && DistinctRefKeys(z) && DistinctSourceKeys(z)
    requires forall n :: 0 <= n < |z.source| ==> InRest(z, 0, z.keyFn(z.source[n]))
    ensures var r := Pass(z);
      && r.error.None?
      && |r.outputs| == |z.source|
      && forall n, j ::
           (0 <= n < |z.source| && 0 <= j < |z.refSource| && z.refKeyFn(z.refSource[j]) == z.keyFn(z.source[n])) ==>
           r.outputs[n] == Emit(z, z.source[n], z.refSource[j])
  {
    RunCompletes(z, 0, Start(), []);
    PassOutputs(z);
    var r := Pass(z);
    forall n, j | 0 <= n < |z.source| && 0 <= j < |z.refSource| && z.refKeyFn(z.refSource[j]) == z.keyFn(z.source[n])
      ensures r.outputs[n] == Emit(z, z.source[n], z.refSource[j])
    {
      assert IsMatch(z, n, r.outputs[n], r.state.cursor);
      var j' :| 0 <= j' < r.state.cursor && j' < |z.refSource|
        && z.refKeyFn(z.refSource[j']) == z.keyFn(z.source[n])
        && r.outputs[n] == Emit(z, z.source[n], z.refSource[j']);
      assert j' == j;
    }
  }
}
