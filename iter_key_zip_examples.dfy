/** Concrete passes of the streaming join. */
module IterKeyZipExamples {
  import opened Common
  import opened OrderedBuffer
  import opened IterKeyZip
  import opened IterKeyZipProofs

  function Name(t: (string, int)): string { t.0 }

  function AddCounts(a: (string, int), b: (string, int)): int { a.1 + b.1 }

  function Id(x: int): int { x }

  /** A join of integers keyed by themselves, yielding plain pairs. */
  function Ints(source: seq<int>, refSource: seq<int>, bufferSize: Option<Positive>): IterKeyZipper<int, int, int>
  {
    IterKeyZipper(source, refSource, Id, Id, false, bufferSize, None)
  }

  /** A fill from an empty buffer whose next reference item carries the key. */
  lemma FillFromEmpty<T, K, O>(z: IterKeyZipper<T, K, O>, key: K, data: T, st: PassState<K, T>)
    requires st.buffer == [] && st.cursor < |z.refSource| && z.refKeyFn(z.refSource[st.cursor]) == key
    ensures Fill(z, key, data, st)
         == FillResult(st.(buffer := [(key, z.refSource[st.cursor])], cursor := st.cursor + 1), None)
  {
    var next := st.(buffer := [(key, z.refSource[st.cursor])], cursor := st.cursor + 1);
    assert Insert(z, st.(cursor := st.cursor + 1), key, z.refSource[st.cursor]) == next;
    HasAt(next.buffer, 0);
  }

  /** One step of the outer loop that finds the key of source item `i` in a single pull,
      yielding `ys[i]` after `ys[..i]`. */
  lemma RunStepFromEmpty<T, K, O>(z: IterKeyZipper<T, K, O>, i: nat, st: PassState<K, T>, ys: seq<Yielded<K, T, O>>)
    requires i < |z.source| && i < |ys| && st.buffer == [] && st.cursor < |z.refSource|
    requires z.refKeyFn(z.refSource[st.cursor]) == z.keyFn(z.source[i])
    requires Emit(z, z.source[i], z.refSource[st.cursor]) == ys[i]
    ensures Run(z, i, st, ys[..i]) == Run(z, i + 1, st.(cursor := st.cursor + 1), ys[..i + 1])
  {
    var key := z.keyFn(z.source[i]);
    FillFromEmpty(z, key, z.source[i], st);
    assert Pop([(key, z.refSource[st.cursor])], key) == (z.refSource[st.cursor], []);
    assert ys[..i] + [ys[i]] == ys[..i + 1];
  }

  /** The join of the docstring example, as `New` builds it. */
  function DocZipper(): IterKeyZipper<(string, int), string, int>
  {
    IterKeyZipper([("a", 100), ("b", 200), ("c", 300)], [("a", 1), ("b", 2), ("c", 3), ("d", 4)],
                  Name, Name, true, Some(DefaultBufferSize), Some(AddCounts))
  }

  /** What the docstring example yields. */
  function DocOutputs(): seq<Yielded<string, (string, int), int>>
  {
    [Keyed("a", Merge(101)), Keyed("b", Merge(202)), Keyed("c", Merge(303))]
  }

  /** Source item `i` of the docstring example has the key of reference item `i`. */
  lemma DocMatch(i: nat)
    requires i < 3
    ensures var z := DocZipper();
      z.refKeyFn(z.refSource[i]) == z.keyFn(z.source[i]) && Emit(z, z.source[i], z.refSource[i]) == DocOutputs()[i]
  {
    if i == 0 {} else if i == 1 {} else {}
  }

  /** Source item `i` of the docstring example is matched by reference item `i`. */
  lemma DocStep(i: nat)
    requires i < 3
    ensures Run(DocZipper(), i, PassState([], i, true, 0, 0), DocOutputs()[..i])
         == Run(DocZipper(), i + 1, PassState([], i + 1, true, 0, 0), DocOutputs()[..i + 1])
  {
    DocMatch(i);
    RunStepFromEmpty(DocZipper(), i, PassState([], i, true, 0, 0), DocOutputs());
  }

  /** The docstring example's pass: each source item is matched by the reference item at
      the same position, one pull each. */
  lemma DocPass()
    ensures Pass(DocZipper()) == PassResult(DocOutputs(), None, PassState([], 3, true, 0, 0))
  {
    var z := DocZipper();
    DocStep(0);
    DocStep(1);
    DocStep(2);
    assert DocOutputs()[..0] == [] && DocOutputs()[..3] == DocOutputs();
    assert Run(z, 3, PassState([], 3, true, 0, 0), DocOutputs()) == PassResult(DocOutputs(), None, PassState([], 3, true, 0, 0));
  }

  /** The docstring example: keys are the first components, the merge adds the second
      components, and `keep_key` wraps each result with its key; the reference item `d`
      is needed by no source item and is never pulled. */
  lemma DocExample()
    ensures var z := New([("a", 100), ("b", 200), ("c", 300)],
                         [("a", 1), ("b", 2), ("c", 3), ("d", 4)],
                         Name, Some(Name), true, Some(DefaultBufferSize), Some(AddCounts));
      && z == Success(DocZipper())
      && Pass(z.value) == PassResult(DocOutputs(), None, PassState([], 3, true, 0, 0))
  {
    DocPass();
  }

  /** With `buffer_size` 1 the buffer holds two entries after an insertion: the capacity
      check runs before the insertion. Here the source asks for key 9, which the reference
      side [1, 2, 3] never carries; key 1 is evicted (one warning), and the pass ends with
      `BufferError` holding [2, 3]. */
  lemma BufferHoldsOneMoreThanSize()
    ensures Pass(Ints([9], [1, 2, 3], Some(1)))
         == PassResult([], Some(BufferError(9)), PassState([(2, 2), (3, 3)], 3, false, 1, 1))
  {
    FirstTwoPulls();
    LastPull();
  }

  /** The first two pulls of that pass fill the buffer to its size and one more. */
  lemma FirstTwoPulls()
    ensures Fill(Ints([9], [1, 2, 3], Some(1)), 9, 9, Start())
         == Fill(Ints([9], [1, 2, 3], Some(1)), 9, 9, PassState([(1, 1), (2, 2)], 2, true, 0, 0))
  {
    var z := Ints([9], [1, 2, 3], Some(1));
    var s1 := PassState([(1, 1)], 1, true, 0, 0);
    FillPulls(z, 9, 9, Start());
    assert Insert(z, Start().(cursor := 1), 1, 1) == s1;
    FillPulls(z, 9, 9, s1);
    assert Insert(z, s1.(cursor := 2), 2, 2) == PassState([(1, 1), (2, 2)], 2, true, 0, 0);
  }

  /** The third pull evicts the oldest entry, and the reference side is then exhausted. */
  lemma LastPull()
    ensures Fill(Ints([9], [1, 2, 3], Some(1)), 9, 9, PassState([(1, 1), (2, 2)], 2, true, 0, 0))
         == FillResult(PassState([(2, 2), (3, 3)], 3, false, 1, 1), Some(BufferError(9)))
  {
    var z := Ints([9], [1, 2, 3], Some(1));
    var s2 := PassState([(1, 1), (2, 2)], 2, true, 0, 0);
    var s3 := PassState([(2, 2), (3, 3)], 3, false, 1, 1);
    FillPulls(z, 9, 9, s2);
    assert Insert(z, s2.(cursor := 3), 3, 3) == s3;
    assert Fill(z, 9, 9, s3) == FillResult(s3, Some(BufferError(9)));
  }

  /** Only keys currently buffered count as duplicates: a reference key that was already
      matched may come again, and the second source item with that key is matched with it. */
  lemma MatchedKeyMayReappear(x: int)
    ensures Pass(Ints([x, x], [x, x], None))
         == PassResult([Plain(Pair(x, x)), Plain(Pair(x, x))], None, PassState([], 2, true, 0, 0))
  {
    var z := Ints([x, x], [x, x], None);
    var ys := [Plain(Pair(x, x)), Plain(Pair(x, x))];
    var s1, s2 := PassState([], 1, true, 0, 0), PassState([], 2, true, 0, 0);
    RunStepFromEmpty(z, 0, Start(), ys);
    assert Start<int, int>().(cursor := 1) == s1 && ys[..0] == [];
    RunStepFromEmpty(z, 1, s1, ys);
    assert s1.(cursor := 2) == s2 && ys[..2] == ys;
    assert Run(z, 2, s2, ys) == PassResult(ys, None, s2);
  }

  /** A reference key that is still buffered is a duplicate: `ValueError`, raised when the
      second `a` is pulled, before the `k` the source asks for. */
  lemma BufferedKeyIsDuplicate(k: int, a: int)
    requires k != a
    ensures Pass(Ints([k], [a, a, k], None))
         == PassResult([], Some(DuplicateKeyError), PassState([(a, a)], 2, true, 0, 0))
  {
    var z := Ints([k], [a, a, k], None);
    var s1 := PassState([(a, a)], 1, true, 0, 0);
    FillPulls(z, k, k, Start());
    assert Insert(z, Start().(cursor := 1), a, a) == s1;
    NoEntryHas(s1.buffer, k);
    HasAt(s1.buffer, 0);
    FillRejectsBuffered(z, k, k, s1);
    RunStep(z, 0, Start(), []);
  }

  /** The duplicate test runs before eviction: with `buffer_size` 1 and the buffer holding
      [a, b], one more than its size, pulling `a` again raises `ValueError` although the
      eviction that would follow is the one that drops the old `a`. */
  lemma DuplicateBeforeEviction(k: int, a: int, b: int)
    requires k != a && k != b && a != b
    ensures Pass(Ints([k], [a, b, a], Some(1)))
         == PassResult([], Some(DuplicateKeyError), PassState([(a, a), (b, b)], 3, true, 0, 0))
  {
    var z := Ints([k], [a, b, a], Some(1));
    var s1 := PassState([(a, a)], 1, true, 0, 0);
    var s2 := PassState([(a, a), (b, b)], 2, true, 0, 0);
    FillPulls(z, k, k, Start());
    assert Insert(z, Start().(cursor := 1), a, a) == s1;
    NoEntryHas(s1.buffer, k);
    NoEntryHas(s1.buffer, b);
    FillPulls(z, k, k, s1);
    assert Insert(z, s1.(cursor := 2), b, b) == s2;
    NoEntryHas(s2.buffer, k);
    HasAt(s2.buffer, 0);
    FillRejectsBuffered(z, k, k, s2);
    RunStep(z, 0, Start(), []);
  }
}
