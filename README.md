# Key-based joins of data pipes, modelled in Dafny

This project models three data pipes from `torchdata` that join records by a key.

- **The streaming key-zipper join** (`IterKeyZipperIterDataPipe`, `zip_with_iter`). It walks
  the source pipe in order. For each item it pulls reference items into an insertion-ordered
  buffer until the item's key is buffered. Then it pops the match and yields the pair, or
  `merge_fn`'s result, wrapped with the key when `keep_key` is set.
  - A reference key that is already buffered raises `ValueError`.
  - Running out of reference items raises `BufferError`.
  - With a `buffer_size`, the oldest entry is evicted before an insertion when the buffer
    already holds more than `buffer_size` entries. Only the first eviction of a pass warns.
- **The lookup join** (`MapKeyZipperIterDataPipe`, `zip_with_map`). Each source key is looked
  up in a keyed collection. A missing key raises a `KeyError` naming the item and the key.
  `__len__` caches the source's length.
- **The iterable-to-map converter** (`IterToMapConverterMapDataPipe`). It lazily builds a
  dictionary from key/value pairs, at most once; the last value wins for a repeated key.
  `__getitem__` and `__len__` work over the cached fields `_map` and `_length`.

Files and modules:

- `common.dfy` (`Common`): `Option`, `Result`, and `Combine`, which applies the optional
  merge function or builds the default pair.
- `ordered_buffer.dfy` (`OrderedBuffer`): the `OrderedDict` operations the streaming join
  uses, on a sequence of key/value entries, oldest first.
- `iter_key_zip.dfy` (`IterKeyZip`): the streaming join.
  - `New` is `__init__`.
  - `Fill`, `Run` and `Pass` state one pass as functions.
  - `FillBuffer` is `__iter__`'s inner `while` loop, proved to compute `Fill`.
  - `Iterate` is `__iter__`'s outer `for` loop over local state, which runs `FillBuffer`
    for each source item, proved to compute `Pass`.
- `iter_key_zip_proofs.dfy` (`IterKeyZipProofs`): what a pass guarantees, proved about `Pass`.
- `iter_key_zip_examples.dfy` (`IterKeyZipExamples`): the docstring example and passes that
  show the edge cases.
- `map_key_zip.dfy` (`MapKeyZip`): the lookup join, and a class holding the `length` cache.
- `converter.dfy` (`IterToMap`): the converter.
  - `Load` states the dictionary build as a function.
  - The class `IterToMapConverter` holds `_map`, `_length` and the warnings issued, with
    methods `LoadMap`, `GetItem` and `Len`.

Two behaviours of the streaming join that its docstring does not spell out:

- **Buffer bound.** The docstring of `buffer_size` (combining.py:35) speaks of the size of
  the buffer. The capacity check `len(buffer) > buffer_size` at combining.py:97 runs before
  the insertion at combining.py:105, so the buffer can hold `buffer_size + 1` entries after
  an insertion. `IterKeyZipProofs.PassBuffer` states that bound, and
  `IterKeyZipExamples.BufferHoldsOneMoreThanSize` shows it reached.
- **Duplicate reference keys.** Only a key that is currently buffered is rejected
  (combining.py:95-96), and the test runs before any eviction. A key that was matched or
  evicted may come again, as `IterKeyZipExamples.MatchedKeyMayReappear` shows.

## Model

| member | source | states |
|---|---|---|
| `OrderedBuffer.Pop` | torchdata/datapipes/iter/util/combining.py:106 | `buffer.pop(key)` returns the value stored under the key. It removes exactly that entry and keeps every other entry in insertion order. On a buffer with distinct keys, the result still has distinct keys and no longer holds the key. |
| `OrderedBuffer.PopKeepsOtherKeys` | torchdata/datapipes/iter/util/combining.py:106 | After a pop, any other key is held exactly when it was held before. |
| `OrderedBuffer.AppendNew` | torchdata/datapipes/iter/util/combining.py:105 | Inserting a key the buffer does not hold keeps the keys distinct. Afterwards a key is held exactly when it was held before or is the inserted key. |
| `OrderedBuffer.DropOldest` | torchdata/datapipes/iter/util/combining.py:104 | Dropping the oldest entries (`popitem(last=False)`) keeps the keys distinct. |
| `IterKeyZip.New` | torchdata/datapipes/iter/util/combining.py:53-78 | Construction fails exactly when `buffer_size` is given and `<= 0`. Otherwise every setting is stored, `ref_key_fn` defaults to `key_fn`, and `None` means an unbounded buffer. The parameters default as `__init__`'s do. |
| `IterKeyZip.NewDefaults` | torchdata/datapipes/iter/util/combining.py:53-78 | Given only the two pipes and `key_fn`, the join keys both sides with `key_fn`, does not keep keys, has no merge function and a `buffer_size` of 10000. |
| `Common.Combine` | torchdata/datapipes/iter/util/combining.py:106 | Without `merge_fn` the result is the pair of both items, so both are kept. With `merge_fn` it is `merge_fn(data, ref_data)`. |
| `IterKeyZip.Emit` | torchdata/datapipes/iter/util/combining.py:106-110 | What is yielded for a match is `Combine` of the source and reference item. It is wrapped with the key exactly when `keep_key` is set, and that key is the source item's `key_fn` key. |
| `IterKeyZip.Fill` | torchdata/datapipes/iter/util/combining.py:86-105 | When the inner loop ends without an exception, the requested key is buffered. The reference cursor never moves back and never passes the end of the reference side. |
| `IterKeyZip.Run` | torchdata/datapipes/iter/util/combining.py:84-110 | From source position `i` on, the outer loop adds at most one output per remaining source item to those already yielded. It adds one for each of them exactly when it raises nothing. |
| `IterKeyZip.Pass` | torchdata/datapipes/iter/util/combining.py:80-110 | A pass yields at most one value per source item, and one for each exactly when it raises nothing. |
| `IterKeyZip.Len` | torchdata/datapipes/iter/util/combining.py:112-113 | `__len__` is the number of values a pass yields exactly when that pass raises nothing. |
| `IterKeyZip.FillBuffer` | torchdata/datapipes/iter/util/combining.py:86-105 | The inner `while` loop, on the pass state, computes exactly `Fill`: the same state and the same exception. |
| `IterKeyZip.Iterate` | torchdata/datapipes/iter/util/combining.py:80-110 | The outer loop, on its local pass state and outputs, running `FillBuffer` per source item, computes exactly `Pass`. That includes where it stops and with which exception. |
| `IterKeyZipProofs.InsertKeepsInv` | torchdata/datapipes/iter/util/combining.py:94-105 | Buffering a pulled item with a new key keeps the pass invariant. The invariant says: keys are distinct; each entry is a pulled item stored under its reference key; the buffer holds at most `buffer_size + 1` entries; an unbounded buffer never evicts; the warning fires on the first eviction only. Each insertion either grows the buffer or evicts one entry. |
| `IterKeyZipProofs.FillKeepsInv` | torchdata/datapipes/iter/util/combining.py:86-105 | The inner loop keeps the invariant. Every item it pulls is still buffered, was evicted, or is the duplicate that raised `ValueError`. |
| `IterKeyZipProofs.FillIsLazy` | torchdata/datapipes/iter/util/combining.py:86-88 | Nothing is pulled when the key is already buffered. Otherwise items are pulled up to the first one carrying the key and no further. On an exception, no pulled item carried the key. |
| `IterKeyZipProofs.FillErrors` | torchdata/datapipes/iter/util/combining.py:87-96 | `BufferError` names the current source item, comes only once the reference side is exhausted, and leaves the key unbuffered. `ValueError` comes right after pulling an item whose key is buffered. No other exception is raised. |
| `IterKeyZipProofs.FillRejectsBuffered` | torchdata/datapipes/iter/util/combining.py:94-97 | The converse: when the next reference item carries a key the buffer holds, the inner loop pulls it and raises `ValueError` at once. The test uses the buffer before any eviction, so a full buffer rejects even a repeat of its oldest key. |
| `IterKeyZipProofs.InsertShape` | torchdata/datapipes/iter/util/combining.py:97-105 | One insertion evicts exactly when the buffer already holds more than `buffer_size` entries, and then only the single oldest entry. The new entry is appended at the end. |
| `IterKeyZipProofs.FifoPull` | torchdata/datapipes/iter/util/combining.py:97-105 | One pull preserves the first-in-first-out shape of the buffer (see `FillIsFifo`). |
| `IterKeyZipProofs.FillIsFifo` | torchdata/datapipes/iter/util/combining.py:97-105 | Unless the loop stops on a duplicate, the buffer afterwards is a suffix of the old buffer followed by every pulled entry. Exactly as many of the oldest entries are dropped as were evicted. |
| `IterKeyZipProofs.PopKeepsInv` | torchdata/datapipes/iter/util/combining.py:106 | Popping the matched key keeps the invariant and shrinks the buffer by one. The popped item is a pulled reference item whose reference key is the requested key. |
| `IterKeyZipProofs.RunKeepsInv` | torchdata/datapipes/iter/util/combining.py:84-110 | The outer loop keeps the invariant. Pulled items = outputs + buffered + evicted, plus one for a duplicate that ended the pass. |
| `IterKeyZipProofs.RunCounts` | torchdata/datapipes/iter/util/combining.py:84-110 | The outer loop yields at most one output per source item. It yields one for every item exactly when no exception is raised. The cursor only moves forward. |
| `IterKeyZipProofs.RunMatches` | torchdata/datapipes/iter/util/combining.py:84-110 | Every output is the source item at the same position combined with a pulled reference item of the same key. |
| `IterKeyZipProofs.RunErrors` | torchdata/datapipes/iter/util/combining.py:84-96 | An exception ends the pass at the first source item without output. The state and exception the pass ends with are what that item's inner loop returns from some state that has not run past the reference side; the lemma does not say which state. |
| `IterKeyZipProofs.PassOutputs` | torchdata/datapipes/iter/util/combining.py:80-113 | A pass yields outputs in source order, at most one per source item. There is one per item (`__len__` of them) exactly when no exception is raised. Output `n` is source item `n` combined with a reference item whose `ref_key_fn` key equals its `key_fn` key, keyed when `keep_key` is set. |
| `IterKeyZipProofs.PassErrors` | torchdata/datapipes/iter/util/combining.py:86-96 | `BufferError` carries the first source item without output, whose key is not buffered. It comes only after the whole reference side was pulled. `ValueError` follows a pull of a buffered key. Nothing else ends a pass early. |
| `IterKeyZipProofs.PassBuffer` | torchdata/datapipes/iter/util/combining.py:81-105 | At the end of a pass the buffer keys are distinct and the buffer holds at most `buffer_size + 1` entries. An unbounded buffer never evicts or warns. The warning fires once if anything was evicted, and never otherwise. Every pulled item is accounted for. |
| `IterKeyZipProofs.FillFinds` | torchdata/datapipes/iter/util/combining.py:86-105 | With an unbounded buffer and unique reference keys, the inner loop finds any key that is buffered or still ahead. It loses no such key. |
| `IterKeyZipProofs.FillFindsWithinBound` | torchdata/datapipes/iter/util/combining.py:86-105 | With a bounded buffer and unique reference keys, the inner loop finds a key the reference side carries at position `j` when the buffer can take every item up to `j` within `buffer_size`. It evicts nothing and pulls nothing past `j`. |
| `IterKeyZipProofs.RunCompletes` | torchdata/datapipes/iter/util/combining.py:84-110 | With an unbounded buffer and unique keys on both sides, the outer loop raises nothing when every remaining source key is buffered or still ahead. |
| `IterKeyZipProofs.CompletePass` | torchdata/datapipes/iter/util/combining.py:80-110 | The join's promise. Assume an unbounded buffer, unique keys on both sides, and every source key present among the reference keys. Then a pass raises nothing and yields, for each source item in order, that item combined with the reference item of its key. |
| `IterKeyZipExamples.DocExample` | torchdata/datapipes/iter/util/combining.py:40-50 | The docstring example builds, and yields `('a', 101), ('b', 202), ('c', 303)`. The reference item `d` is never pulled. |
| `IterKeyZipExamples.BufferHoldsOneMoreThanSize` | torchdata/datapipes/iter/util/combining.py:97-105 | With `buffer_size` 1, the buffer holds two entries after an insertion. The third pull evicts the oldest entry and warns once, and the pass ends with `BufferError`. |
| `IterKeyZipExamples.MatchedKeyMayReappear` | torchdata/datapipes/iter/util/combining.py:94-96 | A reference key that was already matched may come again without `ValueError`. |
| `IterKeyZipExamples.BufferedKeyIsDuplicate` | torchdata/datapipes/iter/util/combining.py:94-96 | For any keys `k` and `a`, the reference side `a, a, k` raises `ValueError` when the second `a` is pulled, before `k` is reached. |
| `IterKeyZipExamples.DuplicateBeforeEviction` | torchdata/datapipes/iter/util/combining.py:94-105 | With `buffer_size` 1 and the buffer holding `a, b`, pulling `a` again raises `ValueError`. It does so although the eviction that would follow would drop the old `a`. |
| `MapKeyZip.LookupJoin` | torchdata/datapipes/iter/util/combining.py:163-170 | A pass yields at most one output per source item, in order. Output `n` is item `n` combined with `map[key_fn(item)]`. The pass ends early exactly at the first item whose key is missing, with a `KeyError` carrying that item and its key. |
| `MapKeyZip.LookupJoinTotal` | torchdata/datapipes/iter/util/combining.py:163-170 | A pass raises nothing exactly when every source key is in the collection. |
| `MapKeyZip.DocExample` | torchdata/datapipes/iter/util/combining.py:132-142 | The docstring example yields `('a', 101), ('b', 202), ('c', 303)`. |
| `MapKeyZip.MissingKeyExample` | torchdata/datapipes/iter/util/combining.py:166-169 | A missing key ends the pass at that item with `KeyError(item, key)`, after the earlier outputs. |
| `MapKeyZip.MapKeyZipper.constructor` | torchdata/datapipes/iter/util/combining.py:145-161 | Stores the inputs, with `merge_fn` defaulting to none, and starts with `length == -1`. |
| `MapKeyZip.MapKeyZipper.Iter` | torchdata/datapipes/iter/util/combining.py:163-170 | `__iter__` raises nothing exactly when every source key is in the collection. It then yields one value per source item. |
| `MapKeyZip.MapKeyZipper.Len` | torchdata/datapipes/iter/util/combining.py:172-175 | Once cached, the length is returned as is. Otherwise the source's length is returned and cached; if `len` raises, nothing is cached. |
| `MapKeyZip.LenIsCached` | torchdata/datapipes/iter/util/combining.py:172-175 | After a first successful `__len__`, a second call answers the same value, whatever the source would answer. |
| `IterToMap.LoadFrom` | torchdata/datapipes/iter/util/converter.py:53-64 | The load only adds or replaces entries: every key held before is held after. Duplicate warnings are only appended. |
| `IterToMap.Load` | torchdata/datapipes/iter/util/converter.py:51-64 | A load raises nothing exactly when every element is a key/value pair. The distinct keys plus the duplicate warnings number the pairs taken in. |
| `IterToMap.LoadFromStops` | torchdata/datapipes/iter/util/converter.py:54-60 | The load stops at the first element that is not a key/value pair. An element without a length raises `TypeError`; one whose length is not 2 raises `ValueError` with that length. |
| `IterToMap.FoldKeys` | torchdata/datapipes/iter/util/converter.py:61-64 | The dictionary folded from the accepted pairs holds exactly their keys. |
| `IterToMap.FoldLastWins` | torchdata/datapipes/iter/util/converter.py:61-64 | Each key holds the value of its last occurrence. |
| `IterToMap.FoldCounts` | torchdata/datapipes/iter/util/converter.py:62-64 | A counting statement: every warned key is in the dictionary, and the warnings number the accepted pairs minus the distinct keys. Which keys are warned about is not stated here. |
| `IterToMap.LoadContents` | torchdata/datapipes/iter/util/converter.py:51-64 | The load takes in the pairs before the first bad element and raises that element's exception, or nothing. The dictionary holds exactly the accepted keys, each with its last value. The duplicate warnings and distinct keys add up to the number of accepted pairs. |
| `IterToMap.LastValueWins` | torchdata/datapipes/iter/util/converter.py:33-35 | A repeated key warns once and keeps its later value. |
| `IterToMap.FailedLoadKeepsPrefix` | torchdata/datapipes/iter/util/converter.py:52-60 | A bad element stops the load and keeps the entries read before it. |
| `IterToMap.IterToMapConverter.constructor` | torchdata/datapipes/iter/util/converter.py:42-49 | Nothing is loaded: `_map` is `None` and `_length` is -1. `key_value_fn` defaults to none. |
| `IterToMap.IterToMapConverter.LoadMap` | torchdata/datapipes/iter/util/converter.py:51-64 | The loop that fills `_map` in place ends with `Load`'s dictionary, even when it fails part-way. It raises `Load`'s exception and issues one warning per duplicate key, in order. |
| `IterToMap.IterToMapConverter.GetItem` | torchdata/datapipes/iter/util/converter.py:66-69 | The first call loads; later calls leave `_map` and the warnings alone. A failed load raises its exception and leaves the partial dictionary. A lookup returns the stored value or raises `KeyError`. |
| `IterToMap.IterToMapConverter.Len` | torchdata/datapipes/iter/util/converter.py:71-90 | Returns the cached `_length` when it is set. Otherwise it tries, in order: the loaded map's size; the source's reported length; loading with a warning and using the map's size. Each answer is cached; a failed load caches nothing. |
| `IterToMap.FailedLoadIsNotRetried` | torchdata/datapipes/iter/util/converter.py:52-90 | After a lookup whose load failed, `__len__` answers the partial dictionary's size. It neither reads the source again nor warns. |

## Left out

- The `torch` data-pipe framework is not modelled: the `functional_datapipe` registration,
  the `isinstance` checks on the inputs (`TypeError`), and `_check_lambda_fn` /
  `check_lambda_fn`. Inputs are taken as already-typed finite sequences, maps and functions.
- Generators are not modelled. Each pass runs to its end over finite sequences, and its
  result lists what a consumer received before the pass ended or raised. Stopping a pass
  early is the same as reading a prefix of that list. Infinite sources are out of scope.
- `key_fn`, `ref_key_fn`, `merge_fn` and `key_value_fn` are total Dafny functions. Exceptions
  raised inside them are not modelled.
- Both sides of the streaming join share one item type, so that `ref_key_fn` can default to
  `key_fn`.
- `warnings.warn` is not modelled; warnings are recorded instead. The streaming join counts
  them in its pass state, next to `warn_once_flag`. The converter appends them to a
  `warnings` field.
- Exception messages are not modelled. Some exceptions carry data their message reports:
  the source item for `BufferError`, the item and the key for the lookup join's `KeyError`,
  the length for the converter's `ValueError`. The converter's `TypeError` carries nothing,
  although its message names the element and its type.
- `len()` of a source pipe is not modelled. The lookup join's and the converter's `__len__`
  take the answer as an optional number. For the lookup join, "none" means `len` raised,
  and the exception propagates. For the converter, "none" means `len` raised `TypeError` or
  `NotImplementedError`; any other exception from `len` propagates out of `__len__` without
  a load and is not modelled. The streaming join's `__len__` (`IterKeyZip.Len`) is the
  length of its finite source sequence.
- The lookup join's collection is a Dafny `map`. A `KeyError` and an `IndexError` from it
  are the same missing key. Once a load has succeeded, the converter's dictionary is such a
  map. A load that fails during the lookup join's first lookup raises the converter's
  `TypeError` or `ValueError`, which the join does not catch, and later passes see the
  partial dictionary; a lookup join reading from a converter is not modelled.
- How `len` and tuple unpacking see a converter element is a parameter `view`. It classifies
  each element as having no length, having a length other than 2, or being a key/value pair.
- `__getstate__` / `__setstate__` and the `dill` pickling are not modelled. `__getstate__`
  forces a load when `_map` is `None`, like `GetItem`'s first call.
