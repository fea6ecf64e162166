/** The lazy conversion of a sequence into a keyed collection
    (`IterToMapConverterMapDataPipe`, functional name `to_map_datapipe`).

    Nothing is read at construction. The first lookup, or a length query the source
    cannot answer, loads the whole source into a dictionary: each element (after
    `key_value_fn`, when given) must be a two-element sequence, a key and a value; a
    repeated key warns and its later value replaces the earlier one. The dictionary is
    emptied once at the start of the load and filled as the load goes, so a load that
    fails part-way leaves the entries read before the bad element, and that partial
    dictionary is what later calls see: the source is read at most once.

    `Load` is the load written as a function over the elements' shapes; the class's
    `LoadMap` is the same load as torchdata writes it, a loop that updates the
    dictionary field, and is proved to compute `Load`. */
module IterToMap {
  import opened Common

  type NotTwo = n: nat | n != 2

  /** How `len` and tuple unpacking see one element handed to the dictionary: without a
      length (`len` raises `TypeError`), with a length other than 2, or as a key/value pair. */
  datatype Shape<K, V> = Unsized | WrongLength(length: NotTwo) | KeyValue(key: K, value: V)

  /** The exceptions of the converter: the load's `TypeError` and `ValueError` for a bad
      element, and the `KeyError` of a lookup. */
  datatype ConvertError<K> = TypeError | ValueError(length: nat) | KeyError(key: K)

  /** The warnings the converter issues. */
  datatype Warning<K> = DuplicateKey(key: K) | LoadedForLength

  /** The dictionary a load ends with, the repeated keys in the order they were warned
      about, and the exception that stopped the load, if any. */
  datatype Loaded<K, V> = Loaded(entries: map<K, V>, duplicates: seq<K>, error: Option<ConvertError<K>>)

  /** The load from element `i` on, with the dictionary and warnings built so far. */
  function LoadFrom<K, V>(shapes: seq<Shape<K, V>>, i: nat, m: map<K, V>, dups: seq<K>): (r: Loaded<K, V>)
    requires i <= |shapes|
    // entries are only ever added or replaced, and warnings only appended
    ensures m.Keys <= r.entries.Keys
    ensures |dups| <= |r.duplicates| && r.duplicates[..|dups|] == dups
    decreases |shapes| - i
  {
    if i == |shapes| then Loaded(m, dups, None)
    else match shapes[i]
      case Unsized => Loaded(m, dups, Some(TypeError))
      case WrongLength(n) => Loaded(m, dups, Some(ValueError(n)))
      case KeyValue(k, v) => LoadFrom(shapes, i + 1, m[k := v], if k in m then dups + [k] else dups)
  }

  /** `_load_map`: starts from an empty dictionary. */
  function Load<K, V>(shapes: seq<Shape<K, V>>): (r: Loaded<K, V>)
    ensures r.error.None? <==> Accepted(shapes) == |shapes|
    ensures |r.entries| + |r.duplicates| == Accepted(shapes)
  {
    var a := Accepted(shapes);
    LoadFromFold(shapes, 0, a);
    FoldCounts(shapes, a);
    LoadFromStops(shapes, 0, a, map[], []);
    var last := LoadFrom(shapes, a, Fold(shapes, a).0, Fold(shapes, a).1);
    assert last.entries == Fold(shapes, a).0 && last.duplicates == Fold(shapes, a).1;
    LoadFrom(shapes, 0, map[], [])
  }

  /** How many elements a load takes in: all of them, or those before the first one that is
      not a key/value pair. */
  function Accepted<K, V>(shapes: seq<Shape<K, V>>): (n: nat)
    ensures n <= |shapes|
    ensures forall i :: 0 <= i < n ==> shapes[i].KeyValue?
    ensures n < |shapes| ==> !shapes[n].KeyValue?
  {
    if shapes == [] || !shapes[0].KeyValue? then 0 else 1 + Accepted(shapes[1..])
  }

  /** The keys of the first `n` elements. */
  ghost function KeysOf<K, V>(shapes: seq<Shape<K, V>>, n: nat): set<K>
    requires n <= |shapes| && forall i :: 0 <= i < n ==> shapes[i].KeyValue?
  {
    set i | 0 <= i < n :: shapes[i].key
  }

  lemma KeysStep<K, V>(shapes: seq<Shape<K, V>>, n: nat)
    requires n < |shapes| && forall i :: 0 <= i <= n ==> shapes[i].KeyValue?
    ensures KeysOf(shapes, n + 1) == KeysOf(shapes, n) + {shapes[n].key}
  {
    assert shapes[n].key in KeysOf(shapes, n + 1);
  }

  /** The last-occurrence property of the first `n` elements. */
  ghost predicate LastWins<K, V>(shapes: seq<Shape<K, V>>, n: nat, m: map<K, V>)
    requires n <= |shapes| && forall i :: 0 <= i < n ==> shapes[i].KeyValue?
  {
    forall i :: 0 <= i < n && (forall j :: i < j < n ==> shapes[j].key != shapes[i].key) ==>
      shapes[i].key in m && m[shapes[i].key] == shapes[i].value
  }

  lemma LastWinsStep<K, V>(shapes: seq<Shape<K, V>>, n: nat, m: map<K, V>)
    requires n < |shapes| && forall i :: 0 <= i <= n ==> shapes[i].KeyValue?
    requires LastWins(shapes, n, m)
    ensures LastWins(shapes, n + 1, m[shapes[n].key := shapes[n].value])
  {
    var m' := m[shapes[n].key := shapes[n].value];
    forall i | 0 <= i < n + 1 && (forall j :: i < j < n + 1 ==> shapes[j].key != shapes[i].key)
      ensures shapes[i].key in m' && m'[shapes[i].key] == shapes[i].value
    {
      if i < n {
        assert shapes[n].key != shapes[i].key;
        assert forall j :: i < j < n ==> shapes[j].key != shapes[i].key;
      }
    }
  }

  /** The dictionary and duplicate keys after taking in the first `n` elements, all
      key/value pairs, one at a time from the front. */
  function Fold<K, V>(shapes: seq<Shape<K, V>>, n: nat): (map<K, V>, seq<K>)
    requires n <= |shapes| && forall i :: 0 <= i < n ==> shapes[i].KeyValue?
  {
    if n == 0 then (map[], [])
    else
      var (m, dups) := Fold(shapes, n - 1);
      var k := shapes[n - 1].key;
      (m[k := shapes[n - 1].value], if k in m then dups + [k] else dups)
  }

  /** The fold holds exactly the keys of the elements taken in. */
  lemma {:induction false} FoldKeys<K, V>(shapes: seq<Shape<K, V>>, n: nat)
    requires n <= |shapes| && forall i :: 0 <= i < n ==> shapes[i].KeyValue?
    ensures Fold(shapes, n).0.Keys == KeysOf(shapes, n)
  {
    if n > 0 {
      FoldKeys(shapes, n - 1);
      KeysStep(shapes, n - 1);
    }
  }

  /** Each key of the fold holds the value of its last occurrence. */
  lemma {:induction false} FoldLastWins<K, V>(shapes: seq<Shape<K, V>>, n: nat)
    requires n <= |shapes| && forall i :: 0 <= i < n ==> shapes[i].KeyValue?
    ensures LastWins(shapes, n, Fold(shapes, n).0)
  {
    if n > 0 {
      FoldLastWins(shapes, n - 1);
      LastWinsStep(shapes, n - 1, Fold(shapes, n - 1).0);
    }
  }

  /** Counting the fold: every warned key is held, and the warnings number the elements
      taken in minus the distinct keys. Which keys are warned about is not stated. */
  lemma {:induction false} FoldCounts<K, V>(shapes: seq<Shape<K, V>>, n: nat)
    requires n <= |shapes| && forall i :: 0 <= i < n ==> shapes[i].KeyValue?
    ensures var (m, dups) := Fold(shapes, n);
      (forall i :: 0 <= i < |dups| ==> dups[i] in m) && |m| + |dups| == n
  {
    if n > 0 {
      FoldCounts(shapes, n - 1);
    }
  }

  /** From the state after `n` elements, the load goes on to the state after `a`. */
  lemma {:induction false} LoadFromFold<K, V>(shapes: seq<Shape<K, V>>, n: nat, a: nat)
    requires n <= a <= |shapes| && forall i :: 0 <= i < a ==> shapes[i].KeyValue?
    ensures LoadFrom(shapes, n, Fold(shapes, n).0, Fold(shapes, n).1)
         == LoadFrom(shapes, a, Fold(shapes, a).0, Fold(shapes, a).1)
    decreases a - n
  {
    if n < a {
      LoadFromFold(shapes, n + 1, a);
    }
  }

  /** The load from any state before the first element that is not a pair stops with that
      element's exception, or with none when every element is a pair. */
  lemma {:induction false} LoadFromStops<K, V>(shapes: seq<Shape<K, V>>, n: nat, a: nat, m: map<K, V>, dups: seq<K>)
    requires n <= a <= |shapes|
    requires forall i :: n <= i < a ==> shapes[i].KeyValue?
    requires a < |shapes| ==> !shapes[a].KeyValue?
    ensures var r := LoadFrom(shapes, n, m, dups);
      && (r.error.None? <==> a == |shapes|)
      && (r.error == Some(TypeError) <==> a < |shapes| && shapes[a].Unsized?)
      && (a < |shapes| && shapes[a].WrongLength? ==> r.error == Some(ValueError(shapes[a].length)))
    decreases a - n
  {
    if n < a {
      var k := shapes[n].key;
      LoadFromStops(shapes, n + 1, a, m[k := shapes[n].value], if k in m then dups + [k] else dups);
    }
  }

  /** What a load computes: it takes in the elements before the first one that is not a
      key/value pair and stops there with that element's exception; its dictionary holds
      exactly the keys taken in, each with the value of its last occurrence; and every
      element taken in either added a new key or was warned about as a duplicate. */
  lemma LoadContents<K, V>(shapes: seq<Shape<K, V>>)
    ensures var r := Load(shapes); var a := Accepted(shapes);
      && (r.error.None? <==> a == |shapes|)
      && (r.error == Some(TypeError) <==> a < |shapes| && shapes[a].Unsized?)
      && (a < |shapes| && shapes[a].WrongLength? ==> r.error == Some(ValueError(shapes[a].length)))
      && (forall k :: k in r.entries <==> exists i :: 0 <= i < a && shapes[i].key == k)
      && (forall i :: 0 <= i < a && (forall j :: i < j < a ==> shapes[j].key != shapes[i].key) ==>
            shapes[i].key in r.entries && r.entries[shapes[i].key] == shapes[i].value)
      && (forall d :: d in r.duplicates ==> d in r.entries)
      && |r.entries| + |r.duplicates| == a
  {
    var a := Accepted(shapes);
    LoadFromFold(shapes, 0, a);
    FoldKeys(shapes, a);
    FoldLastWins(shapes, a);
    FoldCounts(shapes, a);
    LoadFromStops(shapes, 0, a, map[], []);
    var r := LoadFrom(shapes, a, Fold(shapes, a).0, Fold(shapes, a).1);
    assert r.entries == Fold(shapes, a).0 && r.duplicates == Fold(shapes, a).1;
  }

  /** A repeated key warns once and keeps its later value. */
  lemma LastValueWins()
    ensures Load([KeyValue(1, 10), KeyValue(2, 20), KeyValue(1, 30)]) == Loaded(map[1 := 30, 2 := 20], [1], None)
  {
    assert map[1 := 10][2 := 20][1 := 30] == map[1 := 30, 2 := 20];
  }

  /** A bad element stops the load; the entries before it stay. */
  lemma FailedLoadKeepsPrefix()
    ensures Load([KeyValue(1, 10), WrongLength(3), KeyValue(2, 20)]) == Loaded(map[1 := 10], [], Some(ValueError(3)))
    ensures Load([KeyValue(1, 10), Unsized]) == Loaded(map[1 := 10], [], Some(TypeError))
  {
  }

  /** The shape of one source element, after `key_value_fn` when it is given. */
  function ShapeOf<T, K, V>(view: T -> Shape<K, V>, keyValueFn: Option<T -> T>, d: T): Shape<K, V>
  {
    view(if keyValueFn.None? then d else keyValueFn.value(d))
  }

  /** The shapes of all source elements, in order. */
  function Shapes<T, K, V>(view: T -> Shape<K, V>, keyValueFn: Option<T -> T>, source: seq<T>): (r: seq<Shape<K, V>>)
    ensures |r| == |source| && forall i :: 0 <= i < |source| ==> r[i] == ShapeOf(view, keyValueFn, source[i])
  {
    if source == [] then []
    else [ShapeOf(view, keyValueFn, source[0])] + Shapes(view, keyValueFn, source[1..])
  }

  /** The duplicate-key warnings for `keys`, in order. */
  function DuplicateWarnings<K>(keys: seq<K>): (r: seq<Warning<K>>)
    ensures |r| == |keys| && forall i :: 0 <= i < |keys| ==> r[i] == DuplicateKey(keys[i])
  {
    if keys == [] then [] else [DuplicateKey(keys[0])] + DuplicateWarnings(keys[1..])
  }

  /** Warning about one more duplicate key appends its warning. */
  lemma WarnOneMore<K>(w: seq<Warning<K>>, keys: seq<K>, k: K)
    ensures w + DuplicateWarnings(keys + [k]) == w + DuplicateWarnings(keys) + [DuplicateKey(k)]
  {
    assert DuplicateWarnings(keys + [k]) == DuplicateWarnings(keys) + [DuplicateKey(k)];
  }

  /** A constructed converter. `source`, `view` and `keyValueFn` are fixed; `loaded` is
      `_map` (None until the first load), `length` is `_length` (-1 while unknown), and
      `warnings` is every warning issued so far. `loads` counts the loads begun. */
  class IterToMapConverter<T, K(==), V> {
    const source: seq<T>
    const view: T -> Shape<K, V>
    const keyValueFn: Option<T -> T>
    var loaded: Option<map<K, V>>
    var length: int
    var warnings: seq<Warning<K>>
    ghost var loads: nat

    /** The elements as the load sees them. */
    function Elements(): seq<Shape<K, V>>
    {
      Shapes(view, keyValueFn, source)
    }

    /** The source is read at most once, and once read the dictionary is what that load
        left, complete or partial. */
    ghost predicate Valid()
      reads this
    {
      && length >= -1
      && loads <= 1
      && (loaded.None? <==> loads == 0)
      && (loaded.Some? ==> loaded.value == Load(Elements()).entries)
    }

    /** `__init__`; `key_value_fn` defaults to none, so that each element must itself be a
        key/value pair. */
    constructor (source: seq<T>, view: T -> Shape<K, V>, keyValueFn: Option<T -> T> := None)
      ensures Valid()
      ensures this.source == source && this.view == view && this.keyValueFn == keyValueFn
      ensures loaded == None && length == -1 && warnings == [] && loads == 0
    {
      this.source := source;
      this.view := view;
      this.keyValueFn := keyValueFn;
      loaded := None;
      length := -1;
      warnings := [];
      loads := 0;
    }

    /** `_load_map`: the dictionary is emptied, then filled element by element; a bad
        element stops the load with its exception and leaves what was filled so far. */
    method LoadMap() returns (err: Option<ConvertError<K>>)
      requires loads == 0
      modifies this
      ensures var r := Load(Elements());
        && loaded == Some(r.entries) && err == r.error
        && warnings == old(warnings) + DuplicateWarnings(r.duplicates)
      ensures length == old(length) && loads == 1
    {
      loads := 1;
      loaded := Some(map[]);
      ghost var dups: seq<K> := [];
      ghost var shapes := Elements();
      for i := 0 to |source|
        invariant loaded.Some? && length == old(length) && loads == 1
        invariant LoadFrom(shapes, i, loaded.value, dups) == Load(shapes)
        invariant warnings == old(warnings) + DuplicateWarnings(dups)
      {
        var d := source[i];
        var inp := if keyValueFn.None? then d else keyValueFn.value(d);
        assert view(inp) == shapes[i];
        match view(inp)
        case Unsized =>
          return Some(TypeError);
        case WrongLength(n) =>
          return Some(ValueError(n));
        case KeyValue(k, v) =>
          if k in loaded.value {
            WarnOneMore(old(warnings), dups, k);
            warnings := warnings + [DuplicateKey(k)];
            dups := dups + [k];
          }
          loaded := Some(loaded.value[k := v]);
      }
      err := None;
    }

    /** `__getitem__`: loads on first use, then looks `index` up; a load that fails raises
        its exception (and keeps what it filled), a missing key raises `KeyError`. */
    method GetItem(index: K) returns (r: Result<V, ConvertError<K>>)
      requires Valid()
      modifies this
      ensures Valid()
      ensures length == old(length)
      ensures old(loaded).Some? ==> loaded == old(loaded) && warnings == old(warnings) && loads == old(loads)
      ensures var l := Load(Elements());
        && loaded == Some(l.entries)
        && (old(loaded).None? ==> warnings == old(warnings) + DuplicateWarnings(l.duplicates))
        && (old(loaded).None? && l.error.Some? ==> r == Failure(l.error.value))
        && (old(loaded).Some? || l.error.None? ==>
              r == if index in l.entries then Success(l.entries[index]) else Failure(KeyError(index)))
    {
      if loaded.None? {
        var err := LoadMap();
        if err.Some? {
          return Failure(err.value);
        }
      }
      if index in loaded.value {
        r := Success(loaded.value[index]);
      } else {
        r := Failure(KeyError(index));
      }
    }

    /** `__len__`. `reported` is what `len` of the source answers at this call, None when
        it raises `TypeError` or `NotImplementedError`. A known length is returned as is;
        otherwise the size of a loaded dictionary, else the source's answer, else (with a
        warning) the size of the dictionary after loading it. */
    method Len(reported: Option<nat>) returns (r: Result<nat, ConvertError<K>>)
      requires Valid()
      modifies this
      ensures Valid()
      ensures old(length) >= 0 ==>
        r == Success(old(length)) && length == old(length)
        && loaded == old(loaded) && warnings == old(warnings) && loads == old(loads)
      ensures old(length) < 0 && old(loaded).Some? ==>
        r == Success(|old(loaded).value|) && length == |old(loaded).value|
        && loaded == old(loaded) && warnings == old(warnings) && loads == old(loads)
      ensures old(length) < 0 && old(loaded).None? && reported.Some? ==>
        r == Success(reported.value) && length == reported.value
        && loaded == None && warnings == old(warnings) && loads == old(loads)
      ensures old(length) < 0 && old(loaded).None? && reported.None? ==>
        var l := Load(Elements());
        && loaded == Some(l.entries)
        && warnings == old(warnings) + [LoadedForLength] + DuplicateWarnings(l.duplicates)
        && (l.error.None? ==> r == Success(|l.entries|) && length == |l.entries|)
        && (l.error.Some? ==> r == Failure(l.error.value) && length == -1)
    {
      if length > -1 {
        return Success(length);
      }
      if loaded.Some? {
        length := |loaded.value|;
        return Success(length);
      }
      if reported.Some? {
        length := reported.value;
        return Success(length);
      }
      length := -1;
      warnings := warnings + [LoadedForLength];
      var err := LoadMap();
      if err.Some? {
        return Failure(err.value);
      }
      length := |loaded.value|;
      r := Success(length);
    }
  }

  /** A lookup whose load fails leaves the partial dictionary behind, and a later length
      query answers its size without reading the source again and without a warning. */
  method FailedLoadIsNotRetried<T, K(==), V>(c: IterToMapConverter<T, K, V>, index: K)
    returns (got: Result<V, ConvertError<K>>, n: Result<nat, ConvertError<K>>)
    requires c.Valid() && c.loaded.None? && c.length == -1 && Load(c.Elements()).error.Some?
    modifies c
    ensures var l := Load(c.Elements());
      && got == Failure(l.error.value)
      && n == Success(|l.entries|)
      && c.loaded == Some(l.entries) && c.loads == 1
      && c.warnings == old(c.warnings) + DuplicateWarnings(l.duplicates)
  {
    got := c.GetItem(index);
    n := c.Len(None);
  }
}
