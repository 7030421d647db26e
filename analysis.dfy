/** Analyzer objects as the StatusInfo toolkit sees them, and the list-level loops of
    its private helpers (__indexby, __map, __filter, __reduce). Both revisions of the
    toolkit use these. */
module Analysis {
  import opened PyValues

  /** The timestamp every StatusInfo, DataItem and Item constructor settles on:
      `if not timestamp: timestamp = int(time.time())`, with the clock passed in. */
  function Stamp(timestamp: Option<int>, now: int): (t: int)
    ensures timestamp.Some? && timestamp.value != 0 ==> t == timestamp.value
    ensures timestamp.None? || timestamp.value == 0 ==> t == now
  {
    if timestamp.None? || timestamp.value == 0 then now else timestamp.value
  }

  /** The analysis methods of StatusInfo; the name of each is the `analyzertype`
      an analyzer must carry to be accepted by it. */
  datatype Op = IndexByOp | MapOp | FilterOp | ReduceOp | TransformOp | ProcessOp

  function OpName(op: Op): string {
    match op
    case IndexByOp => "indexby"
    case MapOp => "map"
    case FilterOp => "filter"
    case ReduceOp => "reduce"
    case TransformOp => "transform"
    case ProcessOp => "process"
  }

  /** The method `analyze()` dispatches to for an analyzertype, if any. */
  function OpNamed(analyzertype: string): (r: Option<Op>)
    ensures r.Some? ==> OpName(r.value) == analyzertype
    ensures r.None? ==> forall op: Op :: OpName(op) != analyzertype
  {
    if analyzertype == "indexby" then Some(IndexByOp)
    else if analyzertype == "map" then Some(MapOp)
    else if analyzertype == "filter" then Some(FilterOp)
    else if analyzertype == "reduce" then Some(ReduceOp)
    else if analyzertype == "transform" then Some(TransformOp)
    else if analyzertype == "process" then Some(ProcessOp)
    else None
  }

  /** The method an analyzer implements. A Python analyzer object whose method raises is
      modelled by a function returning None there. */
  datatype Impl =
    | IndexByImpl(keyOf: Value -> Option<Value>)
    | MapImpl(mapItem: Value -> Option<Value>)
    | FilterImpl(keep: Value -> Option<Value>)
    | ReduceImpl(initValue: Value, combine: (Value, Value) -> Option<Value>)
    | TransformImpl(transformAll: seq<Value> -> Option<Value>)
    | ProcessImpl(processAll: seq<Value> -> Option<Value>)

  /** An analyzer: its `analyzertype` tag (a free attribute in Python) and its method. */
  datatype Analyzer = Analyzer(analyzertype: string, impl: Impl)

  /** The per-item method an analyzer offers to the loop of `op`; an analyzer lacking it
      raises AttributeError on the first item, which is modelled as None. */
  function PerItem(impl: Impl, op: Op): (f: Value -> Option<Value>)
    ensures op == IndexByOp && impl.IndexByImpl? ==> f == impl.keyOf
    ensures op == MapOp && impl.MapImpl? ==> f == impl.mapItem
    ensures op == FilterOp && impl.FilterImpl? ==> f == impl.keep
    ensures (!(op == IndexByOp && impl.IndexByImpl?) && !(op == MapOp && impl.MapImpl?) &&
             !(op == FilterOp && impl.FilterImpl?)) ==> forall v :: f(v) == None
  {
    match (op, impl)
    case (IndexByOp, IndexByImpl(g)) => g
    case (MapOp, MapImpl(g)) => g
    case (FilterOp, FilterImpl(g)) => g
    case _ => (v: Value) => None
  }

  // ---------------------------------------------------------------------------
  // Grouping (indexby)
  // ---------------------------------------------------------------------------

  /** What one key outcome does to the groups built so far: an exception aborts, a None
      key drops the item, a key that cannot be hashed makes the dict store raise, and
      any other key appends the item to the group of the key equal to it under `==`
      (True and 1 share a group, filed under whichever came first). */
  function AddToGroups(groups: map<Value, seq<Value>>, item: Value, k: Option<Value>): (r: Option<map<Value, seq<Value>>>)
    ensures r.Some? <==> GroupableKey(k)
  {
    match k
    case None => None
    case Some(key) =>
      if key == PyNone then Some(groups)
      else if !Hashable(key) then None
      else
        var f := FiledUnder(groups, key);
        Some(groups[f := (if f in groups then groups[f] else []) + [item]])
  }

  /** A key outcome the grouping loop gets past. */
  predicate GroupableKey(k: Option<Value>) {
    k.Some? && (k.value == PyNone || Hashable(k.value))
  }

  /** The item's key outcome is a key that meets k in a dict. */
  predicate KeyedAs(key: Value -> Option<Value>, x: Value, k: Value) {
    key(x).Some? && SameKey(key(x).value, k)
  }

  /** Step 1 of __indexby: the dict of groups built by the loop over the items, or None
      when the loop raises. */
  function Grouped(data: seq<Value>, key: Value -> Option<Value>): Option<map<Value, seq<Value>>>
    decreases |data|
  {
    if |data| == 0 then Some(map[])
    else
      match Grouped(data[..|data| - 1], key)
      case None => None
      case Some(groups) => AddToGroups(groups, data[|data| - 1], key(data[|data| - 1]))
  }

  /** Reference definition of a group: the items whose key equals k under `==`, in
      their order. */
  function WithKey(data: seq<Value>, key: Value -> Option<Value>, k: Value): (r: seq<Value>)
    ensures |r| <= |data|
    decreases |data|
  {
    if |data| == 0 then []
    else
      WithKey(data[..|data| - 1], key, k) + (if KeyedAs(key, data[|data| - 1], k) then [data[|data| - 1]] else [])
  }

  lemma {:induction false} GroupedNonePersists(data: seq<Value>, key: Value -> Option<Value>, i: nat)
    requires i <= |data| && Grouped(data[..i], key) == None
    ensures Grouped(data, key) == None
    decreases |data| - i
  {
    if i < |data| {
      assert data[..i + 1][..i] == data[..i];
      GroupedNonePersists(data, key, i + 1);
    } else {
      assert data[..i] == data;
    }
  }

  /** The grouping loop gets through exactly when every key outcome is a value that is
      None or hashable. */
  lemma {:induction false} GroupedSucceeds(data: seq<Value>, key: Value -> Option<Value>)
    ensures Grouped(data, key).Some? <==> forall i | 0 <= i < |data| :: GroupableKey(key(data[i]))
    decreases |data|
  {
    if |data| > 0 {
      var init := data[..|data| - 1];
      GroupedSucceeds(init, key);
      assert forall i | 0 <= i < |init| :: init[i] == data[i];
    }
  }

  /** v, or the value equal to it under `==`, is a key of g. */
  predicate Filed<T>(g: map<Value, T>, v: Value) {
    v in g || (Twin(v).Some? && Twin(v).value in g)
  }

  /** The groups form a Python dict; each group holds exactly the items whose key equals
      its key, in their original order, and its first item carries that very key; None
      is never a group key, and every item with a key other than None is in a group. */
  lemma {:induction false} GroupedContents(data: seq<Value>, key: Value -> Option<Value>)
    requires Grouped(data, key).Some?
    ensures PyNone !in Grouped(data, key).value
    ensures DictKeys(Grouped(data, key).value)
    ensures forall k | k in Grouped(data, key).value ::
              Grouped(data, key).value[k] == WithKey(data, key, k) != [] &&
              key(Grouped(data, key).value[k][0]) == Some(k)
    ensures forall i | 0 <= i < |data| && key(data[i]).Some? && key(data[i]).value != PyNone ::
              Filed(Grouped(data, key).value, key(data[i]).value)
    decreases |data|
  {
    if |data| > 0 {
      var init := data[..|data| - 1];
      var item := data[|data| - 1];
      GroupedContents(init, key);
      var g0 := Grouped(init, key).value;
      var g := Grouped(data, key).value;
      assert g == AddToGroups(g0, item, key(item)).value;
      if key(item).value != PyNone {
        var k0 := key(item).value;
        var f := FiledUnder(g0, k0);
        assert g == g0[f := (if f in g0 then g0[f] else []) + [item]];
        GroupedStep(init, key, g0, item, f);
      }
    }
    GroupedFiled(data, key);
  }

  /** Every item with a key other than None is filed in the groups. */
  lemma {:induction false} GroupedFiled(data: seq<Value>, key: Value -> Option<Value>)
    requires Grouped(data, key).Some?
    ensures forall i | 0 <= i < |data| && key(data[i]).Some? && key(data[i]).value != PyNone ::
              Filed(Grouped(data, key).value, key(data[i]).value)
    decreases |data|
  {
    if |data| > 0 {
      var init := data[..|data| - 1];
      var item := data[|data| - 1];
      GroupedFiled(init, key);
      var g0 := Grouped(init, key).value;
      assert forall i | 0 <= i < |init| :: init[i] == data[i];
      if key(item).value != PyNone {
        var k0 := key(item).value;
        var f := FiledUnder(g0, k0);
        StepKeepsFiled(g0, k0, f, (if f in g0 then g0[f] else []) + [item]);
      }
    }
  }

  /** One step of the grouping loop keeps the groups a Python dict of reference groups. */
  lemma GroupedStep(init: seq<Value>, key: Value -> Option<Value>, g0: map<Value, seq<Value>>, item: Value, f: Value)
    requires PyNone !in g0 && DictKeys(g0)
    requires forall k | k in g0 :: g0[k] == WithKey(init, key, k) != [] && key(g0[k][0]) == Some(k)
    requires forall i | 0 <= i < |init| && key(init[i]).Some? && key(init[i]).value != PyNone :: Filed(g0, key(init[i]).value)
    requires key(item).Some? && key(item).value != PyNone && Hashable(key(item).value)
    requires f == FiledUnder(g0, key(item).value)
    ensures PyNone !in g0[f := (if f in g0 then g0[f] else []) + [item]]
    ensures DictKeys(g0[f := (if f in g0 then g0[f] else []) + [item]])
    ensures forall k | k in g0[f := (if f in g0 then g0[f] else []) + [item]] ::
              g0[f := (if f in g0 then g0[f] else []) + [item]][k] == WithKey(init + [item], key, k) != [] &&
              key(g0[f := (if f in g0 then g0[f] else []) + [item]][k][0]) == Some(k)
  {
    var t := (if f in g0 then g0[f] else []) + [item];
    StepKeepsDict(g0, key(item).value, f, t);
    if f !in g0 {
      FreshKeyEmpty(init, key, g0, f);
    }
    forall k | k in g0[f := t]
      ensures g0[f := t][k] == WithKey(init + [item], key, k) != [] && key(g0[f := t][k][0]) == Some(k)
    {
      GroupAfterStep(init, key, g0, item, f, k);
    }
  }

  /** A key met for the first time has no items before it. */
  lemma FreshKeyEmpty(init: seq<Value>, key: Value -> Option<Value>, g0: map<Value, seq<Value>>, f: Value)
    requires forall i | 0 <= i < |init| && key(init[i]).Some? && key(init[i]).value != PyNone :: Filed(g0, key(init[i]).value)
    requires f != PyNone && f !in g0 && (Twin(f).None? || Twin(f).value !in g0)
    ensures WithKey(init, key, f) == []
  {
    forall i | 0 <= i < |init|
      ensures !KeyedAs(key, init[i], f)
    {
      if key(init[i]).Some? && key(init[i]).value != PyNone {
        var v := key(init[i]).value;
        assert Filed(g0, v);
        TwinOfTwin(v);
      }
    }
    WithKeyEmpty(init, key, f);
  }

  /** One group after a step of the grouping loop. */
  lemma GroupAfterStep(init: seq<Value>, key: Value -> Option<Value>, g0: map<Value, seq<Value>>, item: Value, f: Value, k: Value)
    requires DictKeys(g0)
    requires forall k | k in g0 :: g0[k] == WithKey(init, key, k) != [] && key(g0[k][0]) == Some(k)
    requires key(item).Some? && Hashable(key(item).value)
    requires f == FiledUnder(g0, key(item).value)
    requires f !in g0 ==> WithKey(init, key, f) == []
    requires k == f || k in g0
    ensures var g := g0[f := (if f in g0 then g0[f] else []) + [item]];
            g[k] == WithKey(init + [item], key, k) != [] && key(g[k][0]) == Some(k)
  {
    var data := init + [item];
    assert data[..|data| - 1] == init && data[|data| - 1] == item;
    var k0 := key(item).value;
    TwinOfTwin(k0);
    if k == f {
      assert KeyedAs(key, item, k);
    } else {
      TwinOfTwin(k);
      assert !KeyedAs(key, item, k);
    }
  }

  /** Filing under FiledUnder keeps every value that was filed, and files the new key. */
  lemma StepKeepsFiled<T>(g0: map<Value, T>, k0: Value, f: Value, t: T)
    requires f == FiledUnder(g0, k0)
    ensures forall v | Filed(g0, v) :: Filed(g0[f := t], v)
    ensures Filed(g0[f := t], k0)
  {
    TwinOfTwin(k0);
  }

  /** Filing under FiledUnder keeps a dict free of twin keys. */
  lemma StepKeepsDict<T>(g0: map<Value, T>, k0: Value, f: Value, t: T)
    requires DictKeys(g0) && Hashable(k0) && f == FiledUnder(g0, k0)
    ensures DictKeys(g0[f := t])
    ensures PyNone in g0[f := t] ==> PyNone in g0 || k0 == PyNone
    ensures f !in g0 ==> f == k0 && (Twin(f).None? || Twin(f).value !in g0)
  {
    TwinOfTwin(k0);
    forall k | k in g0[f := t]
      ensures Hashable(k) && (Twin(k).None? || Twin(k).value !in g0[f := t])
    {
      TwinOfTwin(k);
    }
  }

  /** No item keyed as k means an empty reference group (used when a key first appears). */
  lemma {:induction false} WithKeyEmpty(data: seq<Value>, key: Value -> Option<Value>, k: Value)
    requires forall i | 0 <= i < |data| :: !KeyedAs(key, data[i], k)
    ensures WithKey(data, key, k) == []
    decreases |data|
  {
    if |data| > 0 {
      var init := data[..|data| - 1];
      assert forall i | 0 <= i < |init| :: init[i] == data[i];
      WithKeyEmpty(init, key, k);
    }
  }

  /** The reference group of k holds each item keyed as k as often as the data does,
      and nothing else. */
  lemma {:induction false} WithKeyMultiset(data: seq<Value>, key: Value -> Option<Value>, k: Value)
    ensures forall x :: multiset(WithKey(data, key, k))[x] == if KeyedAs(key, x, k) then multiset(data)[x] else 0
    decreases |data|
  {
    if |data| > 0 {
      var init := data[..|data| - 1];
      WithKeyMultiset(init, key, k);
      assert data == init + [data[|data| - 1]];
    }
  }

  /** Together the groups are a permutation of the items whose key is not None: an item
      occurs in the group of the key equal to its own exactly as often as in the data,
      and in no other group. */
  lemma GroupedPermutation(data: seq<Value>, key: Value -> Option<Value>)
    requires Grouped(data, key).Some?
    ensures forall k, x | k in Grouped(data, key).value ::
              multiset(Grouped(data, key).value[k])[x] == if KeyedAs(key, x, k) then multiset(data)[x] else 0
  {
    GroupedContents(data, key);
    forall k | k in Grouped(data, key).value {
      WithKeyMultiset(data, key, k);
    }
  }

  /** Where an item ends up: in the group its key is filed under when that key is not
      None, and in no group when it is None. */
  lemma GroupedPlaces(data: seq<Value>, key: Value -> Option<Value>, x: Value)
    requires Grouped(data, key).Some? && x in data
    ensures var g := Grouped(data, key).value;
            key(x).Some? &&
            (key(x).value == PyNone ==> forall k | k in g :: x !in g[k]) &&
            (key(x).value != PyNone ==> FiledUnder(g, key(x).value) in g && x in g[FiledUnder(g, key(x).value)])
  {
    var g := Grouped(data, key).value;
    GroupedSucceeds(data, key);
    GroupedContents(data, key);
    GroupedPermutation(data, key);
    var i :| 0 <= i < |data| && data[i] == x;
    assert x in multiset(data);
    if key(x).value == PyNone {
      forall k | k in g
        ensures x !in g[k]
      {
        assert !KeyedAs(key, x, k);
        assert multiset(g[k])[x] == 0;
      }
    } else {
      assert Filed(g, key(data[i]).value);
      var k := FiledUnder(g, key(x).value);
      assert KeyedAs(key, x, k);
      assert multiset(g[k])[x] == multiset(data)[x];
    }
  }

  /** The loop of __indexby step 1: one pass over the items, giving up at the first item
      whose key raises or cannot be hashed. */
  method GroupItems(data: seq<Value>, key: Value -> Option<Value>) returns (r: Option<map<Value, seq<Value>>>)
    ensures r == Grouped(data, key)
  {
    var groups: map<Value, seq<Value>> := map[];
    for i := 0 to |data|
      invariant Grouped(data[..i], key) == Some(groups)
    {
      assert data[..i + 1][..i] == data[..i];
      var item := data[i];
      var k := key(item);
      if k.None? {
        GroupedNonePersists(data, key, i + 1);
        return None;
      }
      if k.value != PyNone {
        if !Hashable(k.value) {
          GroupedNonePersists(data, key, i + 1);
          return None;
        }
        var filed := FiledUnder(groups, k.value);
        groups := groups[filed := (if filed in groups then groups[filed] else []) + [item]];
      }
    }
    assert data[..|data|] == data;
    return Some(groups);
  }

  // ---------------------------------------------------------------------------
  // Map
  // ---------------------------------------------------------------------------

  /** The list __map builds: one result per item, or None when some call raises. */
  function Mapped(data: seq<Value>, f: Value -> Option<Value>): (r: Option<seq<Value>>)
    ensures r.Some? <==> forall i | 0 <= i < |data| :: f(data[i]).Some?
    ensures r.Some? ==> |r.value| == |data| && forall i | 0 <= i < |data| :: r.value[i] == f(data[i]).value
    decreases |data|
  {
    if |data| == 0 then Some([])
    else
      var init := data[..|data| - 1];
      assert forall i | 0 <= i < |init| :: init[i] == data[i];
      match Mapped(init, f)
      case None => None
      case Some(xs) =>
        match f(data[|data| - 1])
        case None => None
        case Some(y) => Some(xs + [y])
  }

  method MapItems(data: seq<Value>, f: Value -> Option<Value>) returns (r: Option<seq<Value>>)
    ensures r == Mapped(data, f)
  {
    var out: seq<Value> := [];
    for i := 0 to |data|
      invariant Mapped(data[..i], f) == Some(out)
    {
      assert data[..i + 1][..i] == data[..i];
      var y := f(data[i]);
      if y.None? {
        return None;
      }
      out := out + [y.value];
    }
    assert data[..|data|] == data;
    return Some(out);
  }

  // ---------------------------------------------------------------------------
  // Filter
  // ---------------------------------------------------------------------------

  /** The list __filter builds: the items whose predicate result is truthy, or None when
      some call raises. */
  function Filtered(data: seq<Value>, pred: Value -> Option<Value>): Option<seq<Value>>
    decreases |data|
  {
    if |data| == 0 then Some([])
    else
      match Filtered(data[..|data| - 1], pred)
      case None => None
      case Some(xs) =>
        match pred(data[|data| - 1])
        case None => None
        case Some(v) => Some(if Truthy(v) then xs + [data[|data| - 1]] else xs)
  }

  predicate Passes(pred: Value -> Option<Value>, x: Value) {
    pred(x).Some? && Truthy(pred(x).value)
  }

  lemma {:induction false} FilteredSucceeds(data: seq<Value>, pred: Value -> Option<Value>)
    ensures Filtered(data, pred).Some? <==> forall i | 0 <= i < |data| :: pred(data[i]).Some?
    decreases |data|
  {
    if |data| > 0 {
      var init := data[..|data| - 1];
      FilteredSucceeds(init, pred);
      assert forall i | 0 <= i < |init| :: init[i] == data[i];
    }
  }

  /** filter keeps exactly the items that pass, each as often as it occurs. */
  lemma {:induction false} FilteredMultiset(data: seq<Value>, pred: Value -> Option<Value>)
    requires Filtered(data, pred).Some?
    ensures forall x :: multiset(Filtered(data, pred).value)[x] == if Passes(pred, x) then multiset(data)[x] else 0
    ensures forall x :: x in Filtered(data, pred).value <==> x in data && Passes(pred, x)
    decreases |data|
  {
    if |data| > 0 {
      var init := data[..|data| - 1];
      FilteredMultiset(init, pred);
      assert data == init + [data[|data| - 1]];
    }
    var r := Filtered(data, pred).value;
    forall x
      ensures x in r <==> x in data && Passes(pred, x)
    {
      assert x in r <==> multiset(r)[x] > 0;
      assert x in data <==> multiset(data)[x] > 0;
    }
  }

  /** filter keeps the original order: filtering a concatenation is the concatenation of
      the filtered parts. */
  lemma {:induction false} FilteredAppend(a: seq<Value>, b: seq<Value>, pred: Value -> Option<Value>)
    ensures Filtered(a + b, pred) ==
            if Filtered(a, pred).Some? && Filtered(b, pred).Some? then Some(Filtered(a, pred).value + Filtered(b, pred).value)
            else None
    decreases |b|
  {
    if |b| == 0 {
      assert a + b == a;
      if Filtered(a, pred).Some? {
        assert Filtered(a, pred).value + [] == Filtered(a, pred).value;
      }
    } else {
      var binit := b[..|b| - 1];
      var last := b[|b| - 1];
      assert (a + b)[..|a + b| - 1] == a + binit;
      assert (a + b)[|a + b| - 1] == last;
      FilteredAppend(a, binit, pred);
      if Filtered(a, pred).None? {
      } else if Filtered(binit, pred).None? {
      } else {
        var ra := Filtered(a, pred).value;
        var rb := Filtered(binit, pred).value;
        if pred(last).Some? && Truthy(pred(last).value) {
          assert ra + rb + [last] == ra + (rb + [last]);
        }
      }
    }
  }

  method FilterItems(data: seq<Value>, pred: Value -> Option<Value>) returns (r: Option<seq<Value>>)
    ensures r == Filtered(data, pred)
  {
    var out: seq<Value> := [];
    for i := 0 to |data|
      invariant Filtered(data[..i], pred) == Some(out)
    {
      assert data[..i + 1][..i] == data[..i];
      var v := pred(data[i]);
      if v.None? {
        FilteredSucceeds(data, pred);
        return None;
      }
      if Truthy(v.value) {
        out := out + [data[i]];
      }
    }
    assert data[..|data|] == data;
    return Some(out);
  }

  // ---------------------------------------------------------------------------
  // Fold (reduce)
  // ---------------------------------------------------------------------------

  /** __reduce: the accumulator after the loop `value = reduce(value, item)`, starting from
      the initial value, or None when a call raises. */
  function Folded(data: seq<Value>, init: Value, step: (Value, Value) -> Option<Value>): Option<Value>
    decreases |data|
  {
    if |data| == 0 then Some(init)
    else
      match Folded(data[..|data| - 1], init, step)
      case None => None
      case Some(acc) => step(acc, data[|data| - 1])
  }

  /** Reference definition of a left fold, consuming the items from the front. */
  function FoldFromFront(data: seq<Value>, acc: Value, step: (Value, Value) -> Option<Value>): Option<Value>
    decreases |data|
  {
    if |data| == 0 then Some(acc)
    else
      match step(acc, data[0])
      case None => None
      case Some(acc') => FoldFromFront(data[1..], acc', step)
  }

  /** Folding a concatenation folds the second part from the result of the first. */
  lemma {:induction false} FoldedAppend(a: seq<Value>, b: seq<Value>, init: Value, step: (Value, Value) -> Option<Value>)
    ensures Folded(a + b, init, step) ==
            match Folded(a, init, step) case None => None case Some(acc) => Folded(b, acc, step)
    decreases |b|
  {
    if |b| == 0 {
      assert a + b == a;
    } else {
      var binit := b[..|b| - 1];
      assert (a + b)[..|a + b| - 1] == a + binit;
      assert (a + b)[|a + b| - 1] == b[|b| - 1];
      FoldedAppend(a, binit, init, step);
    }
  }

  /** The loop folds from the left: it agrees with the front-to-back definition. */
  lemma {:induction false} FoldedIsLeftFold(data: seq<Value>, init: Value, step: (Value, Value) -> Option<Value>)
    ensures Folded(data, init, step) == FoldFromFront(data, init, step)
    decreases |data|
  {
    if |data| > 0 {
      FoldedAppend([data[0]], data[1..], init, step);
      assert [data[0]] + data[1..] == data;
      assert [data[0]][..0] == [];
      match step(init, data[0])
      case None =>
      case Some(acc) =>
        FoldedIsLeftFold(data[1..], acc, step);
    }
  }

  method FoldItems(data: seq<Value>, init: Value, step: (Value, Value) -> Option<Value>) returns (r: Option<Value>)
    ensures r == Folded(data, init, step)
  {
    var acc := init;
    for i := 0 to |data|
      invariant Folded(data[..i], init, step) == Some(acc)
    {
      assert data[..i + 1][..i] == data[..i];
      var next := step(acc, data[i]);
      if next.None? {
        FoldedAppend(data[..i + 1], data[i + 1..], init, step);
        assert data[..i + 1] + data[i + 1..] == data;
        return None;
      }
      acc := next.value;
    }
    assert data[..|data|] == data;
    return Some(acc);
  }

}
