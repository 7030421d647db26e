/** The StatusInfo toolkit of libfactory/info.py: a list of records (StatusInfo) is
    grouped into a dict of StatusInfo objects (_DictStatusInfo), filtered, mapped,
    transformed, or folded into a final value (_NonMutableStatusInfo and
    _NonMutableDictStatusInfo, which offer no analysis methods). Objects are values:
    every operation builds a new object and never changes its input. */
module Info {
  import opened PyValues
  import opened Analysis

  /** The four data-holding classes; each keeps the timestamp it was created with. */
  datatype Info =
    | StatusInfo(items: seq<Value>, timestamp: int)
    | DictStatusInfo(groups: map<Value, Info>, timestamp: int)
    | NonMutableStatusInfo(raw: Value, timestamp: int)
    | NonMutableDictStatusInfo(groups: map<Value, Info>, timestamp: int)

  /** The exceptions the toolkit raises; AttributeError and TypeError are Python's own. */
  datatype InfoError =
    | IncorrectInputDataType(expected: string)
    | NotAnAnalyzer
    | IncorrectAnalyzer(analyzertype: string, methodName: string)
    | MissingKey(key: Value)
    | AnalyzerFailure
    | AttributeError(name: string)
    | TypeError

  /** StatusInfo(data, timestamp): the data must be a list. */
  function NewStatusInfo(data: Value, timestamp: Option<int>, now: int): (r: Result<Info, InfoError>)
    ensures r.Ok? <==> data.PyList?
    ensures r.Err? ==> r.error == IncorrectInputDataType("list")
    ensures r.Ok? ==> r.value.StatusInfo? && r.value.items == data.items && r.value.timestamp == Stamp(timestamp, now)
  {
    if data.PyList? then Ok(StatusInfo(data.items, Stamp(timestamp, now))) else Err(IncorrectInputDataType("list"))
  }

  /** The classes that have the analysis methods. */
  predicate HasAnalysis(info: Info) {
    info.StatusInfo? || info.DictStatusInfo?
  }

  /** reduce() and process() give results that cannot be analysed further. */
  predicate IsFinal(op: Op) {
    op == ReduceOp || op == ProcessOp
  }

  // ---------------------------------------------------------------------------
  // Analysis on one list of items (StatusInfo)
  // ---------------------------------------------------------------------------

  /** Body of StatusInfo.<op>(analyzer) once validate_call has accepted the analyzer;
      an exception inside the private helper becomes AnalyzerFailure. */
  function ListOutcome(data: seq<Value>, ts: int, op: Op, a: Analyzer, now: int): Result<Info, InfoError> {
    var t := Stamp(Some(ts), now);
    match op
    case IndexByOp =>
      var g := Grouped(data, PerItem(a.impl, op));
      if g.None? then Err(AnalyzerFailure)
      else Ok(DictStatusInfo(map k | k in g.value :: StatusInfo(g.value[k], t), t))
    case MapOp =>
      var xs := Mapped(data, PerItem(a.impl, op));
      if xs.None? then Err(AnalyzerFailure) else Ok(StatusInfo(xs.value, t))
    case FilterOp =>
      var xs := Filtered(data, PerItem(a.impl, op));
      if xs.None? then Err(AnalyzerFailure) else Ok(StatusInfo(xs.value, t))
    case ReduceOp =>
      if !a.impl.ReduceImpl? then Err(AnalyzerFailure)
      else
        var v := Folded(data, a.impl.initValue, a.impl.combine);
        if v.None? then Err(AnalyzerFailure) else Ok(NonMutableStatusInfo(v.value, t))
    case TransformOp =>
      if !a.impl.TransformImpl? then Err(AnalyzerFailure)
      else
        var v := a.impl.transformAll(data);
        if v.None? then Err(AnalyzerFailure) else NewStatusInfo(v.value, Some(ts), now)
    case ProcessOp =>
      if !a.impl.ProcessImpl? then Err(AnalyzerFailure)
      else
        var v := a.impl.processAll(data);
        if v.None? then Err(AnalyzerFailure) else Ok(NonMutableStatusInfo(v.value, t))
  }

  /** Step 2 of __indexby: each group of items becomes a StatusInfo of its own. */
  method WrapGroups(g: map<Value, seq<Value>>, t: int) returns (m: map<Value, Info>)
    ensures m == map k | k in g :: StatusInfo(g[k], t)
  {
    m := map[];
    var todo := g.Keys;
    while todo != {}
      invariant todo <= g.Keys
      invariant m.Keys == g.Keys - todo
      invariant forall k | k in m :: m[k] == StatusInfo(g[k], t)
      decreases todo
    {
      var k :| k in todo;
      m := m[k := StatusInfo(g[k], t)];
      todo := todo - {k};
    }
  }

  /** StatusInfo.<op> after validation: the runs of the private helper loops. */
  method ApplyToItems(data: seq<Value>, ts: int, op: Op, a: Analyzer, now: int) returns (r: Result<Info, InfoError>)
    ensures r == ListOutcome(data, ts, op, a, now)
  {
    var t := Stamp(Some(ts), now);
    match op
    case IndexByOp =>
      var g := GroupItems(data, PerItem(a.impl, op));
      if g.None? {
        return Err(AnalyzerFailure);
      }
      var m := WrapGroups(g.value, t);
      return Ok(DictStatusInfo(m, t));
    case MapOp =>
      var xs := MapItems(data, PerItem(a.impl, op));
      if xs.None? {
        return Err(AnalyzerFailure);
      }
      return Ok(StatusInfo(xs.value, t));
    case FilterOp =>
      var xs := FilterItems(data, PerItem(a.impl, op));
      if xs.None? {
        return Err(AnalyzerFailure);
      }
      return Ok(StatusInfo(xs.value, t));
    case ReduceOp =>
      if !a.impl.ReduceImpl? {
        return Err(AnalyzerFailure);
      }
      var v := FoldItems(data, a.impl.initValue, a.impl.combine);
      if v.None? {
        return Err(AnalyzerFailure);
      }
      return Ok(NonMutableStatusInfo(v.value, t));
    case TransformOp =>
      if !a.impl.TransformImpl? {
        return Err(AnalyzerFailure);
      }
      var v := a.impl.transformAll(data);
      if v.None? {
        return Err(AnalyzerFailure);
      }
      return NewStatusInfo(v.value, Some(ts), now);
    case ProcessOp =>
      if !a.impl.ProcessImpl? {
        return Err(AnalyzerFailure);
      }
      var v := a.impl.processAll(data);
      if v.None? {
        return Err(AnalyzerFailure);
      }
      return Ok(NonMutableStatusInfo(v.value, t));
  }

  // ---------------------------------------------------------------------------
  // Analysis on any object
  // ---------------------------------------------------------------------------

  /** The object `info.<op>(a)` returns when it returns one. A _DictStatusInfo applies
      the operation to every value under the same key; the non-mutable classes have no
      such method. */
  function Applied(info: Info, op: Op, a: Analyzer, now: int): Option<Info>
    decreases info, 1
  {
    match info
    case StatusInfo(data, ts) =>
      if a.analyzertype != OpName(op) then None
      else
        var r := ListOutcome(data, ts, op, a, now);
        if r.Ok? then Some(r.value) else None
    case DictStatusInfo(groups, ts) =>
      if a.analyzertype != OpName(op) then None
      else
        var out := AppliedGroups(info, op, a, now);
        var t := Stamp(Some(ts), now);
        if out.None? then None
        else Some(if IsFinal(op) then NonMutableDictStatusInfo(out.value, t) else DictStatusInfo(out.value, t))
    case NonMutableStatusInfo(_, _) => None
    case NonMutableDictStatusInfo(_, _) => None
  }

  /** The values of a _DictStatusInfo each put through the operation, under the same
      keys, when none of them fails. */
  function AppliedGroups(info: Info, op: Op, a: Analyzer, now: int): Option<map<Value, Info>>
    requires info.DictStatusInfo?
    decreases info, 0
  {
    if forall k | k in info.groups :: Applied(info.groups[k], op, a, now).Some? then
      Some(map k | k in info.groups :: Applied(info.groups[k], op, a, now).value)
    else None
  }

  /** The exceptions `info.<op>(a)` can raise. A _DictStatusInfo walks its keys in the
      dict's own (unspecified) order and stops at the first value that raises, so any
      value's exception can be the one that surfaces. */
  ghost predicate Raises(info: Info, op: Op, a: Analyzer, now: int, e: InfoError)
    decreases info, 1
  {
    match info
    case StatusInfo(data, ts) =>
      if a.analyzertype != OpName(op) then e == IncorrectAnalyzer(a.analyzertype, OpName(op))
      else ListOutcome(data, ts, op, a, now) == Err(e)
    case DictStatusInfo(groups, ts) =>
      if a.analyzertype != OpName(op) then e == IncorrectAnalyzer(a.analyzertype, OpName(op))
      else RaisesInGroups(info, op, a, now, e)
    case NonMutableStatusInfo(_, _) => e == AttributeError(OpName(op))
    case NonMutableDictStatusInfo(_, _) => e == AttributeError(OpName(op))
  }

  /** Some value of a _DictStatusInfo raises e. */
  ghost predicate RaisesInGroups(info: Info, op: Op, a: Analyzer, now: int, e: InfoError)
    requires info.DictStatusInfo?
    decreases info, 0
  {
    exists k | k in info.groups :: Raises(info.groups[k], op, a, now, e)
  }

  /** `info.indexby(a)`, `info.map(a)`, ... : validate_call, then the operation. */
  method Apply(info: Info, op: Op, a: Analyzer, now: int) returns (r: Result<Info, InfoError>)
    ensures r.Ok? <==> Applied(info, op, a, now).Some?
    ensures r.Ok? ==> r.value == Applied(info, op, a, now).value
    ensures r.Err? ==> Raises(info, op, a, now, r.error)
    decreases info, 2
  {
    match info
    case StatusInfo(data, ts) =>
      if a.analyzertype != OpName(op) {
        return Err(IncorrectAnalyzer(a.analyzertype, OpName(op)));
      }
      r := ApplyToItems(data, ts, op, a, now);
    case DictStatusInfo(groups, ts) =>
      if a.analyzertype != OpName(op) {
        return Err(IncorrectAnalyzer(a.analyzertype, OpName(op)));
      }
      r := ApplyToGroups(info, op, a, now);
    case NonMutableStatusInfo(_, _) =>
      return Err(AttributeError(OpName(op)));
    case NonMutableDictStatusInfo(_, _) =>
      return Err(AttributeError(OpName(op)));
  }

  /** _DictStatusInfo.<op>: the operation under every key, then a dict of the results
      (a final one after reduce and process). */
  method ApplyToGroups(info: Info, op: Op, a: Analyzer, now: int) returns (r: Result<Info, InfoError>)
    requires info.DictStatusInfo? && a.analyzertype == OpName(op)
    ensures r.Ok? <==> Applied(info, op, a, now).Some?
    ensures r.Ok? ==> r.value == Applied(info, op, a, now).value
    ensures r.Err? ==> Raises(info, op, a, now, r.error)
    decreases info, 1
  {
    var each := ApplyEach(info, op, a, now);
    if each.Err? {
      return Err(each.error);
    }
    var t := Stamp(Some(info.timestamp), now);
    if IsFinal(op) {
      return Ok(NonMutableDictStatusInfo(each.value, t));
    }
    return Ok(DictStatusInfo(each.value, t));
  }

  /** The loop of _DictStatusInfo.<op>: one recursive call per key, in some order,
      stopping at the first that raises. */
  method ApplyEach(info: Info, op: Op, a: Analyzer, now: int) returns (r: Result<map<Value, Info>, InfoError>)
    requires info.DictStatusInfo?
    ensures r.Ok? <==> AppliedGroups(info, op, a, now).Some?
    ensures r.Ok? ==> r.value == AppliedGroups(info, op, a, now).value
    ensures r.Err? ==> RaisesInGroups(info, op, a, now, r.error)
    decreases info, 0
  {
    var groups := info.groups;
    var out: map<Value, Info> := map[];
    var todo := groups.Keys;
    while todo != {}
      invariant todo <= groups.Keys
      invariant out.Keys == groups.Keys - todo
      invariant forall k | k in out :: Applied(groups[k], op, a, now) == Some(out[k])
      decreases todo
    {
      var k :| k in todo;
      var child := Apply(groups[k], op, a, now);
      if child.Err? {
        assert Raises(groups[k], op, a, now, child.error);
        assert !Applied(groups[k], op, a, now).Some?;
        return Err(child.error);
      }
      out := out[k := child.value];
      todo := todo - {k};
    }
    assert forall k | k in groups :: Applied(groups[k], op, a, now).Some?;
    assert out == map k | k in groups :: Applied(groups[k], op, a, now).value;
    return Ok(out);
  }

  // ---------------------------------------------------------------------------
  // Properties of the analysis methods
  // ---------------------------------------------------------------------------

  /** An operation fails exactly when it raises something. */
  lemma {:induction false} FailsIffRaises(info: Info, op: Op, a: Analyzer, now: int)
    ensures Applied(info, op, a, now).None? <==> CanRaise(info, op, a, now)
    decreases info
  {
    match info
    case StatusInfo(data, ts) =>
      if a.analyzertype != OpName(op) {
        assert Raises(info, op, a, now, IncorrectAnalyzer(a.analyzertype, OpName(op)));
      } else if ListOutcome(data, ts, op, a, now).Err? {
        assert Raises(info, op, a, now, ListOutcome(data, ts, op, a, now).error);
      }
    case DictStatusInfo(groups, ts) =>
      if a.analyzertype != OpName(op) {
        var e := IncorrectAnalyzer(a.analyzertype, OpName(op));
        assert Applied(info, op, a, now).None?;
        assert Raises(info, op, a, now, e);
        assert exists e' :: Raises(info, op, a, now, e');
      } else {
        forall k | k in info.groups
          ensures Applied(info.groups[k], op, a, now).None? <==> CanRaise(info.groups[k], op, a, now)
        {
          FailsIffRaises(info.groups[k], op, a, now);
        }
        GroupsFailIffRaise(info, op, a, now);
      }
    case NonMutableStatusInfo(_, _) =>
      assert Raises(info, op, a, now, AttributeError(OpName(op)));
    case NonMutableDictStatusInfo(_, _) =>
      assert Raises(info, op, a, now, AttributeError(OpName(op)));
  }

  /** The values of a _DictStatusInfo fail together exactly when one of them raises,
      given that each value fails exactly when it raises. */
  lemma GroupsFailIffRaise(info: Info, op: Op, a: Analyzer, now: int)
    requires info.DictStatusInfo? && a.analyzertype == OpName(op)
    requires forall k | k in info.groups :: Applied(info.groups[k], op, a, now).None? <==> CanRaise(info.groups[k], op, a, now)
    ensures AppliedGroups(info, op, a, now).None? <==> CanRaise(info, op, a, now)
  {
    if AppliedGroups(info, op, a, now).None? {
      var k :| k in info.groups && Applied(info.groups[k], op, a, now).None?;
      assert CanRaise(info.groups[k], op, a, now);
      var e :| Raises(info.groups[k], op, a, now, e);
      assert RaisesInGroups(info, op, a, now, e);
      assert Raises(info, op, a, now, e);
    }
    if CanRaise(info, op, a, now) {
      var e :| Raises(info, op, a, now, e);
      assert RaisesInGroups(info, op, a, now, e);
      var k :| k in info.groups && Raises(info.groups[k], op, a, now, e);
      assert CanRaise(info.groups[k], op, a, now);
    }
  }

  /** Some exception can be raised. */
  ghost predicate CanRaise(info: Info, op: Op, a: Analyzer, now: int) {
    exists e :: Raises(info, op, a, now, e)
  }

  /** validate_call: an analyzer whose type is not the method's name is refused with
      IncorrectAnalyzer, and nothing else can be raised, before any work is done. */
  lemma WrongAnalyzerRefused(info: Info, op: Op, a: Analyzer, now: int, e: InfoError)
    requires HasAnalysis(info) && a.analyzertype != OpName(op)
    ensures Applied(info, op, a, now).None?
    ensures Raises(info, op, a, now, e) <==> e == IncorrectAnalyzer(a.analyzertype, OpName(op))
  {
  }

  /** The non-mutable results have no analysis methods at all. */
  lemma FinalObjectsRefuseAnalysis(info: Info, op: Op, a: Analyzer, now: int, e: InfoError)
    requires !HasAnalysis(info)
    ensures Applied(info, op, a, now).None?
    ensures Raises(info, op, a, now, e) <==> e == AttributeError(OpName(op))
  {
  }

  /** On a _DictStatusInfo an operation keeps exactly the same keys, applies itself to
      the value under each key, and carries the timestamp over; reduce and process make
      the result non-mutable. It succeeds exactly when it succeeds on every value. */
  lemma DictKeepsKeys(info: Info, op: Op, a: Analyzer, now: int)
    requires info.DictStatusInfo? && a.analyzertype == OpName(op)
    ensures Applied(info, op, a, now).Some? <==> forall k | k in info.groups :: Applied(info.groups[k], op, a, now).Some?
    ensures Applied(info, op, a, now).Some? ==>
              var r := Applied(info, op, a, now).value;
              (r.NonMutableDictStatusInfo? <==> IsFinal(op)) && (r.DictStatusInfo? <==> !IsFinal(op)) &&
              r.groups.Keys == info.groups.Keys &&
              (forall k | k in info.groups :: Applied(info.groups[k], op, a, now) == Some(r.groups[k])) &&
              (info.timestamp != 0 ==> r.timestamp == info.timestamp)
  {
  }

  /** The shape of each result: indexby gives a _DictStatusInfo of StatusInfo groups,
      map, filter and transform a StatusInfo, reduce and process a final value; the
      timestamp is carried over. */
  lemma ListResultShape(data: seq<Value>, ts: int, op: Op, a: Analyzer, now: int)
    requires ListOutcome(data, ts, op, a, now).Ok?
    ensures var r := ListOutcome(data, ts, op, a, now).value;
            (ts != 0 ==> r.timestamp == ts) &&
            (op == IndexByOp ==> r.DictStatusInfo? && forall k | k in r.groups :: r.groups[k].StatusInfo? && r.groups[k].timestamp == r.timestamp) &&
            (op in {MapOp, FilterOp, TransformOp} ==> r.StatusInfo?) &&
            (IsFinal(op) ==> r.NonMutableStatusInfo?)
  {
  }

  /** indexby groups the items by their key, dropping None keys: there is one StatusInfo
      per key, holding exactly the items with that key in their original order (and
      Analysis.GroupedPermutation shows that the groups hold every other item as often
      as the input does). It fails exactly when a key call raises or returns a value
      that cannot be hashed. */
  lemma IndexByGroups(data: seq<Value>, ts: int, a: Analyzer, now: int)
    requires a.impl.IndexByImpl?
    ensures ListOutcome(data, ts, IndexByOp, a, now).Ok? <==>
            forall i | 0 <= i < |data| :: GroupableKey(a.impl.keyOf(data[i]))
    ensures ListOutcome(data, ts, IndexByOp, a, now).Ok? ==>
              var groups := ListOutcome(data, ts, IndexByOp, a, now).value.groups;
              PyNone !in groups &&
              groups.Keys == Grouped(data, a.impl.keyOf).value.Keys &&
              (forall k | k in groups :: groups[k] == StatusInfo(WithKey(data, a.impl.keyOf, k), Stamp(Some(ts), now))) &&
              (forall k | k in groups :: groups[k].items != [])
  {
    var key := a.impl.keyOf;
    assert PerItem(a.impl, IndexByOp) == key;
    GroupedSucceeds(data, key);
    if Grouped(data, key).Some? {
      GroupedContents(data, key);
    }
  }

  /** filter keeps exactly the items that pass, each as often as it occurs, in order. */
  lemma FilterKeeps(data: seq<Value>, ts: int, a: Analyzer, now: int)
    requires a.impl.FilterImpl?
    ensures ListOutcome(data, ts, FilterOp, a, now).Ok? <==> forall i | 0 <= i < |data| :: a.impl.keep(data[i]).Some?
    ensures ListOutcome(data, ts, FilterOp, a, now).Ok? ==>
              var kept := ListOutcome(data, ts, FilterOp, a, now).value.items;
              (forall x :: multiset(kept)[x] == if Passes(a.impl.keep, x) then multiset(data)[x] else 0) &&
              (forall x :: x in kept <==> x in data && Passes(a.impl.keep, x))
  {
    FilteredSucceeds(data, a.impl.keep);
    if Filtered(data, a.impl.keep).Some? {
      FilteredMultiset(data, a.impl.keep);
    }
  }

  /** map gives one result per item, in place: element i is the call on item i. */
  lemma MapPointwise(data: seq<Value>, ts: int, a: Analyzer, now: int)
    requires a.impl.MapImpl?
    ensures ListOutcome(data, ts, MapOp, a, now).Ok? <==> forall i | 0 <= i < |data| :: a.impl.mapItem(data[i]).Some?
    ensures ListOutcome(data, ts, MapOp, a, now).Ok? ==>
              var ys := ListOutcome(data, ts, MapOp, a, now).value.items;
              |ys| == |data| && forall i | 0 <= i < |data| :: ys[i] == a.impl.mapItem(data[i]).value
  {
  }

  /** reduce is the left fold from init_value, and its result is final. */
  lemma ReduceFolds(data: seq<Value>, ts: int, a: Analyzer, now: int)
    requires a.impl.ReduceImpl?
    ensures ListOutcome(data, ts, ReduceOp, a, now).Ok? <==> FoldFromFront(data, a.impl.initValue, a.impl.combine).Some?
    ensures ListOutcome(data, ts, ReduceOp, a, now).Ok? ==>
              ListOutcome(data, ts, ReduceOp, a, now).value ==
              NonMutableStatusInfo(FoldFromFront(data, a.impl.initValue, a.impl.combine).value, Stamp(Some(ts), now))
  {
    FoldedIsLeftFold(data, a.impl.initValue, a.impl.combine);
  }

  /** transform must give back a list: anything else is refused by the StatusInfo
      constructor, outside the exception wrapper, as IncorrectInputDataType(list). */
  lemma TransformNeedsList(data: seq<Value>, ts: int, a: Analyzer, now: int)
    requires a.impl.TransformImpl? && a.impl.transformAll(data).Some?
    ensures ListOutcome(data, ts, TransformOp, a, now).Ok? <==> a.impl.transformAll(data).value.PyList?
    ensures !a.impl.transformAll(data).value.PyList? ==>
              ListOutcome(data, ts, TransformOp, a, now) == Err(IncorrectInputDataType("list"))
  {
  }

  // ---------------------------------------------------------------------------
  // analyze() and Algorithm
  // ---------------------------------------------------------------------------

  /** StatusInfo.analyze(a): dispatch on the analyzer type. The other classes have no
      analyze method. */
  function AnalyzeOutcome(info: Info, a: Analyzer, now: int): Result<Info, InfoError> {
    if !info.StatusInfo? then Err(AttributeError("analyze"))
    else
      match OpNamed(a.analyzertype)
      case None => Err(NotAnAnalyzer)
      case Some(op) => ListOutcome(info.items, info.timestamp, op, a, now)
  }

  method AnalyzeStatus(info: Info, a: Analyzer, now: int) returns (r: Result<Info, InfoError>)
    ensures r == AnalyzeOutcome(info, a, now)
  {
    if !info.StatusInfo? {
      return Err(AttributeError("analyze"));
    }
    var op := OpNamed(a.analyzertype);
    if op.None? {
      return Err(NotAnAnalyzer);
    }
    r := Apply(info, op.value, a, now);
  }

  /** analyze() on a StatusInfo is the method named by the analyzer type. */
  lemma AnalyzeDispatches(info: Info, op: Op, a: Analyzer, now: int)
    requires info.StatusInfo? && a.analyzertype == OpName(op)
    ensures AnalyzeOutcome(info, a, now).Ok? <==> Applied(info, op, a, now).Some?
    ensures AnalyzeOutcome(info, a, now).Ok? ==> AnalyzeOutcome(info, a, now).value == Applied(info, op, a, now).value
  {
    assert OpNamed(a.analyzertype) == Some(op) by {
      if OpNamed(a.analyzertype).Some? {
        var op' := OpNamed(a.analyzertype).value;
        assert OpName(op') == OpName(op);
      }
    }
  }

  /** Algorithm.analyze(input): `tmp_out = tmp_out.analyze(analyzer)` for each analyzer
      in turn; the first exception ends the chain. */
  function Chained(info: Info, analyzers: seq<Analyzer>, now: int): Result<Info, InfoError>
    decreases |analyzers|
  {
    if |analyzers| == 0 then Ok(info)
    else
      match AnalyzeOutcome(info, analyzers[0], now)
      case Err(e) => Err(e)
      case Ok(next) => Chained(next, analyzers[1..], now)
  }

  /** Adding an analyzer to an algorithm runs it on the previous chain's result. */
  lemma {:induction false} ChainedAppend(info: Info, analyzers: seq<Analyzer>, a: Analyzer, now: int)
    ensures Chained(info, analyzers + [a], now) ==
            match Chained(info, analyzers, now) case Err(e) => Err(e) case Ok(v) => AnalyzeOutcome(v, a, now)
    decreases |analyzers|
  {
    if |analyzers| > 0 {
      assert (analyzers + [a])[1..] == analyzers[1..] + [a];
      match AnalyzeOutcome(info, analyzers[0], now)
      case Err(e) =>
      case Ok(next) => ChainedAppend(next, analyzers[1..], a, now);
    } else {
      assert analyzers + [a] == [a];
      assert [a][1..] == [];
    }
  }

  /** Once a step yields anything but a StatusInfo (indexby, reduce, process), a further
      step fails: only StatusInfo has analyze(). */
  lemma ChainStopsAfterNonList(info: Info, a: Analyzer, rest: seq<Analyzer>, now: int)
    requires AnalyzeOutcome(info, a, now).Ok? && !AnalyzeOutcome(info, a, now).value.StatusInfo?
    requires |rest| > 0
    ensures Chained(info, [a] + rest, now) == Err(AttributeError("analyze"))
  {
    assert ([a] + rest)[0] == a;
    assert ([a] + rest)[1..] == rest;
  }

  /** A container of analyzers run in sequence. */
  class Algorithm {
    var analyzers: seq<Analyzer>

    constructor ()
      ensures analyzers == []
    {
      analyzers := [];
    }

    /** add(analyzer): the analyzer goes last. */
    method Add(a: Analyzer)
      modifies this
      ensures analyzers == old(analyzers) + [a]
    {
      analyzers := analyzers + [a];
    }

    /** analyze(input_data), and StatusInfo.apply_algorithm(algorithm) which calls it. */
    method Analyze(input: Info, now: int) returns (r: Result<Info, InfoError>)
      ensures r == Chained(input, analyzers, now)
    {
      var out := input;
      for i := 0 to |analyzers|
        invariant Chained(input, analyzers, now) == Chained(out, analyzers[i..], now)
      {
        assert analyzers[i..][1..] == analyzers[i + 1..];
        var step := AnalyzeStatus(out, analyzers[i], now);
        if step.Err? {
          return Err(step.error);
        }
        out := step.value;
      }
      return Ok(out);
    }
  }

  // ---------------------------------------------------------------------------
  // Reading the data: get, __getitem__, getraw
  // ---------------------------------------------------------------------------

  /** What `get()` hands back: the list of a StatusInfo, the dict of a dict class, or a
      raw value. */
  datatype Data = ItemsData(items: seq<Value>) | GroupsData(groups: map<Value, Info>) | RawData(value: Value)

  function DataOf(info: Info): Data {
    match info
    case StatusInfo(items, _) => ItemsData(items)
    case DictStatusInfo(groups, _) => GroupsData(groups)
    case NonMutableStatusInfo(raw, _) => RawData(raw)
    case NonMutableDictStatusInfo(groups, _) => GroupsData(groups)
  }

  /** `obj[key]`: only the dict classes define __getitem__. The key is looked for in the
      key list with `==` and the group is then fetched by hash, so a key equal to a
      group's key (True for 1) finds that group. */
  function GetItem(info: Info, key: Value): (r: Result<Info, InfoError>)
    ensures (info.DictStatusInfo? || info.NonMutableDictStatusInfo?) && key in info.groups ==> r == Ok(info.groups[key])
    ensures (info.DictStatusInfo? || info.NonMutableDictStatusInfo?) && key !in info.groups && Filed(info.groups, key) ==>
              r == Ok(info.groups[Twin(key).value])
    ensures (info.DictStatusInfo? || info.NonMutableDictStatusInfo?) && !Filed(info.groups, key) ==> r == Err(MissingKey(key))
    ensures info.StatusInfo? || info.NonMutableStatusInfo? ==> r == Err(TypeError)
  {
    match info
    case DictStatusInfo(groups, _) => GroupAt(groups, key)
    case NonMutableDictStatusInfo(groups, _) => GroupAt(groups, key)
    case _ => Err(TypeError)
  }

  /** The membership test and lookup shared by __getitem__ and get. */
  function GroupAt(groups: map<Value, Info>, key: Value): Result<Info, InfoError> {
    var k := FiledUnder(groups, key);
    if k in groups then Ok(groups[k]) else Err(MissingKey(key))
  }

  /** In a dict class, `obj[key]` succeeds exactly when some group key equals key under
      `==`, and then returns that group. */
  lemma GetItemPyEq(info: Info, key: Value)
    requires info.DictStatusInfo? || info.NonMutableDictStatusInfo?
    requires DictKeys(info.groups)
    ensures GetItem(info, key).Ok? <==> exists k | k in info.groups :: PyEq(key, k)
    ensures forall k | k in info.groups && PyEq(key, k) :: GetItem(info, key) == Ok(info.groups[k])
  {
    EqualKeyIsFiled(info.groups, key);
  }

  /** `info[True]` finds the group of 1, since True == 1. */
  lemma GetItemTrueIsOne(s: Info, ts: int)
    ensures GetItem(DictStatusInfo(map[PyInt(1) := s], ts), PyBool(true)) == Ok(s)
  {
    assert Twin(PyBool(true)) == Some(PyInt(1));
  }

  /** `obj[k1][k2]...`: __getitem__ once per key. */
  function ItemPath(info: Info, keys: seq<Value>): (r: Result<Info, InfoError>)
    ensures |keys| == 0 ==> r == Ok(info)
    ensures |keys| > 0 && GetItem(info, keys[0]).Err? ==> r == Err(GetItem(info, keys[0]).error)
    ensures r.Err? ==> r.error.MissingKey? || r.error == TypeError
    decreases |keys|
  {
    if |keys| == 0 then Ok(info)
    else
      match GetItem(info, keys[0])
      case Err(e) => Err(e)
      case Ok(child) => ItemPath(child, keys[1..])
  }

  /** `value.get(*args)` on a raw value reached below a non-mutable result. */
  function RawGet(v: Value, args: seq<Value>): Result<Data, InfoError> {
    match DictGet(v, args)
    case Ok(x) => Ok(RawData(x))
    case Err(NoGetMethod) => Err(AttributeError("get"))
    case Err(BadGetArguments) => Err(TypeError)
  }

  /** _Base.get(*key_l): the data when no key is given; otherwise the first key is looked
      up in `self.data.keys()` and get continues on what it finds with the other keys. */
  function Get(info: Info, keys: seq<Value>): (r: Result<Data, InfoError>)
    ensures |keys| == 0 ==> r == Ok(DataOf(info))
    ensures |keys| > 0 && info.StatusInfo? ==> r == Err(AttributeError("keys"))
    ensures |keys| > 0 && (info.DictStatusInfo? || info.NonMutableDictStatusInfo?) && !Filed(info.groups, keys[0]) ==>
              r == Err(MissingKey(keys[0]))
    ensures |keys| > 0 && info.NonMutableStatusInfo? && info.raw.PyDict? && !(keys[0].PyStr? && keys[0].s in info.raw.entries) ==>
              r == Err(MissingKey(keys[0]))
    decreases info
  {
    if |keys| == 0 then Ok(DataOf(info))
    else
      match info
      case StatusInfo(_, _) => Err(AttributeError("keys"))
      case DictStatusInfo(groups, _) =>
        var k := FiledUnder(groups, keys[0]);
        if k in groups then Get(groups[k], keys[1..]) else Err(MissingKey(keys[0]))
      case NonMutableDictStatusInfo(groups, _) =>
        var k := FiledUnder(groups, keys[0]);
        if k in groups then Get(groups[k], keys[1..]) else Err(MissingKey(keys[0]))
      case NonMutableStatusInfo(raw, _) =>
        if !raw.PyDict? then Err(AttributeError("keys"))
        else if !(keys[0].PyStr? && keys[0].s in raw.entries) then Err(MissingKey(keys[0]))
        else RawGet(raw.entries[keys[0].s], keys[1..])
  }

  /** get(*keys) descends one level per key exactly as chained __getitem__ calls do,
      and returns the data of the object reached. */
  lemma {:induction false} GetFollowsItemPath(info: Info, keys: seq<Value>)
    requires ItemPath(info, keys).Ok?
    ensures Get(info, keys) == Ok(DataOf(ItemPath(info, keys).value))
    decreases |keys|
  {
    if |keys| > 0 {
      GetFollowsItemPath(GetItem(info, keys[0]).value, keys[1..]);
    }
  }

  /** A key missing on the way down raises MissingKey in get as in __getitem__. */
  lemma {:induction false} GetMissingKey(info: Info, keys: seq<Value>, k: Value)
    requires ItemPath(info, keys) == Err(MissingKey(k))
    ensures Get(info, keys) == Err(MissingKey(k))
    decreases |keys|
  {
    if |keys| > 0 && GetItem(info, keys[0]).Ok? {
      GetMissingKey(GetItem(info, keys[0]).value, keys[1..], k);
    }
  }

  /** What getraw() returns: the raw data at the leaves and plain dicts above them. */
  datatype Raw = RawValue(value: Value) | RawDict(entries: map<Value, Raw>)

  /** getraw(): a StatusInfo or non-mutable result gives its data; a dict class gives a
      dict with the same keys holding each value's getraw(). */
  function GetRaw(info: Info): (r: Raw)
    ensures info.StatusInfo? ==> r == RawValue(PyList(info.items))
    ensures info.NonMutableStatusInfo? ==> r == RawValue(info.raw)
    ensures info.DictStatusInfo? || info.NonMutableDictStatusInfo? ==> r.RawDict? && r.entries.Keys == info.groups.Keys
    decreases info
  {
    match info
    case StatusInfo(items, _) => RawValue(PyList(items))
    case NonMutableStatusInfo(raw, _) => RawValue(raw)
    case DictStatusInfo(groups, _) => RawDict(map k | k in groups :: GetRaw(groups[k]))
    case NonMutableDictStatusInfo(groups, _) => RawDict(map k | k in groups :: GetRaw(groups[k]))
  }

  /** Indexing the raw tree, a Python dict at each level. */
  function RawAt(r: Raw, keys: seq<Value>): Option<Raw>
    decreases |keys|
  {
    if |keys| == 0 then Some(r)
    else if r.RawDict? && FiledUnder(r.entries, keys[0]) in r.entries then RawAt(r.entries[FiledUnder(r.entries, keys[0])], keys[1..])
    else None
  }

  /** getraw() mirrors the object tree: every object reachable by __getitem__ has its own
      getraw() at the same key path, and no other path exists in the raw tree. */
  lemma {:induction false} GetRawMirrorsTree(info: Info, keys: seq<Value>)
    ensures ItemPath(info, keys).Ok? ==> RawAt(GetRaw(info), keys) == Some(GetRaw(ItemPath(info, keys).value))
    ensures ItemPath(info, keys).Err? ==> RawAt(GetRaw(info), keys).None?
    decreases |keys|
  {
    if |keys| > 0 {
      match info
      case DictStatusInfo(groups, _) =>
        var k := FiledUnder(groups, keys[0]);
        if k in groups {
          GetRawMirrorsTree(groups[k], keys[1..]);
        }
      case NonMutableDictStatusInfo(groups, _) =>
        var k := FiledUnder(groups, keys[0]);
        if k in groups {
          GetRawMirrorsTree(groups[k], keys[1..]);
        }
      case StatusInfo(_, _) =>
      case NonMutableStatusInfo(_, _) =>
    }
  }

  // ---------------------------------------------------------------------------
  // Pre-made analyzers
  // ---------------------------------------------------------------------------

  /** IndexByKey(key).indexby(job): `job[key]`, or None when that raises. */
  function IndexByKeyOf(key: string, job: Value): (r: Value)
    ensures job.PyDict? && key in job.entries ==> r == job.entries[key]
    ensures !(job.PyDict? && key in job.entries) ==> r == PyNone
  {
    match Lookup(job, key)
    case None => PyNone
    case Some(v) => v
  }

  function IndexByKey(key: string): (a: Analyzer)
    ensures a.analyzertype == "indexby" && a.impl.IndexByImpl?
    ensures forall job: Value | job.PyDict? && key in job.entries :: a.impl.keyOf(job) == Some(job.entries[key])
    ensures forall job: Value | !job.PyDict? || key !in job.entries :: a.impl.keyOf(job) == Some(PyNone)
  {
    Analyzer("indexby", IndexByImpl((job: Value) => Some(IndexByKeyOf(key, job))))
  }

  /** Grouping by IndexByKey(key): records lacking the key (or holding None under it) are
      dropped and every other record lands in the group of its own value, or of the value
      equal to it under `==` that was met first (a record with True joins the group of 1). */
  lemma IndexByKeyGroups(data: seq<Value>, key: string, ts: int, now: int)
    requires forall i | 0 <= i < |data| :: Hashable(IndexByKeyOf(key, data[i]))
    ensures ListOutcome(data, ts, IndexByOp, IndexByKey(key), now).Ok?
    ensures var groups := ListOutcome(data, ts, IndexByOp, IndexByKey(key), now).value.groups;
            forall i | 0 <= i < |data| ::
              (IndexByKeyOf(key, data[i]) == PyNone ==> forall k | k in groups :: data[i] !in groups[k].items) &&
              (IndexByKeyOf(key, data[i]) != PyNone ==>
                 FiledUnder(groups, IndexByKeyOf(key, data[i])) in groups &&
                 data[i] in groups[FiledUnder(groups, IndexByKeyOf(key, data[i]))].items)
  {
    var a := IndexByKey(key);
    var keyOf := a.impl.keyOf;
    assert forall i | 0 <= i < |data| :: GroupableKey(keyOf(data[i]));
    IndexByGroups(data, ts, a, now);
    var g := Grouped(data, keyOf).value;
    var groups := ListOutcome(data, ts, IndexByOp, a, now).value.groups;
    forall i | 0 <= i < |data|
      ensures IndexByKeyOf(key, data[i]) == PyNone ==> forall k | k in groups :: data[i] !in groups[k].items
      ensures IndexByKeyOf(key, data[i]) != PyNone ==>
                FiledUnder(groups, IndexByKeyOf(key, data[i])) in groups &&
                data[i] in groups[FiledUnder(groups, IndexByKeyOf(key, data[i]))].items
    {
      GroupedPlaces(data, keyOf, data[i]);
      assert keyOf(data[i]) == Some(IndexByKeyOf(key, data[i]));
      assert FiledUnder(groups, IndexByKeyOf(key, data[i])) == FiledUnder(g, IndexByKeyOf(key, data[i]));
    }
  }

  /** str() of a value as far as the model goes: lists and dicts (whose text is their
      repr) are not rendered. */
  function StrOf(v: Value): (r: Option<string>)
    ensures v.PyStr? ==> r == Some(v.s)
    ensures v.PyInt? ==> r == Some(IntToString(v.i))
  {
    match v
    case PyNone => Some("None")
    case PyBool(b) => Some(if b then "True" else "False")
    case PyInt(i) => Some(IntToString(i))
    case PyStr(s) => Some(s)
    case _ => None
  }

  /** IndexByKeyRemap(key, mapping).indexby(job): `mapping[str(job[key])]` when that text
      is a mapping key; None when the record lacks the key or the text is unmapped. */
  function RemapOf(key: string, mapping: map<string, Value>, job: Value): (r: Value)
    ensures Lookup(job, key).None? ==> r == PyNone
    ensures Lookup(job, key).Some? && StrOf(Lookup(job, key).value).Some? ==>
              var text := StrOf(Lookup(job, key).value).value;
              r == if text in mapping then mapping[text] else PyNone
  {
    match Lookup(job, key)
    case None => PyNone
    case Some(v) =>
      match StrOf(v)
      case None => PyNone
      case Some(text) => if text in mapping then mapping[text] else PyNone
  }

  /** The remapping analyzer never raises: an unusable record is filed under None. */
  function IndexByKeyRemap(key: string, mapping: map<string, Value>): (a: Analyzer)
    ensures a.analyzertype == "indexby" && a.impl.IndexByImpl?
    ensures forall job | Lookup(job, key).None? :: a.impl.keyOf(job) == Some(PyNone)
    ensures forall job, n | Lookup(job, key) == Some(PyInt(n)) && IntToString(n) in mapping ::
              a.impl.keyOf(job) == Some(mapping[IntToString(n)])
  {
    Analyzer("indexby", IndexByImpl((job: Value) => Some(RemapOf(key, mapping, job))))
  }

  /** An integer field is remapped through its decimal text. */
  lemma RemapIntField(key: string, mapping: map<string, Value>, job: Value, n: int)
    requires Lookup(job, key) == Some(PyInt(n)) && IntToString(n) in mapping
    ensures RemapOf(key, mapping, job) == mapping[IntToString(n)]
  {
  }

  /** AttributeValue(attribute, value).filter(job): `job[attribute] == value` under
      Python's `==` (so a record holding 1 passes a filter for True); a record that is
      not a dict, or lacks the attribute, makes the filter raise. */
  function AttributeValueOf(attribute: string, value: Value, job: Value): (r: Option<Value>)
    ensures r.Some? <==> job.PyDict? && attribute in job.entries
    ensures r.Some? ==> r.value.PyBool?
    ensures r == Some(PyBool(true)) <==> job.PyDict? && attribute in job.entries && PyEq(job.entries[attribute], value)
  {
    if !job.PyDict? || attribute !in job.entries then None
    else Some(PyBool(PyEq(job.entries[attribute], value)))
  }

  function AttributeValue(attribute: string, value: Value): (a: Analyzer)
    ensures a.analyzertype == "filter" && a.impl.FilterImpl?
    ensures forall job: Value :: a.impl.keep(job).Some? <==> job.PyDict? && attribute in job.entries
    ensures forall job: Value | job.PyDict? && attribute in job.entries ::
              a.impl.keep(job) == Some(PyBool(PyEq(job.entries[attribute], value)))
  {
    Analyzer("filter", FilterImpl((job: Value) => AttributeValueOf(attribute, value, job)))
  }

  /** Filtering by AttributeValue keeps exactly the records whose attribute equals the
      value, and fails when some record lacks the attribute. */
  lemma AttributeValueSelects(data: seq<Value>, attribute: string, value: Value, ts: int, now: int)
    ensures ListOutcome(data, ts, FilterOp, AttributeValue(attribute, value), now).Ok? <==>
            forall i | 0 <= i < |data| :: data[i].PyDict? && attribute in data[i].entries
    ensures ListOutcome(data, ts, FilterOp, AttributeValue(attribute, value), now).Ok? ==>
              forall x :: x in ListOutcome(data, ts, FilterOp, AttributeValue(attribute, value), now).value.items <==>
                          x in data && x.PyDict? && attribute in x.entries && PyEq(x.entries[attribute], value)
  {
    var a := AttributeValue(attribute, value);
    FilterKeeps(data, ts, a, now);
  }

  /** Python's `==` makes a record whose attribute holds 1 pass a filter for True, and
      one holding 0 fail it: the filter does not tell booleans from the integers 0 and 1. */
  lemma AttributeValueTrueIsOne(attribute: string)
    ensures AttributeValueOf(attribute, PyBool(true), PyDict(map[attribute := PyInt(1)])) == Some(PyBool(true))
    ensures AttributeValueOf(attribute, PyBool(true), PyDict(map[attribute := PyInt(0)])) == Some(PyBool(false))
  {
  }

  /** Count().process(data): len(data). */
  function Count(): (a: Analyzer)
    ensures a.analyzertype == "process" && a.impl.ProcessImpl?
    ensures forall data :: a.impl.processAll(data) == Some(PyInt(|data|))
  {
    Analyzer("process", ProcessImpl((data: seq<Value>) => Some(PyInt(|data|))))
  }

  lemma CountCounts(data: seq<Value>, ts: int, now: int)
    ensures ListOutcome(data, ts, ProcessOp, Count(), now) == Ok(NonMutableStatusInfo(PyInt(|data|), Stamp(Some(ts), now)))
  {
  }

  /** IdleTime().map(job): now - int(job['enteredcurrentstatus']); a missing field or a
      value int() rejects raises. */
  function IdleTimeOf(now: int, job: Value): (r: Option<Value>)
    ensures r.Some? <==> Lookup(job, "enteredcurrentstatus").Some? && IntOf(Lookup(job, "enteredcurrentstatus").value).Some?
    ensures r.Some? ==> r.value == PyInt(now - IntOf(Lookup(job, "enteredcurrentstatus").value).value)
  {
    match Lookup(job, "enteredcurrentstatus")
    case None => None
    case Some(v) =>
      match IntOf(v)
      case None => None
      case Some(entered) => Some(PyInt(now - entered))
  }

  function IdleTime(now: int): (a: Analyzer)
    ensures a.analyzertype == "map" && a.impl.MapImpl?
    ensures forall job: Value :: a.impl.mapItem(job).Some? <==>
              Lookup(job, "enteredcurrentstatus").Some? && IntOf(Lookup(job, "enteredcurrentstatus").value).Some?
    ensures forall job, t | Lookup(job, "enteredcurrentstatus") == Some(PyInt(t)) :: a.impl.mapItem(job) == Some(PyInt(now - t))
  {
    Analyzer("map", MapImpl((job: Value) => IdleTimeOf(now, job)))
  }

  /** A job whose entry time int() reads as t has been idle now - t. */
  lemma IdleTimeOfEntered(now: int, job: Value, t: int)
    requires Lookup(job, "enteredcurrentstatus").Some?
    requires IntOf(Lookup(job, "enteredcurrentstatus").value) == Some(t)
    ensures IdleTimeOf(now, job) == Some(PyInt(now - t))
  {
  }

  /** A job that entered its status at time t has been idle now - t, whether the time is
      recorded as an int or as its decimal text. */
  lemma IdleTimeOfText(now: int, job: Value, t: int)
    requires Lookup(job, "enteredcurrentstatus") == Some(PyStr(IntToString(t)))
    ensures IdleTimeOf(now, job) == Some(PyInt(now - t))
  {
    IntStringRoundTrip(t);
    IdleTimeOfEntered(now, job, t);
  }

  // ---------------------------------------------------------------------------
  // DataItem
  // ---------------------------------------------------------------------------

  /** The default arguments of DataItem.__init__, evaluated once: the `data_d={}` default
      is a single dict object. */
  class DataItemDefaults {
    const dataD: PyDictObject

    constructor ()
      ensures fresh(dataD) && dataD.entries == map[]
    {
      dataD := new PyDictObject(map[]);
    }
  }

  /** A dict whose entries read like attributes, with a default for absent keys. */
  class DataItem {
    const store: PyDictObject
    const default: Value
    const timestamp: int

    /** DataItem(data_d, default, timestamp): keeps a reference to the caller's dict. */
    constructor (dataD: PyDictObject, default: Value, timestamp: Option<int>, now: int)
      ensures store == dataD && this.default == default && this.timestamp == Stamp(timestamp, now)
    {
      store := dataD;
      this.default := default;
      this.timestamp := Stamp(timestamp, now);
    }

    /** DataItem(default=..., timestamp=...) as written: the dict is the one shared
        default object. */
    constructor WithDefaultDict(defaults: DataItemDefaults, default: Value, timestamp: Option<int>, now: int)
      ensures store == defaults.dataD && this.default == default && this.timestamp == Stamp(timestamp, now)
    {
      store := defaults.dataD;
      this.default := default;
      this.timestamp := Stamp(timestamp, now);
    }

    /** DataItem(default=..., timestamp=...) as intended: a new empty dict of its own. */
    constructor WithFreshDict(default: Value, timestamp: Option<int>, now: int)
      ensures fresh(store) && store.entries == map[]
      ensures this.default == default && this.timestamp == Stamp(timestamp, now)
    {
      store := new PyDictObject(map[]);
      this.default := default;
      this.timestamp := Stamp(timestamp, now);
    }

    /** __getattr__(attr) and __getitem__(attr): the stored value, or the default. */
    function Get(attr: string): (v: Value)
      reads store
      ensures attr !in store.entries ==> v == default
      ensures attr in store.entries ==> v == store.entries[attr]
    {
      store.GetOr(attr, default)
    }

    /** __setitem__(attr, value): a later read of attr gives value, other reads are as
        before. */
    method Set(attr: string, value: Value)
      modifies store
      ensures store.entries == old(store.entries)[attr := value]
      ensures Get(attr) == value
      ensures forall other | other != attr :: Get(other) == old(Get(other))
    {
      store.entries := store.entries[attr := value];
    }
  }

  /** As written, two DataItems made without a dict share the default one: a write
      through the first is read back through the second instead of its default. */
  method SharedDefaultLeaks(defaults: DataItemDefaults) returns (first: DataItem, second: DataItem)
    modifies defaults.dataD
    ensures first.store == second.store
    ensures second.Get("x") == PyInt(1) && second.default == PyInt(0)
  {
    first := new DataItem.WithDefaultDict(defaults, PyInt(0), None, 1);
    second := new DataItem.WithDefaultDict(defaults, PyInt(0), None, 1);
    first.Set("x", PyInt(1));
  }

  /** With a dict of its own per object, a write through one DataItem leaves another
      one's reads at its default. */
  method FreshDictsAreSeparate() returns (first: DataItem, second: DataItem)
    ensures first.store != second.store
    ensures second.Get("x") == second.default
  {
    first := new DataItem.WithFreshDict(PyInt(0), None, 1);
    second := new DataItem.WithFreshDict(PyInt(0), None, 1);
    first.Set("x", PyInt(1));
  }
}
