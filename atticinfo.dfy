/** The older StatusInfo of attic/info.py: a single class whose flags say whether the
    object holds raw data (a list of items) or a dict of StatusInfo objects, and whether
    it may still be analysed. Operations recurse through the dicts and apply at the raw
    level; reduce and process give non-mutable results. */
module AtticInfo {
  import opened PyValues
  import opened Analysis

  /** What a StatusInfo holds: a list of items, a dict of StatusInfo objects, or any
      other value (a reduce or process result, or a dict of plain values). */
  datatype Payload =
    | Items(items: seq<Value>)
    | Groups(groups: map<Value, AInfo>)
    | Plain(value: Value)

  datatype AInfo = AInfo(data: Payload, isRaw: bool, isMutable: bool, timestamp: int)

  datatype AtticError =
    | IncorrectInputDataType(expected: string)
    | NotAnAnalyzer
    | IncorrectAnalyzer(analyzertype: string, methodName: string)
    | MissingKey(key: Value)
    | ObjectIsNotMutable(methodName: string)
    | IsRawData(key: Value)
    | AnalyzerFailure
    | AttributeError(name: string)
    | TypeError
    | NameError(name: string)

  /** `type(data) is list`. */
  predicate IsList(p: Payload) {
    p.Items? || (p.Plain? && p.value.PyList?)
  }

  function ListOf(p: Payload): seq<Value>
    requires IsList(p)
  {
    if p.Items? then p.items else p.value.items
  }

  /** `type(data) is dict`. */
  predicate IsDict(p: Payload) {
    p.Groups? || (p.Plain? && p.value.PyDict?)
  }

  /** The checks of StatusInfo.__init__ on its own arguments. */
  predicate Accepts(p: Payload, isRaw: bool, isMutable: bool) {
    !(isRaw && isMutable && !IsList(p)) && !(!isRaw && !IsDict(p))
  }

  /** StatusInfo(data, is_raw, is_mutable, timestamp). */
  function NewAInfo(p: Payload, isRaw: bool, isMutable: bool, timestamp: Option<int>, now: int): (r: Result<AInfo, AtticError>)
    ensures r.Ok? <==> Accepts(p, isRaw, isMutable)
    ensures isRaw && isMutable && !IsList(p) ==> r == Err(IncorrectInputDataType("list"))
    ensures !isRaw && !IsDict(p) ==> r == Err(IncorrectInputDataType("dict"))
    ensures r.Ok? ==> r.value == AInfo(p, isRaw, isMutable, Stamp(timestamp, now))
  {
    if isRaw && isMutable && !IsList(p) then Err(IncorrectInputDataType("list"))
    else if !isRaw && !IsDict(p) then Err(IncorrectInputDataType("dict"))
    else Ok(AInfo(p, isRaw, isMutable, Stamp(timestamp, now)))
  }

  /** Every object in the tree passed the constructor's checks. */
  ghost predicate Wellformed(info: AInfo)
    decreases info
  {
    Accepts(info.data, info.isRaw, info.isMutable) &&
    (info.data.Groups? ==> forall k | k in info.data.groups :: Wellformed(info.data.groups[k]))
  }

  /** The constructor builds only well-formed objects from well-formed parts. */
  lemma ConstructedWellformed(p: Payload, isRaw: bool, isMutable: bool, timestamp: Option<int>, now: int)
    requires p.Groups? ==> forall k | k in p.groups :: Wellformed(p.groups[k])
    requires NewAInfo(p, isRaw, isMutable, timestamp, now).Ok?
    ensures Wellformed(NewAInfo(p, isRaw, isMutable, timestamp, now).value)
  {
  }

  // ---------------------------------------------------------------------------
  // validate_call
  // ---------------------------------------------------------------------------

  /** validate_call as written: on a non-mutable object it raises with the undefined
      name `name`, which Python reports as NameError. */
  function ValidateCallAsWritten(info: AInfo, op: Op, a: Analyzer): (r: Option<AtticError>)
    ensures !info.isMutable ==> r == Some(NameError("name"))
    ensures info.isMutable ==> (r.None? <==> a.analyzertype == OpName(op))
  {
    if !info.isMutable then Some(NameError("name"))
    else if a.analyzertype != OpName(op) then Some(IncorrectAnalyzer(a.analyzertype, OpName(op)))
    else None
  }

  /** validate_call as intended: ObjectIsNotMutable naming the method called. */
  function ValidateCall(info: AInfo, op: Op, a: Analyzer): (r: Option<AtticError>)
    ensures !info.isMutable ==> r == Some(ObjectIsNotMutable(OpName(op)))
    ensures info.isMutable && a.analyzertype != OpName(op) ==> r == Some(IncorrectAnalyzer(a.analyzertype, OpName(op)))
    ensures r.None? <==> info.isMutable && a.analyzertype == OpName(op)
  {
    if !info.isMutable then Some(ObjectIsNotMutable(OpName(op)))
    else if a.analyzertype != OpName(op) then Some(IncorrectAnalyzer(a.analyzertype, OpName(op)))
    else None
  }

  /** The two differ exactly on a non-mutable object: a reduce result analysed again. */
  lemma ValidateCallRaisesNameError(a: Analyzer)
    ensures var final := AInfo(Plain(PyInt(3)), true, false, 1);
            ValidateCallAsWritten(final, ReduceOp, a) == Some(NameError("name")) &&
            ValidateCall(final, ReduceOp, a) == Some(ObjectIsNotMutable("reduce"))
  {
  }

  // ---------------------------------------------------------------------------
  // Analysis
  // ---------------------------------------------------------------------------

  /** The attic class has no transform method. */
  predicate HasMethod(op: Op) {
    op != TransformOp
  }

  /** The raw branch of each method, once validated: the private helper's loop and the
      StatusInfo built from its result. */
  function RawOutcome(data: seq<Value>, ts: int, op: Op, a: Analyzer, now: int): Result<AInfo, AtticError> {
    var t := Stamp(Some(ts), now);
    match op
    case IndexByOp =>
      var g := Grouped(data, PerItem(a.impl, op));
      if g.None? then Err(AnalyzerFailure)
      else Ok(AInfo(Groups(map k | k in g.value :: AInfo(Items(g.value[k]), true, true, t)), false, true, t))
    case MapOp =>
      var xs := Mapped(data, PerItem(a.impl, op));
      if xs.None? then Err(AnalyzerFailure) else Ok(AInfo(Items(xs.value), true, true, t))
    case FilterOp =>
      var xs := Filtered(data, PerItem(a.impl, op));
      if xs.None? then Err(AnalyzerFailure) else Ok(AInfo(Items(xs.value), true, true, t))
    case ReduceOp =>
      if !a.impl.ReduceImpl? then Err(AnalyzerFailure)
      else
        var v := Folded(data, a.impl.initValue, a.impl.combine);
        if v.None? then Err(AnalyzerFailure) else Ok(AInfo(Plain(v.value), true, false, t))
    case ProcessOp =>
      if !a.impl.ProcessImpl? then Err(AnalyzerFailure)
      else
        var v := a.impl.processAll(data);
        if v.None? then Err(AnalyzerFailure) else Ok(AInfo(Plain(v.value), true, false, t))
    case TransformOp => Err(AttributeError("transform"))
  }

  /** The object `info.<op>(a)` returns when it returns one. */
  function Applied(info: AInfo, op: Op, a: Analyzer, now: int): Option<AInfo>
    requires Wellformed(info)
    decreases info
  {
    if !HasMethod(op) || ValidateCall(info, op, a).Some? then None
    else if info.isRaw then
      var r := RawOutcome(ListOf(info.data), info.timestamp, op, a, now);
      if r.Ok? then Some(r.value) else None
    else
      var t := Stamp(Some(info.timestamp), now);
      match info.data
      case Groups(groups) =>
        if forall k | k in groups :: Applied(groups[k], op, a, now).Some? then
          Some(AInfo(Groups(map k | k in groups :: Applied(groups[k], op, a, now).value), false, !IsFinal(op), t))
        else None
      case Plain(v) =>
        // a dict of plain values: each value lacks the method, so only an empty dict passes
        if v.entries == map[] then Some(AInfo(Groups(map[]), false, !IsFinal(op), t)) else None
  }

  predicate IsFinal(op: Op) {
    op == ReduceOp || op == ProcessOp
  }

  /** The exceptions `info.<op>(a)` can raise; on a dict of StatusInfo objects the keys
      are walked in the dict's unspecified order, so any value's exception can surface. */
  ghost predicate Raises(info: AInfo, op: Op, a: Analyzer, now: int, e: AtticError)
    requires Wellformed(info)
    decreases info
  {
    if !HasMethod(op) then e == AttributeError(OpName(op))
    else if ValidateCall(info, op, a).Some? then e == ValidateCall(info, op, a).value
    else if info.isRaw then RawOutcome(ListOf(info.data), info.timestamp, op, a, now) == Err(e)
    else
      match info.data
      case Groups(groups) => exists k | k in groups :: Raises(groups[k], op, a, now, e)
      case Plain(v) => v.entries != map[] && e == AttributeError(OpName(op))
  }

  /** Step 2 of the private indexby helper: one raw StatusInfo per group. */
  method WrapGroups(g: map<Value, seq<Value>>, t: int) returns (m: map<Value, AInfo>)
    ensures m == map k | k in g :: AInfo(Items(g[k]), true, true, t)
  {
    m := map[];
    var todo := g.Keys;
    while todo != {}
      invariant todo <= g.Keys
      invariant m.Keys == g.Keys - todo
      invariant forall k | k in m :: m[k] == AInfo(Items(g[k]), true, true, t)
      decreases todo
    {
      var k :| k in todo;
      m := m[k := AInfo(Items(g[k]), true, true, t)];
      todo := todo - {k};
    }
  }

  /** The raw branch run by the shared loops. */
  method ApplyRaw(data: seq<Value>, ts: int, op: Op, a: Analyzer, now: int) returns (r: Result<AInfo, AtticError>)
    ensures r == RawOutcome(data, ts, op, a, now)
  {
    var t := Stamp(Some(ts), now);
    match op
    case IndexByOp =>
      var g := GroupItems(data, PerItem(a.impl, op));
      if g.None? {
        return Err(AnalyzerFailure);
      }
      var m := WrapGroups(g.value, t);
      return Ok(AInfo(Groups(m), false, true, t));
    case MapOp =>
      var xs := MapItems(data, PerItem(a.impl, op));
      if xs.None? {
        return Err(AnalyzerFailure);
      }
      return Ok(AInfo(Items(xs.value), true, true, t));
    case FilterOp =>
      var xs := FilterItems(data, PerItem(a.impl, op));
      if xs.None? {
        return Err(AnalyzerFailure);
      }
      return Ok(AInfo(Items(xs.value), true, true, t));
    case ReduceOp =>
      if !a.impl.ReduceImpl? {
        return Err(AnalyzerFailure);
      }
      var v := FoldItems(data, a.impl.initValue, a.impl.combine);
      if v.None? {
        return Err(AnalyzerFailure);
      }
      return Ok(AInfo(Plain(v.value), true, false, t));
    case ProcessOp =>
      if !a.impl.ProcessImpl? {
        return Err(AnalyzerFailure);
      }
      var v := a.impl.processAll(data);
      if v.None? {
        return Err(AnalyzerFailure);
      }
      return Ok(AInfo(Plain(v.value), true, false, t));
    case TransformOp =>
      return Err(AttributeError("transform"));
  }

  /** `info.indexby(a)`, `info.map(a)`, ...: validate_call, then the raw branch or one
      recursive call per key. */
  method Apply(info: AInfo, op: Op, a: Analyzer, now: int) returns (r: Result<AInfo, AtticError>)
    requires Wellformed(info)
    ensures r.Ok? <==> Applied(info, op, a, now).Some?
    ensures r.Ok? ==> r.value == Applied(info, op, a, now).value
    ensures r.Err? ==> Raises(info, op, a, now, r.error)
    decreases info, 2
  {
    if !HasMethod(op) {
      return Err(AttributeError(OpName(op)));
    }
    var invalid := ValidateCall(info, op, a);
    if invalid.Some? {
      return Err(invalid.value);
    }
    if info.isRaw {
      r := ApplyRaw(ListOf(info.data), info.timestamp, op, a, now);
      return;
    }
    var t := Stamp(Some(info.timestamp), now);
    match info.data
    case Groups(groups) =>
      r := ApplyToGroups(info, op, a, now);
    case Plain(v) =>
      if v.entries != map[] {
        return Err(AttributeError(OpName(op)));
      }
      return Ok(AInfo(Groups(map[]), false, !IsFinal(op), t));
  }

  method ApplyToGroups(info: AInfo, op: Op, a: Analyzer, now: int) returns (r: Result<AInfo, AtticError>)
    requires Wellformed(info) && info.data.Groups? && !info.isRaw
    requires HasMethod(op) && ValidateCall(info, op, a).None?
    ensures r.Ok? <==> Applied(info, op, a, now).Some?
    ensures r.Ok? ==> r.value == Applied(info, op, a, now).value
    ensures r.Err? ==> Raises(info, op, a, now, r.error)
    decreases info, 1
  {
    var each := ApplyEach(info, op, a, now);
    if each.Err? {
      return Err(each.error);
    }
    var out := each.value;
    var t := Stamp(Some(info.timestamp), now);
    var expected := Applied(info, op, a, now).value;
    assert !expected.isRaw;
    assert expected.isMutable == !IsFinal(op);
    assert expected.timestamp == t;
    assert expected.data.Groups?;
    assert expected.data.groups.Keys == out.Keys;
    assert expected == AInfo(Groups(out), false, !IsFinal(op), t);
    return Ok(AInfo(Groups(out), false, !IsFinal(op), t));
  }

  /** The loop over the dict of groups: one recursive call per key, in some order,
      stopping at the first that raises. */
  method ApplyEach(info: AInfo, op: Op, a: Analyzer, now: int) returns (r: Result<map<Value, AInfo>, AtticError>)
    requires Wellformed(info) && info.data.Groups?
    ensures r.Ok? <==> forall k | k in info.data.groups :: Applied(info.data.groups[k], op, a, now).Some?
    ensures r.Ok? ==> r.value == map k | k in info.data.groups :: Applied(info.data.groups[k], op, a, now).value
    ensures r.Err? ==> exists k | k in info.data.groups :: Raises(info.data.groups[k], op, a, now, r.error)
    decreases info, 0
  {
    var groups := info.data.groups;
    var out: map<Value, AInfo> := map[];
    var todo := groups.Keys;
    while todo != {}
      invariant todo <= groups.Keys
      invariant out.Keys == groups.Keys - todo
      invariant forall k | k in out :: Applied(groups[k], op, a, now) == Some(out[k])
      decreases todo
    {
      var k :| k in todo;
      var child := Apply(groups[k], op, a, now);
      if child.Err? {
        return Err(child.error);
      }
      out := out[k := child.value];
      todo := todo - {k};
    }
    assert out == map k | k in groups :: Applied(groups[k], op, a, now).value;
    return Ok(out);
  }

  // ---------------------------------------------------------------------------
  // Properties
  // ---------------------------------------------------------------------------

  /** A manipulation call on a non-mutable object raises ObjectIsNotMutable and nothing
      else, before any work is done. */
  lemma NonMutableRefused(info: AInfo, op: Op, a: Analyzer, now: int, e: AtticError)
    requires Wellformed(info) && !info.isMutable && HasMethod(op)
    ensures Applied(info, op, a, now).None?
    ensures Raises(info, op, a, now, e) <==> e == ObjectIsNotMutable(OpName(op))
  {
  }

  /** An analyzer of the wrong type is refused with IncorrectAnalyzer before any work. */
  lemma WrongAnalyzerRefused(info: AInfo, op: Op, a: Analyzer, now: int, e: AtticError)
    requires Wellformed(info) && info.isMutable && HasMethod(op) && a.analyzertype != OpName(op)
    ensures Applied(info, op, a, now).None?
    ensures Raises(info, op, a, now, e) <==> e == IncorrectAnalyzer(a.analyzertype, OpName(op))
  {
  }

  /** Results keep to the constructor's rules, so they can be analysed (or refused)
      in turn. */
  lemma {:induction false} AppliedWellformed(info: AInfo, op: Op, a: Analyzer, now: int)
    requires Wellformed(info) && Applied(info, op, a, now).Some?
    ensures Wellformed(Applied(info, op, a, now).value)
    decreases info
  {
    if !info.isRaw && info.data.Groups? {
      var groups := info.data.groups;
      forall k | k in groups {
        AppliedWellformed(groups[k], op, a, now);
      }
    }
  }

  /** Raw input gives a raw result: indexby gives a non-raw dict of raw groups, map and
      filter a raw list, reduce and process a raw result that is not mutable. */
  lemma RawResultShape(info: AInfo, op: Op, a: Analyzer, now: int)
    requires Wellformed(info) && info.isRaw && Applied(info, op, a, now).Some?
    ensures var r := Applied(info, op, a, now).value;
            (info.timestamp != 0 ==> r.timestamp == info.timestamp) &&
            (r.isMutable <==> !IsFinal(op)) &&
            (op == IndexByOp ==>
               (!r.isRaw && r.data.Groups? &&
                forall k | k in r.data.groups :: r.data.groups[k].isRaw && r.data.groups[k].isMutable)) &&
            (op != IndexByOp ==> r.isRaw)
  {
  }

  /** Dict input gives a non-raw result with the same keys, each value the operation
      applied to the value under that key; reduce and process mark it non-mutable. */
  lemma DictResultShape(info: AInfo, op: Op, a: Analyzer, now: int)
    requires Wellformed(info) && !info.isRaw && info.data.Groups? && Applied(info, op, a, now).Some?
    ensures var r := Applied(info, op, a, now).value;
            !r.isRaw && (r.isMutable <==> !IsFinal(op)) && r.data.Groups? &&
            r.data.groups.Keys == info.data.groups.Keys &&
            forall k | k in info.data.groups :: Applied(info.data.groups[k], op, a, now) == Some(r.data.groups[k])
  {
  }

  /** indexby on raw data groups by key and drops None keys: one raw group per key,
      holding exactly the items with that key in order. */
  lemma RawIndexByGroups(info: AInfo, a: Analyzer, now: int)
    requires Wellformed(info) && info.isRaw && info.isMutable && a.analyzertype == "indexby" && a.impl.IndexByImpl?
    ensures Applied(info, IndexByOp, a, now).Some? <==>
            forall i | 0 <= i < |ListOf(info.data)| :: GroupableKey(a.impl.keyOf(ListOf(info.data)[i]))
    ensures Applied(info, IndexByOp, a, now).Some? ==>
              var groups := Applied(info, IndexByOp, a, now).value.data.groups;
              PyNone !in groups &&
              forall k | k in groups :: groups[k].data == Items(WithKey(ListOf(info.data), a.impl.keyOf, k))
  {
    var key := a.impl.keyOf;
    var data := ListOf(info.data);
    assert PerItem(a.impl, IndexByOp) == key;
    GroupedSucceeds(data, key);
    if Grouped(data, key).Some? {
      GroupedContents(data, key);
    }
  }

  // ---------------------------------------------------------------------------
  // analyze() and Algorithm
  // ---------------------------------------------------------------------------

  /** The method analyze() dispatches to: indexby, filter, map, reduce or process. */
  function AtticOpNamed(analyzertype: string): (r: Option<Op>)
    ensures r.Some? ==> OpName(r.value) == analyzertype && HasMethod(r.value)
    ensures analyzertype == "transform" ==> r.None?
  {
    var op := OpNamed(analyzertype);
    if op.Some? && HasMethod(op.value) then op else None
  }

  function AnalyzeApplied(info: AInfo, a: Analyzer, now: int): Option<AInfo>
    requires Wellformed(info)
  {
    var op := AtticOpNamed(a.analyzertype);
    if op.None? then None else Applied(info, op.value, a, now)
  }

  ghost predicate AnalyzeRaises(info: AInfo, a: Analyzer, now: int, e: AtticError)
    requires Wellformed(info)
  {
    var op := AtticOpNamed(a.analyzertype);
    if op.None? then e == NotAnAnalyzer else Raises(info, op.value, a, now, e)
  }

  method AnalyzeStatus(info: AInfo, a: Analyzer, now: int) returns (r: Result<AInfo, AtticError>)
    requires Wellformed(info)
    ensures r.Ok? <==> AnalyzeApplied(info, a, now).Some?
    ensures r.Ok? ==> r.value == AnalyzeApplied(info, a, now).value
    ensures r.Err? ==> AnalyzeRaises(info, a, now, r.error)
  {
    var op := AtticOpNamed(a.analyzertype);
    if op.None? {
      return Err(NotAnAnalyzer);
    }
    r := Apply(info, op.value, a, now);
  }

  /** The object Algorithm.analyze returns when no step raises. */
  function Chained(info: AInfo, analyzers: seq<Analyzer>, now: int): Option<AInfo>
    requires Wellformed(info)
    decreases |analyzers|
  {
    if |analyzers| == 0 then Some(info)
    else
      var step := AnalyzeApplied(info, analyzers[0], now);
      if step.None? then None
      else
        AnalyzedWellformed(info, analyzers[0], now);
        Chained(step.value, analyzers[1..], now)
  }

  /** Some step of the chain raises e after the steps before it succeeded. */
  ghost predicate ChainRaises(info: AInfo, analyzers: seq<Analyzer>, now: int, e: AtticError)
    requires Wellformed(info)
    decreases |analyzers|
  {
    if |analyzers| == 0 then false
    else if AnalyzeRaises(info, analyzers[0], now, e) then true
    else if AnalyzeApplied(info, analyzers[0], now).None? then false
    else
      AnalyzedWellformed(info, analyzers[0], now);
      ChainRaises(AnalyzeApplied(info, analyzers[0], now).value, analyzers[1..], now, e)
  }

  lemma AnalyzedWellformed(info: AInfo, a: Analyzer, now: int)
    requires Wellformed(info) && AnalyzeApplied(info, a, now).Some?
    ensures Wellformed(AnalyzeApplied(info, a, now).value)
  {
    AppliedWellformed(info, AtticOpNamed(a.analyzertype).value, a, now);
  }

  /** Unlike the later revision, the attic chain goes on after indexby: the dict it
      returns is a StatusInfo too, and a filter step applies to every group. */
  lemma ChainFiltersGroups(info: AInfo, byKey: Analyzer, keep: Analyzer, now: int)
    requires Wellformed(info) && byKey.analyzertype == "indexby" && keep.analyzertype == "filter"
    requires AnalyzeApplied(info, byKey, now).Some?
    ensures AnalyzeApplied(info, byKey, now).value.isMutable && !AnalyzeApplied(info, byKey, now).value.isRaw
    ensures Chained(info, [byKey, keep], now) ==
            (AnalyzedWellformed(info, byKey, now);
             AnalyzeApplied(AnalyzeApplied(info, byKey, now).value, keep, now))
  {
    AnalyzedWellformed(info, byKey, now);
    var grouped := AnalyzeApplied(info, byKey, now).value;
    assert AtticOpNamed("indexby") == Some(IndexByOp);
    assert grouped == Applied(info, IndexByOp, byKey, now).value;
    assert [byKey, keep][1..] == [keep];
    assert Chained(info, [byKey, keep], now) == Chained(grouped, [keep], now);
    if AnalyzeApplied(grouped, keep, now).Some? {
      AnalyzedWellformed(grouped, keep, now);
      assert [keep][1..] == [];
      assert Chained(grouped, [keep], now) == Chained(AnalyzeApplied(grouped, keep, now).value, [], now);
    }
  }

  class Algorithm {
    var analyzers: seq<Analyzer>

    constructor ()
      ensures analyzers == []
    {
      analyzers := [];
    }

    method Add(a: Analyzer)
      modifies this
      ensures analyzers == old(analyzers) + [a]
    {
      analyzers := analyzers + [a];
    }

    /** analyze(input_data): each analyzer in turn; the first exception ends the run. */
    method Analyze(input: AInfo, now: int) returns (r: Result<AInfo, AtticError>)
      requires Wellformed(input)
      ensures r.Ok? <==> Chained(input, analyzers, now).Some?
      ensures r.Ok? ==> r.value == Chained(input, analyzers, now).value
      ensures r.Err? ==> ChainRaises(input, analyzers, now, r.error)
    {
      var out := input;
      for i := 0 to |analyzers|
        invariant Wellformed(out)
        invariant Chained(input, analyzers, now) == Chained(out, analyzers[i..], now)
        invariant forall e | ChainRaises(out, analyzers[i..], now, e) :: ChainRaises(input, analyzers, now, e)
      {
        assert analyzers[i..][1..] == analyzers[i + 1..];
        var step := AnalyzeStatus(out, analyzers[i], now);
        if step.Err? {
          return Err(step.error);
        }
        AnalyzedWellformed(out, analyzers[i], now);
        out := step.value;
      }
      return Ok(out);
    }
  }

  // ---------------------------------------------------------------------------
  // Reading the data
  // ---------------------------------------------------------------------------

  /** What `obj[key]` gives: a StatusInfo under a dict of objects, or a plain value
      under a dict of plain values. */
  datatype Entry = Child(info: AInfo) | RawEntry(value: Value)

  /** __getitem__(key) on a well-formed object. Over a dict of objects the key is
      looked for in the key list with `==`, so a key equal to a group's key (True for
      1) finds that group. */
  function GetItem(info: AInfo, key: Value): (r: Result<Entry, AtticError>)
    requires Wellformed(info)
    ensures info.isRaw ==> r == Err(IsRawData(key))
    ensures !info.isRaw && info.data.Groups? && key in info.data.groups ==> r == Ok(Child(info.data.groups[key]))
    ensures !info.isRaw && info.data.Groups? && key !in info.data.groups && Filed(info.data.groups, key) ==>
              r == Ok(Child(info.data.groups[Twin(key).value]))
    ensures !info.isRaw && info.data.Groups? && !Filed(info.data.groups, key) ==> r == Err(MissingKey(key))
    ensures !info.isRaw && info.data.Plain? ==>
              r == if key.PyStr? && key.s in info.data.value.entries then Ok(RawEntry(info.data.value.entries[key.s]))
                   else Err(MissingKey(key))
  {
    if info.isRaw then Err(IsRawData(key))
    else
      match info.data
      case Groups(groups) =>
        var k := FiledUnder(groups, key);
        if k in groups then Ok(Child(groups[k])) else Err(MissingKey(key))
      case Plain(v) => if key.PyStr? && key.s in v.entries then Ok(RawEntry(v.entries[key.s])) else Err(MissingKey(key))
  }

  /** Over a dict of objects, `obj[key]` succeeds exactly when some group key equals
      key under `==`, and then returns that group. */
  lemma GetItemPyEq(info: AInfo, key: Value)
    requires Wellformed(info) && !info.isRaw && info.data.Groups?
    requires DictKeys(info.data.groups)
    ensures GetItem(info, key).Ok? <==> exists k | k in info.data.groups :: PyEq(key, k)
    ensures forall k | k in info.data.groups && PyEq(key, k) :: GetItem(info, key) == Ok(Child(info.data.groups[k]))
  {
    EqualKeyIsFiled(info.data.groups, key);
  }

  /** What getraw() returns: the payload of a raw object, dicts above. */
  datatype ARaw = RawLeaf(payload: Payload) | RawDict(entries: map<Value, ARaw>)

  /** getraw(): a raw object gives its data; otherwise each value's own getraw() under
      the same key (a plain value has no getraw and raises). */
  function GetRaw(info: AInfo): (r: Result<ARaw, AtticError>)
    requires Wellformed(info)
    ensures info.isRaw ==> r == Ok(RawLeaf(info.data))
    ensures !info.isRaw && r.Ok? ==>
              (r.value.RawDict? && r.value.entries.Keys == (if info.data.Groups? then info.data.groups.Keys else {}))
    decreases info
  {
    if info.isRaw then Ok(RawLeaf(info.data))
    else
      match info.data
      case Groups(groups) =>
        if forall k | k in groups :: GetRaw(groups[k]).Ok? then
          Ok(RawDict(map k | k in groups :: GetRaw(groups[k]).value))
        else Err(AttributeError("getraw"))
      case Plain(v) =>
        if v.entries == map[] then Ok(RawDict(map[])) else Err(AttributeError("getraw"))
  }

  /** Every StatusInfo below a dict of objects has its getraw() in the raw tree under
      its key, and getraw() succeeds exactly when it succeeds below every key. */
  lemma GetRawPerKey(info: AInfo)
    requires Wellformed(info) && !info.isRaw && info.data.Groups?
    ensures GetRaw(info).Ok? <==> forall k | k in info.data.groups :: GetRaw(info.data.groups[k]).Ok?
    ensures GetRaw(info).Ok? ==>
              forall k | k in info.data.groups :: GetRaw(info).value.entries[k] == GetRaw(info.data.groups[k]).value
  {
  }

  /** get(*key_l) on a well-formed object: the data when no key is given, otherwise one
      level down per key. */
  function Get(info: AInfo, keys: seq<Value>): (r: Result<Payload, AtticError>)
    requires Wellformed(info)
    ensures |keys| == 0 ==> r == Ok(info.data)
    ensures |keys| > 0 && info.data.Items? ==> r == Err(AttributeError("keys"))
    ensures |keys| > 0 && info.data.Groups? && !Filed(info.data.groups, keys[0]) ==> r == Err(MissingKey(keys[0]))
    ensures |keys| > 0 && info.data.Plain? && info.data.value.PyDict? &&
              !(keys[0].PyStr? && keys[0].s in info.data.value.entries) ==>
              r == Err(MissingKey(keys[0]))
    decreases info
  {
    if |keys| == 0 then Ok(info.data)
    else
      match info.data
      case Items(_) => Err(AttributeError("keys"))
      case Groups(groups) =>
        var k := FiledUnder(groups, keys[0]);
        if k in groups then Get(groups[k], keys[1..]) else Err(MissingKey(keys[0]))
      case Plain(v) =>
        if !v.PyDict? then Err(AttributeError("keys"))
        else if !(keys[0].PyStr? && keys[0].s in v.entries) then Err(MissingKey(keys[0]))
        else
          match DictGet(v.entries[keys[0].s], keys[1..])
          case Ok(x) => Ok(Plain(x))
          case Err(NoGetMethod) => Err(AttributeError("get"))
          case Err(BadGetArguments) => Err(TypeError)
  }

  /** Down a path of dicts of objects, get(*keys) returns the data of the object
      that __getitem__ reaches, and a missing key raises MissingKey in both. */
  lemma {:induction false} GetFollowsGetItem(info: AInfo, k: Value, rest: seq<Value>)
    requires Wellformed(info) && !info.isRaw && info.data.Groups?
    ensures GetItem(info, k) == Err(MissingKey(k)) ==> Get(info, [k] + rest) == Err(MissingKey(k))
    ensures GetItem(info, k).Ok? ==> Get(info, [k] + rest) == Get(GetItem(info, k).value.info, rest)
  {
    assert ([k] + rest)[0] == k;
    assert ([k] + rest)[1..] == rest;
  }

  // ---------------------------------------------------------------------------
  // Item
  // ---------------------------------------------------------------------------

  /** Item(data_d, default): reads a caller's dict as attributes. */
  class Item {
    const store: PyDictObject
    const default: Value

    constructor (dataD: PyDictObject, default: Value)
      ensures store == dataD && this.default == default
    {
      store := dataD;
      this.default := default;
    }

    /** __getattr__(attr): the stored value, or the default for an absent key. */
    function Get(attr: string): (v: Value)
      reads store
      ensures attr !in store.entries ==> v == default
      ensures attr in store.entries ==> v == store.entries[attr]
    {
      store.GetOr(attr, default)
    }
  }

  /** An Item holds a reference, not a copy: a later change to the caller's dict is
      seen by the Item's reads. */
  method ItemSeesCallerWrites(dataD: PyDictObject, attr: string, v: Value) returns (item: Item)
    modifies dataD
    ensures item.store == dataD && item.Get(attr) == v
  {
    item := new Item(dataD, PyInt(0));
    dataD.entries := dataD.entries[attr := v];
  }
}
