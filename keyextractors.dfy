/** info/analyzer.py: example analyzers that extract a grouping key from a record
    or measure a collection. */
module KeyExtractors {
  import opened PyValues
  import Info
  import Analysis

  /** GroupByKeyRemap(key, mapping_d).group(job): the mapping's value for the record's
      raw field value, looked up without converting it to text; None when the record
      lacks the field or no key of the mapping equals the value under `==`. The
      membership test scans the key list with `==`, and the lookup then finds the entry
      filed under the equal key (True finds the entry of 1). */
  function GroupByKeyRemap(key: string, mapping: map<Value, Value>, job: Value): (r: Value)
    requires DictKeys(mapping)
    ensures Lookup(job, key).None? ==> r == PyNone
    ensures Lookup(job, key).Some? ==>
              (forall k | k in mapping && PyEq(Lookup(job, key).value, k) :: r == mapping[k]) &&
              ((forall k | k in mapping :: !PyEq(Lookup(job, key).value, k)) ==> r == PyNone)
  {
    var value := Lookup(job, key);
    if value.None? then PyNone
    else
      var filed := FiledUnder(mapping, value.value);
      EqualKeyIsFiled(mapping, value.value);
      if filed in mapping then mapping[filed] else PyNone
  }

  /** The remapped key is the mapping applied to the plain key of GroupByKey (which
      is the same lookup as IndexByKey), when None is not itself remapped. */
  lemma RemapIsMappedKey(key: string, mapping: map<Value, Value>, job: Value)
    requires DictKeys(mapping) && PyNone !in mapping
    ensures var plain := Info.IndexByKeyOf(key, job);
            var filed := FiledUnder(mapping, plain);
            GroupByKeyRemap(key, mapping, job) == if filed in mapping then mapping[filed] else PyNone
  {
    EqualKeyIsFiled(mapping, Info.IndexByKeyOf(key, job));
  }

  /** A record holding True is remapped through the entry of 1, since True == 1. */
  lemma RemapTrueIsOne(key: string, x: Value)
    ensures GroupByKeyRemap(key, map[PyInt(1) := x], PyDict(map[key := PyBool(true)])) == x
  {
    var job := PyDict(map[key := PyBool(true)]);
    assert Lookup(job, key) == Some(PyBool(true));
    assert PyEq(PyBool(true), PyInt(1));
  }

  /** Unlike IndexByKeyRemap, an integer field is not matched against the text of its
      value: the same record and the same table, keyed by text, give None here and the
      mapped value there. */
  lemma NoTextConversion(key: string, n: int, x: Value)
    ensures var job := PyDict(map[key := PyInt(n)]);
            GroupByKeyRemap(key, map[PyStr(IntToString(n)) := x], job) == PyNone &&
            Info.RemapOf(key, map[IntToString(n) := x], job) == x
  {
    var job := PyDict(map[key := PyInt(n)]);
    assert Lookup(job, key) == Some(PyInt(n));
    assert !PyEq(PyInt(n), PyStr(IntToString(n)));
  }

  /** Length().reduce(data): len(data) for a list, a string or a dict; any other
      value makes len raise. */
  function Length(data: Value): (r: Option<int>)
    ensures data.PyList? ==> r == Some(|data.items|)
    ensures data.PyStr? ==> r == Some(|data.s|)
    ensures data.PyDict? ==> r == Some(|data.entries|)
    ensures r.Some? <==> data.PyList? || data.PyStr? || data.PyDict?
  {
    match data
    case PyList(items) => Some(|items|)
    case PyStr(s) => Some(|s|)
    case PyDict(entries) => Some(|entries|)
    case _ => None
  }

  /** On a list of records, Length measures what the Count process analyzer reports. */
  lemma LengthIsCount(data: seq<Value>, ts: int, now: int)
    ensures Info.ListOutcome(data, ts, Analysis.ProcessOp, Info.Count(), now).Ok?
    ensures Info.ListOutcome(data, ts, Analysis.ProcessOp, Info.Count(), now).value.raw == PyInt(Length(PyList(data)).value)
  {
    Info.CountCounts(data, ts, now);
  }
}
