/** The pure helpers of libfactory/htcondorlib.py and its two instance registries:
    the constraint string handed to every query, the argument checks of the query
    methods, the parser turning a submit-file text into the submit dictionary, and the
    one-instance-per-address collector and schedd registries. The HTCondor bindings,
    the DNS lookup and the locks' serialisation are outside the model; the DNS lookup
    is a function parameter. */
module HTCondor {
  import opened PyValues

  datatype HTCondorError =
    | IncorrectInputType(name: string)
    | TypeError
    | EmptySubmitFile
    | AttributeError(name: string)

  // ---------------------------------------------------------------------------
  // Constraint strings and query arguments
  // ---------------------------------------------------------------------------

  const AndSep := " && "

  /** _build_constraint_str(constraint_l): the constraints joined by " && ", or "true"
      when there are none. */
  function BuildConstraintStr(constraints: Option<seq<string>>): (r: string)
    ensures constraints.None? || constraints.value == [] ==> r == "true"
    ensures constraints.Some? && |constraints.value| == 1 ==> r == constraints.value[0]
  {
    if constraints.None? || constraints.value == [] then "true" else Join(AndSep, constraints.value)
  }

  /** One more constraint is appended to the expression with " && ", so the constraints
      appear in the order given. */
  lemma ConstraintAppended(constraints: seq<string>, c: string)
    requires |constraints| > 0
    ensures BuildConstraintStr(Some(constraints + [c])) == BuildConstraintStr(Some(constraints)) + " && " + c
  {
    JoinAppend(AndSep, constraints, c);
  }

  predicate AllStrings(xs: seq<Value>) {
    forall i | 0 <= i < |xs| :: xs[i].PyStr?
  }

  function Strings(xs: seq<Value>): (r: seq<string>)
    requires AllStrings(xs)
    ensures |r| == |xs| && forall i | 0 <= i < |xs| :: r[i] == xs[i].s
  {
    if |xs| == 0 then [] else [xs[0].s] + Strings(xs[1..])
  }

  /** The checks shared by condor_q, condor_history and condor_status, then the
      constraint expression handed to the query. */
  function CheckQuery(attributes: Value, constraints: Value): (r: Result<string, HTCondorError>)
    ensures !attributes.PyList? ==> r == Err(IncorrectInputType("attribute_l"))
    ensures attributes.PyList? && !constraints.PyNone? && !constraints.PyList? ==>
              r == Err(IncorrectInputType("constraint_l"))
    ensures r.Ok? <==> attributes.PyList? && (constraints.PyNone? || (constraints.PyList? && AllStrings(constraints.items)))
    ensures r.Ok? && constraints.PyNone? ==> r.value == "true"
    ensures r.Ok? && constraints.PyList? ==> r.value == BuildConstraintStr(Some(Strings(constraints.items)))
  {
    if !attributes.PyList? then Err(IncorrectInputType("attribute_l"))
    else if !constraints.PyNone? && !constraints.PyList? then Err(IncorrectInputType("constraint_l"))
    else if constraints.PyNone? || constraints.items == [] then Ok("true")
    // str.join refuses an item that is not a string
    else if !AllStrings(constraints.items) then Err(TypeError)
    else Ok(BuildConstraintStr(Some(Strings(constraints.items))))
  }

  /** Arguments every query method accepts: a list of attributes, and no constraints
      or a list of strings. */
  predicate QueryArguments(attributes: Value, constraints: Value) {
    attributes.PyList? && (constraints.PyNone? || (constraints.PyList? && AllStrings(constraints.items)))
  }

  /** The constraint expression built from accepted constraints. */
  function QueryConstraint(constraints: Value): string
    requires constraints.PyNone? || (constraints.PyList? && AllStrings(constraints.items))
  {
    BuildConstraintStr(if constraints.PyNone? then None else Some(Strings(constraints.items)))
  }

  /** Which binding call a query method makes: collector.query for startd ads,
      schedd.query for the job queue, schedd.history for finished jobs. */
  datatype QueryKind = StartdAds | QueueAds | HistoryAds

  /** The call handed to the HTCondor bindings; what they answer is outside the model. */
  datatype Query = Query(kind: QueryKind, constraint: string, attributes: seq<Value>)

  // ---------------------------------------------------------------------------
  // The submit file
  // ---------------------------------------------------------------------------

  /** A queue statement or a blank line: the parser passes over it. */
  predicate Skipped(line: string) {
    StartsWith(line, "queue ") || Strip(line) == ""
  }

  /** The stripped text before the first '='. */
  function LineKey(line: string): string {
    Strip(Split(line, '=')[0])
  }

  /** The stripped text after the first '=', other '=' characters kept. */
  function LineValue(line: string): string {
    Strip(Join("=", Split(line, '=')[1..]))
  }

  /** One kept line as the assignment it makes; None for a line passed over. */
  datatype Assignment = Assignment(key: string, value: string)

  function ParseLine(line: string): (r: Option<Assignment>)
    ensures r.None? <==> Skipped(line)
    ensures r.Some? ==> r.value == Assignment(LineKey(line), LineValue(line))
  {
    if Skipped(line) then None else Some(Assignment(LineKey(line), LineValue(line)))
  }

  function ParseLines(lines: seq<string>): (r: seq<Option<Assignment>>)
    ensures |r| == |lines| && forall i | 0 <= i < |lines| :: r[i] == ParseLine(lines[i])
    decreases |lines|
  {
    if |lines| == 0 then [] else ParseLines(lines[..|lines| - 1]) + [ParseLine(lines[|lines| - 1])]
  }

  /** The assignment sets the key k. */
  predicate Sets(x: Option<Assignment>, k: string) {
    x.Some? && x.value.key == k
  }

  /** The dictionary after the assignments in order. */
  function Assigned(xs: seq<Option<Assignment>>): map<string, string>
    decreases |xs|
  {
    if |xs| == 0 then map[]
    else
      var d := Assigned(xs[..|xs| - 1]);
      var x := xs[|xs| - 1];
      if x.None? then d else d[x.value.key := x.value.value]
  }

  /** The dictionary built from the lines, one assignment per line that is kept. */
  function SubmitDict(lines: seq<string>): map<string, string> {
    Assigned(ParseLines(lines))
  }

  /** The loop of condor_submit over jdl_str.split('\n'); the submission itself is
      outside the model, so the dictionary handed to htcondor.Submit is the result. */
  method ParseSubmit(jdl: string) returns (r: Result<map<string, string>, HTCondorError>)
    ensures r.Ok? <==> SubmitDict(Split(jdl, '\n')) != map[]
    ensures r.Ok? ==> r.value == SubmitDict(Split(jdl, '\n'))
    ensures r.Err? ==> r.error == EmptySubmitFile
  {
    var lines := Split(jdl, '\n');
    var submit: map<string, string> := map[];
    for i := 0 to |lines|
      invariant submit == Assigned(ParseLines(lines[..i]))
    {
      var line := lines[i];
      assert lines[..i + 1][..i] == lines[..i];
      assert ParseLines(lines[..i + 1])[..i] == ParseLines(lines[..i]);
      if StartsWith(line, "queue ") {
        continue;
      }
      if Strip(line) == "" {
        continue;
      }
      var fields := Split(line, '=');
      var key := Strip(fields[0]);
      var value := Strip(Join("=", fields[1..]));
      submit := submit[key := value];
    }
    assert lines[..|lines|] == lines;
    if submit == map[] {
      return Err(EmptySubmitFile);
    }
    return Ok(submit);
  }

  /** A key is assigned exactly when some assignment sets it, and its value is the
      one set last. */
  lemma {:induction false} AssignedLastWins(xs: seq<Option<Assignment>>, k: string)
    ensures k in Assigned(xs) <==> exists i | 0 <= i < |xs| :: Sets(xs[i], k)
    ensures forall i | 0 <= i < |xs| && Sets(xs[i], k) && (forall j | i < j < |xs| :: !Sets(xs[j], k)) ::
              k in Assigned(xs) && Assigned(xs)[k] == xs[i].value.value
    decreases |xs|
  {
    if |xs| > 0 {
      var n := |xs| - 1;
      var front := xs[..n];
      AssignedLastWins(front, k);
      forall i | 0 <= i < n ensures front[i] == xs[i] { }
      if Sets(xs[n], k) {
        forall i | 0 <= i < |xs| && Sets(xs[i], k) && (forall j | i < j < |xs| :: !Sets(xs[j], k))
          ensures i == n
        {
          assert Sets(xs[n], k);
        }
      } else {
        assert (k in Assigned(xs)) == (k in Assigned(front));
        if exists i | 0 <= i < |xs| :: Sets(xs[i], k) {
          var i :| 0 <= i < |xs| && Sets(xs[i], k);
          assert i < n && Sets(front[i], k);
        }
        forall i | 0 <= i < |xs| && Sets(xs[i], k) && (forall j | i < j < |xs| :: !Sets(xs[j], k))
          ensures k in Assigned(xs) && Assigned(xs)[k] == xs[i].value.value
        {
          assert i < n && Sets(front[i], k);
          assert forall j | i < j < n :: !Sets(front[j], k);
        }
      }
    }
  }

  /** A key is in the submit dictionary exactly when some kept line sets it, and its
      value is the value of the last such line. */
  lemma SubmitDictLastWins(lines: seq<string>, k: string)
    ensures k in SubmitDict(lines) <==> exists i | 0 <= i < |lines| :: !Skipped(lines[i]) && LineKey(lines[i]) == k
    ensures forall i | 0 <= i < |lines| && !Skipped(lines[i]) && LineKey(lines[i]) == k &&
                       (forall j | i < j < |lines| :: Skipped(lines[j]) || LineKey(lines[j]) != k) ::
              k in SubmitDict(lines) && SubmitDict(lines)[k] == LineValue(lines[i])
  {
    var xs := ParseLines(lines);
    AssignedLastWins(xs, k);
    forall i | 0 <= i < |lines| ensures Sets(xs[i], k) <==> !Skipped(lines[i]) && LineKey(lines[i]) == k { }
  }

  /** An assignment of nothing may appear anywhere without changing the result. */
  lemma {:induction false} AssignedSkipsNone(front: seq<Option<Assignment>>, back: seq<Option<Assignment>>)
    ensures Assigned(front + [None] + back) == Assigned(front + back)
    decreases |back|
  {
    if |back| == 0 {
      assert (front + [None] + back)[..|front|] == front;
      assert front + back == front;
    } else {
      var init := back[..|back| - 1];
      AssignedSkipsNone(front, init);
      var s := front + [None] + back;
      var t := front + back;
      assert s[..|s| - 1] == front + [None] + init;
      assert t[..|t| - 1] == front + init;
    }
  }

  /** A queue statement or a blank line may appear anywhere without changing the
      submit dictionary. */
  lemma SkippedLineIgnored(front: seq<string>, line: string, back: seq<string>)
    requires Skipped(line)
    ensures SubmitDict(front + [line] + back) == SubmitDict(front + back)
  {
    ParseLinesAppend(front + [line], back);
    ParseLinesAppend(front, [line]);
    ParseLinesAppend(front, back);
    assert ParseLines([line]) == [None];
    AssignedSkipsNone(ParseLines(front), ParseLines(back));
  }

  lemma {:induction false} ParseLinesAppend(a: seq<string>, b: seq<string>)
    ensures ParseLines(a + b) == ParseLines(a) + ParseLines(b)
    decreases |b|
  {
    if |b| == 0 {
      assert a + b == a;
    } else {
      var front, last := b[..|b| - 1], b[|b| - 1];
      assert (a + b)[..|a + b| - 1] == a + front;
      assert (a + b)[|a + b| - 1] == last;
      ParseLinesAppend(a, front);
      assert ParseLines(a + b) == (ParseLines(a) + ParseLines(front)) + [ParseLine(last)];
      assert ParseLines(b) == ParseLines(front) + [ParseLine(last)];
      ConcatAssociates(ParseLines(a), ParseLines(front), [ParseLine(last)]);
    }
  }

  /** condor_submit raises EmptySubmitFile exactly when every line is a queue
      statement or blank. */
  lemma EmptyIffAllSkipped(lines: seq<string>)
    ensures SubmitDict(lines) == map[] <==> forall i | 0 <= i < |lines| :: Skipped(lines[i])
  {
    if exists i | 0 <= i < |lines| :: !Skipped(lines[i]) {
      var i :| 0 <= i < |lines| && !Skipped(lines[i]);
      SubmitDictLastWins(lines, LineKey(lines[i]));
    } else if SubmitDict(lines) != map[] {
      var k :| k in SubmitDict(lines);
      SubmitDictLastWins(lines, k);
    }
  }

  /** A kept line splits at its first '=': the key is the stripped text before it and
      the value the stripped text after it. */
  lemma LineSplitsAtFirstEquals(line: string, at: nat)
    requires at < |line| && line[at] == '=' && '=' !in line[..at]
    ensures LineKey(line) == Strip(line[..at])
    ensures LineValue(line) == Strip(line[at + 1..])
  {
    SplitFirst(line, '=', at);
  }

  /** A line without '=' is a key with an empty value. */
  lemma LineWithoutEquals(line: string)
    requires '=' !in line
    ensures LineKey(line) == Strip(line)
    ensures LineValue(line) == ""
  {
    SplitNoSeparator(line, '=');
  }

  // ---------------------------------------------------------------------------
  // Addresses
  // ---------------------------------------------------------------------------

  /** `if port:` */
  predicate PortGiven(port: Option<int>) {
    port.Some? && port.value != 0
  }

  /** _address(hostname, port): the resolved name, with ":<port>" when a port is given. */
  function Address(hostname: string, port: Option<int>, resolve: string -> string): (a: string)
    ensures resolve(hostname) <= a
    ensures !PortGiven(port) ==> a == resolve(hostname)
    ensures PortGiven(port) ==> a[|resolve(hostname)|..] == ":" + IntToString(port.value)
  {
    if PortGiven(port) then resolve(hostname) + ":" + IntToString(port.value) else resolve(hostname)
  }

  /** An address splits back into the resolved name and the port, when the name has
      no ':' in it. */
  lemma AddressRoundTrip(hostname: string, port: Option<int>, resolve: string -> string)
    requires ':' !in resolve(hostname)
    ensures Split(Address(hostname, port, resolve), ':')[0] == resolve(hostname)
    ensures PortGiven(port) ==>
              ParseInt(Join(":", Split(Address(hostname, port, resolve), ':')[1..])) == Some(port.value)
    ensures !PortGiven(port) ==> |Split(Address(hostname, port, resolve), ':')| == 1
  {
    var name := resolve(hostname);
    var a := Address(hostname, port, resolve);
    if PortGiven(port) {
      assert a[..|name|] == name;
      assert a[|name| + 1..] == IntToString(port.value);
      SplitFirst(a, ':', |name|);
      IntStringRoundTrip(port.value);
    } else {
      SplitNoSeparator(a, ':');
    }
  }

  /** A falsy hostname (None or '') means the local daemon. */
  predicate LocalHost(hostname: Option<string>) {
    hostname.None? || hostname.value == ""
  }

  /** The key HTCondorCollector.__new__ files an instance under. */
  function CollectorKey(hostname: Option<string>, port: Option<int>, resolve: string -> string): (a: string)
    ensures LocalHost(hostname) ==> a == "localhost"
    ensures !LocalHost(hostname) ==> a == Address(hostname.value, port, resolve)
  {
    if LocalHost(hostname) then "localhost" else Address(hostname.value, port, resolve)
  }

  // ---------------------------------------------------------------------------
  // The collector and its registry
  // ---------------------------------------------------------------------------

  /** _HTCondorCollector: the hostname and port it was built with. */
  class Collector {
    const hostname: Option<string>
    const port: Option<int>

    constructor (hostname: Option<string>, port: Option<int>)
      ensures this.hostname == hostname && this.port == port
    {
      this.hostname := hostname;
      this.port := port;
    }

    /** condor_status(attribute_l, constraint_l): the argument checks, then a startd
        query with the constraint expression and the attribute list. */
    function CondorStatus(attributes: Value, constraints: Value): (r: Result<Query, HTCondorError>)
      ensures !attributes.PyList? ==> r == Err(IncorrectInputType("attribute_l"))
      ensures attributes.PyList? && !constraints.PyNone? && !constraints.PyList? ==>
                r == Err(IncorrectInputType("constraint_l"))
      ensures attributes.PyList? && constraints.PyList? && !AllStrings(constraints.items) ==> r == Err(TypeError)
      ensures r.Ok? <==> QueryArguments(attributes, constraints)
      ensures r.Ok? ==> r.value == Query(StartdAds, QueryConstraint(constraints), attributes.items)
    {
      match CheckQuery(attributes, constraints)
      case Err(e) => Err(e)
      case Ok(c) => Ok(Query(StartdAds, c, attributes.items))
    }
  }

  /** HTCondorCollector.instances: one collector per address. */
  class CollectorRegistry {
    var instances: map<string, Collector>

    /** No collector is filed under two addresses. */
    ghost predicate Valid()
      reads this
    {
      forall a, b | a in instances && b in instances && a != b :: instances[a] != instances[b]
    }

    constructor ()
      ensures instances == map[] && Valid()
    {
      instances := map[];
    }

    /** HTCondorCollector(hostname, port): the instance already filed under the
        address, or a new one filed there. The local collector is built without
        hostname or port, whatever port was passed. */
    method New(hostname: Option<string>, port: Option<int>, resolve: string -> string) returns (c: Collector)
      requires Valid()
      modifies this
      ensures Valid()
      ensures CollectorKey(hostname, port, resolve) in instances
      ensures c == instances[CollectorKey(hostname, port, resolve)]
      ensures CollectorKey(hostname, port, resolve) in old(instances) ==> instances == old(instances)
      ensures CollectorKey(hostname, port, resolve) !in old(instances) ==>
                fresh(c) && instances == old(instances)[CollectorKey(hostname, port, resolve) := c] &&
                (LocalHost(hostname) ==> c.hostname.None? && c.port.None?) &&
                (!LocalHost(hostname) ==> c.hostname == hostname && c.port == port)
    {
      var address := CollectorKey(hostname, port, resolve);
      if address !in instances {
        var fresh_c;
        if LocalHost(hostname) {
          fresh_c := new Collector(None, None);
        } else {
          fresh_c := new Collector(hostname, port);
        }
        instances := instances[address := fresh_c];
      }
      c := instances[address];
    }
  }

  /** Asking twice for the same address gives the same collector and files nothing new
      the second time. */
  method CollectorIsShared(registry: CollectorRegistry, hostname: Option<string>, port: Option<int>, resolve: string -> string)
    returns (first: Collector, second: Collector)
    requires registry.Valid()
    modifies registry
    ensures registry.Valid()
    ensures first == second
    ensures registry.instances.Keys == old(registry.instances.Keys) + {CollectorKey(hostname, port, resolve)}
  {
    first := registry.New(hostname, port, resolve);
    second := registry.New(hostname, port, resolve);
  }

  // ---------------------------------------------------------------------------
  // The schedd and its registry
  // ---------------------------------------------------------------------------

  /** HTCondorRemoteScheddWrapper: the schedd handle (outside the model) and its address. */
  datatype ScheddWrapper = ScheddWrapper(address: string)

  /** The key HTCondorSchedd.__new__ files an instance under. */
  function ScheddKey(wrap: Option<ScheddWrapper>): (a: string)
    ensures wrap.None? ==> a == "localhost"
    ensures wrap.Some? ==> a == wrap.value.address
  {
    if wrap.None? then "localhost" else wrap.value.address
  }

  /** Where line 248 of the constructor falls under Python 2's tab rule: a tab
      followed by four spaces indents it as deep as the else branch, so only a local
      schedd gets the lock attribute. */
  function BindsLockAsWritten(wrap: Option<ScheddWrapper>): bool {
    wrap.None?
  }

  /** A query on a schedd: the argument checks, then the lock is taken before the
      binding call, so a missing lock attribute raises AttributeError on accepted
      arguments. */
  function ScheddQuery(kind: QueryKind, hasLock: bool, attributes: Value, constraints: Value): (r: Result<Query, HTCondorError>)
    ensures !QueryArguments(attributes, constraints) ==> r == Err(CheckQuery(attributes, constraints).error)
    ensures QueryArguments(attributes, constraints) && !hasLock ==> r == Err(AttributeError("lock"))
    ensures r.Ok? <==> hasLock && QueryArguments(attributes, constraints)
    ensures r.Ok? ==> r.value == Query(kind, QueryConstraint(constraints), attributes.items)
  {
    match CheckQuery(attributes, constraints)
    case Err(e) => Err(e)
    case Ok(c) => if hasLock then Ok(Query(kind, c, attributes.items)) else Err(AttributeError("lock"))
  }

  /** condor_submit parses the text, refuses an empty dictionary, then takes the lock. */
  method ScheddSubmit(hasLock: bool, jdl: string) returns (r: Result<map<string, string>, HTCondorError>)
    ensures r.Ok? <==> hasLock && SubmitDict(Split(jdl, '\n')) != map[]
    ensures r.Ok? ==> r.value == SubmitDict(Split(jdl, '\n'))
    ensures r.Err? && SubmitDict(Split(jdl, '\n')) == map[] ==> r.error == EmptySubmitFile
    ensures r.Err? && SubmitDict(Split(jdl, '\n')) != map[] ==> r.error == AttributeError("lock")
  {
    r := ParseSubmit(jdl);
    if r.Ok? && !hasLock {
      r := Err(AttributeError("lock"));
    }
  }

  /** As written, a schedd built from a wrapper refuses every well-formed query and
      submission with AttributeError; with the lock bound in both branches it does not. */
  lemma RemoteScheddHasNoLock(wrap: ScheddWrapper, attributes: seq<Value>)
    ensures !BindsLockAsWritten(Some(wrap))
    ensures ScheddQuery(QueueAds, BindsLockAsWritten(Some(wrap)), PyList(attributes), PyNone) == Err(AttributeError("lock"))
    ensures ScheddQuery(QueueAds, true, PyList(attributes), PyNone) == Ok(Query(QueueAds, "true", attributes))
  {
  }

  /** _HTCondorSchedd, with the lock attribute bound whichever branch is taken. */
  class Schedd {
    const address: Option<string>
    const hasLock: bool

    constructor (wrap: Option<ScheddWrapper>)
      ensures address == (if wrap.None? then None else Some(wrap.value.address))
      ensures hasLock
    {
      address := if wrap.None? then None else Some(wrap.value.address);
      hasLock := true;
    }

    /** The constructor as written: a remote schedd lacks the lock. */
    constructor AsWritten(wrap: Option<ScheddWrapper>)
      ensures address == (if wrap.None? then None else Some(wrap.value.address))
      ensures hasLock == BindsLockAsWritten(wrap)
    {
      address := if wrap.None? then None else Some(wrap.value.address);
      hasLock := BindsLockAsWritten(wrap);
    }

    /** condor_q(attribute_l, constraint_l): a query of the job queue. */
    function CondorQ(attributes: Value, constraints: Value): (r: Result<Query, HTCondorError>)
      ensures !attributes.PyList? ==> r == Err(IncorrectInputType("attribute_l"))
      ensures attributes.PyList? && !constraints.PyNone? && !constraints.PyList? ==>
                r == Err(IncorrectInputType("constraint_l"))
      ensures attributes.PyList? && constraints.PyList? && !AllStrings(constraints.items) ==> r == Err(TypeError)
      ensures QueryArguments(attributes, constraints) && !hasLock ==> r == Err(AttributeError("lock"))
      ensures r.Ok? <==> hasLock && QueryArguments(attributes, constraints)
      ensures r.Ok? ==> r.value == Query(QueueAds, QueryConstraint(constraints), attributes.items)
    {
      ScheddQuery(QueueAds, hasLock, attributes, constraints)
    }

    /** condor_history(attribute_l, constraint_l): the same checks and lock as
        condor_q, then a query of the job history. */
    function CondorHistory(attributes: Value, constraints: Value): (r: Result<Query, HTCondorError>)
      ensures !attributes.PyList? ==> r == Err(IncorrectInputType("attribute_l"))
      ensures attributes.PyList? && !constraints.PyNone? && !constraints.PyList? ==>
                r == Err(IncorrectInputType("constraint_l"))
      ensures attributes.PyList? && constraints.PyList? && !AllStrings(constraints.items) ==> r == Err(TypeError)
      ensures QueryArguments(attributes, constraints) && !hasLock ==> r == Err(AttributeError("lock"))
      ensures r.Ok? <==> hasLock && QueryArguments(attributes, constraints)
      ensures r.Ok? ==> r.value == Query(HistoryAds, QueryConstraint(constraints), attributes.items)
    {
      ScheddQuery(HistoryAds, hasLock, attributes, constraints)
    }
  }

  /** As written, the remote schedd built from a wrapper fails its first query. */
  method RemoteScheddQueryFails(wrap: ScheddWrapper) returns (s: Schedd, r: Result<Query, HTCondorError>)
    ensures s.address == Some(wrap.address)
    ensures r == Err(AttributeError("lock"))
  {
    s := new Schedd.AsWritten(Some(wrap));
    r := s.CondorQ(PyList([PyStr("JobStatus")]), PyNone);
  }

  /** HTCondorSchedd.instances: one schedd per address. */
  class ScheddRegistry {
    var instances: map<string, Schedd>

    /** No schedd is filed under two addresses, and each remote schedd is filed under
        its own address. */
    ghost predicate Valid()
      reads this
    {
      (forall a, b | a in instances && b in instances && a != b :: instances[a] != instances[b]) &&
      (forall a | a in instances :: instances[a].address == Some(a) || (a == "localhost" && instances[a].address.None?))
    }

    constructor ()
      ensures instances == map[] && Valid()
    {
      instances := map[];
    }

    /** HTCondorSchedd(scheddwrap): the instance already filed under the address, or a
        new one filed there. */
    method New(wrap: Option<ScheddWrapper>) returns (s: Schedd)
      requires Valid()
      modifies this
      ensures Valid()
      ensures ScheddKey(wrap) in instances && s == instances[ScheddKey(wrap)]
      ensures ScheddKey(wrap) in old(instances) ==> instances == old(instances)
      ensures ScheddKey(wrap) !in old(instances) ==>
                fresh(s) && instances == old(instances)[ScheddKey(wrap) := s] && s.hasLock &&
                s.address == (if wrap.None? then None else Some(wrap.value.address))
    {
      var address := ScheddKey(wrap);
      if address !in instances {
        var fresh_s := new Schedd(wrap);
        instances := instances[address := fresh_s];
      }
      s := instances[address];
    }
  }

  /** Collector.getSchedd(hostname, port): the registry's schedd for the address built
      from the hostname and port. */
  method GetSchedd(registry: ScheddRegistry, hostname: string, port: Option<int>, resolve: string -> string)
    returns (s: Schedd)
    requires registry.Valid()
    modifies registry
    ensures registry.Valid()
    ensures Address(hostname, port, resolve) in registry.instances
    ensures s == registry.instances[Address(hostname, port, resolve)]
    ensures Address(hostname, port, resolve) != "localhost" ==> s.address == Some(Address(hostname, port, resolve))
  {
    var address := Address(hostname, port, resolve);
    s := registry.New(Some(ScheddWrapper(address)));
  }
}
