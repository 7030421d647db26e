/** QueueManager of libfactory/queue.py: builds one queue node per configuration section,
    wires each node to the children its childlist names, and collects the roots. */
module QueueManager {
  import opened PyValues
  import opened Queue
  import opened QueueProps

  /** A configuration section as a ConfigParser holds it: its name and, for each option
      the queue classes read, the option's text or None when the section lacks it (the
      DEFAULT section merged in, values stripped). */
  datatype Section = Section(
    name: string,
    klass: Option<string>, isroot: Option<string>, maxtransfer: Option<string>,
    childlist: Option<string>, batchplugin: Option<string>, mock: Option<string>,
    minfullpending: Option<string>)

  /** cp.get(section, option): the option's text, or NoOptionError. */
  function Get(section: string, option: string, text: Option<string>): (r: Result<string, QueueError>)
    ensures r.Ok? <==> text.Some?
    ensures r.Ok? ==> r.value == text.value
    ensures r.Err? ==> r.error == NoOption(section, option)
  {
    if text.Some? then Ok(text.value) else Err(NoOption(section, option))
  }

  /** cp.getint(section, option): int() of the option's text, so ValueError when int()
      rejects it. */
  function GetInt(section: string, option: string, text: Option<string>): (r: Result<int, QueueError>)
    ensures r.Ok? <==> text.Some? && ParseInt(text.value).Some?
    ensures r.Ok? ==> r.value == ParseInt(text.value).value
    ensures text.None? ==> r == Err(NoOption(section, option))
    ensures text.Some? && ParseInt(text.value).None? ==> r == Err(NotAnInt(text.value))
  {
    match Get(section, option, text)
    case Err(e) => Err(e)
    case Ok(v) => if ParseInt(v).Some? then Ok(ParseInt(v).value) else Err(NotAnInt(v))
  }

  /** The words getboolean accepts once lower-cased, and the truth value of each. */
  function BooleanState(word: string): Option<bool> {
    if word == "1" || word == "yes" || word == "true" || word == "on" then Some(true)
    else if word == "0" || word == "no" || word == "false" || word == "off" then Some(false)
    else None
  }

  /** cp.getboolean(section, option): the option's text, lower-cased, must be one of the
      eight boolean words; any other text raises ValueError. */
  function GetBoolean(section: string, option: string, text: Option<string>): (r: Result<bool, QueueError>)
    ensures text.None? ==> r == Err(NoOption(section, option))
    ensures text.Some? ==>
      r == if BooleanState(Lower(text.value)).Some? then Ok(BooleanState(Lower(text.value)).value)
           else Err(NotABoolean(text.value))
  {
    match Get(section, option, text)
    case Err(e) => Err(e)
    case Ok(v) =>
      var state := BooleanState(Lower(v));
      if state.Some? then Ok(state.value) else Err(NotABoolean(v))
  }

  /** getboolean ignores the case of the text. */
  lemma GetBooleanIgnoresCase(section: string, option: string, text: string)
    ensures GetBoolean(section, option, Some(text)) == GetBoolean(section, option, Some(Lower(text))) ||
            (GetBoolean(section, option, Some(text)) == Err(NotABoolean(text)) &&
             GetBoolean(section, option, Some(Lower(text))) == Err(NotABoolean(Lower(text))))
  {
    LowerIdempotent(text);
  }

  /** getboolean's words, in any case: "Yes", "TRUE" and "On" read as True, "No" as False. */
  lemma GetBooleanWords(section: string, option: string)
    ensures GetBoolean(section, option, Some("Yes")) == Ok(true)
    ensures GetBoolean(section, option, Some("TRUE")) == Ok(true)
    ensures GetBoolean(section, option, Some("On")) == Ok(true)
    ensures GetBoolean(section, option, Some("No")) == Ok(false)
    ensures GetBoolean(section, option, Some("2")) == Err(NotABoolean("2"))
  {
    assert Lower("Yes") == "yes";
    assert Lower("TRUE") == "true";
    assert Lower("On") == "on";
    assert Lower("No") == "no";
    assert Lower("2") == "2";
  }

  /** getint reads back the decimal text of any integer. */
  lemma GetIntRoundTrip(section: string, option: string, n: int)
    ensures GetInt(section, option, Some(IntToString(n))) == Ok(n)
  {
    IntStringRoundTrip(n);
  }

  /** The reads every queue class makes first: getboolean('isroot'), then
      getint('maxtransfer'). Their values are only logged or never used. */
  function NodeSettings(sec: Section): (r: Result<(bool, int), QueueError>)
    ensures r.Ok? <==> GetBoolean(sec.name, "isroot", sec.isroot).Ok? && GetInt(sec.name, "maxtransfer", sec.maxtransfer).Ok?
    ensures GetBoolean(sec.name, "isroot", sec.isroot).Err? ==> r == Err(GetBoolean(sec.name, "isroot", sec.isroot).error)
    ensures GetBoolean(sec.name, "isroot", sec.isroot).Ok? && GetInt(sec.name, "maxtransfer", sec.maxtransfer).Err? ==>
              r == Err(GetInt(sec.name, "maxtransfer", sec.maxtransfer).error)
  {
    match GetBoolean(sec.name, "isroot", sec.isroot)
    case Err(e) => Err(e)
    case Ok(isroot) =>
      match GetInt(sec.name, "maxtransfer", sec.maxtransfer)
      case Err(e) => Err(e)
      case Ok(maxtransfer) => Ok((isroot, maxtransfer))
  }

  /** A constructed node before wiring: its class and what it read from its section. */
  datatype QueueSpec =
    | SubmitSpec(minFullPending: int, mock: Option<string>)
    | InternalSpec(policy: Policy, childList: seq<string>)
  {
    /** The node's childlist; a SubmitQueue has none. */
    function Children(): seq<string> {
      if InternalSpec? then childList else []
    }
  }

  /** [ch.strip() for ch in childstr.split(',')] */
  function ChildList(childstr: string): seq<string> {
    StripAll(Split(childstr, ','))
  }

  /** Every piece stripped, in order. */
  function StripAll(parts: seq<string>): (r: seq<string>)
    ensures |r| == |parts|
    decreases |parts|
  {
    if |parts| == 0 then [] else StripAll(parts[..|parts| - 1]) + [Strip(parts[|parts| - 1])]
  }

  /** The i-th name is the i-th piece, stripped. */
  lemma {:induction false} StripAllPieces(parts: seq<string>)
    ensures forall i | 0 <= i < |parts| :: StripAll(parts)[i] == Strip(parts[i])
    decreases |parts|
  {
    if |parts| > 0 {
      var front := parts[..|parts| - 1];
      StripAllPieces(front);
      assert StripAll(parts) == StripAll(front) + [Strip(parts[|parts| - 1])];
    }
  }

  /** The childlist loop of LBQueue.__init__ and OFQueue.__init__. */
  method ParseChildList(childstr: string) returns (childlist: seq<string>)
    ensures childlist == ChildList(childstr)
  {
    childlist := [];
    var parts := Split(childstr, ',');
    for i := 0 to |parts|
      invariant childlist == StripAll(parts[..i])
    {
      assert parts[..i + 1][..i] == parts[..i];
      childlist := childlist + [Strip(parts[i])];
    }
    assert parts[..|parts|] == parts;
  }

  /** Without whitespace in the configured childlist, joining the parsed names with ','
      gives back the configured text. */
  lemma ChildListRoundTrip(childstr: string)
    requires forall k | 0 <= k < |childstr| :: !IsSpace(childstr[k])
    ensures Join(",", ChildList(childstr)) == childstr
  {
    PiecesHaveNoSpace(childstr);
    StripAllUnchanged(Split(childstr, ','));
    JoinSplit(childstr, ',');
    assert [','] == ",";
  }

  /** The pieces of a text without whitespace have none either. */
  lemma PiecesHaveNoSpace(childstr: string)
    requires forall k | 0 <= k < |childstr| :: !IsSpace(childstr[k])
    ensures forall i, k | 0 <= i < |Split(childstr, ',')| && 0 <= k < |Split(childstr, ',')[i]| ::
              !IsSpace(Split(childstr, ',')[i][k])
  {
    SplitPiecesFromString(childstr, ',');
  }

  /** Stripping pieces without whitespace gives them back. */
  lemma {:induction false} StripAllUnchanged(parts: seq<string>)
    requires forall i, k | 0 <= i < |parts| && 0 <= k < |parts[i]| :: !IsSpace(parts[i][k])
    ensures StripAll(parts) == parts
    decreases |parts|
  {
    if |parts| > 0 {
      var front, last := parts[..|parts| - 1], parts[|parts| - 1];
      StripAllUnchanged(front);
      StripNoWhitespace(last);
      assert parts == front + [last];
    }
  }

  /** The node a section constructs: cp.get(section, 'klass'), the class looked up by
      that name (a case split here), and the reads of that class's __init__ in order.
      The option `mock` is read inside a bare `try`, so a missing one is None. */
  function MakeQueue(sec: Section): Result<QueueSpec, QueueError> {
    if sec.klass.None? then Err(NoOption(sec.name, "klass"))
    else
      var klass := sec.klass.value;
      if klass != "LBQueue" && klass != "OFQueue" && klass != "SubmitQueue" then Err(UnknownClass(klass))
      else if NodeSettings(sec).Err? then Err(NodeSettings(sec).error)
      else if klass != "SubmitQueue" then
        if sec.childlist.None? then Err(NoOption(sec.name, "childlist"))
        else Ok(InternalSpec(if klass == "LBQueue" then LoadBalance else OrderedFill, ChildList(sec.childlist.value)))
      else if sec.batchplugin.None? then Err(NoOption(sec.name, "batchplugin"))
      else if sec.batchplugin.value != "MockBatchPlugin" then Err(UnknownBatchPlugin(sec.batchplugin.value))
      else if GetInt(sec.name, "minfullpending", sec.minfullpending).Err? then Err(GetInt(sec.name, "minfullpending", sec.minfullpending).error)
      else Ok(SubmitSpec(GetInt(sec.name, "minfullpending", sec.minfullpending).value, sec.mock))
  }

  /** A section builds a node exactly when its class option names a queue class and every
      option that class's __init__ reads is there and readable. */
  lemma MakeQueueSucceeds(sec: Section)
    ensures MakeQueue(sec).Ok? <==>
      && sec.klass.Some? && NodeSettings(sec).Ok?
      && (|| (sec.klass.value in {"LBQueue", "OFQueue"} && sec.childlist.Some?)
          || (&& sec.klass.value == "SubmitQueue" && sec.batchplugin == Some("MockBatchPlugin")
              && GetInt(sec.name, "minfullpending", sec.minfullpending).Ok?))
  {
  }

  /** An LBQueue or OFQueue holds its parsed childlist; a SubmitQueue its minfullpending
      and its mock descriptor, and no children. */
  lemma MakeQueueBuilds(sec: Section)
    requires MakeQueue(sec).Ok?
    ensures MakeQueue(sec).value.InternalSpec? ==>
      MakeQueue(sec).value == InternalSpec(if sec.klass.value == "LBQueue" then LoadBalance else OrderedFill,
                                           ChildList(sec.childlist.value))
    ensures MakeQueue(sec).value.SubmitSpec? ==>
      sec.klass.value == "SubmitQueue" &&
      MakeQueue(sec).value == SubmitSpec(GetInt(sec.name, "minfullpending", sec.minfullpending).value, sec.mock)
  {
  }

  /** A refused section is reported by the read that failed: a missing option is one this
      section lacks, named with the section; an unknown class is none of the three. */
  lemma MakeQueueRefuses(sec: Section)
    requires MakeQueue(sec).Err?
    ensures MakeQueue(sec).error.NoOption? ==> MakeQueue(sec).error.section == sec.name
    ensures sec.klass.None? ==> MakeQueue(sec).error == NoOption(sec.name, "klass")
    ensures MakeQueue(sec).error.UnknownClass? ==>
      sec.klass.Some? && MakeQueue(sec).error.klass == sec.klass.value && sec.klass.value !in {"LBQueue", "OFQueue", "SubmitQueue"}
  {
    if sec.klass.Some? && sec.klass.value in {"LBQueue", "OFQueue", "SubmitQueue"} {
      if NodeSettings(sec).Err? {
        SettingsReadFirst(sec);
        NodeSettingsRefuses(sec);
      } else {
        ClassReadsRefuse(sec);
      }
    }
  }

  /** Past the settings reads, a queue class fails only on a read of its own options. */
  lemma ClassReadsRefuse(sec: Section)
    requires sec.klass.Some? && sec.klass.value in {"LBQueue", "OFQueue", "SubmitQueue"}
    requires NodeSettings(sec).Ok? && MakeQueue(sec).Err?
    ensures MakeQueue(sec).error.NoOption? ==> MakeQueue(sec).error.section == sec.name
    ensures !MakeQueue(sec).error.UnknownClass?
  {
    if sec.klass.value == "SubmitQueue" && sec.batchplugin == Some("MockBatchPlugin") {
      var mfp := GetInt(sec.name, "minfullpending", sec.minfullpending);
      assert MakeQueue(sec).error == mfp.error;
    }
  }

  /** The settings reads report a missing option under this section's name. */
  lemma NodeSettingsRefuses(sec: Section)
    requires NodeSettings(sec).Err?
    ensures NodeSettings(sec).error.NoOption? ==> NodeSettings(sec).error.section == sec.name
    ensures !NodeSettings(sec).error.UnknownClass?
  {
  }

  /** Before anything else every queue class reads isroot and maxtransfer, so a section
      of a queue class that lacks either, or holds text those reads reject, is refused
      with that read's error, whatever its other options say. */
  lemma SettingsReadFirst(sec: Section)
    requires sec.klass.Some? && sec.klass.value in {"LBQueue", "OFQueue", "SubmitQueue"}
    requires NodeSettings(sec).Err?
    ensures MakeQueue(sec) == Err(NodeSettings(sec).error)
  {
  }

  /** A ConfigParser never holds two sections of the same name. */
  predicate DistinctNames(config: seq<Section>) {
    forall i, j | 0 <= i < j < |config| :: config[i].name != config[j].name
  }

  function Names(config: seq<Section>): (r: seq<string>)
    ensures |r| == |config| && forall i | 0 <= i < |config| :: r[i] == config[i].name
  {
    seq(|config|, i requires 0 <= i < |config| => config[i].name)
  }

  /** What QueueManager.__init__ builds: the nodes by name, their names in
      configuration order, each node's children and parent, and the roots. */
  datatype Manager = Manager(
    queuesByName: map<string, QueueSpec>,
    allQueues: seq<string>,
    children: map<string, seq<string>>,
    parent: map<string, string>,
    rootList: seq<string>)

  /** The first loop: construct a node per section, stopping at the first that fails.
      `make` is the construction of one section's node; QueueManager.__init__ passes
      MakeQueue. */
  method BuildQueues(config: seq<Section>, make: Section -> Result<QueueSpec, QueueError>)
    returns (r: Result<map<string, QueueSpec>, QueueError>)
    requires DistinctNames(config)
    ensures r.Ok? <==> forall i | 0 <= i < |config| :: make(config[i]).Ok?
    ensures r.Ok? ==> r.value.Keys == set i | 0 <= i < |config| :: config[i].name
    ensures r.Ok? ==> forall i | 0 <= i < |config| :: r.value[config[i].name] == make(config[i]).value
    ensures r.Err? ==> exists k | 0 <= k < |config| ::
      make(config[k]) == Err(r.error) && forall i | 0 <= i < k :: make(config[i]).Ok?
  {
    var queuesbyname: map<string, QueueSpec> := map[];
    for k := 0 to |config|
      invariant forall i | 0 <= i < k :: make(config[i]).Ok?
      invariant queuesbyname.Keys == set i | 0 <= i < k :: config[i].name
      invariant forall i | 0 <= i < k :: queuesbyname[config[i].name] == make(config[i]).value
    {
      var qo := make(config[k]);
      if qo.Err? {
        return Err(qo.error);
      }
      queuesbyname := queuesbyname[config[k].name := qo.value];
    }
    r := Ok(queuesbyname);
  }

  /** Some node among `order` lists c as a child. */
  predicate Listed(queues: map<string, QueueSpec>, order: seq<string>, c: string)
    requires forall q | q in order :: q in queues
  {
    exists q | q in order :: c in queues[q].Children()
  }

  /** One more node looked at: a name is listed by order + [q] exactly when it is listed
      by order or by q. */
  lemma ListedSnoc(queues: map<string, QueueSpec>, order: seq<string>, q: string, c: string)
    requires forall p | p in order :: p in queues
    requires q in queues
    ensures Listed(queues, order + [q], c) <==> Listed(queues, order, c) || c in queues[q].Children()
  {
    if Listed(queues, order + [q], c) {
      var p :| p in order + [q] && c in queues[p].Children();
      if p != q {
        assert p in order;
      }
    }
    if c in queues[q].Children() {
      assert q in order + [q];
    }
    if Listed(queues, order, c) {
      var p :| p in order && c in queues[p].Children();
      assert p in order + [q];
    }
  }

  /** e is the KeyError of node q's first child, in list order, that is not a known node. */
  predicate FirstMissingChild(known: set<string>, q: string, childlist: seq<string>, e: QueueError) {
    exists j | 0 <= j < |childlist| ::
      e == MissingChild(q, childlist[j]) && childlist[j] !in known && forall l | 0 <= l < j :: childlist[l] in known
  }

  /** The second loop: give every node its children and every child its parent. A child
      listed by several nodes keeps the parent wired last. */
  method Wire(queues: map<string, QueueSpec>, order: seq<string>)
    returns (r: Result<(map<string, seq<string>>, map<string, string>), QueueError>)
    requires forall q | q in order :: q in queues
    ensures r.Ok? <==> forall q, ch | q in order && ch in queues[q].Children() :: ch in queues
    ensures r.Err? ==> exists k | 0 <= k < |order| ::
      (forall q, ch | q in order[..k] && ch in queues[q].Children() :: ch in queues)
      && FirstMissingChild(queues.Keys, order[k], queues[order[k]].Children(), r.error)
    ensures r.Ok? ==> r.value.0 == map q | q in order :: queues[q].Children()
    ensures r.Ok? ==> forall c :: c in r.value.1 <==> Listed(queues, order, c)
    ensures r.Ok? ==> forall c | c in r.value.1 :: r.value.1[c] in order && c in queues[r.value.1[c]].Children()
  {
    var children: map<string, seq<string>> := map[];
    var parent: map<string, string> := map[];
    for k := 0 to |order|
      invariant forall q, ch | q in order[..k] && ch in queues[q].Children() :: ch in queues
      invariant children == map q | q in order[..k] :: queues[q].Children()
      invariant forall c :: c in parent <==> Listed(queues, order[..k], c)
      invariant forall c | c in parent :: parent[c] in order && c in queues[parent[c]].Children()
    {
      var qname := order[k];
      var childlist := queues[qname].Children();
      assert order[..k + 1] == order[..k] + [qname];
      var wired := WireChildren(queues, qname, childlist, parent);
      if wired.Err? {
        return Err(wired.error);
      }
      forall c
        ensures c in wired.value <==> Listed(queues, order[..k + 1], c)
      {
        ListedSnoc(queues, order[..k], qname, c);
      }
      parent := wired.value;
      children := children[qname := childlist];
    }
    assert order[..|order|] == order;
    r := Ok((children, parent));
  }

  /** The inner loop of the second loop: each child of node qname, in order, must be a
      node and gets qname as its parent. */
  method WireChildren(queues: map<string, QueueSpec>, qname: string, childlist: seq<string>, parent: map<string, string>)
    returns (r: Result<map<string, string>, QueueError>)
    ensures r.Ok? <==> forall ch | ch in childlist :: ch in queues
    ensures r.Err? ==> FirstMissingChild(queues.Keys, qname, childlist, r.error)
    ensures r.Ok? ==> forall c :: c in r.value <==> c in parent || c in childlist
    ensures r.Ok? ==> forall c | c in r.value :: r.value[c] == if c in childlist then qname else parent[c]
  {
    var wired := parent;
    for j := 0 to |childlist|
      invariant forall ch | ch in childlist[..j] :: ch in queues
      invariant forall c :: c in wired <==> c in parent || c in childlist[..j]
      invariant forall c | c in wired :: wired[c] == if c in childlist[..j] then qname else parent[c]
    {
      var ch := childlist[j];
      assert childlist[..j + 1] == childlist[..j] + [ch];
      if ch !in queues {
        assert forall l | 0 <= l < j :: childlist[l] in childlist[..j];
        return Err(MissingChild(qname, ch));
      }
      wired := wired[ch := qname];
    }
    assert childlist[..|childlist|] == childlist;
    return Ok(wired);
  }

  /** The nodes, in order, that no node lists as a child. */
  function RootsOf(order: seq<string>, parent: map<string, string>): (r: seq<string>)
    ensures forall q :: q in r <==> q in order && q !in parent
  {
    if |order| == 0 then []
    else RootsOf(order[..|order| - 1], parent) + (if order[|order| - 1] in parent then [] else [order[|order| - 1]])
  }

  /** The third loop: the nodes whose parent is still None. */
  method Roots(order: seq<string>, parent: map<string, string>) returns (rootlist: seq<string>)
    ensures rootlist == RootsOf(order, parent)
  {
    rootlist := [];
    for k := 0 to |order|
      invariant rootlist == RootsOf(order[..k], parent)
    {
      assert order[..k + 1][..k] == order[..k];
      if order[k] !in parent {
        rootlist := rootlist + [order[k]];
      }
    }
    assert order[..|order|] == order;
  }

  /** The nodes built from a configuration, as BuildQueues returns them. */
  predicate BuiltFrom(queues: map<string, QueueSpec>, config: seq<Section>) {
    && (forall i | 0 <= i < |config| :: MakeQueue(config[i]).Ok?)
    && queues.Keys == (set i | 0 <= i < |config| :: config[i].name)
    && forall i | 0 <= i < |config| :: queues[config[i].name] == MakeQueue(config[i]).value
  }

  /** Listing by name in configuration order is listing by some section. */
  lemma ListedBySection(queues: map<string, QueueSpec>, config: seq<Section>, c: string)
    requires BuiltFrom(queues, config)
    ensures forall q | q in Names(config) :: q in queues
    ensures Listed(queues, Names(config), c) <==>
      exists i | 0 <= i < |config| :: c in MakeQueue(config[i]).value.Children()
  {
    var order := Names(config);
    assert forall q | q in order :: q in queues by {
      forall q | q in order
        ensures q in queues
      {
        var i :| 0 <= i < |order| && order[i] == q;
      }
    }
    if Listed(queues, order, c) {
      var q :| q in order && c in queues[q].Children();
      var i :| 0 <= i < |order| && order[i] == q;
      assert c in MakeQueue(config[i]).value.Children();
    }
    if exists i | 0 <= i < |config| :: c in MakeQueue(config[i]).value.Children() {
      var i :| 0 <= i < |config| && c in MakeQueue(config[i]).value.Children();
      assert order[i] in order;
    }
  }

  /** Every child named by some node is a node exactly when every section's childlist
      names sections only. */
  lemma ChildrenAreSections(queues: map<string, QueueSpec>, config: seq<Section>)
    requires BuiltFrom(queues, config)
    ensures forall q | q in Names(config) :: q in queues
    ensures (forall q, ch | q in Names(config) && ch in queues[q].Children() :: ch in queues) <==>
      forall i, ch | 0 <= i < |config| && ch in MakeQueue(config[i]).value.Children() :: ch in Names(config)
  {
    var order := Names(config);
    ListedBySection(queues, config, "");
    assert forall ch :: ch in queues <==> ch in order by {
      forall ch
        ensures ch in queues <==> ch in order
      {
        if ch in queues {
          var i :| 0 <= i < |config| && config[i].name == ch;
          assert order[i] == ch;
        }
      }
    }
    if forall q, ch | q in order && ch in queues[q].Children() :: ch in queues {
      forall i, ch | 0 <= i < |config| && ch in MakeQueue(config[i]).value.Children()
        ensures ch in order
      {
        assert order[i] in order;
      }
    }
    if forall i, ch | 0 <= i < |config| && ch in MakeQueue(config[i]).value.Children() :: ch in order {
      forall q, ch | q in order && ch in queues[q].Children()
        ensures ch in queues
      {
        var i :| 0 <= i < |order| && order[i] == q;
        assert ch in MakeQueue(config[i]).value.Children();
      }
    }
  }

  /** What a manager assembled from built and wired nodes states about the sections. */
  ghost predicate DescribesConfig(m: Manager, config: seq<Section>)
    requires forall i | 0 <= i < |config| :: MakeQueue(config[i]).Ok?
  {
    && m.allQueues == Names(config)
    && (forall i | 0 <= i < |config| ::
          config[i].name in m.queuesByName && config[i].name in m.children
          && m.queuesByName[config[i].name] == MakeQueue(config[i]).value
          && m.children[config[i].name] == MakeQueue(config[i]).value.Children())
    && (forall c :: c in m.parent <==>
          exists i | 0 <= i < |config| :: c in MakeQueue(config[i]).value.Children())
    && (forall q :: q in m.rootList <==>
          q in Names(config) && forall i | 0 <= i < |config| :: q !in MakeQueue(config[i]).value.Children())
  }

  lemma Assembled(config: seq<Section>, queues: map<string, QueueSpec>, children: map<string, seq<string>>,
                  parent: map<string, string>, rootlist: seq<string>)
    requires BuiltFrom(queues, config)
    requires forall q | q in Names(config) :: q in queues
    requires children == map q | q in Names(config) :: queues[q].Children()
    requires forall c :: c in parent <==> Listed(queues, Names(config), c)
    requires rootlist == RootsOf(Names(config), parent)
    ensures DescribesConfig(Manager(queues, Names(config), children, parent, rootlist), config)
  {
    AssembledChildren(config, queues, children);
    AssembledParents(config, queues, parent);
    AssembledRoots(config, queues, parent, rootlist);
  }

  lemma AssembledChildren(config: seq<Section>, queues: map<string, QueueSpec>, children: map<string, seq<string>>)
    requires BuiltFrom(queues, config)
    requires forall q | q in Names(config) :: q in queues
    requires children == map q | q in Names(config) :: queues[q].Children()
    ensures forall i | 0 <= i < |config| ::
      config[i].name in queues && config[i].name in children
      && queues[config[i].name] == MakeQueue(config[i]).value
      && children[config[i].name] == MakeQueue(config[i]).value.Children()
  {
    var order := Names(config);
    forall i | 0 <= i < |config|
      ensures config[i].name in children && children[config[i].name] == MakeQueue(config[i]).value.Children()
    {
      assert order[i] == config[i].name;
    }
  }

  lemma AssembledParents(config: seq<Section>, queues: map<string, QueueSpec>, parent: map<string, string>)
    requires BuiltFrom(queues, config)
    requires forall q | q in Names(config) :: q in queues
    requires forall c :: c in parent <==> Listed(queues, Names(config), c)
    ensures forall c :: c in parent <==> exists i | 0 <= i < |config| :: c in MakeQueue(config[i]).value.Children()
  {
    forall c
      ensures c in parent <==> exists i | 0 <= i < |config| :: c in MakeQueue(config[i]).value.Children()
    {
      ListedBySection(queues, config, c);
    }
  }

  lemma AssembledRoots(config: seq<Section>, queues: map<string, QueueSpec>, parent: map<string, string>,
                       rootlist: seq<string>)
    requires BuiltFrom(queues, config)
    requires forall q | q in Names(config) :: q in queues
    requires forall c :: c in parent <==> Listed(queues, Names(config), c)
    requires rootlist == RootsOf(Names(config), parent)
    ensures forall q :: q in rootlist <==>
      q in Names(config) && forall i | 0 <= i < |config| :: q !in MakeQueue(config[i]).value.Children()
  {
    forall q
      ensures q in rootlist <==>
        q in Names(config) && forall i | 0 <= i < |config| :: q !in MakeQueue(config[i]).value.Children()
    {
      ListedBySection(queues, config, q);
    }
  }

  /** Wire's error, read back in terms of the sections: the first missing child of the
      first section, in configuration order, whose childlist names a non-section. */
  lemma WireErrorBySection(queues: map<string, QueueSpec>, config: seq<Section>, e: QueueError)
    requires BuiltFrom(queues, config)
    requires forall q | q in Names(config) :: q in queues
    requires exists k | 0 <= k < |config| ::
      (forall q, ch | q in Names(config)[..k] && ch in queues[q].Children() :: ch in queues)
      && FirstMissingChild(queues.Keys, Names(config)[k], queues[Names(config)[k]].Children(), e)
    ensures exists k | 0 <= k < |config| ::
      (forall i, ch | 0 <= i < k && ch in MakeQueue(config[i]).value.Children() :: ch in Names(config))
      && FirstMissingChild(set i | 0 <= i < |config| :: config[i].name, config[k].name,
                           MakeQueue(config[k]).value.Children(), e)
  {
    var order := Names(config);
    var k :| 0 <= k < |config| &&
      (forall q, ch | q in order[..k] && ch in queues[q].Children() :: ch in queues)
      && FirstMissingChild(queues.Keys, order[k], queues[order[k]].Children(), e);
    assert forall ch :: ch in queues <==> ch in order by {
      forall ch
        ensures ch in queues <==> ch in order
      {
        if ch in queues {
          var i :| 0 <= i < |config| && config[i].name == ch;
          assert order[i] == ch;
        }
      }
    }
    forall i, ch | 0 <= i < k && ch in MakeQueue(config[i]).value.Children()
      ensures ch in order
    {
      assert order[..k][i] == config[i].name;
    }
    assert order[k] == config[k].name;
  }

  /** QueueManager.__init__. */
  method NewManager(config: seq<Section>) returns (r: Result<Manager, QueueError>)
    requires DistinctNames(config)
    ensures r.Ok? <==>
      (forall i | 0 <= i < |config| :: MakeQueue(config[i]).Ok?)
      && forall i, ch | 0 <= i < |config| && ch in MakeQueue(config[i]).value.Children() :: ch in Names(config)
    ensures r.Ok? ==> DescribesConfig(r.value, config)
    ensures r.Err? && (exists i | 0 <= i < |config| :: MakeQueue(config[i]).Err?) ==>
      exists k | 0 <= k < |config| :: MakeQueue(config[k]) == Err(r.error) && forall i | 0 <= i < k :: MakeQueue(config[i]).Ok?
    ensures r.Err? && (forall i | 0 <= i < |config| :: MakeQueue(config[i]).Ok?) ==>
      exists k | 0 <= k < |config| ::
        (forall i, ch | 0 <= i < k && ch in MakeQueue(config[i]).value.Children() :: ch in Names(config))
        && FirstMissingChild(set i | 0 <= i < |config| :: config[i].name, config[k].name,
                             MakeQueue(config[k]).value.Children(), r.error)
  {
    var built := BuildQueues(config, MakeQueue);
    if built.Err? {
      return Err(built.error);
    }
    r := AssembleManager(config, built.value);
  }

  /** The second and third loops of QueueManager.__init__, once every section has built
      its node: wire the children and parents, then collect the roots. */
  method AssembleManager(config: seq<Section>, queuesbyname: map<string, QueueSpec>)
    returns (r: Result<Manager, QueueError>)
    requires BuiltFrom(queuesbyname, config)
    ensures r.Ok? <==>
      forall i, ch | 0 <= i < |config| && ch in MakeQueue(config[i]).value.Children() :: ch in Names(config)
    ensures r.Ok? ==> DescribesConfig(r.value, config)
    ensures r.Err? ==>
      exists k | 0 <= k < |config| ::
        (forall i, ch | 0 <= i < k && ch in MakeQueue(config[i]).value.Children() :: ch in Names(config))
        && FirstMissingChild(set i | 0 <= i < |config| :: config[i].name, config[k].name,
                             MakeQueue(config[k]).value.Children(), r.error)
  {
    var allqueues := Names(config);
    ChildrenAreSections(queuesbyname, config);
    var wired := Wire(queuesbyname, allqueues);
    if wired.Err? {
      WireErrorBySection(queuesbyname, config, wired.error);
      return Err(wired.error);
    }
    var (children, parent) := wired.value;
    var rootlist := Roots(allqueues, parent);
    Assembled(config, queuesbyname, children, parent, rootlist);
    r := Ok(Manager(queuesbyname, allqueues, children, parent, rootlist));
  }

  // ---------------------------------------------------------------------------
  // The trees
  // ---------------------------------------------------------------------------

  /** The tree below a node, following the wired children. The links are not checked for
      cycles when the manager is built; a cycle shows up here as running out of fuel. */
  function Unfold(m: Manager, name: string, fuel: nat): Result<Node, QueueError>
    decreases fuel, 0
  {
    if name !in m.queuesByName then Err(MissingChild("", name))
    else if fuel == 0 then Err(TooDeep(name))
    else
      match m.queuesByName[name]
      case SubmitSpec(mfp, mock) => Ok(Leaf(name, mfp, mock))
      case InternalSpec(policy, childList) =>
        match UnfoldAll(m, childList, fuel - 1)
        case Err(e) => Err(e)
        case Ok(cs) => Ok(Internal(policy, name, cs))
  }

  function UnfoldAll(m: Manager, names: seq<string>, fuel: nat): Result<seq<Node>, QueueError>
    decreases fuel, |names|
  {
    if |names| == 0 then Ok([])
    else
      match Unfold(m, names[0], fuel)
      case Err(e) => Err(e)
      case Ok(c) =>
        match UnfoldAll(m, names[1..], fuel)
        case Err(e) => Err(e)
        case Ok(cs) => Ok([c] + cs)
  }

  /** An unfolded node carries its section's name and class, and every leaf below it is
      a SubmitQueue section. */
  lemma UnfoldShape(m: Manager, name: string, fuel: nat)
    requires Unfold(m, name, fuel).Ok?
    ensures var t := Unfold(m, name, fuel).value;
      t.name == name && name in m.queuesByName
      && (t.Leaf? <==> m.queuesByName[name].SubmitSpec?)
      && forall l | l in Labels(t) :: l in m.queuesByName && m.queuesByName[l].SubmitSpec?
    decreases fuel, 0
  {
    if m.queuesByName[name].InternalSpec? {
      UnfoldAllShape(m, m.queuesByName[name].childList, fuel - 1);
    }
  }

  lemma UnfoldAllShape(m: Manager, names: seq<string>, fuel: nat)
    requires UnfoldAll(m, names, fuel).Ok?
    ensures var cs := UnfoldAll(m, names, fuel).value;
      |cs| == |names|
      && forall k | 0 <= k < |cs| :: cs[k].name == names[k]
                   && forall l | l in Labels(cs[k]) :: l in m.queuesByName && m.queuesByName[l].SubmitSpec?
    decreases fuel, |names|
  {
    if |names| > 0 {
      UnfoldShape(m, names[0], fuel);
      UnfoldAllShape(m, names[1..], fuel);
    }
  }
}
