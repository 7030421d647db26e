/** The queue tree of libfactory/queue.py: leaf SubmitQueue nodes that place jobs at a
    mock site, internal LBQueue (even split) and OFQueue (ordered fill) nodes, the
    overflow-collecting rebalance, and the MockBatchPlugin that holds the sites.

    The tree itself never changes after it is built, so it is a datatype; the sites are
    updated in place by every placement, so they live in a map field of one shared
    plugin object (the source's MockBatchPlugin singleton). Each tree walk is a method
    over that object, proved against a function that states the walk on site maps. */
module Queue {
  import opened PyValues

  /** MockSite's capacity when the mock descriptor has no "max" field. */
  const DefaultMax: int := 9999

  datatype QueueError =
    | MockIsNone                        // MockSite(label, None): None.split raises
    | MaxNotAnInt(field: string)        // int(field[3:]) raises ValueError
    | UnknownClass(klass: string)       // no queue class of that name
    | UnknownBatchPlugin(name: string)  // no batch plugin of that name
    | MissingChild(parent: string, child: string)
    | TooDeep(name: string)             // the configured parent/child links form a cycle
    | NoOption(section: string, option: string)  // ConfigParser's NoOptionError
    | NotABoolean(value: string)        // getboolean: ValueError 'Not a boolean'
    | NotAnInt(value: string)           // getint: int(value) raises ValueError

  /** A mock batch target: its capacity and its idle/running/complete job counts. */
  datatype Site = Site(name: string, mock: string, max: int, idle: int, running: int, complete: int)
  {
    /** MockSite.isFull: the site runs as many jobs as it may. */
    predicate IsFull() { running >= max }
  }

  type Sites = map<string, Site>

  datatype Counts = Counts(idle: int, running: int, complete: int)
  {
    function Plus(o: Counts): Counts {
      Counts(idle + o.idle, running + o.running, complete + o.complete)
    }
  }

  const NoCounts := Counts(0, 0, 0)

  function CountsOf(site: Site): Counts {
    Counts(site.idle, site.running, site.complete)
  }

  // ---------------------------------------------------------------------------
  // MockSite construction
  // ---------------------------------------------------------------------------

  /** The capacity parsed from the '-'-separated fields of a mock descriptor: every
      field starting with "max" sets it to the integer after those three letters, so
      the last such field wins; the first one that is not an integer raises. */
  function MaxFromFields(fields: seq<string>): Result<int, QueueError>
    decreases |fields|
  {
    if |fields| == 0 then Ok(DefaultMax)
    else MaxField(MaxFromFields(fields[..|fields| - 1]), fields[|fields| - 1])
  }

  /** One field of the scan: the capacity so far, replaced by a "max" field's integer. */
  function MaxField(sofar: Result<int, QueueError>, f: string): Result<int, QueueError> {
    match sofar
    case Err(e) => Err(e)
    case Ok(m) =>
      if StartsWith(f, "max") then
        match ParseInt(f[3..])
        case None => Err(MaxNotAnInt(f))
        case Some(v) => Ok(v)
      else Ok(m)
  }

  /** Once a field fails to parse, the remaining fields no longer matter. */
  lemma {:induction false} MaxErrorPersists(fields: seq<string>, i: nat)
    requires i <= |fields| && MaxFromFields(fields[..i]).Err?
    ensures MaxFromFields(fields) == MaxFromFields(fields[..i])
    decreases |fields| - i
  {
    if i < |fields| {
      assert fields[..i + 1][..i] == fields[..i];
      MaxErrorPersists(fields, i + 1);
    } else {
      assert fields[..i] == fields;
    }
  }

  /** MockSite(label, mock): a fresh site with no jobs. */
  function MockSiteOf(name: string, mock: Option<string>): (r: Result<Site, QueueError>)
    ensures r.Ok? ==> r.value.name == name && CountsOf(r.value) == NoCounts
    ensures mock.None? ==> r == Err(MockIsNone)
  {
    match mock
    case None => Err(MockIsNone)
    case Some(m) =>
      match MaxFromFields(Split(m, '-'))
      case Err(e) => Err(e)
      case Ok(mx) => Ok(Site(name, m, mx, 0, 0, 0))
  }

  /** MockSite.__init__, scanning the fields in order. */
  method NewMockSite(name: string, mock: Option<string>) returns (r: Result<Site, QueueError>)
    ensures r == MockSiteOf(name, mock)
  {
    if mock.None? {
      return Err(MockIsNone);
    }
    var fields := Split(mock.value, '-');
    var max := DefaultMax;
    for i := 0 to |fields|
      invariant MaxFromFields(fields[..i]) == Ok(max)
    {
      var field := fields[i];
      assert fields[..i + 1][..i] == fields[..i];
      assert MaxFromFields(fields[..i + 1]) == MaxField(Ok(max), field);
      if StartsWith(field, "max") {
        var v := ParseInt(field[3..]);
        if v.None? {
          MaxErrorPersists(fields, i + 1);
          return Err(MaxNotAnInt(field));
        }
        max := v.value;
      }
    }
    assert fields[..|fields|] == fields;
    r := Ok(Site(name, mock.value, max, 0, 0, 0));
  }

  // ---------------------------------------------------------------------------
  // The tree
  // ---------------------------------------------------------------------------

  datatype Policy = LoadBalance | OrderedFill

  /** A queue node: a SubmitQueue leaf placing at the site named by its label, or an
      LBQueue/OFQueue with its children in configured order. */
  datatype Node =
    | Leaf(name: string, minFullPending: int, mock: Option<string>)
    | Internal(policy: Policy, name: string, children: seq<Node>)

  /** SubmitQueue.isFull: the site exists, is at capacity and has at least
      minFullPending idle jobs; an unknown site is not full. */
  predicate LeafFull(s: Sites, name: string, minFullPending: int) {
    name in s && s[name].IsFull() && s[name].idle >= minFullPending
  }

  /** isFull of any node; an internal node is full when all its children are. */
  predicate Full(s: Sites, node: Node) {
    match node
    case Leaf(name, mfp, _) => LeafFull(s, name, mfp)
    case Internal(_, _, cs) => forall c | c in cs :: Full(s, c)
  }

  /** The children that are not full, in order. */
  function OpenChildren(s: Sites, cs: seq<Node>): (r: seq<Node>)
    ensures |r| <= |cs|
    ensures forall c | c in r :: c in cs
  {
    if |cs| == 0 then []
    else (if Full(s, cs[0]) then [] else [cs[0]]) + OpenChildren(s, cs[1..])
  }

  /** The share given to each of k open children by LBQueue.enqueue(n). */
  function LBShare(n: int, k: nat): int
    requires n > 0 && k >= 1
  {
    if k == 1 then n else if n / k == 0 then 1 else n / k
  }

  /** Site state after a placement, and the error that stopped it, if any. */
  datatype Step = Step(sites: Sites, err: Option<QueueError>)

  /** MockBatchPluginImpl.submit(n, label, mock): add n idle jobs to the label's site,
      creating the site first when it is unknown. */
  function Submitted(s: Sites, n: int, name: string, mock: Option<string>): (r: Step)
    ensures r.err.None? ==> name in r.sites && r.sites.Keys == s.Keys + {name}
    ensures r.err.None? ==> forall l | l in s && l != name :: r.sites[l] == s[l]
    ensures r.err.None? && name in s ==> r.sites[name] == s[name].(idle := s[name].idle + n)
    ensures r.err.None? && name !in s ==>
      r.sites[name].name == name && CountsOf(r.sites[name]) == Counts(n, 0, 0)
    ensures r.err.Some? <==> name !in s && MockSiteOf(name, mock).Err?
    ensures r.err.Some? ==> r.sites == s && r.err == Some(MockSiteOf(name, mock).error)
  {
    if name in s then Step(s[name := s[name].(idle := s[name].idle + n)], None)
    else
      match MockSiteOf(name, mock)
      case Err(e) => Step(s, Some(e))
      case Ok(site) => Step(s[name := site.(idle := site.idle + n)], None)
  }

  /** enqueue(n) on a node, as a function of the site map. */
  function Enqueued(s: Sites, node: Node, n: int): Step
    decreases node, 1
  {
    match node
    case Leaf(name, mfp, mock) =>
      if LeafFull(s, name, mfp) then Step(s, None) else Submitted(s, n, name, mock)
    case Internal(policy, _, cs) =>
      if n <= 0 then Step(s, None)
      else
        var open := OpenChildren(s, cs);
        if |open| == 0 then Step(s, None)
        else if policy == LoadBalance then EnqueueEach(s, node, open, LBShare(n, |open|))
        else OfferInOrder(s, node, cs, n)
  }

  /** LBQueue: give `amount` to each listed child in turn, stopping at an error. */
  function EnqueueEach(s: Sites, parent: Node, list: seq<Node>, amount: int): Step
    requires parent.Internal? && forall c | c in list :: c in parent.children
    decreases parent, 0, |list|
  {
    if |list| == 0 then Step(s, None)
    else
      assert list[0] in parent.children;
      var st := Enqueued(s, list[0], amount);
      if st.err.Some? then st else EnqueueEach(st.sites, parent, list[1..], amount)
  }

  /** OFQueue: offer the whole n to each child in turn that is not full at the moment
      its turn comes, stopping at an error. */
  function OfferInOrder(s: Sites, parent: Node, rest: seq<Node>, n: int): Step
    requires parent.Internal? && forall c | c in rest :: c in parent.children
    decreases parent, 0, |rest|
  {
    if |rest| == 0 then Step(s, None)
    else
      assert rest[0] in parent.children;
      if Full(s, rest[0]) then OfferInOrder(s, parent, rest[1..], n)
      else
        var st := Enqueued(s, rest[0], n);
        if st.err.Some? then st else OfferInOrder(st.sites, parent, rest[1..], n)
  }

  /** Site state, error and overflow after a rebalance. */
  datatype Rebalancing = Rebalancing(sites: Sites, err: Option<QueueError>, overflow: int)

  /** rebalance() on a node, as a function of the site map. */
  function Rebalanced(s: Sites, node: Node): Rebalancing
    decreases node, 1
  {
    match node
    case Leaf(name, mfp, _) =>
      if name in s && s[name].IsFull() && s[name].idle > mfp then
        Rebalancing(s[name := s[name].(idle := mfp)], None, s[name].idle - mfp)
      else Rebalancing(s, None, 0)
    case Internal(_, _, cs) =>
      Redistribute(node, CollectOverflow(s, node, cs, 0))
  }

  /** The children's rebalances in order, summing their overflow onto acc. */
  function CollectOverflow(s: Sites, parent: Node, rest: seq<Node>, acc: int): Rebalancing
    requires parent.Internal? && forall c | c in rest :: c in parent.children
    decreases parent, 0, |rest|
  {
    if |rest| == 0 then Rebalancing(s, None, acc)
    else
      assert rest[0] in parent.children;
      var r := Rebalanced(s, rest[0]);
      if r.err.Some? then Rebalancing(r.sites, r.err, 0)
      else CollectOverflow(r.sites, parent, rest[1..], acc + r.overflow)
  }

  /** An internal node that collected a positive overflow and is not full re-enqueues it
      through its own policy and reports 0; otherwise it passes the overflow up. */
  function Redistribute(node: Node, r: Rebalancing): Rebalancing {
    if r.err.Some? then r
    else if r.overflow > 0 && !Full(r.sites, node) then
      var st := Enqueued(r.sites, node, r.overflow);
      Rebalancing(st.sites, st.err, 0)
    else r
  }

  /** getInfo() of a node: its site's counts for a leaf (zero for an unknown site), the
      sum over the children for an internal node. */
  function TreeCounts(s: Sites, node: Node): Counts
    decreases node, 1
  {
    match node
    case Leaf(name, _, _) => if name in s then CountsOf(s[name]) else NoCounts
    case Internal(_, _, cs) => SumCounts(s, node, |cs|)
  }

  /** The counts of the first i children, added up in order. */
  function SumCounts(s: Sites, parent: Node, i: nat): Counts
    requires parent.Internal? && i <= |parent.children|
    decreases parent, 0, i
  {
    if i == 0 then NoCounts
    else SumCounts(s, parent, i - 1).Plus(TreeCounts(s, parent.children[i - 1]))
  }

  // ---------------------------------------------------------------------------
  // The mock batch plugin
  // ---------------------------------------------------------------------------

  /** processIdle on one site: start as many idle jobs as the free capacity allows. */
  function IdleStep(site: Site): (r: Site)
    ensures r == site.(idle := r.idle, running := r.running)
    ensures r.idle + r.running == site.idle + site.running
    ensures site.idle > 0 && site.running < site.max ==>
      site.running < r.running <= r.max && 0 <= r.idle < site.idle && (r.idle == 0 || r.running == r.max)
    ensures !(site.idle > 0 && site.running < site.max) ==> r == site
  {
    if site.idle > 0 && site.running < site.max then
      var avail := site.max - site.running;
      var torun := if site.idle < avail then site.idle else avail;
      site.(running := site.running + torun, idle := site.idle - torun)
    else site
  }

  /** processComplete on one site, where k of its running jobs were drawn to complete. */
  function CompleteStep(site: Site, k: int): (r: Site)
    ensures r == site.(running := r.running, complete := r.complete)
    ensures r.running + r.complete == site.running + site.complete
    ensures site.running > 0 && 0 <= k <= site.running ==>
      0 <= r.running <= site.running && r.complete >= site.complete
    ensures site.running <= 0 ==> r == site
  {
    if site.running > 0 then site.(running := site.running - k, complete := site.complete + k)
    else site
  }

  /** The number of running jobs drawn for completion at a site; none when it was not drawn. */
  function DrawnFor(drawn: map<string, int>, l: string): int {
    if l in drawn then drawn[l] else 0
  }

  /** t is s0 with the sites outside todo completed and those in todo untouched. */
  ghost predicate CompletedExcept(s0: Sites, t: Sites, todo: set<string>, drawn: map<string, int>) {
    todo <= s0.Keys && t.Keys == s0.Keys &&
    forall l | l in s0 :: t[l] == if l in todo then s0[l] else CompleteStep(s0[l], DrawnFor(drawn, l))
  }

  /** Completing one more site of todo. */
  lemma CompleteOne(s0: Sites, t: Sites, todo: set<string>, drawn: map<string, int>, name: string)
    requires CompletedExcept(s0, t, todo, drawn) && name in todo
    ensures CompletedExcept(s0, t[name := CompleteStep(s0[name], DrawnFor(drawn, name))], todo - {name}, drawn)
  {
  }

  /** With nothing left to do, every site is completed. */
  lemma CompletedAll(s0: Sites, t: Sites, drawn: map<string, int>)
    requires CompletedExcept(s0, t, {}, drawn)
    ensures t == map l | l in s0 :: CompleteStep(s0[l], DrawnFor(drawn, l))
  {
  }

  /** The shared batch plugin: the sites by label and the number of processIdle cycles. */
  class MockBatchPlugin {
    var sites: Sites
    var cycles: int

    /** Every site is stored under its own label. */
    ghost predicate Valid()
      reads this
    {
      forall l | l in sites :: sites[l].name == l
    }

    constructor ()
      ensures Valid() && sites == map[] && cycles == 0
    {
      sites := map[];
      cycles := 0;
    }

    method Submit(n: int, name: string, mock: Option<string>) returns (err: Option<QueueError>)
      requires Valid()
      modifies this
      ensures Valid() && cycles == old(cycles)
      ensures Step(sites, err) == Submitted(old(sites), n, name, mock)
    {
      if name !in sites {
        var created := NewMockSite(name, mock);
        if created.Err? {
          return Some(created.error);
        }
        sites := sites[name := created.value];
      }
      var siteobj := sites[name];
      sites := sites[name := siteobj.(idle := siteobj.idle + n)];
      err := None;
    }

    method ProcessIdle()
      requires Valid()
      modifies this
      ensures Valid() && cycles == old(cycles) + 1
      ensures sites == map l | l in old(sites) :: IdleStep(old(sites)[l])
    {
      ghost var s0 := sites;
      var todo := sites.Keys;
      while todo != {}
        invariant todo <= s0.Keys && sites.Keys == s0.Keys && cycles == old(cycles)
        invariant forall l | l in s0 :: sites[l] == if l in todo then s0[l] else IdleStep(s0[l])
        decreases todo
      {
        var name :| name in todo;
        var s := sites[name];
        var idle := s.idle;
        if idle > 0 {
          if s.running < s.max {
            var avail := s.max - s.running;
            var torun;
            if idle < avail {
              torun := idle;
            } else {
              torun := avail;
            }
            s := s.(running := s.running + torun, idle := s.idle - torun);
          }
        }
        assert s == IdleStep(s0[name]);
        sites := sites[name := s];
        todo := todo - {name};
      }
      assert sites == map l | l in s0 :: IdleStep(s0[l]);
      cycles := cycles + 1;
    }

    /** processComplete, where drawn[l] is how many of site l's running jobs the random
        draws moved to complete (any number from 0 to running). */
    method ProcessComplete(drawn: map<string, int>)
      requires Valid()
      requires forall l | l in sites && sites[l].running > 0 :: l in drawn && 0 <= drawn[l] <= sites[l].running
      modifies this
      ensures Valid() && cycles == old(cycles)
      ensures sites == map l | l in old(sites) :: CompleteStep(old(sites)[l], DrawnFor(drawn, l))
    {
      ghost var s0 := sites;
      var todo := sites.Keys;
      while todo != {}
        invariant cycles == old(cycles) && Valid()
        invariant CompletedExcept(s0, sites, todo, drawn)
        decreases todo
      {
        var name :| name in todo;
        var s := sites[name];
        var running := s.running;
        if running > 0 {
          var tocomplete := drawn[name];
          s := s.(running := s.running - tocomplete, complete := s.complete + tocomplete);
        }
        assert s == CompleteStep(s0[name], DrawnFor(drawn, name));
        CompleteOne(s0, sites, todo, drawn, name);
        sites := sites[name := s];
        todo := todo - {name};
      }
      CompletedAll(s0, sites, drawn);
    }

    /** getInfo: the counts of every site, keyed by the site's label. */
    method GetInfo() returns (batchinfo: map<string, Counts>)
      requires Valid()
      ensures batchinfo == map l | l in sites :: CountsOf(sites[l])
    {
      batchinfo := map[];
      var todo := sites.Keys;
      while todo != {}
        invariant todo <= sites.Keys
        invariant batchinfo.Keys == sites.Keys - todo
        invariant forall l | l in batchinfo :: batchinfo[l] == CountsOf(sites[l])
        decreases todo
      {
        var sitelabel :| sitelabel in todo;
        var site := sites[sitelabel];
        batchinfo := batchinfo[site.name := CountsOf(site)];
        todo := todo - {sitelabel};
      }
    }
  }

  // ---------------------------------------------------------------------------
  // Tree walks over the shared plugin
  // ---------------------------------------------------------------------------

  /** QTreeNode.isFull: every child is asked, none is skipped. */
  method IsFull(p: MockBatchPlugin, node: Node) returns (full: bool)
    ensures full == Full(p.sites, node)
    decreases node
  {
    match node {
      case Leaf(name, mfp, _) =>
        full := false;
        if name in p.sites {
          var site := p.sites[name];
          if site.IsFull() && site.idle >= mfp {
            full := true;
          }
        }
      case Internal(_, _, cs) =>
        full := true;
        for i := 0 to |cs|
          invariant full == forall j | 0 <= j < i :: Full(p.sites, cs[j])
        {
          var chFull := IsFull(p, cs[i]);
          if !chFull {
            full := false;
          }
        }
    }
  }

  /** The enqueue loops' `openchildren`: the children not full, in order. */
  method OpenChildrenOf(p: MockBatchPlugin, cs: seq<Node>) returns (openchildren: seq<Node>)
    ensures openchildren == OpenChildren(p.sites, cs)
  {
    openchildren := [];
    for i := 0 to |cs|
      invariant OpenChildren(p.sites, cs) == openchildren + OpenChildren(p.sites, cs[i..])
    {
      var chFull := IsFull(p, cs[i]);
      OpenChildrenStep(p.sites, cs, i, openchildren);
      if !chFull {
        openchildren := openchildren + [cs[i]];
      }
    }
    assert cs[|cs|..] == [];
  }

  /** QTreeNode.enqueue(n). */
  method Enqueue(p: MockBatchPlugin, node: Node, n: int) returns (err: Option<QueueError>)
    requires p.Valid()
    modifies p
    ensures p.Valid() && p.cycles == old(p.cycles)
    ensures Step(p.sites, err) == Enqueued(old(p.sites), node, n)
    decreases node, 1
  {
    err := None;
    match node {
      case Leaf(name, _, mock) =>
        var full := IsFull(p, node);
        if !full {
          err := p.Submit(n, name, mock);
        }
      case Internal(policy, _, cs) =>
        if n > 0 {
          var openchildren := OpenChildrenOf(p, cs);
          if |openchildren| > 0 {
            if policy == LoadBalance {
              var tosub;
              if |openchildren| == 1 {
                tosub := n;
              } else {
                tosub := n / |openchildren|;
                if tosub == 0 {
                  tosub := 1;
                }
              }
              assert tosub == LBShare(n, |openchildren|);
              err := EnqueueAll(p, node, openchildren, tosub);
            } else {
              err := OfferAll(p, node, cs, n);
            }
          }
        }
    }
  }

  /** LBQueue.enqueue's dispatch loop: `amount` to each open child. */
  method EnqueueAll(p: MockBatchPlugin, parent: Node, list: seq<Node>, amount: int) returns (err: Option<QueueError>)
    requires p.Valid()
    requires parent.Internal? && forall c | c in list :: c in parent.children
    modifies p
    ensures p.Valid() && p.cycles == old(p.cycles)
    ensures Step(p.sites, err) == EnqueueEach(old(p.sites), parent, list, amount)
    decreases parent, 0
  {
    err := None;
    for j := 0 to |list|
      invariant p.Valid() && p.cycles == old(p.cycles) && err.None?
      invariant EnqueueEach(old(p.sites), parent, list, amount) == EnqueueEach(p.sites, parent, list[j..], amount)
    {
      assert list[j] in parent.children;
      assert list[j..][1..] == list[j + 1..];
      err := Enqueue(p, list[j], amount);
      if err.Some? {
        return;
      }
    }
  }

  /** OFQueue.enqueue's dispatch loop: the whole n to each child not full at its turn. */
  method OfferAll(p: MockBatchPlugin, parent: Node, cs: seq<Node>, n: int) returns (err: Option<QueueError>)
    requires p.Valid()
    requires parent.Internal? && forall c | c in cs :: c in parent.children
    modifies p
    ensures p.Valid() && p.cycles == old(p.cycles)
    ensures Step(p.sites, err) == OfferInOrder(old(p.sites), parent, cs, n)
    decreases parent, 0
  {
    err := None;
    for j := 0 to |cs|
      invariant p.Valid() && p.cycles == old(p.cycles) && err.None?
      invariant OfferInOrder(old(p.sites), parent, cs, n) == OfferInOrder(p.sites, parent, cs[j..], n)
    {
      assert cs[j] in parent.children;
      assert cs[j..][1..] == cs[j + 1..];
      var chFull := IsFull(p, cs[j]);
      if !chFull {
        err := Enqueue(p, cs[j], n);
        if err.Some? {
          return;
        }
      }
    }
  }

  /** QTreeNode.rebalance(); the overflow is returned with the error that stopped it. */
  method Rebalance(p: MockBatchPlugin, node: Node) returns (overflow: int, err: Option<QueueError>)
    requires p.Valid()
    modifies p
    ensures p.Valid() && p.cycles == old(p.cycles)
    ensures Rebalancing(p.sites, err, overflow) == Rebalanced(old(p.sites), node)
    decreases node
  {
    overflow, err := 0, None;
    match node {
      case Leaf(name, mfp, _) =>
        if name in p.sites {
          var site := p.sites[name];
          if site.IsFull() && site.idle > mfp {
            overflow := site.idle - mfp;
            p.sites := p.sites[name := site.(idle := site.idle - overflow)];
          }
        }
      case Internal(_, _, cs) =>
        ghost var s0 := p.sites;
        for i := 0 to |cs|
          invariant p.Valid() && p.cycles == old(p.cycles) && err.None?
          invariant Rebalanced(s0, node) == Redistribute(node, CollectOverflow(p.sites, node, cs[i..], overflow))
        {
          assert cs[i..][1..] == cs[i + 1..];
          var chOverflow;
          chOverflow, err := Rebalance(p, cs[i]);
          if err.Some? {
            overflow := 0;
            return;
          }
          overflow := overflow + chOverflow;
        }
        var full := IsFull(p, node);
        if overflow > 0 && !full {
          err := Enqueue(p, node, overflow);
          overflow := 0;
        }
    }
  }

  /** QTreeNode.getInfo / SubmitQueue.getInfo: {label: counts}. */
  method GetInfo(p: MockBatchPlugin, node: Node) returns (info: map<string, Counts>)
    ensures info == map[node.name := TreeCounts(p.sites, node)]
    decreases node, 1
  {
    match node {
      case Leaf(name, _, _) =>
        if name in p.sites {
          info := map[name := CountsOf(p.sites[name])];
        } else {
          info := map[name := NoCounts];
        }
      case Internal(_, name, _) =>
        var total := SumInfo(p, node);
        info := map[name := total];
    }
  }

  /** QTreeNode.getInfo's loop adding up the children's counts. */
  method SumInfo(p: MockBatchPlugin, parent: Node) returns (total: Counts)
    requires parent.Internal?
    ensures total == SumCounts(p.sites, parent, |parent.children|)
    decreases parent, 0
  {
    var cs := parent.children;
    total := NoCounts;
    for i := 0 to |cs|
      invariant total == SumCounts(p.sites, parent, i)
    {
      var chinfo := GetInfo(p, cs[i]);
      total := total.Plus(chinfo[cs[i].name]);
    }
  }

  /** One more child looked at: it joins the open children found so far exactly when
      it is not full, and the rest of the list is still to come. */
  lemma OpenChildrenStep(s: Sites, cs: seq<Node>, i: nat, acc: seq<Node>)
    requires i < |cs|
    ensures acc + OpenChildren(s, cs[i..]) == (acc + (if Full(s, cs[i]) then [] else [cs[i]])) + OpenChildren(s, cs[i + 1..])
  {
    assert cs[i..][0] == cs[i];
    assert cs[i..][1..] == cs[i + 1..];
    ConcatAssociates(acc, if Full(s, cs[i]) then [] else [cs[i]], OpenChildren(s, cs[i + 1..]));
  }

}
