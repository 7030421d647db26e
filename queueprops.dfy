/** Properties of the queue tree walks of libfactory/queue.py, stated on the functions
    that the methods in module Queue are proved against. */
module QueueProps {
  import opened PyValues
  import opened Queue

  /** The site labels of the leaves under a node. */
  function Labels(node: Node): set<string> {
    match node
    case Leaf(name, _, _) => {name}
    case Internal(_, _, cs) => set c, l | c in cs && l in Labels(c) :: l
  }

  /** t agrees with s on every label outside L: same presence, same site. */
  ghost predicate AgreeOutside(s: Sites, t: Sites, L: set<string>) {
    (forall l | l !in L :: l in s <==> l in t) && forall l | l in s && l !in L :: t[l] == s[l]
  }

  /** t agrees with s on every label in M. */
  predicate AgreeOn(s: Sites, t: Sites, M: set<string>) {
    forall l | l in M :: (l in s <==> l in t) && (l in s ==> t[l] == s[l])
  }

  /** No two children share a site label. */
  predicate Disjoint(cs: seq<Node>) {
    forall i, j | 0 <= i < j < |cs| :: Labels(cs[i]) !! Labels(cs[j])
  }

  /** From s to t only idle counts went up: no site lost, no running or completed job
      moved, and every new site was created with idle jobs only. */
  predicate OnlyIdleGrows(s: Sites, t: Sites) {
    s.Keys <= t.Keys
    && (forall l | l in s :: t[l] == s[l].(idle := t[l].idle) && t[l].idle >= s[l].idle)
    && (forall l | l in t && l !in s ::
          t[l].name == l && t[l].running == 0 && t[l].complete == 0 && t[l].idle > 0)
  }

  // ---------------------------------------------------------------------------
  // Fullness
  // ---------------------------------------------------------------------------

  /** Whether a node is full depends only on the sites of its own leaves. */
  lemma FullLocal(s: Sites, t: Sites, node: Node)
    requires AgreeOn(s, t, Labels(node))
    ensures Full(s, node) == Full(t, node)
  {
    match node {
      case Leaf(_, _, _) =>
      case Internal(_, _, cs) =>
        forall c | c in cs
          ensures Full(s, c) == Full(t, c)
        {
          FullLocal(s, t, c);
        }
    }
  }

  /** The open children are exactly the children that are not full; there are none
      exactly when every child is full. */
  lemma {:induction false} OpenChildrenExact(s: Sites, cs: seq<Node>)
    ensures forall c | c in cs :: c in OpenChildren(s, cs) <==> !Full(s, c)
    ensures OpenChildren(s, cs) == [] <==> forall c | c in cs :: Full(s, c)
  {
    if |cs| > 0 {
      OpenChildrenExact(s, cs[1..]);
      var head := if Full(s, cs[0]) then [] else [cs[0]];
      assert OpenChildren(s, cs) == head + OpenChildren(s, cs[1..]);
      forall c | c in cs
        ensures c in OpenChildren(s, cs) <==> !Full(s, c)
      {
        if c != cs[0] {
          assert c in cs[1..];
        }
      }
    }
  }

  /** Open children are computed from the children's own sites only. */
  lemma {:induction false} OpenChildrenLocal(s: Sites, t: Sites, cs: seq<Node>)
    requires forall c | c in cs :: AgreeOn(s, t, Labels(c))
    ensures OpenChildren(s, cs) == OpenChildren(t, cs)
  {
    if |cs| > 0 {
      FullLocal(s, t, cs[0]);
      OpenChildrenLocal(s, t, cs[1..]);
    }
  }

  // ---------------------------------------------------------------------------
  // Enqueue: what it may change
  // ---------------------------------------------------------------------------

  /** enqueue on a full node, or enqueue(n <= 0) on an internal node, changes nothing. */
  lemma EnqueueFullOrNonPositive(s: Sites, node: Node, n: int)
    requires Full(s, node) || (node.Internal? && n <= 0)
    ensures Enqueued(s, node, n) == Step(s, None)
  {
    if node.Internal? {
      OpenChildrenExact(s, node.children);
    }
  }

  /** enqueue touches only the sites of the node's own leaves. */
  lemma EnqueueFrame(s: Sites, node: Node, n: int, L: set<string>)
    requires Labels(node) <= L
    ensures AgreeOutside(s, Enqueued(s, node, n).sites, L)
    decreases node, 1
  {
    match node {
      case Leaf(_, _, _) =>
      case Internal(policy, _, cs) =>
        if n > 0 {
          var open := OpenChildren(s, cs);
          if |open| > 0 {
            if policy == LoadBalance {
              EnqueueEachFrame(s, node, open, LBShare(n, |open|), L);
            } else {
              OfferInOrderFrame(s, node, cs, n, L);
            }
          }
        }
    }
  }

  lemma EnqueueEachFrame(s: Sites, parent: Node, list: seq<Node>, amount: int, L: set<string>)
    requires parent.Internal? && forall c | c in list :: c in parent.children
    requires Labels(parent) <= L
    ensures AgreeOutside(s, EnqueueEach(s, parent, list, amount).sites, L)
    decreases parent, 0, |list|
  {
    if |list| > 0 {
      assert list[0] in parent.children;
      EnqueueFrame(s, list[0], amount, L);
      var st := Enqueued(s, list[0], amount);
      if st.err.None? {
        EnqueueEachFrame(st.sites, parent, list[1..], amount, L);
      }
    }
  }

  lemma OfferInOrderFrame(s: Sites, parent: Node, rest: seq<Node>, n: int, L: set<string>)
    requires parent.Internal? && forall c | c in rest :: c in parent.children
    requires Labels(parent) <= L
    ensures AgreeOutside(s, OfferInOrder(s, parent, rest, n).sites, L)
    decreases parent, 0, |rest|
  {
    if |rest| > 0 {
      assert rest[0] in parent.children;
      if Full(s, rest[0]) {
        OfferInOrderFrame(s, parent, rest[1..], n, L);
      } else {
        EnqueueFrame(s, rest[0], n, L);
        var st := Enqueued(s, rest[0], n);
        if st.err.None? {
          OfferInOrderFrame(st.sites, parent, rest[1..], n, L);
        }
      }
    }
  }

  /** enqueue(n > 0) only ever adds idle jobs. */
  lemma EnqueueOnlyAddsIdle(s: Sites, node: Node, n: int)
    requires n > 0
    ensures OnlyIdleGrows(s, Enqueued(s, node, n).sites)
    decreases node, 1
  {
    match node {
      case Leaf(_, _, _) =>
      case Internal(policy, _, cs) =>
        var open := OpenChildren(s, cs);
        if |open| > 0 {
          if policy == LoadBalance {
            LBShareBounds(n, |open|);
            EnqueueEachOnlyAddsIdle(s, node, open, LBShare(n, |open|));
          } else {
            OfferInOrderOnlyAddsIdle(s, node, cs, n);
          }
        }
    }
  }

  lemma EnqueueEachOnlyAddsIdle(s: Sites, parent: Node, list: seq<Node>, amount: int)
    requires parent.Internal? && forall c | c in list :: c in parent.children
    requires amount > 0
    ensures OnlyIdleGrows(s, EnqueueEach(s, parent, list, amount).sites)
    decreases parent, 0, |list|
  {
    if |list| > 0 {
      assert list[0] in parent.children;
      EnqueueOnlyAddsIdle(s, list[0], amount);
      var st := Enqueued(s, list[0], amount);
      if st.err.None? {
        EnqueueEachOnlyAddsIdle(st.sites, parent, list[1..], amount);
      }
    }
  }

  lemma OfferInOrderOnlyAddsIdle(s: Sites, parent: Node, rest: seq<Node>, n: int)
    requires parent.Internal? && forall c | c in rest :: c in parent.children
    requires n > 0
    ensures OnlyIdleGrows(s, OfferInOrder(s, parent, rest, n).sites)
    decreases parent, 0, |rest|
  {
    if |rest| > 0 {
      assert rest[0] in parent.children;
      if Full(s, rest[0]) {
        OfferInOrderOnlyAddsIdle(s, parent, rest[1..], n);
      } else {
        EnqueueOnlyAddsIdle(s, rest[0], n);
        var st := Enqueued(s, rest[0], n);
        if st.err.None? {
          OfferInOrderOnlyAddsIdle(st.sites, parent, rest[1..], n);
        }
      }
    }
  }

  // ---------------------------------------------------------------------------
  // The two placement policies
  // ---------------------------------------------------------------------------

  /** LBQueue's share: with one open child it is n; with k > 1 it is n/k rounded down
      but at least 1, so the k shares together lie between n-(k-1) and max(n, k). */
  lemma LBShareBounds(n: int, k: nat)
    requires n > 0 && k >= 1
    ensures LBShare(n, k) >= 1
    ensures k == 1 ==> LBShare(n, k) == n
    ensures k > 1 ==> n - (k - 1) <= k * LBShare(n, k) <= if n > k then n else k
  {
    if k > 1 {
      var q, r := n / k, n % k;
      assert n == k * q + r && 0 <= r < k;
      if q == 0 {
        assert LBShare(n, k) == 1;
      } else {
        assert LBShare(n, k) == q;
        assert k * q <= n;
      }
    }
  }

  /** Enqueueing children one after another, where none shares a label with a set M,
      leaves the sites in M as they were. */
  lemma EnqueueEachAvoids(s: Sites, parent: Node, list: seq<Node>, amount: int, M: set<string>)
    requires parent.Internal? && forall c | c in list :: c in parent.children
    requires forall c | c in list :: Labels(c) !! M
    ensures AgreeOn(s, EnqueueEach(s, parent, list, amount).sites, M)
    decreases |list|
  {
    if |list| > 0 {
      var L := Labels(list[0]);
      EnqueueFrame(s, list[0], amount, L);
      var st := Enqueued(s, list[0], amount);
      if st.err.None? {
        EnqueueEachAvoids(st.sites, parent, list[1..], amount, M);
      }
    }
  }

  /** OFQueue re-checks each child at its turn, but when the children share no site this
      is the same as offering the whole n to the children that were open at the start. */
  lemma {:induction false} OfferInOrderIsEnqueueEach(s: Sites, parent: Node, cs: seq<Node>, n: int)
    requires parent.Internal? && forall c | c in cs :: c in parent.children
    requires Disjoint(cs)
    ensures OfferInOrder(s, parent, cs, n) == EnqueueEach(s, parent, OpenChildren(s, cs), n)
    decreases |cs|
  {
    if |cs| > 0 {
      var tail := cs[1..];
      assert Disjoint(tail) by {
        forall i, j | 0 <= i < j < |tail|
          ensures Labels(tail[i]) !! Labels(tail[j])
        {
          assert tail[i] == cs[i + 1] && tail[j] == cs[j + 1];
        }
      }
      if Full(s, cs[0]) {
        assert OpenChildren(s, cs) == OpenChildren(s, tail);
        OfferInOrderIsEnqueueEach(s, parent, tail, n);
      } else {
        var st := Enqueued(s, cs[0], n);
        var open := OpenChildren(s, cs);
        assert open == [cs[0]] + OpenChildren(s, tail);
        assert open[1..] == OpenChildren(s, tail);
        if st.err.None? {
          EnqueueFrame(s, cs[0], n, Labels(cs[0]));
          forall c | c in tail
            ensures AgreeOn(s, st.sites, Labels(c))
          {
            var j :| 0 <= j < |tail| && tail[j] == c;
            assert cs[j + 1] == c;
            assert Labels(cs[0]) !! Labels(c);
          }
          OpenChildrenLocal(s, st.sites, tail);
          OfferInOrderIsEnqueueEach(st.sites, parent, tail, n);
        }
      }
    }
  }

  /** A child that is full when an internal node is enqueued, and shares no site with
      its siblings, is left untouched by either policy. */
  lemma FullChildUntouched(s: Sites, node: Node, n: int, k: nat)
    requires node.Internal? && k < |node.children| && Disjoint(node.children)
    requires Full(s, node.children[k])
    ensures AgreeOn(s, Enqueued(s, node, n).sites, Labels(node.children[k]))
  {
    var cs := node.children;
    var c := cs[k];
    var open := OpenChildren(s, cs);
    if n > 0 && |open| > 0 {
      OpenChildrenExact(s, cs);
      forall d | d in open
        ensures Labels(d) !! Labels(c)
      {
        var j :| 0 <= j < |cs| && cs[j] == d;
        assert j != k;
      }
      if node.policy == LoadBalance {
        EnqueueEachAvoids(s, node, open, LBShare(n, |open|), Labels(c));
      } else {
        OfferInOrderIsEnqueueEach(s, node, cs, n);
        EnqueueEachAvoids(s, node, open, n, Labels(c));
      }
    }
  }

  // ---------------------------------------------------------------------------
  // Rebalance
  // ---------------------------------------------------------------------------

  /** rebalance never reports a negative overflow. */
  lemma RebalanceNonNegative(s: Sites, node: Node)
    ensures Rebalanced(s, node).overflow >= 0
    decreases node, 1
  {
    match node {
      case Leaf(_, _, _) =>
      case Internal(_, _, cs) =>
        CollectOverflowNonNegative(s, node, cs, 0);
    }
  }

  lemma CollectOverflowNonNegative(s: Sites, parent: Node, rest: seq<Node>, acc: int)
    requires parent.Internal? && forall c | c in rest :: c in parent.children
    requires acc >= 0
    ensures CollectOverflow(s, parent, rest, acc).overflow >= acc || CollectOverflow(s, parent, rest, acc).err.Some?
    ensures CollectOverflow(s, parent, rest, acc).overflow >= 0
    decreases parent, 0, |rest|
  {
    if |rest| > 0 {
      assert rest[0] in parent.children;
      RebalanceNonNegative(s, rest[0]);
      var r := Rebalanced(s, rest[0]);
      if r.err.None? {
        CollectOverflowNonNegative(r.sites, parent, rest[1..], acc + r.overflow);
      }
    }
  }

  /** rebalance on a leaf: when its site is full with more idle jobs than minFullPending it
      cuts idle down to minFullPending and reports the excess; nothing is lost, and no
      other site or count changes. */
  lemma RebalanceLeaf(s: Sites, node: Node)
    requires node.Leaf?
    ensures var r := Rebalanced(s, node);
      r.err.None? && r.sites.Keys == s.Keys
      && (forall l | l in s && l != node.name :: r.sites[l] == s[l])
      && (node.name in s ==>
            r.sites[node.name] == s[node.name].(idle := r.sites[node.name].idle)
            && r.sites[node.name].idle + r.overflow == s[node.name].idle)
      && (r.overflow > 0 <==>
            node.name in s && s[node.name].IsFull() && s[node.name].idle > node.minFullPending)
      && (r.overflow > 0 ==> r.sites[node.name].idle == node.minFullPending)
  {
  }

  /** A second leaf rebalance with nothing in between reports no overflow and changes
      nothing. */
  lemma RebalanceLeafTwice(s: Sites, node: Node)
    requires node.Leaf?
    ensures var t := Rebalanced(s, node).sites;
      Rebalanced(t, node) == Rebalancing(t, None, 0)
  {
    RebalanceLeaf(s, node);
  }

  /** rebalance touches only the sites of the node's own leaves. */
  lemma RebalanceFrame(s: Sites, node: Node, L: set<string>)
    requires Labels(node) <= L
    ensures AgreeOutside(s, Rebalanced(s, node).sites, L)
    decreases node, 1
  {
    match node {
      case Leaf(_, _, _) =>
      case Internal(_, _, cs) =>
        CollectOverflowFrame(s, node, cs, 0, L);
        var r := CollectOverflow(s, node, cs, 0);
        if r.err.None? && r.overflow > 0 && !Full(r.sites, node) {
          EnqueueFrame(r.sites, node, r.overflow, L);
        }
    }
  }

  lemma CollectOverflowFrame(s: Sites, parent: Node, rest: seq<Node>, acc: int, L: set<string>)
    requires parent.Internal? && forall c | c in rest :: c in parent.children
    requires Labels(parent) <= L
    ensures AgreeOutside(s, CollectOverflow(s, parent, rest, acc).sites, L)
    decreases parent, 0, |rest|
  {
    if |rest| > 0 {
      assert rest[0] in parent.children;
      RebalanceFrame(s, rest[0], L);
      var r := Rebalanced(s, rest[0]);
      if r.err.None? {
        CollectOverflowFrame(r.sites, parent, rest[1..], acc + r.overflow, L);
      }
    }
  }

  // ---------------------------------------------------------------------------
  // getInfo
  // ---------------------------------------------------------------------------

  /** Before any submission every node reports zero jobs in every state. */
  lemma TreeCountsFresh(node: Node)
    ensures TreeCounts(map[], node) == NoCounts
  {
    NoSitesNoCounts(map[], node);
  }

  /** With no site known, a node reports zero jobs in every state. */
  lemma NoSitesNoCounts(s: Sites, node: Node)
    requires s == map[]
    ensures TreeCounts(s, node) == NoCounts
    decreases node, 1
  {
    match node {
      case Leaf(_, _, _) =>
      case Internal(_, _, _) =>
        NoSitesSumCounts(s, node, |node.children|);
    }
  }

  lemma NoSitesSumCounts(s: Sites, parent: Node, i: nat)
    requires s == map[] && parent.Internal? && i <= |parent.children|
    ensures SumCounts(s, parent, i) == NoCounts
    decreases parent, 0, i
  {
    if i > 0 {
      var last := parent.children[i - 1];
      NoSitesNoCounts(s, last);
      NoSitesSumCounts(s, parent, i - 1);
    }
  }

  // ---------------------------------------------------------------------------
  // MockSite
  // ---------------------------------------------------------------------------

  /** A descriptor "max<v>" gives a site of capacity v. */
  lemma MockSiteMax(name: string, v: nat)
    ensures MockSiteOf(name, Some("max" + NatToString(v))) == Ok(Site(name, "max" + NatToString(v), v, 0, 0, 0))
  {
    var m := "max" + NatToString(v);
    forall i | 0 <= i < |m|
      ensures m[i] != '-'
    {
      if i >= 3 {
        assert m[i] == NatToString(v)[i - 3];
      }
    }
    SplitNoSeparator(m, '-');
    assert [m][..0] == [];
    assert m[..3] == "max";
    assert m[3..] == NatToString(v) == IntToString(v);
    IntStringRoundTrip(v);
    assert MaxFromFields([m]) == MaxField(Ok(DefaultMax), m) == Ok(v);
  }

  /** Without a field starting with "max" the capacity is the default 9999. */
  lemma {:induction false} MaxDefault(fields: seq<string>)
    requires forall f | f in fields :: !StartsWith(f, "max")
    ensures MaxFromFields(fields) == Ok(DefaultMax)
    decreases |fields|
  {
    if |fields| > 0 {
      MaxDefault(fields[..|fields| - 1]);
    }
  }
}
