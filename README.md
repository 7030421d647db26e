# libfactory core, modelled in Dafny

This project models the core of libfactory, a support library for a grid job factory.

- **Job queue tree** (`libfactory/queue.py`). A tree of queues splits a number of jobs
  over batch sites. An `LBQueue` load-balances: each open child gets an equal share.
  An `OFQueue` overflows: the whole number goes to each child that is not yet full.
  A `SubmitQueue` leaf hands its share to a mock batch plugin. The plugin keeps per-site
  idle, running and complete counts and advances them cycle by cycle.
  `rebalance()` moves excess idle jobs from full sites back up the tree.
  `QueueManager` builds the tree from a configuration.
- **StatusInfo toolkit** (`libfactory/info.py`, and its older revision `attic/info.py`).
  A list of job records is grouped (`indexby`), filtered, mapped, transformed, reduced or
  processed by analyzer objects. Analyzer chains are run by an `Algorithm`. The results
  are read back with `get`, `getraw` and `[...]`. `DataItem` and `Item` read a dict as
  attributes.
- **HTCondor wrappers** (`libfactory/htcondorlib.py`). These cover the constraint
  expression of a query, the argument checks of `condor_q`, `condor_history` and
  `condor_status`, and the parsing of a submit file. They also cover the singletons that
  give one collector or schedd object per address.
- **Scheduler chain** (`libfactory/scheds.py`). A number is threaded through a list of
  scheduler plugins.
- **Key extractors** (`info/analyzer.py`). These are the example grouping and measuring
  analyzers.

Files:

- `pyvalues.dfy` holds the Python values the code handles. It also holds the builtins
  the model needs: `str()` and `int()` of integers, `strip`, `split` and `join`.
- `queue.dfy` holds the queue tree: nodes, sites, the mock plugin class and the tree walks
  as methods. `queueprops.dfy` holds the lemmas about the tree functions.
- `queuemanager.dfy` holds `QueueManager`.
- `analysis.dfy` holds the analyzer loops shared by both info revisions.
- `info.dfy` models `libfactory/info.py`. `atticinfo.dfy` models `attic/info.py`.
- `htcondor.dfy` models the HTCondor wrappers and `scheds.dfy` the scheduler chain.
  `keyextractors.dfy` models `info/analyzer.py`.

Some source code works on values: the tree walk's decisions and the analyzer results.
That code is modelled as functions. Some code changes state step by step: the batch
plugin's sites, the enqueue and rebalance walks, the loops of the analyzers, the
singleton registries, `DataItem`'s dict, and the scheduler manager. That code becomes
classes and methods with loops. Each such method is proved against the function that
specifies it.

Clocks and DNS become parameters:

- `now` is the value `time.time()` would give.
- `resolve` stands for `socket.gethostbyaddr(h)[0]`.
- `drawn` stands for the outcome of `processComplete`'s random draws.

The manager wires its nodes in configuration order (see "## Left out" for the dict
order of the source). An exception is a `Result`/`Option` error value.

Python's `==` is `PyEq`: True equals 1 and False equals 0. So the grouping of `indexby`,
the `AttributeValue` filter, `GroupByKeyRemap`'s key test and the key tests of
`obj[key]` and `get(*keys)` treat them as one key. A dict files such a key under the
first of the two it met, and a lookup with either finds that entry.

## Model

| member | source | states |
|---|---|---|
| Queue.MaxErrorPersists | libfactory/queue.py:401-404 | once a "max" field fails to parse, the later fields cannot change the outcome: the descriptor raises |
| Queue.MockSiteOf | libfactory/queue.py:387-407 | a new site has the given label and no jobs in any state; a missing descriptor (None) raises, since `None.split` fails |
| Queue.NewMockSite | libfactory/queue.py:387-407 | the constructor's scan over the descriptor's fields gives exactly the site `MockSiteOf` describes, or its error |
| Queue.OpenChildren | libfactory/queue.py:107-110 | the children that are not full, in their order, and only those |
| Queue.Submitted | libfactory/queue.py:502-510 | after submit(n, label) the label's site has n more idle jobs, is created first (with no jobs) when unknown, and every other site is unchanged |
| Queue.IdleStep | libfactory/queue.py:485-498 | only idle and running change and their total is kept; a site with idle jobs and free capacity starts some, stays within max, and either runs out of idle jobs or fills up; any other site is unchanged |
| Queue.CompleteStep | libfactory/queue.py:466-478 | k drawn running jobs move to complete; idle is unchanged and the total is kept |
| Queue.MockBatchPlugin.constructor | libfactory/queue.py:449-459 | the plugin starts with no sites and zero cycles |
| Queue.MockBatchPlugin.Submit | libfactory/queue.py:502-510 | the site map becomes `Submitted(...)` of the old one, and every site stays filed under its own label |
| Queue.MockBatchPlugin.ProcessIdle | libfactory/queue.py:481-499 | every site takes its `IdleStep`, no site is added or dropped, and the cycle count goes up by one |
| Queue.MockBatchPlugin.ProcessComplete | libfactory/queue.py:462-478 | every site with running jobs moves its drawn count from running to complete; other sites are unchanged; the labels are kept |
| Queue.MockBatchPlugin.GetInfo | libfactory/queue.py:513-521 | one entry per site label, holding exactly that site's idle, running and complete counts |
| Queue.IsFull | libfactory/queue.py:133-141 | the walk over all children returns `Full`: a leaf is full when its site is full and has at least minfullpending idle jobs, and an unknown site is not full; an internal node is full exactly when every child is |
| Queue.OpenChildrenOf | libfactory/queue.py:190-193 | the loop collects exactly `OpenChildren` |
| Queue.Enqueue | libfactory/queue.py:100-263 | the sites after the walk are those of `Enqueued`, with the same error; that function dispatches by node: a SubmitQueue leaf submits when not full (lines 257-263), an LBQueue shares among its open children (100-129), an OFQueue offers in order (186-203) |
| Queue.EnqueueAll | libfactory/queue.py:120-122 | each open child in turn gets the same share; the result is `EnqueueEach` |
| Queue.OfferAll | libfactory/queue.py:196-199 | each child that is not full at its turn gets the whole n; the result is `OfferInOrder` |
| Queue.Rebalance | libfactory/queue.py:143-328 | the overflow and sites match `Rebalanced`: children's overflows are summed and a node that is not full re-enqueues a positive overflow and reports 0 (lines 143-155, and 206-218 for OFQueue); a full leaf site with more than minfullpending idle jobs gives up the excess (309-328) |
| Queue.GetInfo | libfactory/queue.py:53-307 | a node reports {label: counts}, the counts being the sum over its leaves' sites (`TreeCounts`, lines 53-74); a leaf reports its site's counts, or zeros for an unknown site (292-307) |
| Queue.SumInfo | libfactory/queue.py:67-72 | the loop's totals are, state by state, the sum over all the children of each child's leaf-site counts (`TreeCounts`) |
| Queue.OpenChildrenStep | libfactory/queue.py:107-110 | the next child joins the open children found so far exactly when it is not full |
| QueueProps.FullLocal | libfactory/queue.py:265-276 | whether a node is full depends only on the sites of its own leaves |
| QueueProps.OpenChildrenExact | libfactory/queue.py:107-113 | a child is open exactly when it is among the children and not full; there is no open child exactly when all are full |
| QueueProps.OpenChildrenLocal | libfactory/queue.py:190-193 | the open children depend only on the children's own sites |
| QueueProps.EnqueueFullOrNonPositive | libfactory/queue.py:104-129 | enqueue on a full node, or of n <= 0 on an internal node, changes no site and raises nothing |
| QueueProps.EnqueueFrame | libfactory/queue.py:100-129 | enqueue leaves every site outside the node's leaves as it was |
| QueueProps.EnqueueEachFrame | libfactory/queue.py:120-122 | sharing out touches only the listed children's leaves |
| QueueProps.OfferInOrderFrame | libfactory/queue.py:196-199 | offering in order touches only the children's leaves |
| QueueProps.EnqueueOnlyAddsIdle | libfactory/queue.py:257-261 | enqueue(n > 0) never lowers a count and changes only idle counts |
| QueueProps.EnqueueEachOnlyAddsIdle | libfactory/queue.py:120-122 | the same for the LBQueue share loop |
| QueueProps.OfferInOrderOnlyAddsIdle | libfactory/queue.py:196-199 | the same for the OFQueue offer loop |
| QueueProps.LBShareBounds | libfactory/queue.py:113-119 | one open child gets n; k > 1 children get max(n/k, 1) each, so all shares together lie between n-(k-1) and max(n, k) |
| QueueProps.EnqueueEachAvoids | libfactory/queue.py:120-122 | sites that no listed child uses are left unchanged |
| QueueProps.OfferInOrderIsEnqueueEach | libfactory/queue.py:190-199 | when children share no site, re-checking fullness at each turn equals offering n to the children open at the start |
| QueueProps.FullChildUntouched | libfactory/queue.py:107-122 | a child that is full at the start and shares no site is unchanged by either policy |
| QueueProps.RebalanceNonNegative | libfactory/queue.py:143-155 | rebalance never reports a negative overflow |
| QueueProps.CollectOverflowNonNegative | libfactory/queue.py:148-150 | the summed overflow never drops below its start |
| QueueProps.RebalanceLeaf | libfactory/queue.py:309-328 | a full site with idle > minfullpending is cut to minfullpending and the excess reported; otherwise 0 and nothing changes; running and complete counts and other sites never change |
| QueueProps.RebalanceLeafTwice | libfactory/queue.py:309-328 | a second leaf rebalance reports 0 and changes nothing |
| QueueProps.RebalanceFrame | libfactory/queue.py:143-155 | rebalance changes only the node's own leaves' sites |
| QueueProps.CollectOverflowFrame | libfactory/queue.py:148-150 | the children's rebalances change only their leaves' sites |
| QueueProps.TreeCountsFresh | libfactory/queue.py:62-65 | before any submission every node reports zeros |
| QueueProps.NoSitesNoCounts | libfactory/queue.py:62-72 | with no site known, leaves and internal nodes alike report zeros |
| QueueProps.NoSitesSumCounts | libfactory/queue.py:67-72 | with no site known, the sum over any number of children is zero |
| QueueProps.MockSiteMax | libfactory/queue.py:401-404 | the descriptor "max<v>" gives capacity v |
| QueueProps.MaxDefault | libfactory/queue.py:398-404 | without a "max" field the capacity is 9999 |
| QueueManager.ParseChildList | libfactory/queue.py:92-180 | the childlist loop of LBQueue.__init__ (lines 92-94) and OFQueue.__init__ (178-180): the stripped pieces of the text split at ',' |
| QueueManager.StripAll | libfactory/queue.py:93-94 | one name per piece of the split text |
| QueueManager.StripAllPieces | libfactory/queue.py:93-94 | the i-th name is the i-th piece with its surrounding whitespace removed |
| QueueManager.StripAllUnchanged | libfactory/queue.py:93-94 | pieces holding no whitespace come back unchanged |
| QueueManager.PiecesHaveNoSpace | libfactory/queue.py:93 | splitting text without whitespace at ',' gives pieces without whitespace |
| QueueManager.ChildListRoundTrip | libfactory/queue.py:92-94 | without whitespace, joining the parsed names with ',' gives back the configured text |
| QueueManager.MakeQueue | libfactory/queue.py:83-345 | the node a section constructs, with the reads of its class's `__init__` in the source's order: `klass` (line 340), the class, `isroot` and `maxtransfer` (90-91, 175-176, 240-241), then `childlist` (92) or `batchplugin`, the plugin class, and `minfullpending` (242-251); the first read that fails is the error; `MakeQueueSucceeds`, `MakeQueueBuilds` and `MakeQueueRefuses` state the outcome |
| QueueManager.Get | libfactory/queue.py:92 | `cp.get`: the option's text when the section has it, otherwise NoOptionError naming the section and the option |
| QueueManager.GetInt | libfactory/queue.py:91 | `cp.getint`: succeeds exactly when the option is there and `int()` reads its text, with that value; a missing option raises NoOptionError, unreadable text ValueError |
| QueueManager.GetBoolean | libfactory/queue.py:90 | `cp.getboolean`: a missing option raises NoOptionError; otherwise the text, in any case, must be one of 1/yes/true/on (True) or 0/no/false/off (False), and anything else raises ValueError |
| QueueManager.GetBooleanIgnoresCase | libfactory/queue.py:90 | lower-casing the text first gives the same truth value, or the same refusal |
| QueueManager.GetBooleanWords | libfactory/queue.py:90 | "Yes", "TRUE" and "On" read as True, "No" as False, and "2" is refused |
| QueueManager.GetIntRoundTrip | libfactory/queue.py:91 | `getint` reads back the decimal text of every integer |
| QueueManager.NodeSettings | libfactory/queue.py:90-91 | the `isroot` then `maxtransfer` reads every queue class makes: succeeds exactly when both succeed, and otherwise fails with the first failing read's error |
| QueueManager.NodeSettingsRefuses | libfactory/queue.py:90-91 | a failed settings read names this section when the option is missing, and is never an unknown class |
| QueueManager.SettingsReadFirst | libfactory/queue.py:90-91 | for a section of a queue class whose `isroot` or `maxtransfer` read fails, construction fails with that read's error whatever the other options say |
| QueueManager.MakeQueueSucceeds | libfactory/queue.py:83-345 | a section builds a node exactly when `klass` names LBQueue, OFQueue or SubmitQueue, both settings reads succeed, and it has a `childlist` (internal classes) or the batch plugin MockBatchPlugin and a readable `minfullpending` (SubmitQueue) |
| QueueManager.MakeQueueBuilds | libfactory/queue.py:92-251 | a built LBQueue or OFQueue holds its parsed childlist; a built SubmitQueue holds its `minfullpending` and its `mock` descriptor (None when absent, lines 247-250) |
| QueueManager.MakeQueueRefuses | libfactory/queue.py:90-341 | a refused section reports a missing option under its own name; a missing `klass` is NoOptionError for `klass`; an unknown class is the section's own class name, which is none of the three queue classes |
| QueueManager.Names | libfactory/queue.py:338 | the section names in order |
| QueueManager.BuildQueues | libfactory/queue.py:338-345 | with `make` the construction of one section's node (`MakeQueue` in the manager), the loop succeeds exactly when every section builds, holding one node per section under its name; otherwise it fails with the error of the first section that does not build |
| QueueManager.Wire | libfactory/queue.py:348-355 | each node's children are its listed names in order; exactly the listed names get a parent, and it is a node that lists them; a listed name that is not a section raises MissingChild naming the node and the child; the error is the first unknown child of the first node, in wiring order, that lists one; and the wiring succeeds exactly when every listed name is a section |
| QueueManager.WireChildren | libfactory/queue.py:350-355 | one node's children, in order: each must be a section, and each then has this node as its parent, replacing an earlier parent; every other parent is kept; the error is MissingChild for the first child in the list that is not a section |
| QueueManager.ListedSnoc | libfactory/queue.py:348-350 | a name is listed by one more node exactly when it was listed before or that node lists it |
| QueueManager.RootsOf | libfactory/queue.py:357-360 | the nodes, in order, that are nobody's child |
| QueueManager.Roots | libfactory/queue.py:357-360 | the loop collects exactly `RootsOf` |
| QueueManager.ListedBySection | libfactory/queue.py:348-353 | a name listed by a built node is listed by some section's childlist |
| QueueManager.ChildrenAreSections | libfactory/queue.py:348-353 | wiring finds every child exactly when every childlist names sections only |
| QueueManager.Assembled | libfactory/queue.py:334-364 | the manager built from the sections holds one node per section, with children, parents and roots as the configuration states |
| QueueManager.AssembledChildren | libfactory/queue.py:348-353 | each node's children read as its section's childlist |
| QueueManager.AssembledParents | libfactory/queue.py:355 | a node has a parent exactly when some section lists it, and that section lists it |
| QueueManager.AssembledRoots | libfactory/queue.py:357-360 | the roots are the sections that no section lists, in order |
| QueueManager.NewManager | libfactory/queue.py:334-364 | the constructor succeeds exactly when every section builds and every childlist names sections, with a manager that describes the configuration; otherwise it fails with the error of the first section, in configuration order, that does not build, or, when all build, with MissingChild for the first unknown child, in list order, of the first section that names one |
| QueueManager.AssembleManager | libfactory/queue.py:347-364 | wiring and roots over built nodes: success exactly when every child is a section, a manager that describes the configuration, or MissingChild for the first unknown child of the first section that names one |
| QueueManager.WireErrorBySection | libfactory/queue.py:347-353 | the wiring error, read back per section: the first section with an unknown child, and its first such child |
| QueueManager.ClassReadsRefuse | libfactory/queue.py:175-251 | once the settings reads succeed, a refused queue section reports a missing option under its own name and is never an unknown class |
| QueueManager.UnfoldShape | libfactory/queue.py:338-355 | a wired node unfolds to a tree with its section's name and kind, whose leaves are SubmitQueue sections |
| QueueManager.UnfoldAllShape | libfactory/queue.py:348-353 | the same for a list of children |
| Analysis.OpNamed | libfactory/info.py:357-372 | an analyzer type names exactly one of the analysis methods, and the name of each method names it back |
| Analysis.PerItem | libfactory/info.py:407-537 | the per-item call the loop of each method makes on an analyzer, and None when the analyzer lacks it |
| Analysis.AddToGroups | libfactory/info.py:412-417 | one key outcome: an exception aborts, a None key drops the item, an unhashable key raises; any other key appends the item to the group of the key equal to it under `==`, so True joins an existing group of 1 (and the reverse); it gets through exactly when the outcome is None or hashable |
| Analysis.WithKey | libfactory/info.py:412-417 | the reference group: the items whose key equals k under Python's `==`, in order |
| Analysis.GroupedNonePersists | libfactory/info.py:412-417 | once the grouping loop raises it stays raised |
| Analysis.GroupedSucceeds | libfactory/info.py:412-417 | grouping succeeds exactly when every key is None or hashable |
| Analysis.GroupedContents | libfactory/info.py:407-421 | the groups form a Python dict (hashable keys, no two equal under `==`); every group holds exactly the items whose key equals its key, in original order, and its first item carries that very key (the first one met is kept); None is never a key; every item with a non-None key is in a group |
| Analysis.GroupedStep | libfactory/info.py:413-417 | one pass of the loop body keeps the groups a Python dict whose groups are the reference groups of the items seen so far |
| Analysis.GroupedFiled | libfactory/info.py:413-417 | every item whose key is not None is filed in the groups, under its key or the key equal to it |
| Analysis.GroupedPlaces | libfactory/info.py:413-417 | an item with a None key is in no group; any other item is in the group its key is filed under |
| Analysis.WithKeyEmpty | libfactory/info.py:412-417 | no item whose key equals k gives an empty group |
| Analysis.WithKeyMultiset | libfactory/info.py:412-417 | a group holds each item whose key equals its key as often as the data does, and nothing else |
| Analysis.GroupedPermutation | libfactory/info.py:407-421 | together the groups are a permutation of the items whose key is not None: each item is in the group of the key equal to its own as often as in the data, and in no other |
| Analysis.GroupItems | libfactory/info.py:407-421 | the loop builds exactly the groups of `Grouped` |
| Analysis.Mapped | libfactory/info.py:442-447 | one result per item in place, or failure when some call raises |
| Analysis.MapItems | libfactory/info.py:442-447 | the loop builds exactly `Mapped` |
| Analysis.FilteredSucceeds | libfactory/info.py:468-473 | filtering succeeds exactly when no predicate call raises |
| Analysis.FilteredMultiset | libfactory/info.py:468-473 | filter keeps exactly the items that pass, each as often as it occurs |
| Analysis.FilteredAppend | libfactory/info.py:468-473 | filter keeps order: it distributes over concatenation |
| Analysis.FilterItems | libfactory/info.py:468-473 | the loop builds exactly `Filtered` |
| Analysis.FoldedAppend | libfactory/info.py:492-496 | folding a concatenation folds the second part from the first part's result |
| Analysis.FoldedIsLeftFold | libfactory/info.py:492-496 | the loop agrees with the front-to-back left fold from the initial value |
| Analysis.FoldItems | libfactory/info.py:492-496 | the loop computes exactly `Folded` |
| Analysis.Stamp | libfactory/info.py:252-256 | a timestamp that is given and not 0 is kept; otherwise the current time; the attic revision's constructor (attic/info.py:182-186) uses the same rule |
| Info.NewStatusInfo | libfactory/info.py:341-346 | a list becomes a StatusInfo with that data and stamp; any other data raises IncorrectInputDataType(list) |
| Info.WrapGroups | libfactory/info.py:418-421 | each group becomes a StatusInfo holding it, under the same key |
| Info.ApplyToItems | libfactory/info.py:389-537 | the loops of the method compute `ListOutcome`: the result object, or AnalyzerFailure when a call raises |
| Info.Apply | libfactory/info.py:188-207 | the call succeeds exactly with `Applied` and fails exactly as `Raises` allows |
| Info.ApplyToGroups | libfactory/info.py:549-605 | a _DictStatusInfo applies the operation under every key, in any order, and returns the same keys |
| Info.ApplyEach | libfactory/info.py:549-605 | the per-key loop succeeds exactly when every value's operation succeeds, then returns each result under its own key; otherwise it raises an exception that some value raises |
| Info.GroupsFailIffRaise | libfactory/info.py:549-605 | the values fail together exactly when one of them can raise |
| Info.FailsIffRaises | libfactory/info.py:188-226 | an operation fails exactly when some exception can be raised |
| Info.WrongAnalyzerRefused | libfactory/info.py:196-204 | a wrong analyzer type raises IncorrectAnalyzer and nothing else |
| Info.FinalObjectsRefuseAnalysis | libfactory/info.py:608-611 | the non-mutable classes have no analysis methods: any call raises AttributeError |
| Info.DictKeepsKeys | libfactory/info.py:549-605 | a dict result has the same keys, each the operation on the value under that key, with the timestamp carried over; reduce and process make it non-mutable; it succeeds exactly when it succeeds under every key |
| Info.ListResultShape | libfactory/info.py:389-537 | indexby gives a dict of StatusInfo groups; map, filter and transform a StatusInfo; reduce and process a final value; the timestamp is kept |
| Info.IndexByGroups | libfactory/info.py:407-421 | one StatusInfo per non-None key (keys equal under `==` sharing one) with exactly the items whose key equals it, in order; failure exactly when a key raises or is unhashable |
| Info.FilterKeeps | libfactory/info.py:453-473 | the filtered StatusInfo keeps exactly the passing items, with their multiplicity and order |
| Info.MapPointwise | libfactory/info.py:427-447 | element i of the mapped StatusInfo is the call on item i |
| Info.ReduceFolds | libfactory/info.py:478-496 | reduce is the left fold from init_value, and its result is final |
| Info.TransformNeedsList | libfactory/info.py:501-517 | a transform result that is not a list raises IncorrectInputDataType(list), not AnalyzerFailure |
| Info.AnalyzeStatus | libfactory/info.py:349-372 | analyze dispatches on the analyzer type and raises NotAnAnalyzer for any other type |
| Info.AnalyzeDispatches | libfactory/info.py:357-368 | analyze with a typed analyzer is the method of that name |
| Info.ChainedAppend | libfactory/info.py:671-675 | one more analyzer runs on the previous chain's result |
| Info.ChainStopsAfterNonList | libfactory/info.py:671-675 | after a step yields anything but a StatusInfo, a further step raises AttributeError |
| Info.Algorithm.constructor | libfactory/info.py:665-666 | a new algorithm has no analyzers |
| Info.Algorithm.Add | libfactory/info.py:668-669 | the analyzer is appended |
| Info.Algorithm.Analyze | libfactory/info.py:671-675 | the result is the chain of the analyzers in order, and the first exception ends it |
| Info.GetItem | libfactory/info.py:294-302 | a dict class returns the object under the key, or under the key equal to it under `==` (True finds the group of 1), and raises MissingKey when no key equals it; other classes have no `__getitem__` |
| Info.GetItemPyEq | libfactory/info.py:300-302 | in a dict class, `obj[key]` succeeds exactly when some group key equals key under `==`, and returns that group |
| Info.GetItemTrueIsOne | libfactory/info.py:300-302 | `obj[True]` returns the group filed under 1 |
| Info.ItemPath | libfactory/info.py:294-302 | chained `obj[k1][k2]...`: no key gives the object itself; the first failing `__getitem__` raises its error, which is MissingKey or TypeError |
| Info.Get | libfactory/info.py:261-276 | get() with no key gives the data; a StatusInfo has no `keys()` (AttributeError); a dict class raises MissingKey when no group key equals the first key under `==`; a non-mutable result raises MissingKey when its dict lacks the key |
| Info.GetFollowsItemPath | libfactory/info.py:261-276 | get(*keys) returns the data of the object reached by chained `__getitem__` |
| Info.GetMissingKey | libfactory/info.py:273-274 | a missing key raises MissingKey in both get and `__getitem__` |
| Info.GetRaw | libfactory/info.py:287-292 | a StatusInfo or non-mutable result gives its data; a dict class gives a dict with exactly its own keys |
| Info.GetRawMirrorsTree | libfactory/info.py:288-309 | the raw tree has an entry at exactly the paths of objects reachable by `__getitem__`, holding each one's getraw() |
| Info.IndexByKey | libfactory/info.py:682-691 | an indexby analyzer that never raises: a record's value under the key, and None for a record that is not a dict or lacks the key |
| Info.IndexByKeyOf | libfactory/info.py:682-691 | the record's value under the key, and None when the record is not a dict or lacks the key; GroupByKey.group in info/analyzer.py:10-19 is the same lookup |
| Info.IndexByKeyGroups | libfactory/info.py:682-691 | grouping by IndexByKey drops records lacking the key or holding None, and puts every other record in the group its value is filed under (a record holding True joins the group of 1 met earlier) |
| Info.StrOf | libfactory/info.py:698-699 | str() of a string is the string itself and of an int its decimal text |
| Info.IndexByKeyRemap | libfactory/info.py:694-709 | an indexby analyzer that files a record lacking the key under None and an int field under the mapping's entry for its decimal text |
| Info.RemapOf | libfactory/info.py:694-709 | the mapping's value for the text of the record's field, and None when the field is missing or the text is unmapped |
| Info.RemapIntField | libfactory/info.py:698-706 | an int field is matched by its decimal text |
| Info.AttributeValueOf | libfactory/info.py:719-726 | the filter raises exactly when the record is not a dict or lacks the attribute, and otherwise answers True exactly when the attribute equals the value under `==` |
| Info.AttributeValue | libfactory/info.py:712-726 | a filter analyzer that raises exactly on records lacking the attribute and keeps the others by `==` on the attribute |
| Info.AttributeValueSelects | libfactory/info.py:712-726 | filtering keeps exactly the records whose attribute equals the value under Python's `==`, and fails exactly when some record is not a dict or lacks the attribute |
| Info.AttributeValueTrueIsOne | libfactory/info.py:726 | a record holding 1 passes a filter for True and one holding 0 fails it |
| Info.Count | libfactory/info.py:729-732 | a process analyzer answering the number of records of any list |
| Info.CountCounts | libfactory/info.py:729-732 | process with Count gives the number of records, as a final result |
| Info.IdleTime | libfactory/info.py:768-774 | a map analyzer that raises exactly when the entry time is missing or int() refuses it, and gives now minus an int entry time |
| Info.IdleTimeOf | libfactory/info.py:768-774 | now minus int(enteredcurrentstatus); a missing or unparsable field raises |
| Info.IdleTimeOfText | libfactory/info.py:768-774 | an int entry time and its decimal text give the same idle time |
| Info.DataItemDefaults.constructor | libfactory/info.py:844 | the `data_d={}` default is one empty dict object |
| Info.DataItem.constructor | libfactory/info.py:844-867 | the item refers to the caller's dict, keeps the default, and stamps itself |
| Info.DataItem.WithDefaultDict | libfactory/info.py:844-867 | made without a dict, the item refers to the one shared default dict |
| Info.DataItem.WithFreshDict | libfactory/info.py:844-867 | the corrected constructor gives a new empty dict of its own |
| Info.DataItem.Get | libfactory/info.py:870-895 | a read gives the stored value, or the default for an absent key (through `PyDictObject.GetOr`) |
| Info.DataItem.Set | libfactory/info.py:881-887 | after a write, reading that key gives the value and other reads are unchanged |
| Info.SharedDefaultLeaks | libfactory/info.py:844 | as written, a write through one default-built item is read back through another |
| Info.FreshDictsAreSeparate | libfactory/info.py:844 | with a dict per item, a write through one leaves another at its default |
| AtticInfo.NewAInfo | attic/info.py:151-186 | raw data must be a list and non-raw data a dict, else IncorrectInputDataType; otherwise the object holds the given flags and stamp |
| AtticInfo.ConstructedWellformed | attic/info.py:151-186 | objects the constructor builds from well-formed parts are well-formed |
| AtticInfo.ValidateCallAsWritten | attic/info.py:107-123 | as written: a non-mutable object raises NameError, a wrong analyzer type IncorrectAnalyzer, and otherwise nothing |
| AtticInfo.ValidateCall | attic/info.py:107-123 | as intended: a non-mutable object raises ObjectIsNotMutable(method), then the analyzer type is checked |
| AtticInfo.ValidateCallRaisesNameError | attic/info.py:110-114 | on a reduce result analysed again, the as-written check raises NameError where the intended one raises ObjectIsNotMutable |
| AtticInfo.WrapGroups | attic/info.py:274-279 | each group becomes a raw StatusInfo under the same key |
| AtticInfo.ApplyRaw | attic/info.py:232-437 | the raw branch of each method computes `RawOutcome` |
| AtticInfo.Apply | attic/info.py:232-437 | the call succeeds exactly with `Applied` and fails exactly as `Raises` allows; both follow the corrected `ValidateCall`, so a non-mutable object raises ObjectIsNotMutable where the code as written raises NameError (Findings row 1) |
| AtticInfo.ApplyEach | attic/info.py:252-262 | the per-key loop succeeds exactly when every value's operation succeeds, then returns each result under its own key; otherwise it raises an exception that some value raises; the per-value check is the corrected `ValidateCall` (Findings row 1) |
| AtticInfo.ApplyToGroups | attic/info.py:252-262 | a non-raw object applies the operation under each key in any order and keeps the keys |
| AtticInfo.NonMutableRefused | attic/info.py:110-114 | with the corrected check, a non-mutable object raises ObjectIsNotMutable and nothing else |
| AtticInfo.WrongAnalyzerRefused | attic/info.py:115-120 | a wrong analyzer type raises IncorrectAnalyzer before any work |
| AtticInfo.AppliedWellformed | attic/info.py:151-186 | results satisfy the constructor's rules |
| AtticInfo.RawResultShape | attic/info.py:245-432 | raw input: indexby gives a non-raw dict of raw groups; map and filter a raw list; reduce and process a non-mutable raw result |
| AtticInfo.DictResultShape | attic/info.py:252-262 | dict input gives a non-raw result with the same keys, each the operation on that key's value; reduce and process mark it non-mutable |
| AtticInfo.RawIndexByGroups | attic/info.py:265-279 | raw indexby makes one raw group per non-None key, with exactly that key's items in order |
| AtticInfo.AtticOpNamed | attic/info.py:194-215 | the type names indexby, filter, map, reduce or process, and each method's name names it back |
| AtticInfo.AnalyzeStatus | attic/info.py:194-215 | analyze dispatches on the type, and any other type raises NotAnAnalyzer; the method it reaches uses the corrected `ValidateCall` (Findings row 1) |
| AtticInfo.AnalyzedWellformed | attic/info.py:194-215 | analyze keeps well-formedness |
| AtticInfo.ChainFiltersGroups | attic/info.py:537-541 | after indexby, a filter step in the chain applies to every group |
| AtticInfo.Algorithm.constructor | attic/info.py:531-532 | a new algorithm has no analyzers |
| AtticInfo.Algorithm.Add | attic/info.py:534-535 | the analyzer is appended |
| AtticInfo.Algorithm.Analyze | attic/info.py:537-541 | each analyzer in turn; the first exception ends the run; each step uses the corrected `ValidateCall` (Findings row 1) |
| AtticInfo.GetItem | attic/info.py:470-481 | a raw object raises IsRawData; over a dict of objects the object under the key, or under the key equal to it under `==`, and MissingKey when no key equals it; over a dict of plain values the value under a string key, or MissingKey |
| AtticInfo.GetItemPyEq | attic/info.py:478-481 | over a dict of objects, `obj[key]` succeeds exactly when some group key equals key under `==`, and returns that group |
| AtticInfo.Get | attic/info.py:452-467 | get() with no key gives the data; a list has no `keys()` (AttributeError); a dict of objects raises MissingKey when no key equals the first under `==`; a dict of plain values raises MissingKey when it lacks the key |
| AtticInfo.GetRaw | attic/info.py:439-451 | raw data as it is; otherwise, under the same keys, each value's getraw() |
| AtticInfo.GetRawPerKey | attic/info.py:439-451 | every object below a dict has its getraw() under its key, and getraw() succeeds exactly when it succeeds under every key |
| AtticInfo.GetFollowsGetItem | attic/info.py:454-469 | down a path of objects, get(*keys) is the data `__getitem__` reaches, and a missing key raises MissingKey in both |
| AtticInfo.Item.constructor | attic/info.py:724-732 | the item refers to the caller's dict and keeps the default |
| AtticInfo.Item.Get | attic/info.py:735-743 | the stored value, or the default for an absent key (through `PyDictObject.GetOr`) |
| AtticInfo.ItemSeesCallerWrites | attic/info.py:724-743 | the item holds a reference: a later change to the caller's dict is seen by its reads |
| HTCondor.BuildConstraintStr | libfactory/htcondorlib.py:87-98 | the constraints joined by " && ", or "true" for none or an empty list |
| HTCondor.ConstraintAppended | libfactory/htcondorlib.py:94-95 | one more constraint is appended with " && ", keeping the order |
| HTCondor.Strings | libfactory/htcondorlib.py:95 | join takes only strings; any other item raises TypeError |
| HTCondor.CheckQuery | libfactory/htcondorlib.py:277-286 | an attribute list that is not a list raises IncorrectInputType("attribute_l"); constraints that are neither None nor a list raise IncorrectInputType("constraint_l"); otherwise the query gets the constraint expression |
| HTCondor.ParseLine | libfactory/htcondorlib.py:345-355 | queue statements and blank lines are passed over; any other line assigns its stripped key and value |
| HTCondor.ParseLines | libfactory/htcondorlib.py:344-355 | one outcome per line, in order |
| HTCondor.ParseSubmit | libfactory/htcondorlib.py:343-360 | the loop builds exactly `SubmitDict` of the lines, and raises EmptySubmitFile exactly when that is empty |
| HTCondor.AssignedLastWins | libfactory/htcondorlib.py:355 | a key is set exactly when some assignment sets it, to the value set last |
| HTCondor.SubmitDictLastWins | libfactory/htcondorlib.py:344-355 | a key is in the submit dict exactly when some kept line sets it, with the last such line's value |
| HTCondor.AssignedSkipsNone | libfactory/htcondorlib.py:345-350 | a passed-over line anywhere changes nothing |
| HTCondor.SkippedLineIgnored | libfactory/htcondorlib.py:345-350 | a queue statement or blank line anywhere leaves the dict unchanged |
| HTCondor.ParseLinesAppend | libfactory/htcondorlib.py:344 | parsing two runs of lines is parsing each |
| HTCondor.EmptyIffAllSkipped | libfactory/htcondorlib.py:359-360 | EmptySubmitFile exactly when every line is a queue statement or blank |
| HTCondor.LineSplitsAtFirstEquals | libfactory/htcondorlib.py:352-354 | the key is the stripped text before the first '=' and the value the stripped rest, later '=' kept |
| HTCondor.LineWithoutEquals | libfactory/htcondorlib.py:352-354 | a line without '=' is a key with the empty value |
| HTCondor.Address | libfactory/htcondorlib.py:101-113 | the resolved host name, followed by ":" and the port's decimal text exactly when a nonzero port is given |
| HTCondor.AddressRoundTrip | libfactory/htcondorlib.py:101-113 | an address splits back into the resolved host and the port when the host has no ':' |
| HTCondor.CollectorKey | libfactory/htcondorlib.py:215-226 | no hostname files under 'localhost'; otherwise under the address of the host and port |
| HTCondor.Collector.constructor | libfactory/htcondorlib.py:133-143 | the collector keeps the hostname and port it was built with |
| HTCondor.Collector.CondorStatus | libfactory/htcondorlib.py:186-205 | an attribute list that is not a list raises IncorrectInputType("attribute_l"), constraints neither None nor a list raise IncorrectInputType("constraint_l"), non-string constraints raise TypeError; the call succeeds exactly on a list of attributes and None or string constraints, and then queries startd ads with those attributes and the constraints joined by " && " ("true" when there are none) |
| HTCondor.CollectorRegistry.constructor | libfactory/htcondorlib.py:213 | no collector is filed yet |
| HTCondor.CollectorRegistry.New | libfactory/htcondorlib.py:215-226 | the collector already filed under the key, or a new one filed there (the local one built without host or port); nothing else changes |
| HTCondor.CollectorIsShared | libfactory/htcondorlib.py:215-226 | two requests for one address give the same object, and the second files nothing |
| HTCondor.ScheddKey | libfactory/htcondorlib.py:377-388 | no wrapper files under 'localhost', a wrapper under its address |
| HTCondor.ScheddQuery | libfactory/htcondorlib.py:277-291 | rejected arguments raise what the checks raise; accepted arguments on a schedd without the lock attribute raise AttributeError; with it, the query of the given kind goes out with the constraint expression and the attributes |
| HTCondor.ScheddSubmit | libfactory/htcondorlib.py:343-366 | parse, refuse an empty dict, then take the lock (AttributeError when it is missing) |
| HTCondor.RemoteScheddHasNoLock | libfactory/htcondorlib.py:242-249 | as written, a schedd built from a wrapper refuses every well-formed query and submission with AttributeError; with the lock bound in both branches it does not |
| HTCondor.Schedd.constructor | libfactory/htcondorlib.py:234-251 | corrected: the wrapper's address (None locally), and the lock in both branches |
| HTCondor.Schedd.AsWritten | libfactory/htcondorlib.py:234-251 | as written: the lock only for a local schedd |
| HTCondor.Schedd.CondorQ | libfactory/htcondorlib.py:267-291 | the IncorrectInputType and TypeError cases of the argument checks; accepted arguments raise AttributeError when the schedd lacks the lock; it succeeds exactly with the lock and accepted arguments, and then queries the job queue with the attributes and the constraints joined by " && " ("true" when there are none) |
| HTCondor.Schedd.CondorHistory | libfactory/htcondorlib.py:294-319 | the same argument checks and lock as condor_q; on success it queries the job history with the attributes and the joined constraints |
| HTCondor.RemoteScheddQueryFails | libfactory/htcondorlib.py:242-249 | as written, the first query of a remote schedd raises AttributeError |
| HTCondor.ScheddRegistry.constructor | libfactory/htcondorlib.py:375 | no schedd is filed yet |
| HTCondor.ScheddRegistry.New | libfactory/htcondorlib.py:377-388 | the schedd filed under the key, or a new one filed there; nothing else changes; a new schedd comes from the corrected `Schedd` constructor and so holds the lock, which a remote one as written lacks (Findings row 3) |
| HTCondor.GetSchedd | libfactory/htcondorlib.py:170-182 | the schedd for the address made from the host and port, filed under that address; built with the corrected `Schedd` constructor (Findings row 3) |
| Scheds.Chain | libfactory/scheds.py:32-46 | the plugins' calculate applied in order, each to the previous result; with no plugin, n itself; an exception of the chain is one a plugin raised |
| Scheds.ChainConcat | libfactory/scheds.py:40-41 | two plugin lists in a row are the first, then the second from its result; the first's exception ends the run |
| Scheds.ChainAppend | libfactory/scheds.py:23-29 | a plugin added last takes all earlier results |
| Scheds.ChainRaisesAt | libfactory/scheds.py:39-44 | the exception of the first plugin that raises is the chain's |
| Scheds.SchedulerManager.constructor | libfactory/scheds.py:16-20 | no plugins |
| Scheds.SchedulerManager.Add | libfactory/scheds.py:23-29 | the plugin is appended |
| Scheds.SchedulerManager.Calculate | libfactory/scheds.py:32-46 | n through every plugin in insertion order (n itself with none); an exception is raised again unchanged |
| Scheds.SchedulerManager.CalculateDefault | libfactory/scheds.py:32 | the input defaults to 0 |
| Scheds.AddRunsLast | libfactory/scheds.py:23-46 | after add(p), calculate(n) is p applied to the earlier result |
| KeyExtractors.GroupByKeyRemap | info/analyzer.py:22-37 | the mapping's value under the key equal to the record's raw field value under `==`, and None when the field is missing or no key equals it |
| KeyExtractors.RemapIsMappedKey | info/analyzer.py:10-37 | when None is not mapped, the remapped key is the mapping applied, as a dict lookup, to GroupByKey's key |
| PyValues.EqualKeyIsFiled | info/analyzer.py:34-35 | in a Python dict, the scan of `keys()` with `==` finds exactly the key the dict lookup finds |
| KeyExtractors.RemapTrueIsOne | info/analyzer.py:34-35 | a record holding True is remapped through the entry of 1 |
| KeyExtractors.NoTextConversion | info/analyzer.py:30-37 | unlike libfactory's IndexByKeyRemap, an int field does not match its text |
| KeyExtractors.Length | info/analyzer.py:40-46 | len of a list, string or dict; anything else raises |
| KeyExtractors.LengthIsCount | info/analyzer.py:45-46 | Length of a record list is what Count reports |
| PyValues.Lookup | libfactory/info.py:688-691 | `job[key]` on a dict record, and None when it raises |
| PyValues.PyEqReflexive | libfactory/info.py:726 | every value equals itself under Python's `==` |
| PyValues.TwinOfTwin | libfactory/info.py:413 | the value a bool or 0/1 equals across types leads back to it: True and 1, False and 0 |
| PyValues.PyEqHashable | libfactory/info.py:413 | against a hashable key, `==` holds exactly for the key itself or its cross-type equal |
| PyValues.FiledUnder | libfactory/info.py:413-415 | `d[key]` reaches the key d already holds that equals key, or key itself; it is a key of d exactly when key or its cross-type equal is |
| PyValues.PyDictObject.GetOr | libfactory/info.py:870-895 | the stored value when the key is present, otherwise the given default |
| PyValues.DictGet | attic/info.py:462-469 | `v.get(key)` or `v.get(key, default)` on a dict; other arities and values raise |
| PyValues.ParseInt | libfactory/info.py:774 | int() of text: whitespace around, an optional sign, whitespace after the sign, then digits; anything else raises; a result needs a non-blank text |
| PyValues.ParseSigned | libfactory/info.py:774 | a sign, any run of spaces and digits read as the signed value of the digits |
| PyValues.SignThenSpace | libfactory/info.py:774 | "- " followed by digits reads as the negated number |
| PyValues.IntStringRoundTrip | libfactory/info.py:698-706 | int(str(i)) == i |
| PyValues.Strip | libfactory/queue.py:94 | never longer than the input, and a non-empty result neither starts nor ends with whitespace |
| PyValues.StripEmptyIffBlank | libfactory/htcondorlib.py:349-350 | a line strips to '' exactly when all of it is whitespace |
| PyValues.Split | libfactory/queue.py:93 | at least one piece, and no piece contains the separator |
| PyValues.JoinSplit | libfactory/queue.py:93 | splitting and joining with the same character gives back the string |
| PyValues.SplitFirst | libfactory/htcondorlib.py:352-354 | the first piece is the text before the first separator, and the rest joined is the text after it |
| PyValues.SplitNoSeparator | libfactory/htcondorlib.py:352-354 | text without the separator splits into itself |

## Left out

- The Thread base classes and `run()` are left out, as is concurrency in general. The
  schedd lock is modelled only as an attribute that exists or not. The serialisation it
  gives is not modelled.
- Logging, `__repr__`, `__str__`, `printtree`, `getPrintTree`, `test_submit` and the
  `__main__` blocks are left out, because they only format text for people to read.
- Queue.MockBatchPlugin.ProcessComplete does not model the random draws or the float
  `completefactor`. The number of jobs drawn at each site is a parameter, `drawn`. Any
  number from 0 to that site's running count is allowed.
- Queue.MockBatchPlugin.constructor does not model the random seed or the `config` and
  `section` arguments, which nothing in the core reads. The `MockBatchPlugin.__new__`
  singleton is a single plugin object handed to every tree walk.
- Queue.Enqueue does not model the values of `isroot` and `maxtransfer`. The values
  are only logged or never used; their reads, which can raise, are in
  QueueManager.NodeSettings.
- QueueManager.Get does not model ConfigParser's `DEFAULT` section or `%(name)s`
  interpolation. The configuration reaches the model as each section's option texts.
- QueueManager.Wire states that a child's parent is some node that lists it. It does not
  state that the parent is the last such node in the loop order; WireChildren states
  that override one node at a time.
- QueueManager.NewManager wires the nodes in configuration order. The source iterates
  `self.queuesbyname.keys()`, a Python 2 dict whose order follows the hashes of the
  section names; when two sections name unknown children, the source may raise the
  other section's MissingChild. Wire itself takes the order as a parameter.
- QueueManager.MakeQueue looks up the class by a case split on its name, not by
  `getattr` on the module.
- QueueManager.NewManager records the wiring as children and parent maps, not as
  fields set on node objects. Unfold turns the wiring into trees, and its fuel bound
  stands for the cycles that the source never checks for.
- Info.RemapOf does not render lists and dicts. Python's `str()` of those is their repr,
  and the test against the mapping keys is left out for them.
- Info.Apply uses a single `now` per call, where the source reads the clock once per
  object it creates.
- PyValues.PyEq models Python's `==` for None, bools, ints, strings, lists and dicts.
  Floats, tuples and user classes are not values of the model.
- TotalRunningTimeFromRunningJobs, TotalRunningTimeFromRunningAndFinishedJobs and
  ApplyFunction are left out. They depend on the clock's running time per job and on an
  arbitrary Python function, and they add no behaviour that the reduce and process
  loops do not already have.
- The attic revision's pre-made analyzers are the same code as libfactory's. The members
  of `Info` cover them.
- Info.DataItem.Get and AtticInfo.Item.Get do not model attributes that the instances
  really have. Those attributes are found before `__getattr__` is called.
- Info.NewStatusInfo does not model `_BaseDict`'s dict check. It cannot fail here,
  because the model only ever builds dict objects from dicts.
- Analysis.GroupItems does not need to state "the input is never modified". Dafny
  values are immutable, so this holds by construction.
- HTCondor.ScheddSubmit does not model the submission itself (`htcondor.Submit`, the
  transaction, and the `n` argument) or `condor_rm`. They are calls into the HTCondor
  bindings. It also never raises `MalformedSubmitFile`: the try body only splits,
  strips and joins strings, so it cannot fail.
- HTCondor.Address does not model DNS. It takes `socket.gethostbyaddr` as the parameter
  `resolve`.
- The reachability checks `__validate_collector` and `__validate_schedd` are left out.
  So are `condor_version`, `condor_config_files` and `condor_config`, all of which call
  into the bindings.
- Scheds.SchedulerManager is modelled without a base class. `class schedulermanager(self)`
  at `libfactory/scheds.py:10` names the undefined `self`, so the module cannot be
  imported as written.
- KeyExtractors.Length assumes the analyzer wiring that `info/analyzer.py` lacks. Its base
  classes `AnalyzerGroup` and `AnalyzerReduce` are not defined there. Its
  `reduce(data)` takes one argument, while StatusInfo's reduce loop calls
  `reduce(value, item)`. The model states only what `len` alone computes.
- `libfactory/thread.py`, the querystatus modules, `libfactory/authmanager.py` and
  `setup.py` are not part of this model.

## Findings

| source | as written | input that shows it | evidently intended | confidence | as-written member | corrected member |
|---|---|---|---|---|---|---|
| attic/info.py:114 | `raise ObjectIsNotMutable(name)` names an undefined variable | `reduce` on a StatusInfo gives a non-mutable object; calling `map` on it raises NameError | raise ObjectIsNotMutable naming the method called | not executed | AtticInfo.ValidateCallRaisesNameError | AtticInfo.ValidateCall |
| libfactory/info.py:844 | `data_d={}` is one dict object shared by every DataItem built without a dict | `a = DataItem(); b = DataItem(); a['x'] = 1; b.x` gives 1 instead of the default 0 | each DataItem gets an empty dict of its own | not executed | Info.SharedDefaultLeaks | Info.FreshDictsAreSeparate |
| libfactory/htcondorlib.py:248-249 | mixed tab and space indentation puts `self.lock = threading.Lock()` inside the `else` branch under Python 2's tab rule | `HTCondorSchedd(HTCondorRemoteScheddWrapper(s, "host:9618")).condor_q(["Owner"])` raises AttributeError at `self.lock.acquire()` | the lock is created whichever branch is taken | not executed | HTCondor.RemoteScheddQueryFails | HTCondor.Schedd.constructor |
