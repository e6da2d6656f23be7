/** `createLoadBalancer`, `updateLoadBalancer` and the enqueue functions of src/manager/manager.go. */
module Manager {
  import opened Wrappers
  import opened Tables
  import opened Differences
  import opened Sorting
  import opened Plans
  import opened Runs
  import opened Passes
  import opened Progress
  import opened CloudApi
  import CloudProvider
  import opened Dispatcher

  function Subject(kind: Kind): string {
    match kind
    case RoutingPolicies => "routingpolicy"
    case RuleSets => "ruleSet"
    case Hostnames => "hostname"
    case Certificates => "certificate"
    case BackendSets => "backendset"
    case Listeners => "listener"
  }

  /** `MapCompare` on one table; without a filter the common names are returned whole. */
  method MapCompare(spec: Store, lb: Store, kind: Kind, filter: bool)
    returns (extra: set<Key>, missing: set<Key>, intersection: set<Key>)
    ensures extra == Table(spec, kind) - Table(lb, kind)
    ensures missing == Table(lb, kind) - Table(spec, kind)
    ensures intersection == set k | k in Table(lb, kind) && k in Table(spec, kind) && (!filter || Changed(lb[k], spec[k]))
  {
    var keysetA, keysetB := Table(spec, kind), Table(lb, kind);
    extra := keysetA - keysetB;
    missing := keysetB - keysetA;
    intersection := keysetB * keysetA;
    if !filter { return; }
    var todo := intersection;
    while todo != {}
      invariant todo <= keysetB * keysetA
      invariant intersection == set k <- keysetB * keysetA | k in todo || Changed(lb[k], spec[k])
      decreases |todo|
    {
      var k :| k in todo;
      if !Changed(lb[k], spec[k]) { intersection := intersection - {k}; }
      todo := todo - {k};
    }
  }

  function CallFor(spec: Store, verb: Verb, k: Key): Call
    requires verb.DeleteAction? || k in spec
  {
    match verb
    case CreateAction => Create(k, spec[k])
    case UpdateAction => Update(k, spec[k])
    case DeleteAction => Delete(k)
  }

  function ActionOf(c: Call): Action {
    Action(false, VerbOf(c), Subject(c.key.kind), c)
  }

  function ActionsOf(calls: seq<Call>): seq<Action> {
    seq(|calls|, i requires 0 <= i < |calls| => ActionOf(calls[i]))
  }

  ghost predicate OneEach(spec: Store, verb: Verb, keys: set<Key>, calls: seq<Call>) {
    && (forall c <- calls :: c.key in keys && (verb.DeleteAction? || c.key in spec) && c == CallFor(spec, verb, c.key))
    && (forall k <- keys :: (verb.DeleteAction? || k in spec) && CallFor(spec, verb, k) in calls)
    && DistinctKeys(calls)
  }

  /** The actions for `keys` were added to `before`. */
  ghost predicate Added(before: seq<Action>, now: seq<Action>, spec: Store, verb: Verb, keys: set<Key>, calls: seq<Call>) {
    now == before + ActionsOf(calls) && OneEach(spec, verb, keys, calls)
  }

  lemma AddedStep(before: seq<Action>, now: seq<Action>, spec: Store, verb: Verb, keys: set<Key>, calls: seq<Call>, k: Key)
    requires Added(before, now, spec, verb, keys, calls) && k !in keys && (verb.DeleteAction? || k in spec)
    ensures var c := CallFor(spec, verb, k);
            Added(before, now + [Action(false, verb, Subject(k.kind), c)], spec, verb, keys + {k}, calls + [c])
  {
    var c := CallFor(spec, verb, k);
    assert ActionsOf(calls + [c]) == ActionsOf(calls) + [ActionOf(c)];
    OneMoreEach(spec, verb, keys, calls, k);
  }

  lemma OneMoreEach(spec: Store, verb: Verb, keys: set<Key>, calls: seq<Call>, k: Key)
    requires OneEach(spec, verb, keys, calls) && k !in keys && (verb.DeleteAction? || k in spec)
    ensures OneEach(spec, verb, keys + {k}, calls + [CallFor(spec, verb, k)])
  {
    forall j | j in keys ensures CallFor(spec, verb, j) in calls + [CallFor(spec, verb, k)] {
      assert CallFor(spec, verb, j) in calls;
    }
  }

  /** One of the loops that add an action for each key of a set, in any order. */
  method AddEach(ad: ActionDispatcher, spec: Store, verb: Verb, kind: Kind, keys: set<Key>) returns (ghost calls: seq<Call>)
    requires verb.DeleteAction? || keys <= spec.Keys
    requires forall k <- keys :: k.kind == kind
    modifies ad
    ensures Added(old(ad.actions), ad.actions, spec, verb, keys, calls)
  {
    calls := [];
    var todo := keys;
    ghost var added: set<Key> := {};
    assert ActionsOf([]) == [];
    while todo != {}
      invariant todo !! added && todo + added == keys
      invariant Added(old(ad.actions), ad.actions, spec, verb, added, calls)
      decreases |todo|
    {
      var k :| k in todo;
      var c := CallFor(spec, verb, k);
      AddedStep(old(ad.actions), ad.actions, spec, verb, added, calls, k);
      CloudProvider.MoveKey(todo, added, k);
      ad.AddFunc(verb, Subject(kind), c);
      calls, todo, added := calls + [c], todo - {k}, added + {k};
    }
  }

  /** A certificate that exists under a wanted name with other contents: there is no way to update it. */
  ghost predicate CertificateClash(spec: Store, lb: Store) {
    exists k :: k in lb && k in spec && k.kind == Certificates && Changed(lb[k], spec[k])
  }

  lemma EnqueuedPlan(spec: Store, lb: Store, kind: Kind, extra: set<Key>, changed: set<Key>, missing: set<Key>,
                     creates: seq<Call>, updates: seq<Call>, deletes: seq<Call>)
    requires kind in DISPATCHED
    requires extra == Table(spec, kind) - Table(lb, kind) && missing == Table(lb, kind) - Table(spec, kind)
    requires forall k :: k in changed <==> k in Table(lb, kind) && k in Table(spec, kind) && Changed(lb[k], spec[k])
    requires OneEach(spec, CreateAction, extra, creates)
    requires OneEach(spec, UpdateAction, changed, updates)
    requires OneEach(spec, DeleteAction, missing, deletes)
    ensures Plan(spec, lb, {kind}, creates + updates + deletes) && DistinctKeys(creates + updates + deletes)
  {
    var calls := creates + updates + deletes;
    forall c | c in calls ensures c.key.kind == kind && Justified(spec, lb, c) {
      OwnSlot(lb, c.key);
      OwnSlot(spec, c.key);
    }
    forall k | k in lb && k.kind == kind ensures Handled(spec, lb, calls, k) {
      OwnSlot(spec, k);
      if k in spec {
        assert k in changed ==> Update(k, spec[k]) in updates;
      } else {
        assert k in missing && Delete(k) in deletes;
      }
    }
    forall d | d in spec && d.kind == kind && !Holds(lb, Slot(d)) ensures Create(d, spec[d]) in calls {
      OwnSlot(lb, d);
      assert d in extra && Create(d, spec[d]) in creates;
    }
  }

  /** What an enqueue function adds: the calls of a plan for its table. */
  ghost predicate Enqueued(before: seq<Action>, now: seq<Action>, spec: Store, lb: Store, kind: Kind, calls: seq<Call>) {
    now == before + ActionsOf(calls) && Plan(spec, lb, {kind}, calls) && DistinctKeys(calls)
  }

  lemma ThreeLoops(a0: seq<Action>, a1: seq<Action>, a2: seq<Action>, a3: seq<Action>, spec: Store, lb: Store, kind: Kind,
                   extra: set<Key>, changed: set<Key>, missing: set<Key>,
                   creates: seq<Call>, updates: seq<Call>, deletes: seq<Call>)
    requires kind in DISPATCHED
    requires extra == Table(spec, kind) - Table(lb, kind) && missing == Table(lb, kind) - Table(spec, kind)
    requires forall k :: k in changed <==> k in Table(lb, kind) && k in Table(spec, kind) && Changed(lb[k], spec[k])
    requires Added(a0, a1, spec, CreateAction, extra, creates)
    requires Added(a1, a2, spec, UpdateAction, changed, updates)
    requires Added(a2, a3, spec, DeleteAction, missing, deletes)
    ensures Enqueued(a0, a3, spec, lb, kind, creates + updates + deletes)
  {
    EnqueuedPlan(spec, lb, kind, extra, changed, missing, creates, updates, deletes);
    ThreeActions(a0, a1, a2, a3, creates, updates, deletes);
  }

  lemma ThreeActions(a0: seq<Action>, a1: seq<Action>, a2: seq<Action>, a3: seq<Action>,
                     creates: seq<Call>, updates: seq<Call>, deletes: seq<Call>)
    requires a1 == a0 + ActionsOf(creates) && a2 == a1 + ActionsOf(updates) && a3 == a2 + ActionsOf(deletes)
    ensures a3 == a0 + ActionsOf(creates + updates + deletes)
  {
    ActionsOfConcat(creates, updates);
    ActionsOfConcat(creates + updates, deletes);
  }

  /** Nothing to update: hostnames never change, and a changed certificate is a panic. */
  lemma NoUpdates(a: seq<Action>, spec: Store)
    ensures Added(a, a, spec, UpdateAction, {}, [])
  {
    assert a + ActionsOf([]) == a;
  }

  lemma HostnamesNeverChange(spec: Store, lb: Store)
    requires Typed(spec) && Typed(lb)
    ensures forall k :: k in Table(lb, Hostnames) && k in Table(spec, Hostnames) ==> !Changed(lb[k], spec[k])
  {
  }

  /** The four enqueue functions, which differ in the comparison and in what they do with common names. */
  method Enqueue(ad: ActionDispatcher, lb: Store, spec: Store, kind: Kind) returns (panicked: bool, ghost calls: seq<Call>)
    requires kind in DISPATCHED && Typed(spec) && Typed(lb)
    modifies ad
    ensures panicked <==> kind == Certificates && CertificateClash(spec, lb)
    ensures !panicked ==> Enqueued(old(ad.actions), ad.actions, spec, lb, kind, calls)
  {
    var toBeCreated, toBeRemoved, toBeUpdated := MapCompare(spec, lb, kind, kind != Hostnames);
    calls := [];
    panicked := kind == Certificates && toBeUpdated != {};
    if panicked {
      ghost var k :| k in toBeUpdated;
      return;
    }
    ghost var a0 := ad.actions;
    ghost var creates := AddEach(ad, spec, CreateAction, kind, toBeCreated);
    ghost var a1 := ad.actions;
    ghost var updates, changed := [], {};
    NoUpdates(a1, spec);
    HostnamesNeverChange(spec, lb);
    if kind != Hostnames && kind != Certificates {
      updates := AddEach(ad, spec, UpdateAction, kind, toBeUpdated);
      changed := toBeUpdated;
    }
    ghost var a2 := ad.actions;
    ghost var deletes := AddEach(ad, spec, DeleteAction, kind, toBeRemoved);
    calls := creates + updates + deletes;
    ThreeLoops(a0, a1, a2, ad.actions, spec, lb, kind, toBeCreated, changed, toBeRemoved, creates, updates, deletes);
  }

  function OfVerbIn(queue: seq<Call>, verb: Verb): seq<Call> {
    OfVerb(ActionsOf(queue), verb)
  }

  lemma {:induction false} OfVerbSelects(queue: seq<Call>, verb: Verb)
    ensures multiset(OfVerbIn(queue, verb)) <= multiset(queue)
    ensures forall c :: c in OfVerbIn(queue, verb) <==> c in queue && VerbOf(c) == verb
  {
    if queue != [] {
      assert ActionsOf(queue)[1..] == ActionsOf(queue[1..]);
      OfVerbSelects(queue[1..], verb);
      assert queue == [queue[0]] + queue[1..];
    }
  }

  /** Running a verb over the whole queue. */
  lemma SelectVerb(queue: seq<Call>, verb: Verb)
    requires DistinctKeys(queue)
    ensures var calls := Order(ActionsOf(queue), verb, []);
            DistinctKeys(calls) && forall c :: c in calls <==> c in queue && VerbOf(c) == verb
  {
    var calls := Order(ActionsOf(queue), verb, []);
    RunsEachOnce(ActionsOf(queue), verb);
    OfVerbSelects(queue, verb);
    SelectionDistinct(queue, calls);
    forall c ensures c in calls <==> c in queue && VerbOf(c) == verb {
      CloudProvider.SameMembers(calls, OfVerbIn(queue, verb), c);
    }
  }

  lemma {:induction false} PickPolicies(queue: seq<Call>)
    ensures var calls := Pick(ActionsOf(queue), UpdateAction, "routingpolicy");
            multiset(calls) <= multiset(queue) && forall c :: c in calls <==> c in queue && IsUpdateOfPolicy(c)
  {
    if queue != [] {
      assert ActionsOf(queue)[1..] == ActionsOf(queue[1..]);
      PickPolicies(queue[1..]);
      assert queue == [queue[0]] + queue[1..];
      OnlyPolicies(queue[0].key.kind);
    }
  }

  lemma OnlyPolicies(kind: Kind)
    ensures Subject(kind) == "routingpolicy" <==> kind == RoutingPolicies
  {
    match kind
    case RoutingPolicies =>
    case RuleSets => assert |"ruleSet"| != |"routingpolicy"|;
    case Hostnames => assert |"hostname"| != |"routingpolicy"|;
    case Certificates => assert |"certificate"| != |"routingpolicy"|;
    case BackendSets => assert |"backendset"| != |"routingpolicy"|;
    case Listeners => assert |"listener"| != |"routingpolicy"|;
  }

  lemma SelectPolicies(queue: seq<Call>)
    requires DistinctKeys(queue)
    ensures var calls := Order(ActionsOf(queue), UpdateAction, ["routingpolicy"]);
            DistinctKeys(calls) && forall c :: c in calls <==> c in queue && IsUpdateOfPolicy(c)
  {
    PickPolicies(queue);
    assert ["routingpolicy"][1..] == [];
    assert RunOrder(ActionsOf(queue), UpdateAction, []) == [];
    assert Order(ActionsOf(queue), UpdateAction, ["routingpolicy"]) == Pick(ActionsOf(queue), UpdateAction, "routingpolicy");
    SelectionDistinct(queue, Pick(ActionsOf(queue), UpdateAction, "routingpolicy"));
  }

  lemma FourPlans(spec: Store, lb: Store, p: seq<Call>, r: seq<Call>, h: seq<Call>, c: seq<Call>)
    requires Plan(spec, lb, {RoutingPolicies}, p) && Plan(spec, lb, {RuleSets}, r)
    requires Plan(spec, lb, {Hostnames}, h) && Plan(spec, lb, {Certificates}, c)
    requires DistinctKeys(p) && DistinctKeys(r) && DistinctKeys(h) && DistinctKeys(c)
    ensures Plan(spec, lb, DISPATCHED, p + r + h + c) && DistinctKeys(p + r + h + c)
  {
    TwoPlans(spec, lb, {RoutingPolicies}, p, {RuleSets}, r);
    TwoPlans(spec, lb, {RoutingPolicies} + {RuleSets}, p + r, {Hostnames}, h);
    TwoPlans(spec, lb, {RoutingPolicies} + {RuleSets} + {Hostnames}, p + r + h, {Certificates}, c);
    assert {RoutingPolicies} + {RuleSets} + {Hostnames} + {Certificates} == DISPATCHED;
  }

  lemma TwoPlans(spec: Store, lb: Store, ka: set<Kind>, a: seq<Call>, kb: set<Kind>, b: seq<Call>)
    requires Plan(spec, lb, ka, a) && Plan(spec, lb, kb, b) && ka !! kb && DistinctKeys(a) && DistinctKeys(b)
    ensures Plan(spec, lb, ka + kb, a + b) && DistinctKeys(a + b)
  {
    forall k | k in lb && k.kind in ka + kb ensures Handled(spec, lb, a + b, k) {
      assert k.kind in ka ==> Handled(spec, lb, a, k);
      assert k.kind in kb ==> Handled(spec, lb, b, k);
    }
    forall i, j | 0 <= i < j < |a + b| ensures (a + b)[i].key != (a + b)[j].key {
      if i < |a| <= j {
        assert a[i] in a && b[j - |a|] in b;
      }
    }
  }

  /** The four enqueue functions in the order of `updateLoadBalancer`; only the last can panic. */
  method EnqueueAll(ad: ActionDispatcher, lb: Store, spec: Store) returns (panicked: bool, ghost queue: seq<Call>)
    requires ad.actions == [] && Typed(spec) && Typed(lb)
    modifies ad
    ensures panicked <==> CertificateClash(spec, lb)
    ensures !panicked ==> ad.actions == ActionsOf(queue) && Plan(spec, lb, DISPATCHED, queue) && DistinctKeys(queue)
  {
    ghost var policies, ruleSets, hostnames, certificates;
    ghost var a0 := ad.actions;
    panicked, policies := Enqueue(ad, lb, spec, RoutingPolicies);
    ghost var a1 := ad.actions;
    panicked, ruleSets := Enqueue(ad, lb, spec, RuleSets);
    ghost var a2 := ad.actions;
    panicked, hostnames := Enqueue(ad, lb, spec, Hostnames);
    ghost var a3 := ad.actions;
    panicked, certificates := Enqueue(ad, lb, spec, Certificates);
    queue := policies + ruleSets + hostnames + certificates;
    if !panicked {
      AllEnqueued(a0, a1, a2, a3, ad.actions, spec, lb, policies, ruleSets, hostnames, certificates);
    }
  }

  lemma AllEnqueued(a0: seq<Action>, a1: seq<Action>, a2: seq<Action>, a3: seq<Action>, a4: seq<Action>,
                    spec: Store, lb: Store, p: seq<Call>, r: seq<Call>, h: seq<Call>, c: seq<Call>)
    requires a0 == [] && Enqueued(a0, a1, spec, lb, RoutingPolicies, p) && Enqueued(a1, a2, spec, lb, RuleSets, r)
    requires Enqueued(a2, a3, spec, lb, Hostnames, h) && Enqueued(a3, a4, spec, lb, Certificates, c)
    ensures a4 == ActionsOf(p + r + h + c)
    ensures Plan(spec, lb, DISPATCHED, p + r + h + c) && DistinctKeys(p + r + h + c)
  {
    FourPlans(spec, lb, p, r, h, c);
    FourActions(a0, a1, a2, a3, a4, p, r, h, c);
  }

  lemma FourActions(a0: seq<Action>, a1: seq<Action>, a2: seq<Action>, a3: seq<Action>, a4: seq<Action>,
                    p: seq<Call>, r: seq<Call>, h: seq<Call>, c: seq<Call>)
    requires a0 == [] && a1 == a0 + ActionsOf(p) && a2 == a1 + ActionsOf(r) && a3 == a2 + ActionsOf(h) && a4 == a3 + ActionsOf(c)
    ensures a4 == ActionsOf(p + r + h + c)
  {
    ActionsOfConcat(p, r);
    ActionsOfConcat(p + r, h);
    ActionsOfConcat(p + r + h, c);
  }

  lemma ActionsOfConcat(a: seq<Call>, b: seq<Call>)
    ensures ActionsOf(a + b) == ActionsOf(a) + ActionsOf(b)
  {
  }

  datatype Outcome =
    | Finished(lb: Store)   // the tables as read at the refresh
    | Failed                // an error was returned
    | Panicked              // a changed certificate, or the refresh had failed when the second pass needed it

  /** A run as the dispatcher and the passes make it. */
  ghost function RunOf(queue: seq<Call>, first: seq<Call>, tried: nat, second: seq<Call>, done: nat): Run {
    var actions := ActionsOf(queue);
    Run(queue, first, tried,
        Order(actions, CreateAction, []),
        Order(actions, UpdateAction, ["routingpolicy"]),
        second,
        Order(actions, UpdateAction, []),
        Order(actions, DeleteAction, []),
        done)
  }

  lemma RunOfIsRun(server: Server, spec: Store, s: Store, r: Run)
    requires r == RunOf(r.queue, r.first, r.tried, r.second, r.done)
    requires r.tried <= |r.first| && r.done <= |r.Rest()|
    requires Plan(spec, s, DISPATCHED, r.queue) && DistinctKeys(r.queue)
    requires Plan(spec, s, PROVIDER, r.first) && DistinctKeys(r.first) && Sorted(r.first)
    requires Plan(spec, r.Refreshed(server, s), PROVIDER, r.second) && DistinctKeys(r.second) && Sorted(r.second)
    ensures IsRun(server, spec, s, r)
  {
    SelectVerb(r.queue, CreateAction);
    SelectVerb(r.queue, UpdateAction);
    SelectVerb(r.queue, DeleteAction);
    SelectPolicies(r.queue);
    assert forall c: Call :: VerbOf(c) == CreateAction <==> c.Create?;
    assert forall c: Call :: VerbOf(c) == UpdateAction <==> c.Update?;
    assert forall c: Call :: VerbOf(c) == DeleteAction <==> c.Delete?;
  }

  /** Two runs of the dispatcher, the second only if the first succeeds. */
  method RunBoth(cloud: Cloud, ad: ActionDispatcher, verb: Verb, given: seq<string>, nextVerb: Verb, nextGiven: seq<string>)
    returns (ok: bool, ghost done: nat)
    modifies cloud
    ensures Ran(cloud.server, old(cloud.store), Order(ad.actions, verb, given) + Order(ad.actions, nextVerb, nextGiven),
                ok, done, cloud.store, cloud.AlwaysFine())
  {
    ghost var s, fine := cloud.store, cloud.AlwaysFine();
    ghost var calls, next := Order(ad.actions, verb, given), Order(ad.actions, nextVerb, nextGiven);
    ok, done := ad.Run(cloud, verb, given);
    if ok {
      ghost var t, made := cloud.store, done;
      ok, made := ad.Run(cloud, nextVerb, nextGiven);
      RanOn(cloud.server, s, calls, done, t, next, ok, made, cloud.store, fine);
      done := done + made;
    } else {
      RanShort(cloud.server, s, calls, next, done, cloud.store, fine);
    }
  }

  ghost function HeadOf(actions: seq<Action>): seq<Call> {
    Order(actions, CreateAction, []) + Order(actions, UpdateAction, ["routingpolicy"])
  }

  ghost function TailOf(actions: seq<Action>): seq<Call> {
    Order(actions, UpdateAction, []) + Order(actions, DeleteAction, [])
  }

  /** The calls after the refresh, in three parts. */
  ghost function RestOf(actions: seq<Action>, second: seq<Call>): seq<Call> {
    HeadOf(actions) + (second + TailOf(actions))
  }

  /** The creates and the policy updates. */
  method RunFirst(cloud: Cloud, ad: ActionDispatcher) returns (ok: bool, ghost done: nat)
    modifies cloud
    ensures Ran(cloud.server, old(cloud.store), HeadOf(ad.actions), ok, done, cloud.store, cloud.AlwaysFine())
  {
    ok, done := RunBoth(cloud, ad, CreateAction, [], UpdateAction, ["routingpolicy"]);
  }

  /** The updates of all subjects and the deletes. */
  method RunLast(cloud: Cloud, ad: ActionDispatcher) returns (ok: bool, ghost done: nat)
    modifies cloud
    ensures Ran(cloud.server, old(cloud.store), TailOf(ad.actions), ok, done, cloud.store, cloud.AlwaysFine())
  {
    ok, done := RunBoth(cloud, ad, UpdateAction, [], DeleteAction, []);
  }

  /** The second pass and what follows it. */
  method RunSecond(cloud: Cloud, ad: ActionDispatcher, lb: Store, spec: Store)
    returns (ok: bool, ghost second: seq<Call>, ghost done: nat)
    modifies cloud
    ensures Plan(spec, lb, PROVIDER, second) && DistinctKeys(second) && Sorted(second)
    ensures Ran(cloud.server, old(cloud.store), second + TailOf(ad.actions), ok, done, cloud.store, cloud.AlwaysFine())
  {
    hide TailOf, Ran, Plan, Sorted, DistinctKeys;
    ghost var server, s, fine, actions := cloud.server, cloud.store, cloud.AlwaysFine(), ad.actions;
    ok, second, done := CloudProvider.UpdateLoadBalancer(cloud, lb, spec);
    if ok {
      ghost var t, made := cloud.store, done;
      ok, made := RunLast(cloud, ad);
      RanOn(server, s, second, done, t, TailOf(actions), ok, made, cloud.store, fine);
      done := done + made;
    } else {
      RanShort(server, s, second, TailOf(actions), done, cloud.store, fine);
    }
  }

  /**
   The steps of `updateLoadBalancer` after the refresh. Without a refreshed load balancer the
   second pass dereferences nil.
   */
  method RunRest(cloud: Cloud, ad: ActionDispatcher, refreshed: Option<Store>, spec: Store)
    returns (result: Outcome, ghost second: seq<Call>, ghost done: nat)
    requires refreshed.Some? ==> refreshed.value == cloud.store
    modifies cloud
    ensures RestRan(cloud.server, spec, old(cloud.store), ad.actions, second,
                    result.Finished?, done, cloud.store, cloud.AlwaysFine() && refreshed.Some?)
  {
    hide HeadOf, TailOf, RestOf, Ran, Plan, Sorted, DistinctKeys;
    ghost var server, s, fine, actions := cloud.server, cloud.store, cloud.AlwaysFine(), ad.actions;
    var ok;
    ok, done := RunFirst(cloud, ad);
    if !ok || refreshed.None? {
      second := StoppedEarly(server, spec, s, actions, ok, done, cloud.store, fine, refreshed.Some?);
      return if ok then Panicked else Failed, second, done;
    }
    ghost var t, made := cloud.store, 0;
    ok, second, made := RunSecond(cloud, ad, refreshed.value, spec);
    RanToTheEnd(server, s, actions, second, done, t, ok, made, cloud.store, fine);
    done := done + made;
    result := if ok then Finished(refreshed.value) else Failed;
  }

  /** The calls after the refresh have been worked off, their second pass being a plan for the tables refreshed. */
  ghost predicate RestRan(server: Server, spec: Store, s: Store, actions: seq<Action>, second: seq<Call>,
                          finished: bool, done: nat, t: Store, fine: bool) {
    && Ran(server, s, RestOf(actions, second), finished, done, t, fine)
    && Plan(spec, s, PROVIDER, second) && DistinctKeys(second) && Sorted(second)
  }

  lemma StoppedEarly(server: Server, spec: Store, s: Store, actions: seq<Action>,
                     ok: bool, n: nat, t: Store, fine: bool, refreshed: bool)
    returns (second: seq<Call>)
    requires Ran(server, s, HeadOf(actions), ok, n, t, fine) && (ok ==> !refreshed)
    ensures RestRan(server, spec, s, actions, second, false, n, t, fine && refreshed)
  {
    second := CloudProvider.SomePlan(spec, s);
    RanShort(server, s, HeadOf(actions), second + TailOf(actions), n, t, fine && refreshed);
  }

  lemma RanToTheEnd(server: Server, s: Store, actions: seq<Action>, second: seq<Call>,
                    n: nat, t: Store, ok: bool, made: nat, u: Store, fine: bool)
    requires Ran(server, s, HeadOf(actions), true, n, t, fine)
    requires Ran(server, t, second + TailOf(actions), ok, made, u, fine)
    ensures Ran(server, s, RestOf(actions, second), ok, n + made, u, fine)
  {
    RanOn(server, s, HeadOf(actions), n, t, second + TailOf(actions), ok, made, u, fine);
  }

  /** What the contract of `UpdateLoadBalancer` says of a run. */
  ghost predicate RunsTo(server: Server, spec: Store, lb: Store, r: Run, finished: bool, t: Store, fine: bool) {
    && IsRun(server, spec, lb, r) && t == r.Final(server, lb)
    && (finished ==> r.Complete() && AllAccepted(server, r.Refreshed(server, lb), r.Rest(), |r.Rest()|))
    && (fine ==> IsFineRun(server, spec, lb, r))
    && (fine && !finished ==>
          r.done < |r.Rest()| && !AcceptedAt(server, r.Refreshed(server, lb), r.Rest(), r.done))
  }

  lemma Assembled(server: Server, spec: Store, lb: Store, r: Run, ok: bool, mid: Store, finished: bool, t: Store, fine: bool)
    requires r == RunOf(r.queue, r.first, r.tried, r.second, r.done)
    requires Plan(spec, lb, DISPATCHED, r.queue) && DistinctKeys(r.queue)
    requires Plan(spec, lb, PROVIDER, r.first) && DistinctKeys(r.first) && Sorted(r.first)
    requires Ran(server, lb, r.first, ok, r.tried, mid, fine)
    requires Plan(spec, mid, PROVIDER, r.second) && DistinctKeys(r.second) && Sorted(r.second)
    requires Ran(server, mid, RestOf(ActionsOf(r.queue), r.second), finished, r.done, t, fine)
    ensures RunsTo(server, spec, lb, r, finished, t, fine)
  {
    RestOfRun(r);
    assert mid == r.Refreshed(server, lb);
    RunOfIsRun(server, spec, lb, r);
    RanAsRun(server, spec, lb, r, ok, finished, t, fine);
  }

  lemma Regrouped(a: seq<Call>, b: seq<Call>, c: seq<Call>, d: seq<Call>, e: seq<Call>)
    ensures a + b + c + d + e == (a + b) + (c + (d + e))
  {
  }

  lemma RestOfRun(r: Run)
    requires r == RunOf(r.queue, r.first, r.tried, r.second, r.done)
    ensures r.Rest() == RestOf(ActionsOf(r.queue), r.second)
  {
    Regrouped(r.creates, r.policyUpdates, r.second, r.updates, r.deletes);
  }

  lemma RanAsRun(server: Server, spec: Store, lb: Store, r: Run, ok: bool, finished: bool, t: Store, fine: bool)
    requires IsRun(server, spec, lb, r)
    requires Ran(server, lb, r.first, ok, r.tried, r.Refreshed(server, lb), fine)
    requires Ran(server, r.Refreshed(server, lb), r.Rest(), finished, r.done, t, fine)
    ensures RunsTo(server, spec, lb, r, finished, t, fine)
  {
  }

  /**
   `updateLoadBalancer`, given the tables as just read. Whatever the weather, what happens is a run, and it is
   complete when the method returns without error; in fine weather it is stopped by nothing but a rejection.
   */
  method UpdateLoadBalancer(cloud: Cloud, lb: Store, spec: Store) returns (result: Outcome, ghost r: Run)
    requires lb == cloud.store && Typed(spec) && Typed(lb)
    modifies cloud
    ensures CertificateClash(spec, lb) ==> result.Panicked? && cloud.store == old(cloud.store)
    ensures !CertificateClash(spec, lb) ==>
              RunsTo(cloud.server, spec, lb, r, result.Finished?, cloud.store, cloud.AlwaysFine())
  {
    var ad := new ActionDispatcher();
    var panicked;
    ghost var queue;
    panicked, queue := EnqueueAll(ad, lb, spec);
    r := RunOf([], [], 0, [], 0);
    if panicked { return Panicked, r; }

    ghost var first, tried, second, done;
    var suppressed;
    suppressed, first, tried := CloudProvider.UpdateLoadBalancer(cloud, lb, spec);
    ghost var mid := cloud.store;
    var refreshed := cloud.Get();
    result, second, done := RunRest(cloud, ad, refreshed, spec);
    r := RunOf(queue, first, tried, second, done);
    Assembled(cloud.server, spec, lb, r, suppressed, mid, result.Finished?, cloud.store, cloud.AlwaysFine());
  }

  /** What one reconciliation achieves. */
  ghost predicate Reconciled(server: Server, spec: Store, lb: Store, r: Run, t: Store) {
    && r.tried <= |r.first|
    && StripAll(t) == Target(server, spec, lb)
    && (forall d <- spec :: Agrees(spec, r.Refreshed(server, lb), t, d))
    && (forall k <- t :: Holds(spec, Slot(k)))
    && (forall d <- spec | Holds(lb, Slot(d)) :: NoDifference(spec, t, d))
    && (forall d <- spec | d.kind == Hostnames :: At(t, d) == Some(if d in lb then lb[d] else spec[d]))
    && Typed(t) && PlainListeners(t)
  }

  lemma RunReconciles(server: Server, spec: Store, lb: Store, r: Run, finished: bool, t: Store, fine: bool)
    requires Hypotheses(spec, lb) && RunsTo(server, spec, lb, r, finished, t, fine)
    ensures fine ==> (finished <==> forall p, b :: !StalePolicyInTheWay(server, spec, lb, p, b))
    ensures finished ==> Reconciled(server, spec, lb, r, t)
    ensures Target(server, spec, t) == Target(server, spec, lb)
    ensures forall k <- t | k.kind == Certificates :: At(t, k) == At(lb, k) || At(t, k) == At(spec, k)
  {
    RunKeepsTarget(server, spec, lb, r);
    forall k | k in t && k.kind == Certificates ensures At(t, k) == At(lb, k) || At(t, k) == At(spec, k) {
      CertificatesStay(server, spec, lb, r, k);
    }
    if finished {
      FinalIsPlain(server, spec, lb, r);
      CompleteRunReachesTarget(server, spec, lb, r);
      Converges(server, spec, lb, r);
      FoundDecides(server, spec, lb, r);
    }
    if fine { FineRunFinishes(server, spec, lb, r, finished, t); }
  }

  lemma FoundDecides(server: Server, spec: Store, lb: Store, r: Run)
    requires Hypotheses(spec, lb) && IsRun(server, spec, lb, r) && r.Complete()
    ensures forall d <- spec | Holds(lb, Slot(d)) :: NoDifference(spec, r.Final(server, lb), d)
    ensures forall d <- spec | d.kind == Hostnames :: At(r.Final(server, lb), d) == Some(if d in lb then lb[d] else spec[d])
  {
    forall d | d in spec && Holds(lb, Slot(d)) ensures NoDifference(spec, r.Final(server, lb), d) {
      FoundSlotsSettle(server, spec, lb, r, d);
    }
    forall d | d in spec && d.kind == Hostnames
      ensures At(r.Final(server, lb), d) == Some(if d in lb then lb[d] else spec[d])
    {
      EntriesStay(server, spec, lb, r, d);
    }
  }

  lemma FineRunFinishes(server: Server, spec: Store, lb: Store, r: Run, finished: bool, t: Store)
    requires Hypotheses(spec, lb) && RunsTo(server, spec, lb, r, finished, t, true)
    ensures finished <==> forall p, b :: !StalePolicyInTheWay(server, spec, lb, p, b)
  {
    NothingRejected(server, spec, lb, r);
  }

  /**
   One reconciliation of an existing load balancer. If it returns without error the tables are those the
   load balancer was heading for, what was found under a wanted slot shows no difference, and hostname entries are as found
   or as wanted; in fine weather it does so exactly when no stale policy is in the way;
   and however it ends, the next one heads for the same tables.
   */
  method Reconcile(cloud: Cloud, lb: Store, spec: Store) returns (result: Outcome, ghost r: Run)
    requires lb == cloud.store && Typed(spec)
    requires Hypotheses(spec, lb) && !CertificateClash(spec, lb)
    modifies cloud
    ensures cloud.AlwaysFine() ==>
              (result.Finished? <==> forall p, b :: !StalePolicyInTheWay(cloud.server, spec, lb, p, b))
    ensures result.Finished? ==> Reconciled(cloud.server, spec, lb, r, cloud.store)
    ensures Target(cloud.server, spec, cloud.store) == Target(cloud.server, spec, lb)
    ensures forall k <- cloud.store | k.kind == Certificates :: At(cloud.store, k) == At(lb, k) || At(cloud.store, k) == At(spec, k)
  {
    result, r := UpdateLoadBalancer(cloud, lb, spec);
    RunReconciles(cloud.server, spec, lb, r, result.Finished?, cloud.store, cloud.AlwaysFine());
  }

  /** The details while the listeners in `todo` still mention their policies. */
  function PartlyStripped(spec: Store, todo: set<Key>): Store {
    map k <- spec | k.kind != RoutingPolicies :: if k in todo then spec[k] else WithoutPolicy(spec[k])
  }

  lemma StripStep(spec: Store, todo: set<Key>, k: Key)
    requires Typed(spec) && k in spec && k.kind == Listeners
    ensures spec[k].Listener?
    ensures PartlyStripped(spec, todo)[k := spec[k].(routingPolicy := "")] == PartlyStripped(spec, todo - {k})
  {
    assert spec[k].Kind() == Listeners;
    var a, b := PartlyStripped(spec, todo)[k := spec[k].(routingPolicy := "")], PartlyStripped(spec, todo - {k});
    assert a.Keys == b.Keys;
  }

  lemma StripEnds(spec: Store)
    requires Typed(spec)
    ensures PartlyStripped(spec, Table(spec, Listeners)) == map k <- spec | k.kind != RoutingPolicies :: spec[k]
    ensures PartlyStripped(spec, {}) == CreateDetails(spec)
  {
    forall k | k in spec && k.kind != Listeners ensures WithoutPolicy(spec[k]) == spec[k] {
      assert spec[k].Kind() == k.kind;
    }
  }

  /** The loop of `createLoadBalancer` over the listeners. */
  method StripPolicies(spec: Store) returns (details: Store)
    requires Typed(spec)
    ensures details == CreateDetails(spec)
    ensures details.Keys == set k <- spec | k.kind != RoutingPolicies
    ensures forall k <- details :: details[k] == if k.kind == Listeners then spec[k].(routingPolicy := "") else spec[k]
  {
    hide PartlyStripped;
    details := map k <- spec | k.kind != RoutingPolicies :: spec[k];
    StripEnds(spec);
    var todo := Table(spec, Listeners);
    while todo != {}
      invariant todo <= Table(spec, Listeners) && details == PartlyStripped(spec, todo)
      decreases |todo|
    {
      var k :| k in todo;
      StripStep(spec, todo, k);
      details := details[k := spec[k].(routingPolicy := "")];
      todo := todo - {k};
    }
    DetailsByKey(spec);
  }

  lemma DetailsByKey(spec: Store)
    requires Typed(spec)
    ensures var details := CreateDetails(spec);
      && details.Keys == (set k <- spec | k.kind != RoutingPolicies)
      && forall k <- details :: k.kind == Listeners <==> spec[k].Listener?
    ensures var details := CreateDetails(spec);
      forall k <- details :: details[k] == if k.kind == Listeners then spec[k].(routingPolicy := "") else spec[k]
  {
    forall k | k in spec ensures k.kind == Listeners <==> spec[k].Listener? {
      assert spec[k].Kind() == k.kind;
    }
  }

  /** `createLoadBalancer`: the listeners are sent without their routing policies, which cannot exist yet. */
  method CreateLoadBalancer(cloud: Cloud, spec: Store) returns (lb: Option<Store>)
    requires Closed(spec)
    modifies cloud
    ensures lb.Some? ==> cloud.store == Fresh(cloud.server, spec) && lb.value == cloud.store
    ensures lb.None? ==> cloud.store == Fresh(cloud.server, spec) || cloud.store == old(cloud.store)
    ensures lb.Some? ==>
      && lb.value.Keys == (set k <- spec | k.kind != RoutingPolicies)
      && forall k <- lb.value ::
           k in spec && lb.value[k] == cloud.server.Stored(if spec[k].Listener? then spec[k].(routingPolicy := "") else spec[k])
    ensures cloud.AlwaysFine() ==> lb.Some?
  {
    var details := StripPolicies(spec);
    DetailsAreClosed(spec);
    var ok := cloud.Provision(details);
    if !ok { return None; }
    lb := cloud.Get();
  }

  lemma FreshHypotheses(server: Server, spec: Store)
    requires WellNamed(spec) && Closed(spec) && PlainListeners(spec)
    ensures Hypotheses(spec, Fresh(server, spec)) && !CertificateClash(spec, Fresh(server, spec))
    ensures forall p, b :: !StalePolicyInTheWay(server, spec, Fresh(server, spec), p, b)
  {
    FreshNamed(server, spec);
    forall k | k in Fresh(server, spec)
      ensures var r := Fresh(server, spec)[k]; r.Kind() == k.kind && PlainLists(r) && (k.kind == Certificates ==> r == spec[k])
    {
      assert spec[k].Kind() == k.kind && PlainLists(spec[k]);
    }
  }

  lemma FreshCertificates(server: Server, spec: Store)
    requires Typed(spec)
    ensures forall k <- Fresh(server, spec) | k.kind == Certificates :: At(Fresh(server, spec), k) == At(spec, k)
  {
    forall k | k in Fresh(server, spec) && k.kind == Certificates ensures At(Fresh(server, spec), k) == At(spec, k) {
      assert spec[k].Kind() == Certificates;
    }
  }

  /** A load balancer just created has no certificates but wanted ones, whatever became of the update. */
  lemma CertificatesAfter(server: Server, spec: Store, r: Run, t: Store)
    requires Typed(spec) && WellNamed(spec) && IsRun(server, spec, Fresh(server, spec), r) && t == r.Final(server, Fresh(server, spec))
    ensures forall k <- t | k.kind == Certificates :: At(t, k) == At(spec, k)
  {
    FreshCertificates(server, spec);
    forall k | k in t && k.kind == Certificates ensures At(t, k) == At(spec, k) {
      CertificatesStay(server, spec, Fresh(server, spec), r, k);
    }
  }

  /**
   A new load balancer: created and updated at once. Without error it shows no difference from the spec
   at all, hostname entries have the wanted hosts, and in fine weather there is no error.
   */
  method ReconcileNew(cloud: Cloud, spec: Store) returns (result: Outcome)
    requires WellNamed(spec) && Closed(spec) && PlainListeners(spec)
    modifies cloud
    ensures result.Finished? ==> cloud.store.Keys == spec.Keys && forall d <- spec :: !Changed(cloud.store[d], spec[d])
    ensures result.Finished? ==> forall d <- spec | d.kind == Hostnames :: cloud.store[d] == spec[d]
    ensures result.Finished? ==> Typed(cloud.store) && PlainListeners(cloud.store)
    ensures forall k <- cloud.store | k.kind == Certificates ::
              At(cloud.store, k) == At(old(cloud.store), k) || At(cloud.store, k) == At(spec, k)
    ensures cloud.AlwaysFine() ==> result.Finished?
  {
    var lb := CreateLoadBalancer(cloud, spec);
    FreshCertificates(cloud.server, spec);
    if lb.None? { return Failed; }
    FreshHypotheses(cloud.server, spec);
    ghost var r;
    result, r := UpdateLoadBalancer(cloud, lb.value, spec);
    CertificatesAfter(cloud.server, spec, r, cloud.store);
    if result.Finished? {
      FreshSettles(cloud.server, spec, r);
      FinalIsPlain(cloud.server, spec, lb.value, r);
    }
    if cloud.AlwaysFine() {
      FineRunFinishes(cloud.server, spec, Fresh(cloud.server, spec), r, result.Finished?, cloud.store);
    }
  }
}
