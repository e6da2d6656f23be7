/** The diff loops of load_balancer_util.go and the action loop of `CloudProvider.UpdateLoadBalancer`. */
module CloudProvider {
  import opened Tables
  import opened ListenerNames
  import opened Differences
  import opened Comparisons
  import opened Sorting
  import opened Runs
  import opened CloudApi

  /** `hasBackendSetChanged`. */
  method HasBackendSetChanged(actual: Resource, desired: Resource) returns (changed: bool)
    requires actual.BackendSet? && desired.BackendSet?
    ensures changed == BackendSetChanged(actual, desired)
    ensures !changed <==>
      && actual.policy == desired.policy
      && (forall ip, port :: HasAddress(actual.backends, ip, port) <==> HasAddress(desired.backends, ip, port))
      && (actual.backends != [] && desired.backends != [] ==> actual.backends[0].port == desired.backends[0].port)
      && (desired.healthChecker.Some? ==> HealthCheckerFits(actual.healthChecker, desired.healthChecker.value))
  {
    changed := HealthCheckerChanged(actual.healthChecker, desired.healthChecker);
    if |actual.backends| > 0 && |desired.backends| > 0 {
      changed := changed || actual.backends[0].port != desired.backends[0].port;
    }
    changed := changed || actual.policy != desired.policy;
    ghost var others := changed;

    var desiredSet := {};
    for i := 0 to |desired.backends|
      invariant desiredSet == Addresses(desired.backends[..i])
    {
      AddressesStep(desired.backends, i);
      desiredSet := desiredSet + {(desired.backends[i].ip, desired.backends[i].port)};
    }
    assert desired.backends[..|desired.backends|] == desired.backends;
    var actualSet := {};
    var backendChanges := false;
    for i := 0 to |actual.backends|
      invariant actualSet == Addresses(actual.backends[..i])
      invariant !backendChanges <==> actualSet <= desiredSet
    {
      AddressesStep(actual.backends, i);
      var address := (actual.backends[i].ip, actual.backends[i].port);
      if address !in desiredSet { backendChanges := true; }
      actualSet := actualSet + {address};
    }
    assert actual.backends[..|actual.backends|] == actual.backends;
    for i := 0 to |desired.backends|
      invariant !backendChanges <==> actualSet <= desiredSet && Addresses(desired.backends[..i]) <= actualSet
    {
      AddressesStep(desired.backends, i);
      if (desired.backends[i].ip, desired.backends[i].port) !in actualSet { backendChanges := true; }
    }
    changed := changed || backendChanges;
    BackendSetsAgree(actual, desired);
  }

  lemma AddressesStep(backends: seq<Backend>, i: nat)
    requires i < |backends|
    ensures Addresses(backends[..i + 1]) == Addresses(backends[..i]) + {(backends[i].ip, backends[i].port)}
  {
    assert backends[..i + 1] == backends[..i] + [backends[i]];
  }

  lemma MoveKey(todo: set<Key>, seen: set<Key>, k: Key)
    requires k in todo && todo !! seen
    ensures todo - {k} !! seen + {k} && (todo - {k}) + (seen + {k}) == todo + seen
  {
  }

  /** What the loops over a table have done so far: `seen` existing resources are dealt with. */
  ghost predicate Diffed(spec: Store, s: Store, kind: Kind, calls: seq<Call>, seen: set<Key>) {
    && (forall c <- calls :: c.key.kind == kind && c.key in seen && Justified(spec, s, c))
    && (forall k <- seen :: k in s && k.kind == kind && Handled(spec, s, calls, k))
    && DistinctKeys(calls)
  }

  lemma DiffStep(spec: Store, s: Store, kind: Kind, calls: seq<Call>, seen: set<Key>, k: Key, more: seq<Call>)
    requires Diffed(spec, s, kind, calls, seen) && k in s && k.kind == kind && k !in seen
    requires |more| <= 1 && forall c <- more :: c.key == k && Justified(spec, s, c)
    requires Handled(spec, s, calls + more, k)
    ensures Diffed(spec, s, kind, calls + more, seen + {k})
  {
    forall j | j in seen ensures Handled(spec, s, calls + more, j) {
      assert Handled(spec, s, calls, j);
    }
  }

  /** An existing resource that is not wanted is deleted. */
  lemma DiffDelete(spec: Store, s: Store, kind: Kind, calls: seq<Call>, seen: set<Key>, k: Key)
    requires Diffed(spec, s, kind, calls, seen) && k in s && k.kind == kind && k !in seen
    requires !Holds(spec, Slot(k))
    ensures Diffed(spec, s, kind, calls + [Delete(k)], seen + {k})
  {
    assert Delete(k) in calls + [Delete(k)];
    DiffStep(spec, s, kind, calls, seen, k, [Delete(k)]);
  }

  /** An existing resource that is wanted is updated if the code sees a difference. */
  lemma DiffUpdate(spec: Store, s: Store, kind: Kind, calls: seq<Call>, seen: set<Key>, k: Key, d: Key, more: seq<Call>)
    requires Diffed(spec, s, kind, calls, seen) && k in s && k.kind == kind && k !in seen
    requires d in spec && Slot(d) == Slot(k)
    requires more == if Changed(s[k], spec[d]) then [Update(k, spec[d])] else []
    ensures Diffed(spec, s, kind, calls + more, seen + {k})
  {
    assert Changed(s[k], spec[d]) ==> Update(k, spec[d]) in calls + more;
    DiffStep(spec, s, kind, calls, seen, k, more);
  }

  /** What the second loop of a diff has done so far: the wanted resources in `made` are dealt with. */
  ghost predicate Completed(spec: Store, s: Store, kind: Kind, calls: seq<Call>, made: set<Key>) {
    && (forall c <- calls :: c.key.kind == kind && Justified(spec, s, c) && (c.key in s || c.key in made))
    && (forall k <- s | k.kind == kind :: Handled(spec, s, calls, k))
    && (forall d <- made :: d in spec && (Holds(s, Slot(d)) || Create(d, spec[d]) in calls))
    && DistinctKeys(calls)
  }

  /** What is wanted and does not exist is created. */
  lemma CompleteStep(spec: Store, s: Store, kind: Kind, calls: seq<Call>, made: set<Key>, d: Key, more: seq<Call>)
    requires Completed(spec, s, kind, calls, made) && d in spec && d.kind == kind && d !in made
    requires more == if Holds(s, Slot(d)) then [] else [Create(d, spec[d])]
    ensures Completed(spec, s, kind, calls + more, made + {d})
  {
    forall k | k in s && k.kind == kind ensures Handled(spec, s, calls + more, k) {
      assert Handled(spec, s, calls, k);
    }
    assert more == [] || (d !in s && Create(d, spec[d]) in calls + more);
    forall j | j in made ensures Holds(s, Slot(j)) || Create(j, spec[j]) in calls + more {
      assert Create(j, spec[j]) in calls ==> Create(j, spec[j]) in calls + more;
    }
  }

  /** `getBackendSetChanges`, first loop; the tables are walked in any order. */
  method ChangeBackendSets(actual: Store, desired: Store) returns (calls: seq<Call>)
    ensures Completed(desired, actual, BackendSets, calls, {})
  {
    calls := [];
    ghost var seen: set<Key> := {};
    var todo := Table(actual, BackendSets);
    while todo != {}
      invariant todo !! seen && todo + seen == Table(actual, BackendSets)
      invariant Diffed(desired, actual, BackendSets, calls, seen)
      decreases |todo|
    {
      var k :| k in todo;
      OwnSlot(desired, k);
      if k !in desired {
        DiffDelete(desired, actual, BackendSets, calls, seen, k);
        calls := calls + [Delete(k)];
      } else {
        var more := if Changed(actual[k], desired[k]) then [Update(k, desired[k])] else [];
        DiffUpdate(desired, actual, BackendSets, calls, seen, k, k, more);
        calls := calls + more;
      }
      MoveKey(todo, seen, k);
      seen, todo := seen + {k}, todo - {k};
    }
    DiffDone(desired, actual, BackendSets, calls, seen);
  }

  lemma DiffDone(spec: Store, s: Store, kind: Kind, calls: seq<Call>, seen: set<Key>)
    requires Diffed(spec, s, kind, calls, seen) && seen == Table(s, kind)
    ensures Completed(spec, s, kind, calls, {})
  {
  }

  lemma CompleteDone(spec: Store, s: Store, kind: Kind, calls: seq<Call>, made: set<Key>)
    requires Completed(spec, s, kind, calls, made) && made == Table(spec, kind)
    ensures Plan(spec, s, {kind}, calls) && DistinctKeys(calls)
  {
  }

  /** `getBackendSetChanges`, with its second loop. */
  method GetBackendSetChanges(actual: Store, desired: Store) returns (calls: seq<Call>)
    ensures Plan(desired, actual, {BackendSets}, calls) && DistinctKeys(calls)
  {
    calls := ChangeBackendSets(actual, desired);
    ghost var made: set<Key> := {};
    var todo := Table(desired, BackendSets);
    while todo != {}
      invariant todo !! made && todo + made == Table(desired, BackendSets)
      invariant Completed(desired, actual, BackendSets, calls, made)
      decreases |todo|
    {
      var d :| d in todo;
      OwnSlot(actual, d);
      var more := if d !in actual then [Create(d, desired[d])] else [];
      CompleteStep(desired, actual, BackendSets, calls, made, d, more);
      MoveKey(todo, made, d);
      calls, todo, made := calls + more, todo - {d}, made + {d};
    }
    CompleteDone(desired, actual, BackendSets, calls, made);
  }

  /** The wanted listeners by sanitized name, as the loop enters them. */
  ghost predicate SanitizedTable(desired: Store, table: map<string, Key>, entered: set<Key>) {
    && (forall name <- table :: table[name] in desired && Slot(table[name]) == Key(Listeners, name))
    && (forall d <- entered :: Sanitized(d.name) in table)
  }

  method SanitizeDesired(desired: Store) returns (table: map<string, Key>)
    ensures SanitizedTable(desired, table, Table(desired, Listeners))
  {
    table := map[];
    var todo := Table(desired, Listeners);
    ghost var entered: set<Key> := {};
    while todo != {}
      invariant todo + entered == Table(desired, Listeners)
      invariant SanitizedTable(desired, table, entered)
      decreases |todo|
    {
      var d :| d in todo;
      table := table[Sanitized(d.name) := d];
      todo, entered := todo - {d}, entered + {d};
    }
  }

  /** `exists_` holds the sanitized names of the wanted listeners found among `seen`. */
  ghost predicate Found(desired: Store, seen: set<Key>, exists_: set<string>) {
    forall name :: name in exists_ <==>
      Holds(desired, Key(Listeners, name)) && exists k <- seen :: Slot(k) == Key(Listeners, name)
  }

  lemma FoundStep(desired: Store, seen: set<Key>, exists_: set<string>, k: Key)
    requires Found(desired, seen, exists_) && k.kind == Listeners
    ensures Found(desired, seen + {k}, if Holds(desired, Slot(k)) then exists_ + {Sanitized(k.name)} else exists_)
  {
  }

  /** `exists_` tells which wanted listeners exist. */
  ghost predicate Marks(desired: Store, actual: Store, exists_: set<string>) {
    forall d <- desired | d.kind == Listeners :: Sanitized(d.name) in exists_ <==> Holds(actual, Slot(d))
  }

  lemma FoundAll(desired: Store, actual: Store, exists_: set<string>)
    requires Found(desired, Table(actual, Listeners), exists_)
    ensures Marks(desired, actual, exists_)
  {
    forall d | d in desired && d.kind == Listeners
      ensures Sanitized(d.name) in exists_ <==> Holds(actual, Slot(d))
    {
      assert Slot(d) == Key(Listeners, Sanitized(d.name));
      assert Holds(desired, Slot(d));
      if Holds(actual, Slot(d)) {
        var k :| k in actual && Slot(k) == Slot(d);
        assert k.kind == Listeners;
      }
    }
  }

  /** The state of the first listener loop. */
  ghost predicate Walked(desired: Store, actual: Store, calls: seq<Call>, seen: set<Key>, exists_: set<string>) {
    Diffed(desired, actual, Listeners, calls, seen) && Found(desired, seen, exists_)
  }

  lemma WalkStep(desired: Store, actual: Store, table: map<string, Key>, calls: seq<Call>, seen: set<Key>,
                 exists_: set<string>, k: Key, more: seq<Call>)
    requires SanitizedTable(desired, table, Table(desired, Listeners))
    requires Walked(desired, actual, calls, seen, exists_) && k in actual && k.kind == Listeners && k !in seen
    requires var name := Sanitized(k.name);
      more == if name !in table then [Delete(k)]
              else if Changed(actual[k], desired[table[name]]) then [Update(k, desired[table[name]])] else []
    ensures Walked(desired, actual, calls + more, seen + {k},
                   if Sanitized(k.name) in table then exists_ + {Sanitized(k.name)} else exists_)
  {
    SanitizedHolds(desired, table, k);
    FoundStep(desired, seen, exists_, k);
    if Sanitized(k.name) !in table {
      DiffDelete(desired, actual, Listeners, calls, seen, k);
    } else {
      DiffUpdate(desired, actual, Listeners, calls, seen, k, table[Sanitized(k.name)], more);
    }
  }

  /** `getListenerChanges`, first loop: existing listeners are matched with wanted ones by sanitized name. */
  method ChangeListeners(actual: Store, desired: Store) returns (calls: seq<Call>, exists_: set<string>)
    ensures Completed(desired, actual, Listeners, calls, {}) && Marks(desired, actual, exists_)
  {
    var sanitizedDesired := SanitizeDesired(desired);
    calls := [];
    exists_ := {};
    ghost var seen: set<Key> := {};
    var todo := Table(actual, Listeners);
    while todo != {}
      invariant todo !! seen && todo + seen == Table(actual, Listeners)
      invariant Walked(desired, actual, calls, seen, exists_)
      decreases |todo|
    {
      var k :| k in todo;
      var more := [];
      ghost var found := exists_;
      if Sanitized(k.name) !in sanitizedDesired {
        more := [Delete(k)];
      } else {
        exists_ := exists_ + {Sanitized(k.name)};
        var d := sanitizedDesired[Sanitized(k.name)];
        if Changed(actual[k], desired[d]) { more := [Update(k, desired[d])]; }
      }
      WalkStep(desired, actual, sanitizedDesired, calls, seen, found, k, more);
      MoveKey(todo, seen, k);
      calls, seen, todo := calls + more, seen + {k}, todo - {k};
    }
    DiffDone(desired, actual, Listeners, calls, seen);
    FoundAll(desired, actual, exists_);
  }

  /** `getListenerChanges`, with its second loop. */
  method GetListenerChanges(actual: Store, desired: Store) returns (calls: seq<Call>)
    ensures Plan(desired, actual, {Listeners}, calls) && DistinctKeys(calls)
  {
    var exists_;
    calls, exists_ := ChangeListeners(actual, desired);
    ghost var made: set<Key> := {};
    var todo := Table(desired, Listeners);
    while todo != {}
      invariant todo !! made && todo + made == Table(desired, Listeners)
      invariant Completed(desired, actual, Listeners, calls, made)
      decreases |todo|
    {
      var d :| d in todo;
      assert Sanitized(d.name) in exists_ <==> Holds(actual, Slot(d));
      var more := if Sanitized(d.name) !in exists_ then [Create(d, desired[d])] else [];
      CompleteStep(desired, actual, Listeners, calls, made, d, more);
      MoveKey(todo, made, d);
      calls, todo, made := calls + more, todo - {d}, made + {d};
    }
    CompleteDone(desired, actual, Listeners, calls, made);
  }

  lemma SanitizedHolds(desired: Store, table: map<string, Key>, k: Key)
    requires SanitizedTable(desired, table, Table(desired, Listeners)) && k.kind == Listeners
    ensures Sanitized(k.name) in table <==> Holds(desired, Slot(k))
  {
    if Holds(desired, Slot(k)) {
      var d :| d in desired && Slot(d) == Slot(k);
      assert d.kind == Listeners;
    }
  }

  /** Two plans for different tables, sorted into one. */
  lemma SortedPlan(spec: Store, s: Store, sets: seq<Call>, listeners: seq<Call>)
    requires Plan(spec, s, {BackendSets}, sets) && DistinctKeys(sets)
    requires Plan(spec, s, {Listeners}, listeners) && DistinctKeys(listeners)
    ensures var calls := SortAndCombine(sets, listeners);
            Plan(spec, s, PROVIDER, calls) && DistinctKeys(calls) && Sorted(calls)
  {
    var calls := SortAndCombine(sets, listeners);
    SortIsPermutation(sets, listeners);
    SortIsStable(sets, listeners);
    SelectionDistinct(sets + listeners, calls);
    forall c ensures c in calls <==> c in sets || c in listeners {
      SameMembers(calls, sets + listeners, c);
    }
    MergedPlan(spec, s, sets, listeners, calls);
  }

  lemma SameMembers(a: seq<Call>, b: seq<Call>, c: Call)
    requires multiset(a) == multiset(b)
    ensures c in a <==> c in b
  {
    assert c in a <==> c in multiset(a);
    assert c in b <==> c in multiset(b);
  }

  lemma MergedPlan(spec: Store, s: Store, sets: seq<Call>, listeners: seq<Call>, calls: seq<Call>)
    requires Plan(spec, s, {BackendSets}, sets) && Plan(spec, s, {Listeners}, listeners)
    requires forall c :: c in calls <==> c in sets || c in listeners
    ensures Plan(spec, s, PROVIDER, calls)
  {
    forall k | k in s && k.kind in PROVIDER ensures Handled(spec, s, calls, k) {
      assert k.kind == BackendSets ==> Handled(spec, s, sets, k);
      assert k.kind == Listeners ==> Handled(spec, s, listeners, k);
    }
  }

  /** Some plan can always be read off; it is what a provider pass that never began would have worked on. */
  lemma SomePlan(spec: Store, s: Store) returns (calls: seq<Call>)
    ensures Plan(spec, s, PROVIDER, calls) && DistinctKeys(calls) && Sorted(calls)
  {
    var sets := SomeTablePlan(spec, s, BackendSets);
    var listeners := SomeTablePlan(spec, s, Listeners);
    SortedPlan(spec, s, sets, listeners);
    calls := SortAndCombine(sets, listeners);
  }

  lemma SomeTablePlan(spec: Store, s: Store, kind: Kind) returns (calls: seq<Call>)
    ensures Plan(spec, s, {kind}, calls) && DistinctKeys(calls)
  {
    calls := [];
    var seen, todo := {}, Table(s, kind);
    while todo != {}
      invariant todo !! seen && todo + seen == Table(s, kind) && Diffed(spec, s, kind, calls, seen)
    {
      var k :| k in todo;
      var more := [Delete(k)];
      if Holds(spec, Slot(k)) {
        var d :| d in spec && Slot(d) == Slot(k);
        more := if Changed(s[k], spec[d]) then [Update(k, spec[d])] else [];
        DiffUpdate(spec, s, kind, calls, seen, k, d, more);
      } else {
        DiffDelete(spec, s, kind, calls, seen, k);
      }
      MoveKey(todo, seen, k);
      calls, seen, todo := calls + more, seen + {k}, todo - {k};
    }
    DiffDone(spec, s, kind, calls, seen);
    var made: set<Key> := {};
    todo := Table(spec, kind);
    while todo != {}
      invariant todo !! made && todo + made == Table(spec, kind) && Completed(spec, s, kind, calls, made)
    {
      var d :| d in todo;
      var more := if Holds(s, Slot(d)) then [] else [Create(d, spec[d])];
      CompleteStep(spec, s, kind, calls, made, d, more);
      MoveKey(todo, made, d);
      calls, todo, made := calls + more, todo - {d}, made + {d};
    }
    CompleteDone(spec, s, kind, calls, made);
  }

  /** `UpdateLoadBalancer`: compares the tables as they were read with the wanted ones and works the actions off. */
  method UpdateLoadBalancer(cloud: Cloud, lb: Store, spec: Store)
    returns (ok: bool, ghost calls: seq<Call>, ghost made: nat)
    modifies cloud
    ensures Plan(spec, lb, PROVIDER, calls) && DistinctKeys(calls) && Sorted(calls)
    ensures Ran(cloud.server, old(cloud.store), calls, ok, made, cloud.store, cloud.AlwaysFine())
  {
    var backendSetActions := GetBackendSetChanges(lb, spec);
    var listenerActions := GetListenerChanges(lb, spec);
    SortedPlan(spec, lb, backendSetActions, listenerActions);
    var actions := SortAndCombine(backendSetActions, listenerActions);
    calls, made, ok := actions, 0, true;
    for i := 0 to |actions|
      invariant made == i && Made(cloud.server, old(cloud.store), actions, made, cloud.store)
    {
      ok, made := cloud.SendNext(old(cloud.store), actions, made, actions[i]);
      if !ok { return; }
    }
  }
}
