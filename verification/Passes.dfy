/**
 Single passes of the cloud provider's UpdateLoadBalancer, and the first reconciliation of a
 load balancer that has just been created.
 */
module Passes {
  import opened Wrappers
  import opened Tables
  import opened Differences
  import opened Plans
  import opened Runs

  /** `calls` updates exactly the listeners that `created` made without their rule sets. */
  ghost predicate RepairsRuleSets(created: seq<Call>, calls: seq<Call>) {
    forall c :: c in calls <==> c.Update? && HasRuleSets(c.body) && Create(c.key, c.body) in created
  }

  lemma SecondPassRepairs(server: Server, spec: Store, s: Store, first: seq<Call>, second: seq<Call>, c: Call)
    requires WellNamed(spec) && WellNamed(s) && Plan(spec, s, PROVIDER, first)
    requires Plan(spec, After(server, s, first, |first|), PROVIDER, second)
    ensures c in second <==> c.Update? && HasRuleSets(c.body) && Create(c.key, c.body) in first
  {
    hide After;
    var t := After(server, s, first, |first|);
    NamesSurvive(server, spec, s, first, |first|);
    if c in second {
      if c.Delete? {
        PlanRemoves(server, spec, s, PROVIDER, first, c.key);
      } else {
        var d := if c.Create? then c.key else WantedBy(spec, Slot(c.key));
        assert Slot(d).kind == d.kind && Slot(c.key).kind == c.key.kind;
        PlanAgrees(server, spec, s, PROVIDER, first, d);
        assert Create(d, spec[d]) in first;
        var i :| 0 <= i < |first| && first[i] == Create(d, spec[d]);
        Written(server, spec, s, first, |first|, i);
      }
    }
    if c.Update? && HasRuleSets(c.body) && Create(c.key, c.body) in first {
      var i :| 0 <= i < |first| && first[i] == Create(c.key, c.body);
      Written(server, spec, s, first, |first|, i);
      StoredIsWanted(server, first[i]);
      assert Handled(spec, t, second, c.key);
    }
  }

  /**
   Creating without rule sets costs at most one more pass: after one complete pass the next one only
   updates the listeners just created with rule sets, and the pass after that has nothing to do.
   */
  lemma TwoPassesSettle(server: Server, spec: Store, s: Store, first: seq<Call>, second: seq<Call>, third: seq<Call>)
    requires WellNamed(spec) && WellNamed(s) && Plan(spec, s, PROVIDER, first)
    requires Plan(spec, After(server, s, first, |first|), PROVIDER, second)
    requires Plan(spec, After(server, After(server, s, first, |first|), second, |second|), PROVIDER, third)
    ensures RepairsRuleSets(first, second)
    ensures third == []
  {
    forall c ensures c in second <==> c.Update? && HasRuleSets(c.body) && Create(c.key, c.body) in first {
      SecondPassRepairs(server, spec, s, first, second, c);
    }
    NamesSurvive(server, spec, s, first, |first|);
    assert third != [] ==> third[0] in third;
    forall c ensures c !in third {
      SecondPassRepairs(server, spec, After(server, s, first, |first|), second, third, c);
    }
  }

  /** Every listener sits in the listener table and its default backend set exists. */
  ghost predicate DefaultsExist(s: Store) {
    forall k <- s | s[k].Listener? :: k.kind == Listeners && Key(BackendSets, s[k].defaultBackendSet) in s
  }

  /** In a sorted list, a call with a smaller action index than one already made has been made. */
  lemma MadeBefore(calls: seq<Call>, n: nat, i: nat, c: Call) returns (j: nat)
    requires Sorted(calls) && i < n <= |calls| && c in calls && ActionIndex(c) < ActionIndex(calls[i])
    ensures j < i && calls[j] == c
  {
    j :| 0 <= j < |calls| && calls[j] == c;
  }

  /**
   Order alone keeps listeners working: after every single step of a sorted pass, even against an API
   that rejects nothing, the default backend set of each listener exists.
   */
  lemma EveryStepKeepsDefaults(server: Server, spec: Store, s: Store, calls: seq<Call>, n: nat)
    requires WellNamed(spec) && Closed(spec) && DefaultsExist(s)
    requires Plan(spec, s, PROVIDER, calls) && Sorted(calls) && n <= |calls|
    ensures DefaultsExist(After(server, s, calls, n))
  {
    var t := After(server, s, calls, n);
    forall k | k in t && t[k].Listener?
      ensures k.kind == Listeners && Key(BackendSets, t[k].defaultBackendSet) in t
    {
      var i := WrittenOrUntouched(server, spec, s, calls, n, k);
      if i < n {
        var d := WantedBy(spec, Slot(k));
        assert calls[i].body == spec[d] && t[k] == server.Stored(calls[i].Sent());
        StoredDefault(server, calls[i]);
        ListenerDefault(spec, d);
        WantedSetExists(server, spec, s, calls, n, i, Key(BackendSets, spec[d].defaultBackendSet));
      } else {
        UsedSetSurvives(server, spec, s, calls, n, k);
      }
    }
  }

  lemma StoredDefault(server: Server, c: Call)
    requires !c.Delete? && server.Stored(c.Sent()).Listener?
    ensures c.body.Listener? && server.Stored(c.Sent()).defaultBackendSet == c.body.defaultBackendSet
  {
  }

  lemma ListenerDefault(spec: Store, d: Key)
    requires Closed(spec) && d in spec && spec[d].Listener?
    ensures d.kind == Listeners && Key(BackendSets, spec[d].defaultBackendSet) in spec
  {
    assert Key(BackendSets, spec[d].defaultBackendSet) in spec[d].Refs();
  }

  lemma WantedSetExists(server: Server, spec: Store, s: Store, calls: seq<Call>, n: nat, i: nat, b: Key)
    requires WellNamed(spec) && Plan(spec, s, PROVIDER, calls) && Sorted(calls) && i < n <= |calls|
    requires b in spec && b.kind == BackendSets && calls[i].key.kind == Listeners
    ensures b in After(server, s, calls, n)
  {
    if b in s {
      StaysHeld(server, spec, s, calls, n, b);
    } else {
      OwnSlot(s, b);
      var j := MadeBefore(calls, n, i, Create(b, spec[b]));
      Written(server, spec, s, calls, n, j);
    }
  }

  lemma UsedSetSurvives(server: Server, spec: Store, s: Store, calls: seq<Call>, n: nat, k: Key)
    requires WellNamed(spec) && Closed(spec) && DefaultsExist(s)
    requires Plan(spec, s, PROVIDER, calls) && Sorted(calls) && n <= |calls|
    requires k in s && s[k].Listener? && forall i | 0 <= i < n :: calls[i].key != k
    ensures Key(BackendSets, s[k].defaultBackendSet) in After(server, s, calls, n)
  {
    var b := Key(BackendSets, s[k].defaultBackendSet);
    var i := WrittenOrUntouched(server, spec, s, calls, n, b);
    if i < n && calls[i].Delete? {
      OwnSlot(spec, b);
      assert Handled(spec, s, calls, k);
      if Holds(spec, Slot(k)) {
        var d := WantedBy(spec, Slot(k));
        if Changed(s[k], spec[d]) {
          var j := MadeBefore(calls, n, i, Update(k, spec[d]));
          assert false;
        }
        ListenerDefault(spec, d);
      } else {
        var j := MadeBefore(calls, n, i, Delete(k));
      }
      assert false;
    }
  }

  /** What `createLoadBalancer` asks for: everything but the routing policies and their mention by listeners. */
  function WithoutPolicy(r: Resource): Resource {
    if r.Listener? then r.(routingPolicy := "") else r
  }

  function CreateDetails(spec: Store): Store {
    map k <- spec | k.kind != RoutingPolicies :: WithoutPolicy(spec[k])
  }

  /** The tables of a load balancer that has just been created. */
  function Fresh(server: Server, spec: Store): Store {
    map k <- spec | k.kind != RoutingPolicies :: server.Stored(WithoutPolicy(spec[k]))
  }

  /** Leaving the policies out is enough for the request to name nothing that is missing. */
  lemma DetailsAreClosed(spec: Store)
    requires Closed(spec)
    ensures Closed(CreateDetails(spec))
  {
    var details := CreateDetails(spec);
    forall k | k in details ensures details[k].Kind() == k.kind && details[k].Refs() <= details.Keys {
      assert spec[k].Refs() <= spec.Keys && spec[k].Kind() == k.kind;
      DetailRefs(spec[k]);
    }
  }

  lemma DetailRefs(r: Resource)
    requires !r.RoutingPolicy?
    ensures var f := WithoutPolicy(r);
            f.Kind() == r.Kind() && forall ref <- f.Refs() :: ref in r.Refs() && ref.kind != RoutingPolicies
  {
  }

  /** Creating and then one complete run leave nothing to do, rule sets included. */
  lemma FreshSettles(server: Server, spec: Store, r: Run)
    requires WellNamed(spec) && Closed(spec)
    requires IsRun(server, spec, Fresh(server, spec), r) && r.Complete()
    ensures r.Final(server, Fresh(server, spec)).Keys == spec.Keys
    ensures forall d <- spec :: !Changed(r.Final(server, Fresh(server, spec))[d], spec[d])
    ensures forall d <- spec | d.kind == Hostnames :: r.Final(server, Fresh(server, spec))[d] == spec[d]
  {
    var s := Fresh(server, spec);
    forall d | d in spec && d.kind == Hostnames ensures d in r.Final(server, s) && r.Final(server, s)[d] == spec[d] {
      FreshEntry(server, spec, d);
      FreshTyped(server, spec);
      EntriesStay(server, spec, s, r, d);
    }
    FreshNamed(server, spec);
    CompleteRunReachesTarget(server, spec, s, r);
    FreshKeys(server, spec, r.Final(server, s));
    Converges(server, spec, s, r);
    forall d | d in spec ensures !Changed(r.Final(server, s)[d], spec[d]) {
      FreshHeld(server, spec, r, d);
      AgreesInPlace(spec, r.Refreshed(server, s), r.Final(server, s), d);
    }
  }

  lemma FreshEntry(server: Server, spec: Store, d: Key)
    requires Closed(spec) && d in spec && d.kind == Hostnames
    ensures At(Fresh(server, spec), d) == Some(spec[d])
  {
    assert spec[d].Kind() == Hostnames;
  }

  lemma FreshTyped(server: Server, spec: Store)
    requires Closed(spec)
    ensures Typed(spec) && Typed(Fresh(server, spec))
  {
    forall k | k in Fresh(server, spec) ensures Fresh(server, spec)[k].Kind() == k.kind {
      assert spec[k].Kind() == k.kind;
    }
  }

  lemma FreshNamed(server: Server, spec: Store)
    requires WellNamed(spec)
    ensures WellNamed(Fresh(server, spec))
  {
    assert forall k :: k in Fresh(server, spec) ==> k in spec;
  }

  lemma FreshKeys(server: Server, spec: Store, t: Store)
    requires WellNamed(spec) && StripAll(t) == Target(server, spec, Fresh(server, spec))
    ensures t.Keys == spec.Keys
  {
    assert t.Keys == StripAll(t).Keys;
    forall k ensures k in t <==> k in spec {
      FreshTarget(server, spec, k);
    }
  }

  lemma FreshHeld(server: Server, spec: Store, r: Run, d: Key)
    requires WellNamed(spec) && Closed(spec) && IsRun(server, spec, Fresh(server, spec), r) && d in spec
    ensures Holds(r.Refreshed(server, Fresh(server, spec)), Slot(d)) || !HasRuleSets(spec[d])
  {
    assert spec[d].Kind() == d.kind;
    if d in Fresh(server, spec) {
      StaysHeld(server, spec, Fresh(server, spec), r.first, r.tried, d);
    }
  }

  lemma AgreesInPlace(spec: Store, before: Store, t: Store, d: Key)
    requires WellNamed(t) && d in spec && d in t && Agrees(spec, before, t, d)
    ensures Changed(t[d], spec[d]) <==> !Holds(before, Slot(d)) && HasRuleSets(spec[d])
  {
  }

  lemma FreshTarget(server: Server, spec: Store, k: Key)
    requires WellNamed(spec)
    ensures k in Target(server, spec, Fresh(server, spec)) <==> k in spec
  {
    var s := Fresh(server, spec);
    if k in spec && k !in s { OwnSlot(s, k); }
    assert k in Target(server, spec, s) <==> InTarget(spec, s, k);
  }
}
