/**
 Progress: when no call fails for an outside reason, no call after the refresh is rejected,
 unless the API guards policies and a stale policy still names a stale backend set.
 */
module Progress {
  import opened Wrappers
  import opened Strings
  import opened Tables
  import opened Differences
  import opened Plans
  import opened Runs

  /** The names listeners list are printable without ambiguity, as the API's name grammars demand. */
  predicate PlainLists(r: Resource) {
    r.Listener? ==> (forall n <- r.hostnames :: PlainName(n)) && (forall n <- r.ruleSets :: PlainName(n))
  }

  ghost predicate PlainListeners(s: Store) {
    forall k <- s :: PlainLists(s[k])
  }

  ghost predicate Hypotheses(spec: Store, s: Store) {
    && WellNamed(spec) && Closed(spec) && PlainListeners(spec)
    && WellNamed(s) && Typed(s) && PlainListeners(s)
  }

  /** A run in which calls fail only by being rejected: the suppressed pass stops at its first rejected call. */
  ghost predicate IsFineRun(server: Server, spec: Store, s: Store, r: Run) {
    && IsRun(server, spec, s, r)
    && AllAccepted(server, s, r.first, r.tried)
    && (r.tried < |r.first| ==> !Accepts(server, r.Refreshed(server, s), r.first[r.tried]))
  }

  /** A policy to be removed names a backend set to be removed, and the API minds. */
  ghost predicate StalePolicyInTheWay(server: Server, spec: Store, s: Store, p: Key, b: Key) {
    && server.guardsPolicies
    && p in s && p !in spec && p.kind == RoutingPolicies
    && b in s && b !in spec && b.kind == BackendSets
    && b in s[p].Refs()
  }

  /** The suppressed pass always gets past creating and updating backend sets. */
  lemma WantedSetsExist(server: Server, spec: Store, s: Store, r: Run, d: Key)
    requires WellNamed(spec) && Closed(spec) && IsFineRun(server, spec, s, r)
    requires d in spec && d.kind == BackendSets
    ensures d in r.Refreshed(server, s)
  {
    if d in s {
      StaysHeld(server, spec, s, r.first, r.tried, d);
    } else {
      OwnSlot(s, d);
      assert Create(d, spec[d]) in r.first;
      var j :| 0 <= j < |r.first| && r.first[j] == Create(d, spec[d]);
      CreateReached(server, spec, s, r.first, r.tried, j);
      Written(server, spec, s, r.first, r.tried, j);
    }
  }

  /** The creates of backend sets come first and are all accepted. */
  lemma CreateReached(server: Server, spec: Store, s: Store, calls: seq<Call>, tried: nat, j: nat)
    requires Closed(spec) && Plan(spec, s, PROVIDER, calls) && DistinctKeys(calls) && Sorted(calls) && tried <= |calls|
    requires j < |calls| && calls[j].Create? && calls[j].key.kind == BackendSets
    requires tried < |calls| ==> !Accepts(server, After(server, s, calls, tried), calls[tried])
    ensures j < tried
  {
    if tried <= j {
      SetCreatesFirst(spec, s, calls, tried, j);
      SetCreateAccepted(server, spec, s, calls, tried);
    }
  }

  lemma SetCreatesFirst(spec: Store, s: Store, calls: seq<Call>, i: nat, j: nat)
    requires Plan(spec, s, PROVIDER, calls) && Sorted(calls) && i <= j < |calls|
    requires calls[j].Create? && calls[j].key.kind == BackendSets
    ensures calls[i].Create? && calls[i].key.kind == BackendSets
  {
    assert calls[i] in calls && ActionIndex(calls[i]) <= 0;
  }

  lemma SetCreateAccepted(server: Server, spec: Store, s: Store, calls: seq<Call>, n: nat)
    requires Closed(spec) && Plan(spec, s, PROVIDER, calls) && DistinctKeys(calls) && n < |calls|
    requires calls[n].Create? && calls[n].key.kind == BackendSets
    ensures Accepts(server, After(server, s, calls, n), calls[n])
  {
    var c := calls[n];
    assert c in calls && Justified(spec, s, c);
    OwnSlot(s, c.key);
    Untouched(server, s, calls, n, c.key);
    assert spec[c.key].Kind() == BackendSets;
  }

  /** Where the `i`-th call after the refresh comes from. */
  lemma Where(r: Run, i: nat)
    requires i < |r.Rest()|
    ensures var c, p, s, u := |r.creates|, |r.policyUpdates|, |r.second|, |r.updates|;
      && (i < c ==> r.Rest()[i] == r.creates[i])
      && (c <= i < c + p ==> r.Rest()[i] == r.policyUpdates[i - c])
      && (c + p <= i < c + p + s ==> r.Rest()[i] == r.second[i - c - p])
      && (c + p + s <= i < c + p + s + u ==> r.Rest()[i] == r.updates[i - c - p - s])
      && (c + p + s + u <= i ==> r.Rest()[i] == r.deletes[i - c - p - s - u])
  {
  }

  /** The tables and verbs of the five parts. */
  lemma PartOf(server: Server, spec: Store, s: Store, r: Run, i: nat)
    requires IsRun(server, spec, s, r) && i < |r.Rest()|
    ensures var c, p, n, u := |r.creates|, |r.policyUpdates|, |r.second|, |r.updates|;
            var call := r.Rest()[i];
      && (call.key.kind in PROVIDER <==> c + p <= i < c + p + n)
      && (call.key.kind in DISPATCHED ==> (call.Create? <==> i < c) && (call.Delete? <==> c + p + n + u <= i))
      && (c <= i < c + p ==> IsUpdateOfPolicy(call))
  {
    Where(r, i);
    EveryKind(r.Rest()[i].key.kind);
    var c, p, n, u := |r.creates|, |r.policyUpdates|, |r.second|, |r.updates|;
    var call := r.Rest()[i];
    if c + p <= i < c + p + n {
      assert call in r.second;
    } else {
      assert call in r.creates || call in r.policyUpdates || call in r.updates || call in r.deletes;
      assert call in r.queue;
    }
  }

  /** Only updates are ever repeated. */
  lemma Once(server: Server, spec: Store, s: Store, r: Run, j: nat, i: nat)
    requires WellNamed(spec) && IsRun(server, spec, s, r) && j < i < |r.Rest()|
    requires r.Rest()[j].key == r.Rest()[i].key
    ensures r.Rest()[j] == r.Rest()[i] && r.Rest()[i].Update?
  {
    var rest := r.Rest();
    RestIsPlan(server, spec, s, r);
    assert rest[i] in rest && rest[j] in rest;
    JustifiedUnique(spec, r.Refreshed(server, s), rest[i], rest[j]);
    Where(r, i);
    Where(r, j);
    PartOf(server, spec, s, r, i);
    PartOf(server, spec, s, r, j);
    EveryKind(rest[i].key.kind);
  }

  /** Keys: a create finds its name free, an update or delete finds its resource. */
  lemma KeyFits(server: Server, spec: Store, s: Store, r: Run, i: nat)
    requires WellNamed(spec) && IsRun(server, spec, s, r) && i < |r.Rest()|
    ensures var t := After(server, r.Refreshed(server, s), r.Rest(), i);
            if r.Rest()[i].Create? then r.Rest()[i].key !in t else r.Rest()[i].key in t
  {
    var t, rest := r.Refreshed(server, s), r.Rest();
    RestIsPlan(server, spec, s, r);
    assert rest[i] in rest && Justified(spec, t, rest[i]);
    if j: nat :| j < i && rest[j].key == rest[i].key {
      Once(server, spec, s, r, j, i);
      Written(server, spec, t, rest, i, j);
    } else {
      Untouched(server, t, rest, i, rest[i].key);
    }
  }

  /** A wanted resource exists from its creation on; backend sets exist all along. */
  lemma WantedExists(server: Server, spec: Store, s: Store, r: Run, i: nat, d: Key)
    requires WellNamed(spec) && Closed(spec) && IsFineRun(server, spec, s, r) && i <= |r.Rest()|
    requires d in spec && d.kind != Listeners
    requires d.kind == BackendSets || |r.creates| <= i
    ensures d in After(server, r.Refreshed(server, s), r.Rest(), i)
  {
    var t, rest := r.Refreshed(server, s), r.Rest();
    RestIsPlan(server, spec, s, r);
    if d in t {
      StaysHeld(server, spec, t, rest, i, d);
    } else {
      if d.kind == BackendSets { WantedSetsExist(server, spec, s, r, d); }
      EveryKind(d.kind);
      OtherTablesSame(server, spec, s, PROVIDER, r.first, r.tried, d);
      OwnSlot(s, d);
      assert Create(d, spec[d]) in r.creates;
      var j :| 0 <= j < |r.creates| && r.creates[j] == Create(d, spec[d]);
      Where(r, j);
      Written(server, spec, t, rest, i, j);
    }
  }

  /** What a request names is a part of what the wanted resource names. */
  lemma SentRefs(server: Server, c: Call)
    requires !c.Delete?
    ensures c.Sent().Refs() <= c.body.Refs() && server.Stored(c.Sent()).Refs() == c.Sent().Refs()
    ensures c.Sent().Kind() == c.body.Kind() == server.Stored(c.Sent()).Kind()
    ensures PlainLists(c.body) ==> PlainLists(server.Stored(c.Sent()))
  {
  }

  /** Nothing a create or update names is missing. */
  lemma RefsExist(server: Server, spec: Store, s: Store, r: Run, i: nat)
    requires WellNamed(spec) && Closed(spec) && IsFineRun(server, spec, s, r)
    requires i < |r.Rest()| && !r.Rest()[i].Delete?
    ensures r.Rest()[i].Sent().Refs() <= After(server, r.Refreshed(server, s), r.Rest(), i).Keys
  {
    hide After;
    var c := r.Rest()[i];
    RestIsPlan(server, spec, s, r);
    assert c in r.Rest() && Justified(spec, r.Refreshed(server, s), c);
    var d := if c.Create? then c.key else WantedBy(spec, Slot(c.key));
    assert c.body == spec[d] && d.kind == c.key.kind && spec[d].Refs() <= spec.Keys;
    SentRefs(server, c);
    PartOf(server, spec, s, r, i);
    hide IsFineRun, IsRun;
    forall ref | ref in c.Sent().Refs() ensures ref in After(server, r.Refreshed(server, s), r.Rest(), i) {
      RefKinds(spec[d], ref);
      WantedExists(server, spec, s, r, i, ref);
    }
  }

  lemma RefKinds(r: Resource, ref: Key)
    requires ref in r.Refs()
    ensures ref.kind != Listeners && (r.Listener? || (r.RoutingPolicy? && ref.kind == BackendSets))
  {
  }

  /** A resource in which the code sees no difference names the same things. */
  lemma UnchangedRefs(actual: Resource, desired: Resource)
    requires !Changed(actual, desired) && PlainLists(actual) && PlainLists(desired)
    ensures actual.Refs() == desired.Refs()
  {
    if actual.Listener? && desired.Listener? {
      SprintInjective(actual.hostnames, desired.hostnames);
      SprintInjective(actual.ruleSets, desired.ruleSets);
    }
  }

  /** Tables stay typed and listeners plain. */
  lemma StaysPlain(server: Server, spec: Store, s: Store, calls: seq<Call>, n: nat)
    requires Hypotheses(spec, s) && AllJustified(spec, s, calls) && n <= |calls|
    ensures Typed(After(server, s, calls, n)) && PlainListeners(After(server, s, calls, n))
  {
    var t := After(server, s, calls, n);
    forall k | k in t ensures t[k].Kind() == k.kind && PlainLists(t[k]) {
      var i := WrittenOrUntouched(server, spec, s, calls, n, k);
      if i < n {
        var d := WantedBy(spec, Slot(k));
        assert calls[i].body == spec[d] && d.kind == k.kind;
        SentRefs(server, calls[i]);
      }
    }
  }

  /** So they are after a run, complete or not. */
  lemma FinalIsPlain(server: Server, spec: Store, s: Store, r: Run)
    requires Hypotheses(spec, s) && IsRun(server, spec, s, r)
    ensures Typed(r.Final(server, s)) && PlainListeners(r.Final(server, s))
  {
    StaysPlain(server, spec, s, r.first, r.tried);
    RunKeepsTarget(server, spec, s, r);
    RestIsPlan(server, spec, s, r);
    StaysPlain(server, spec, r.Refreshed(server, s), r.Rest(), r.done);
  }

  /** A certificate found after a run was there before it, or is a wanted one. */
  lemma CertificatesStay(server: Server, spec: Store, s: Store, r: Run, k: Key)
    requires Typed(spec) && WellNamed(spec) && IsRun(server, spec, s, r)
    requires k.kind == Certificates && k in r.Final(server, s)
    ensures At(r.Final(server, s), k) == At(s, k) || (k in spec && r.Final(server, s)[k] == spec[k])
  {
    var t, rest := r.Refreshed(server, s), r.Rest();
    OtherTablesSame(server, spec, s, PROVIDER, r.first, r.tried, k);
    RestIsPlan(server, spec, s, r);
    OwnSlot(spec, k);
    hide IsRun, Plan;
    var i := WrittenOrUntouched(server, spec, t, rest, r.done, k);
    if i < r.done {
      var d := WantedBy(spec, Slot(k));
      assert d == k && rest[i].body == spec[k] && spec[k].Kind() == Certificates;
    }
  }

  /** What a justified call has written names wanted resources only. */
  lemma WrittenRefs(server: Server, spec: Store, s: Store, c: Call, r: Resource)
    requires Closed(spec) && Justified(spec, s, c) && Tables.Outcome(server, c) == Some(r)
    ensures r.Refs() <= spec.Keys
  {
    SentRefs(server, c);
    assert c.body.Refs() <= spec.Keys;
  }

  /** Once no more listener calls follow, every listener names wanted resources only. */
  lemma ListenersNameWanted(server: Server, spec: Store, s: Store, r: Run, i: nat, u: Key)
    requires Hypotheses(spec, s) && IsRun(server, spec, s, r) && i <= |r.Rest()|
    requires forall m | i <= m < |r.Rest()| :: r.Rest()[m].key.kind != Listeners
    requires u.kind == Listeners && u in After(server, r.Refreshed(server, s), r.Rest(), i)
    ensures After(server, r.Refreshed(server, s), r.Rest(), i)[u].Refs() <= spec.Keys
  {
    var t, rest := r.Refreshed(server, s), r.Rest();
    RestIsPlan(server, spec, s, r);
    var j := WrittenOrUntouched(server, spec, t, rest, i, u);
    if j < i {
      WrittenRefs(server, spec, t, rest[j], After(server, t, rest, i)[u]);
    } else {
      StaysPlain(server, spec, s, r.first, r.tried);
      assert forall c :: c in rest ==> c.key != u;
      UncalledRefs(spec, t, rest, u);
    }
  }

  /** A listener that needs no call names what a wanted one names. */
  lemma UncalledRefs(spec: Store, t: Store, calls: seq<Call>, u: Key)
    requires Closed(spec) && PlainListeners(spec) && PlainListeners(t) && u in t && u.kind == Listeners
    requires Plan(spec, t, PROVIDER + DISPATCHED, calls) && forall c <- calls :: c.key != u
    ensures t[u].Refs() <= spec.Keys
  {
    assert Handled(spec, t, calls, u);
    var d :| d in spec && Slot(d) == Slot(u) && !Changed(t[u], spec[d]);
    UnchangedRefs(t[u], spec[d]);
  }

  /** Once the policies are updated, a policy names wanted backend sets, or it is stale and as it was. */
  lemma PoliciesNameWanted(server: Server, spec: Store, s: Store, r: Run, i: nat, u: Key)
    requires Hypotheses(spec, s) && IsRun(server, spec, s, r) && |r.creates| + |r.policyUpdates| <= i <= |r.Rest()|
    requires u.kind == RoutingPolicies && u in After(server, r.Refreshed(server, s), r.Rest(), i)
    ensures var p := After(server, r.Refreshed(server, s), r.Rest(), i)[u];
            p.Refs() <= spec.Keys || (u !in spec && u in s && p == s[u])
  {
    var t, rest := r.Refreshed(server, s), r.Rest();
    RestIsPlan(server, spec, s, r);
    var j := WrittenOrUntouched(server, spec, t, rest, i, u);
    if j < i {
      hide After, IsRun;
      WrittenRefs(server, spec, t, rest[j], After(server, t, rest, i)[u]);
    } else {
      hide After;
      OtherTablesSame(server, spec, s, PROVIDER, r.first, r.tried, u);
      if u in spec {
        UnwrittenPolicyIsWanted(server, spec, s, r, i, u);
      }
    }
  }

  lemma UnwrittenPolicyIsWanted(server: Server, spec: Store, s: Store, r: Run, i: nat, u: Key)
    requires Hypotheses(spec, s) && IsRun(server, spec, s, r) && |r.creates| + |r.policyUpdates| <= i <= |r.Rest()|
    requires u.kind == RoutingPolicies && u in spec && u in s
    requires forall j | 0 <= j < i :: r.Rest()[j].key != u
    ensures s[u].Refs() <= spec.Keys
  {
    NotUpdated(r, i, u, spec[u]);
    NotEnqueued(server, spec, s, r, u);
    assert spec[u].Kind() == u.kind && spec[u].Refs() <= spec.Keys;
    UnchangedPolicy(s[u], spec[u]);
  }

  lemma NotEnqueued(server: Server, spec: Store, s: Store, r: Run, u: Key)
    requires IsRun(server, spec, s, r) && u.kind == RoutingPolicies && u in spec && u in s
    requires Update(u, spec[u]) !in r.policyUpdates
    ensures !Changed(s[u], spec[u])
  {
    assert Handled(spec, s, r.queue, u);
    assert Update(u, spec[u]) !in r.queue;
  }

  lemma NotUpdated(r: Run, i: nat, u: Key, body: Resource)
    requires |r.creates| + |r.policyUpdates| <= i <= |r.Rest()|
    requires forall j | 0 <= j < i :: r.Rest()[j].key != u
    ensures Update(u, body) !in r.policyUpdates
  {
    forall m | 0 <= m < |r.policyUpdates| ensures r.policyUpdates[m].key != u {
      Where(r, |r.creates| + m);
    }
  }

  lemma UnchangedPolicy(actual: Resource, desired: Resource)
    requires desired.RoutingPolicy?
    ensures Changed(actual, desired) || actual == desired
  {
  }

  /** What is to be deleted is no longer in use. */
  lemma NotInUse(server: Server, spec: Store, s: Store, r: Run, i: nat)
    requires Hypotheses(spec, s) && IsFineRun(server, spec, s, r)
    requires i < |r.Rest()| && r.Rest()[i].Delete? && r.Rest()[i].key.kind != Listeners
    requires forall p, b :: !StalePolicyInTheWay(server, spec, s, p, b)
    ensures !InUse(server, After(server, r.Refreshed(server, s), r.Rest(), i), r.Rest()[i].key)
  {
    var t, rest := r.Refreshed(server, s), r.Rest();
    var k := rest[i].key;
    var now := After(server, t, rest, i);
    RestIsPlan(server, spec, s, r);
    assert rest[i] in rest;
    OwnSlot(spec, k);
    PartOf(server, spec, s, r, i);
    NoListenerCallsLeft(server, spec, s, r, i);
    RunKeepsTarget(server, spec, s, r);
    StaysPlain(server, spec, s, r.first, r.tried);
    StaysPlain(server, spec, t, rest, i);
    forall u | u in now && Blocks(server, u) ensures k !in now[u].Refs() {
      if u.kind == Listeners {
        ListenersNameWanted(server, spec, s, r, i, u);
      } else {
        PoliciesNameWanted(server, spec, s, r, i, u);
        if k in now[u].Refs() {
          RefKinds(now[u], k);
          StaleSetWasThere(server, spec, s, r, k);
          assert StalePolicyInTheWay(server, spec, s, u, k);
          assert false;
        }
      }
    }
  }

  lemma StaleSetWasThere(server: Server, spec: Store, s: Store, r: Run, b: Key)
    requires WellNamed(spec) && IsRun(server, spec, s, r) && b !in spec && b.kind == BackendSets
    requires b in r.Refreshed(server, s)
    ensures b in s
  {
    var i := WrittenOrUntouched(server, spec, s, r.first, r.tried, b);
  }

  lemma NoListenerCallsLeft(server: Server, spec: Store, s: Store, r: Run, i: nat)
    requires IsRun(server, spec, s, r) && i < |r.Rest()|
    requires r.Rest()[i].Delete? && r.Rest()[i].key.kind != Listeners
    ensures forall m | i <= m < |r.Rest()| :: r.Rest()[m].key.kind != Listeners
  {
    forall m | i <= m < |r.Rest()| ensures r.Rest()[m].key.kind != Listeners {
      PartOf(server, spec, s, r, i);
      PartOf(server, spec, s, r, m);
      EveryKind(r.Rest()[i].key.kind);
      Where(r, i);
      Where(r, m);
    }
  }

  /** A stale policy keeps its stale backend set from going away in the suppressed pass. */
  lemma NamedSetSurvives(server: Server, spec: Store, s: Store, r: Run, p: Key, b: Key)
    requires Hypotheses(spec, s) && IsFineRun(server, spec, s, r) && StalePolicyInTheWay(server, spec, s, p, b)
    ensures b in r.Refreshed(server, s)
  {
    OwnSlot(spec, b);
    var j := WrittenOrUntouched(server, spec, s, r.first, r.tried, b);
    if j < r.tried {
      assert AcceptedAt(server, s, r.first, j);
      OtherTablesSame(server, spec, s, PROVIDER, r.first, j, p);
      assert false;
    }
  }

  /** It is still there, as it was, until the deletes are run. */
  lemma StalePolicyStays(server: Server, spec: Store, s: Store, r: Run, i: nat, p: Key)
    requires Hypotheses(spec, s) && IsRun(server, spec, s, r)
    requires i <= |r.creates| + |r.policyUpdates| + |r.second|
    requires p in s && p !in spec && p.kind == RoutingPolicies
    ensures At(After(server, r.Refreshed(server, s), r.Rest(), i), p) == Some(s[p])
  {
    RestIsPlan(server, spec, s, r);
    OwnSlot(spec, p);
    OtherTablesSame(server, spec, s, PROVIDER, r.first, r.tried, p);
    var w := WrittenOrUntouched(server, spec, r.Refreshed(server, s), r.Rest(), i, p);
    if w < i { PartOf(server, spec, s, r, w); }
  }

  /** So the call that deletes the backend set is rejected in the second pass as well. */
  lemma PolicyBlocksSet(server: Server, spec: Store, s: Store, r: Run, p: Key, b: Key) returns (i: nat)
    requires Hypotheses(spec, s) && IsFineRun(server, spec, s, r) && StalePolicyInTheWay(server, spec, s, p, b)
    ensures i < |r.Rest()| && !AcceptedAt(server, r.Refreshed(server, s), r.Rest(), i)
  {
    NamedSetSurvives(server, spec, s, r, p, b);
    OwnSlot(spec, b);
    assert Handled(spec, r.Refreshed(server, s), r.second, b);
    var m: nat :| m < |r.second| && r.second[m] == Delete(b);
    i := |r.creates| + |r.policyUpdates| + m;
    Where(r, i);
    StalePolicyStays(server, spec, s, r, i, p);
    var now := After(server, r.Refreshed(server, s), r.Rest(), i);
    assert p in now && Blocks(server, p) && b in now[p].Refs();
    assert InUse(server, now, b);
  }

  lemma CallAccepted(server: Server, spec: Store, s: Store, r: Run, i: nat)
    requires Hypotheses(spec, s) && IsFineRun(server, spec, s, r) && i < |r.Rest()|
    requires forall p, b :: !StalePolicyInTheWay(server, spec, s, p, b)
    ensures AcceptedAt(server, r.Refreshed(server, s), r.Rest(), i)
  {
    KeyFits(server, spec, s, r, i);
    var c := r.Rest()[i];
    if !c.Delete? {
      RefsExist(server, spec, s, r, i);
    } else if c.key.kind != Listeners {
      NotInUse(server, spec, s, r, i);
    } else {
      NothingNamesListeners(server, After(server, r.Refreshed(server, s), r.Rest(), i), c.key);
    }
  }

  lemma NothingNamesListeners(server: Server, s: Store, k: Key)
    requires k.kind == Listeners
    ensures !InUse(server, s, k)
  {
    forall u | u in s && k in s[u].Refs() ensures false { RefKinds(s[u], k); }
  }

  /**
   Progress, and exactly when: in a run whose calls fail only by rejection, every call after the refresh
   is accepted if and only if no stale policy is in the way of a stale backend set.
   */
  lemma NothingRejected(server: Server, spec: Store, s: Store, r: Run)
    requires Hypotheses(spec, s) && IsFineRun(server, spec, s, r)
    ensures AllAccepted(server, r.Refreshed(server, s), r.Rest(), |r.Rest()|)
            <==> forall p, b :: !StalePolicyInTheWay(server, spec, s, p, b)
  {
    if p, b :| StalePolicyInTheWay(server, spec, s, p, b) {
      var i := PolicyBlocksSet(server, spec, s, r, p, b);
    } else {
      forall i | 0 <= i < |r.Rest()|
        ensures AcceptedAt(server, r.Refreshed(server, s), r.Rest(), i)
      {
        CallAccepted(server, spec, s, r, i);
      }
    }
  }

  // A stale policy in the way

  function StaleTables(): Store {
    map[Key(RoutingPolicies, "stale") := RoutingPolicy("V1", [Rule("rule", "condition", "gone")]),
        Key(BackendSets, "gone") := BackendSet("ROUND_ROBIN", [], None)]
  }

  /** The run that takes these tables down: the suppressed pass stops at once, the second pass as well. */
  function StaleRun(): Run {
    var dropPolicy, dropSet := Delete(Key(RoutingPolicies, "stale")), Delete(Key(BackendSets, "gone"));
    Run([dropPolicy], [dropSet], 0, [], [], [dropSet], [], [dropPolicy], 0)
  }

  lemma StaleHypotheses(server: Server)
    requires server.guardsPolicies
    ensures Hypotheses(map[], StaleTables())
    ensures StalePolicyInTheWay(server, map[], StaleTables(), Key(RoutingPolicies, "stale"), Key(BackendSets, "gone"))
  {
    var p, b := Key(RoutingPolicies, "stale"), Key(BackendSets, "gone");
    var rule := Rule("rule", "condition", "gone");
    assert rule in StaleTables()[p].rules;
    assert b in StaleTables()[p].Refs();
  }

  lemma StaleRunIsFine(server: Server)
    requires server.guardsPolicies
    ensures IsFineRun(server, map[], StaleTables(), StaleRun())
  {
    var s, r := StaleTables(), StaleRun();
    var p, b := Key(RoutingPolicies, "stale"), Key(BackendSets, "gone");
    StaleHypotheses(server);
    assert r.Refreshed(server, s) == s;
    StaleRunIsRun(server);
    assert Blocks(server, p) && InUse(server, s, b);
  }

  lemma StalePlans()
    ensures Plan(map[], StaleTables(), DISPATCHED, [Delete(Key(RoutingPolicies, "stale"))])
    ensures Plan(map[], StaleTables(), PROVIDER, [Delete(Key(BackendSets, "gone"))])
  {
    var p, b := Delete(Key(RoutingPolicies, "stale")), Delete(Key(BackendSets, "gone"));
    assert p in [p] && b in [b];
  }

  lemma StaleRunIsRun(server: Server)
    ensures IsRun(server, map[], StaleTables(), StaleRun())
  {
    assert StaleRun().Refreshed(server, StaleTables()) == StaleTables();
    StalePlans();
    hide StaleTables, Plan;
  }

  /** A concrete run that is rejected: the empty spec against a stale policy and its backend set. */
  lemma StaleRunRejected(server: Server)
    requires server.guardsPolicies
    ensures Hypotheses(map[], StaleTables()) && IsFineRun(server, map[], StaleTables(), StaleRun())
    ensures var r := StaleRun(); !AllAccepted(server, r.Refreshed(server, StaleTables()), r.Rest(), |r.Rest()|)
  {
    StaleHypotheses(server);
    StaleRunIsFine(server);
    NothingRejected(server, map[], StaleTables(), StaleRun());
  }
}
