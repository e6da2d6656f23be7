/** When a run leaves the rule sets of a listener behind, told from the tables found. */
module RuleSets {
  import opened Tables
  import opened Differences
  import opened Runs
  import CloudProvider
  import Manager

  /** From any tables there is a complete run whose suppressed pass had no effect. */
  lemma SomeRun(server: Server, spec: Store, s: Store) returns (r: Run)
    ensures IsRun(server, spec, s, r) && r.Complete() && r.tried == 0
  {
    var policies := CloudProvider.SomeTablePlan(spec, s, RoutingPolicies);
    var ruleSets := CloudProvider.SomeTablePlan(spec, s, Kind.RuleSets);
    var hostnames := CloudProvider.SomeTablePlan(spec, s, Hostnames);
    var certificates := CloudProvider.SomeTablePlan(spec, s, Certificates);
    Manager.FourPlans(spec, s, policies, ruleSets, hostnames, certificates);
    var pass := CloudProvider.SomePlan(spec, s);
    r := RunWith(server, spec, s, policies + ruleSets + hostnames + certificates, pass);
  }

  lemma RunWith(server: Server, spec: Store, s: Store, queue: seq<Call>, pass: seq<Call>) returns (r: Run)
    requires Plan(spec, s, DISPATCHED, queue) && DistinctKeys(queue)
    requires Plan(spec, s, PROVIDER, pass) && DistinctKeys(pass) && Sorted(pass)
    ensures IsRun(server, spec, s, r) && r.Complete() && r.tried == 0
  {
    hide Plan, DistinctKeys, Sorted, IsRun;
    var start := Manager.RunOf(queue, pass, 0, pass, 0);
    r := Manager.RunOf(queue, pass, 0, pass, |start.Rest()|);
    assert r.Rest() == start.Rest() && r.Refreshed(server, s) == s;
    Manager.RunOfIsRun(server, spec, s, r);
  }

  /**
   Every complete run ends without a difference under a wanted slot, rule sets included, if and only if the slot is held in the
   tables found or wanted without rule sets.
   */
  lemma RuleSetsSettle(server: Server, spec: Store, s: Store, d: Key)
    requires WellNamed(spec) && WellNamed(s) && d in spec
    ensures (forall r | IsRun(server, spec, s, r) && r.Complete() :: NoDifference(spec, r.Final(server, s), d))
            <==> Holds(s, Slot(d)) || !HasRuleSets(spec[d])
  {
    if Holds(s, Slot(d)) || !HasRuleSets(spec[d]) {
      forall r | IsRun(server, spec, s, r) && r.Complete() ensures NoDifference(spec, r.Final(server, s), d) {
        FoundSlotsSettle(server, spec, s, r, d);
      }
    } else {
      var r := SomeRun(server, spec, s);
      LeftBehind(server, spec, s, r, d);
    }
  }

  lemma LeftBehind(server: Server, spec: Store, s: Store, r: Run, d: Key)
    requires WellNamed(spec) && WellNamed(s) && d in spec && !Holds(s, Slot(d)) && HasRuleSets(spec[d])
    requires IsRun(server, spec, s, r) && r.Complete() && r.tried == 0
    ensures !NoDifference(spec, r.Final(server, s), d)
  {
    assert r.Refreshed(server, s) == s;
    Converges(server, spec, s, r);
    assert Agrees(spec, s, r.Final(server, s), d);
  }
}
