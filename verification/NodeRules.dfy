/** `getNodeIngressRules`: the rules of the backend subnets, for two ports and two sets of wanted CIDRs at once. */
module NodeRules {
  import opened Wrappers
  import opened SortedSets
  import opened SecurityRules

  /** The ports before the change; 0 stands for none. */
  function OldPorts(actual: Option<PortSpec>): (int, int) {
    if actual.Some? then (actual.value.backendPort, actual.value.healthCheckerPort) else (0, 0)
  }

  /** A single-port rule for one of the ports used before, and for neither of the ports wanted now. */
  predicate Old(r: Rule, actual: Option<PortSpec>, desired: PortSpec) {
    !OnPort(r, desired.backendPort) && !OnPort(r, desired.healthCheckerPort)
    && (OnPort(r, OldPorts(actual).0) || OnPort(r, OldPorts(actual).1))
  }

  /** Whether a rule stays, and the CIDRs that still need a backend and a health-check rule after it. */
  function Verdict2(r: Rule, backend: set<string>, health: set<string>, actual: Option<PortSpec>, desired: PortSpec, usage: Usage)
    : (bool, set<string>, set<string>)
  {
    if Old(r, actual, desired) then (false, backend, health)
    else if !Applies(r, desired.backendPort) && !Applies(r, desired.healthCheckerPort) then (true, backend, health)
    else if Applies(r, desired.backendPort) && r.cidr in backend then (true, backend - {r.cidr}, health)
    else if Applies(r, desired.healthCheckerPort) && r.cidr in health then (true, backend, health - {r.cidr})
    else (Applies(r, desired.healthCheckerPort) && !usage.Unused?, backend, health)
  }

  datatype Sifted = Sifted(kept: seq<Rule>, backend: set<string>, health: set<string>)

  function Sift2(rules: seq<Rule>, backend: set<string>, health: set<string>, actual: Option<PortSpec>, desired: PortSpec, usage: Usage): Sifted {
    if rules == [] then Sifted([], backend, health)
    else
      var (keep, b, h) := Verdict2(rules[0], backend, health, actual, desired, usage);
      var rest := Sift2(rules[1..], b, h, actual, desired, usage);
      rest.(kept := (if keep then [rules[0]] else []) + rest.kept)
  }

  /** New rules for a port; a port of 0 gets none. */
  function Added(cidrs: set<string>, port: int): seq<Rule> {
    if port != 0 then MakeRules(Ascending(cidrs), port) else []
  }

  function NodeRewrite(rules: seq<Rule>, wanted: set<string>, actual: Option<PortSpec>, desired: PortSpec, usage: Usage): seq<Rule> {
    var s := Sift2(rules, wanted, wanted, actual, desired, usage);
    s.kept + Added(s.backend, desired.backendPort) + Added(s.health, desired.healthCheckerPort)
  }

  lemma {:induction false} Sift2Concat(a: seq<Rule>, b: seq<Rule>, backend: set<string>, health: set<string>,
                                       actual: Option<PortSpec>, desired: PortSpec, usage: Usage)
    ensures var sa := Sift2(a, backend, health, actual, desired, usage);
            var sb := Sift2(b, sa.backend, sa.health, actual, desired, usage);
            Sift2(a + b, backend, health, actual, desired, usage) == sb.(kept := sa.kept + sb.kept)
    decreases |a|
  {
    if a == [] {
      assert a + b == b;
      var sb := Sift2(b, backend, health, actual, desired, usage);
      assert [] + sb.kept == sb.kept;
    } else {
      assert (a + b)[1..] == a[1..] + b && (a + b)[0] == a[0];
      var (keep, rb, rh) := Verdict2(a[0], backend, health, actual, desired, usage);
      Sift2Concat(a[1..], b, rb, rh, actual, desired, usage);
      var sa := Sift2(a[1..], rb, rh, actual, desired, usage);
      var sb := Sift2(b, sa.backend, sa.health, actual, desired, usage);
      var head := if keep then [a[0]] else [];
      assert head + (sa.kept + sb.kept) == (head + sa.kept) + sb.kept;
    }
  }

  lemma Sift2Next(rules: seq<Rule>, i: nat, backend: set<string>, health: set<string>,
                  actual: Option<PortSpec>, desired: PortSpec, usage: Usage)
    requires i < |rules|
    ensures var s := Sift2(rules[..i], backend, health, actual, desired, usage);
            var (keep, b, h) := Verdict2(rules[i], s.backend, s.health, actual, desired, usage);
            Sift2(rules[..i + 1], backend, health, actual, desired, usage)
            == Sifted(if keep then s.kept + [rules[i]] else s.kept, b, h)
  {
    Sift2Concat(rules[..i], [rules[i]], backend, health, actual, desired, usage);
    assert rules[..i] + [rules[i]] == rules[..i + 1];
    var s := Sift2(rules[..i], backend, health, actual, desired, usage);
    Sift2Single(rules[i], s.backend, s.health, actual, desired, usage);
    assert s.kept + [] == s.kept;
  }

  lemma Sift2Single(r: Rule, backend: set<string>, health: set<string>, actual: Option<PortSpec>, desired: PortSpec, usage: Usage)
    ensures var (keep, b, h) := Verdict2(r, backend, health, actual, desired, usage);
            Sift2([r], backend, health, actual, desired, usage) == Sifted(if keep then [r] else [], b, h)
  {
    assert [r][1..] == [];
    var none: seq<Rule> := [];
    assert [r] + none == [r] && none + none == none;
  }

  /** `portRangeMatchesSpec`. */
  predicate PortRangeMatchesSpec(r: PortRange, ports: Option<PortSpec>) {
    ports.Some? &&
    ((r.min == ports.value.backendPort && r.max == ports.value.backendPort)
     || (r.min == ports.value.healthCheckerPort && r.max == ports.value.healthCheckerPort))
  }

  /** The body of the loop: whether the rule is appended, and the two sets of CIDRs after it. */
  method JudgeRule(rule: Rule, desiredBackend: set<string>, desiredHealthChecker: set<string>,
                   actualPorts: Option<PortSpec>, desiredPorts: PortSpec, services: Option<seq<Service>>)
    returns (keep: bool, backend: set<string>, health: set<string>)
    ensures (keep, backend, health) == Verdict2(rule, desiredBackend, desiredHealthChecker, actualPorts, desiredPorts,
                                                HealthCheckPortInUse(services, desiredPorts.healthCheckerPort))
  {
    backend, health := desiredBackend, desiredHealthChecker;
    var currentBackEndPort, currentHealthCheckPort := 0, 0;
    if actualPorts.Some? {
      currentBackEndPort := actualPorts.value.backendPort;
      currentHealthCheckPort := actualPorts.value.healthCheckerPort;
    }
    if rule.tcp.Some? && rule.tcp.value.destination.Some? {
      var range := rule.tcp.value.destination.value;
      if range.min == range.max
         && range.min != desiredPorts.backendPort && range.max != desiredPorts.backendPort
         && range.min != desiredPorts.healthCheckerPort && range.max != desiredPorts.healthCheckerPort
         && (range.min == currentBackEndPort || range.min == currentHealthCheckPort) {
        return false, backend, health;
      }
    }
    if rule.tcp.None? || rule.tcp.value.source.Some? || rule.tcp.value.destination.None? {
      return true, backend, health;
    }
    var r := rule.tcp.value.destination.value;
    if !(PortRangeMatchesSpec(r, Some(desiredPorts)) || PortRangeMatchesSpec(r, actualPorts)) {
      return true, backend, health;
    }
    if r.max == desiredPorts.backendPort && rule.cidr in desiredBackend {
      return true, desiredBackend - {rule.cidr}, health;
    }
    if r.max == desiredPorts.healthCheckerPort && rule.cidr in desiredHealthChecker {
      return true, backend, desiredHealthChecker - {rule.cidr};
    }
    keep := r.max == desiredPorts.healthCheckerPort && !HealthCheckPortInUse(services, desiredPorts.healthCheckerPort).Unused?;
  }

  /** The loop of `getNodeIngressRules`. */
  method KeepNodeRules(rules: seq<Rule>, lbSubnets: seq<string>, actualPorts: Option<PortSpec>, desiredPorts: PortSpec,
                       services: Option<seq<Service>>)
    returns (ingressRules: seq<Rule>, desiredBackend: set<string>, desiredHealthChecker: set<string>)
    ensures Sifted(ingressRules, desiredBackend, desiredHealthChecker)
         == Sift2(rules, AsSet(lbSubnets), AsSet(lbSubnets), actualPorts, desiredPorts,
                  HealthCheckPortInUse(services, desiredPorts.healthCheckerPort))
  {
    ghost var usage := HealthCheckPortInUse(services, desiredPorts.healthCheckerPort);
    ghost var wanted := AsSet(lbSubnets);
    desiredBackend, desiredHealthChecker := AsSet(lbSubnets), AsSet(lbSubnets);
    ingressRules := [];
    for i := 0 to |rules|
      invariant Sifted(ingressRules, desiredBackend, desiredHealthChecker)
             == Sift2(rules[..i], wanted, wanted, actualPorts, desiredPorts, usage)
    {
      Sift2Next(rules, i, wanted, wanted, actualPorts, desiredPorts, usage);
      var keep;
      keep, desiredBackend, desiredHealthChecker :=
        JudgeRule(rules[i], desiredBackend, desiredHealthChecker, actualPorts, desiredPorts, services);
      if keep { ingressRules := ingressRules + [rules[i]]; }
    }
    assert rules[..|rules|] == rules;
  }

  /** `getNodeIngressRules`. */
  method GetNodeIngressRules(rules: seq<Rule>, lbSubnets: seq<string>, actualPorts: Option<PortSpec>, desiredPorts: PortSpec,
                             services: Option<seq<Service>>)
    returns (ingressRules: seq<Rule>)
    ensures ingressRules == NodeRewrite(rules, AsSet(lbSubnets), actualPorts, desiredPorts,
                                        HealthCheckPortInUse(services, desiredPorts.healthCheckerPort))
    ensures forall r <- rules ::
              || r.tcp == Some(TcpOptions(None, Some(PortRange(desiredPorts.backendPort, desiredPorts.backendPort))))
              || r.tcp == Some(TcpOptions(None, Some(PortRange(desiredPorts.healthCheckerPort, desiredPorts.healthCheckerPort))))
              || (r in ingressRules <==> !Old(r, actualPorts, desiredPorts))
    ensures desiredPorts.healthCheckerPort == 10256
              && (services.None? || exists s <- services.value :: s.isLoadBalancer && s.healthCheckPath == "") ==>
              forall r <- rules | r.tcp == Some(TcpOptions(None, Some(PortRange(10256, 10256)))) :: r in ingressRules
    ensures desiredPorts.healthCheckerPort != 10256
              || (services.Some? && !(exists s <- services.value :: s.isLoadBalancer && s.healthCheckPath == "")) ==>
              forall r <- ingressRules
                | r.tcp == Some(TcpOptions(None, Some(PortRange(desiredPorts.healthCheckerPort, desiredPorts.healthCheckerPort)))) ::
                r.cidr in lbSubnets
    ensures desiredPorts.backendPort != desiredPorts.healthCheckerPort ==>
              forall r <- ingressRules
                | r.tcp == Some(TcpOptions(None, Some(PortRange(desiredPorts.backendPort, desiredPorts.backendPort)))) ::
                r.cidr in lbSubnets
    ensures forall cidr <- lbSubnets, port <- [desiredPorts.backendPort, desiredPorts.healthCheckerPort] | port != 0 ::
              exists r <- ingressRules :: r.cidr == cidr && r.tcp == Some(TcpOptions(None, Some(PortRange(port, port))))
    ensures forall r <- ingressRules | r !in rules :: r.cidr in lbSubnets
              && exists port <- [desiredPorts.backendPort, desiredPorts.healthCheckerPort] ::
                   port != 0 && r == Rule(r.cidr, "6", Some(TcpOptions(None, Some(PortRange(port, port)))), false, "")
  {
    var desiredBackend, desiredHealthChecker;
    ingressRules, desiredBackend, desiredHealthChecker := KeepNodeRules(rules, lbSubnets, actualPorts, desiredPorts, services);
    if desiredBackend != {} || desiredHealthChecker != {} {
      if desiredPorts.backendPort != 0 {
        ingressRules := AddRules(ingressRules, Ascending(desiredBackend), desiredPorts.backendPort);
      }
      if desiredPorts.healthCheckerPort != 0 {
        ingressRules := AddRules(ingressRules, Ascending(desiredHealthChecker), desiredPorts.healthCheckerPort);
      }
    }
    NodeMembers(rules, lbSubnets, actualPorts, desiredPorts, HealthCheckPortInUse(services, desiredPorts.healthCheckerPort), ingressRules);
  }

  // ---------------------------------------------------------------------------------------------
  // An independent description

  /** How many rules on a wanted port a CIDR has room for: one, or two when both ports are the same. */
  function Room(wanted: set<string>, desired: PortSpec, cidr: string): nat {
    if cidr !in wanted then 0 else if desired.backendPort == desired.healthCheckerPort then 2 else 1
  }

  /** The room for the `i`-th rule on its port is taken by rules before it. */
  predicate Surplus(rules: seq<Rule>, wanted: set<string>, desired: PortSpec, port: int, i: nat)
    requires i < |rules|
  {
    Applies(rules[i], port) && Count(rules[..i], rules[i].cidr, port) >= Room(wanted, desired, rules[i].cidr)
  }

  /** When a rule fits a drop case; only a health-check port can save a surplus rule by being in use. */
  predicate NodeDropped(rules: seq<Rule>, wanted: set<string>, actual: Option<PortSpec>, desired: PortSpec, usage: Usage, i: nat)
    requires i < |rules|
  {
    || Old(rules[i], actual, desired)
    || (Surplus(rules, wanted, desired, desired.healthCheckerPort, i) && usage.Unused?)
    || (Surplus(rules, wanted, desired, desired.backendPort, i) && (usage.Unused? || desired.backendPort != desired.healthCheckerPort))
  }

  function NodeSurvivors(rules: seq<Rule>, wanted: set<string>, actual: Option<PortSpec>, desired: PortSpec, usage: Usage, n: nat): seq<Rule>
    requires n <= |rules|
  {
    if n == 0 then []
    else NodeSurvivors(rules, wanted, actual, desired, usage, n - 1)
         + if NodeDropped(rules, wanted, actual, desired, usage, n - 1) then [] else [rules[n - 1]]
  }

  /** The CIDRs left, in terms of the rules seen. */
  ghost predicate Lacking2(rules: seq<Rule>, wanted: set<string>, desired: PortSpec, s: Sifted) {
    var b, h := desired.backendPort, desired.healthCheckerPort;
    && (forall c :: c in s.backend <==> c in wanted && Count(rules, c, b) < 1)
    && (forall c :: c in s.health <==> c in wanted && Count(rules, c, h) < if b == h then 2 else 1)
  }

  /** The wanted CIDRs with fewer than `room` rules on a port. */
  function WithRoom(rules: seq<Rule>, wanted: set<string>, port: int, room: nat): set<string> {
    set c <- wanted | Count(rules, c, port) < room
  }

  lemma CountNext(rules: seq<Rule>, i: nat, cidr: string, port: int)
    requires i < |rules|
    ensures Count(rules[..i + 1], cidr, port)
         == Count(rules[..i], cidr, port) + if Applies(rules[i], port) && rules[i].cidr == cidr then 1 else 0
  {
    assert rules[..i + 1] == rules[..i] + [rules[i]];
    CountConcat(rules[..i], [rules[i]], cidr, port);
    assert [rules[i]][1..] == [];
  }

  lemma Lacking2Next(rules: seq<Rule>, i: nat, wanted: set<string>, actual: Option<PortSpec>, desired: PortSpec, usage: Usage, s: Sifted)
    requires i < |rules| && Lacking2(rules[..i], wanted, desired, s)
    ensures var (keep, b, h) := Verdict2(rules[i], s.backend, s.health, actual, desired, usage);
      && Lacking2(rules[..i + 1], wanted, desired, Sifted(s.kept, b, h))
      && (keep <==> !NodeDropped(rules, wanted, actual, desired, usage, i))
  {
    forall c, port ensures Count(rules[..i + 1], c, port)
         == Count(rules[..i], c, port) + if Applies(rules[i], port) && rules[i].cidr == c then 1 else 0
    {
      CountNext(rules, i, c, port);
    }
  }

  lemma {:induction false} Sift2Survivors(rules: seq<Rule>, wanted: set<string>, actual: Option<PortSpec>, desired: PortSpec, usage: Usage, n: nat)
    requires n <= |rules|
    ensures var s := Sift2(rules[..n], wanted, wanted, actual, desired, usage);
      s.kept == NodeSurvivors(rules, wanted, actual, desired, usage, n) && Lacking2(rules[..n], wanted, desired, s)
  {
    if n > 0 {
      Sift2Survivors(rules, wanted, actual, desired, usage, n - 1);
      Sift2SurvivorsNext(rules, wanted, actual, desired, usage, n - 1, Sift2(rules[..n - 1], wanted, wanted, actual, desired, usage));
    }
  }

  lemma Sift2SurvivorsNext(rules: seq<Rule>, wanted: set<string>, actual: Option<PortSpec>, desired: PortSpec, usage: Usage,
                           n: nat, s: Sifted)
    requires n < |rules| && s == Sift2(rules[..n], wanted, wanted, actual, desired, usage)
    requires s.kept == NodeSurvivors(rules, wanted, actual, desired, usage, n) && Lacking2(rules[..n], wanted, desired, s)
    ensures var t := Sift2(rules[..n + 1], wanted, wanted, actual, desired, usage);
      t.kept == NodeSurvivors(rules, wanted, actual, desired, usage, n + 1) && Lacking2(rules[..n + 1], wanted, desired, t)
  {
    var (keep, b, h) := Verdict2(rules[n], s.backend, s.health, actual, desired, usage);
    Sift2Next(rules, n, wanted, wanted, actual, desired, usage);
    Lacking2Next(rules, n, wanted, actual, desired, usage, s);
    NodeSurvivorsNext(rules, wanted, actual, desired, usage, n, keep);
    Lacking2Kept(rules[..n + 1], wanted, desired, Sifted(s.kept, b, h), Sift2(rules[..n + 1], wanted, wanted, actual, desired, usage));
  }

  lemma NodeSurvivorsNext(rules: seq<Rule>, wanted: set<string>, actual: Option<PortSpec>, desired: PortSpec, usage: Usage,
                          n: nat, keep: bool)
    requires n < |rules| && (keep <==> !NodeDropped(rules, wanted, actual, desired, usage, n))
    ensures NodeSurvivors(rules, wanted, actual, desired, usage, n + 1)
         == if keep then NodeSurvivors(rules, wanted, actual, desired, usage, n) + [rules[n]]
            else NodeSurvivors(rules, wanted, actual, desired, usage, n)
  {
    var before := NodeSurvivors(rules, wanted, actual, desired, usage, n);
    assert before + [] == before;
  }

  /** Which rules are kept plays no part in what is lacking. */
  lemma Lacking2Kept(rules: seq<Rule>, wanted: set<string>, desired: PortSpec, s: Sifted, t: Sifted)
    requires Lacking2(rules, wanted, desired, s) && s.backend == t.backend && s.health == t.health
    ensures Lacking2(rules, wanted, desired, t)
  {
  }

  /**
   Conservation: every rule that fits no drop case, in the original order, then new backend rules, then new
   health-check rules, for the CIDRs with room left.
   */
  lemma NodeRewriteConserves(rules: seq<Rule>, wanted: set<string>, actual: Option<PortSpec>, desired: PortSpec, usage: Usage)
    ensures var b, h := desired.backendPort, desired.healthCheckerPort;
      NodeRewrite(rules, wanted, actual, desired, usage)
      == NodeSurvivors(rules, wanted, actual, desired, usage, |rules|)
         + Added(WithRoom(rules, wanted, b, 1), b)
         + Added(WithRoom(rules, wanted, h, if b == h then 2 else 1), h)
  {
    var b, h := desired.backendPort, desired.healthCheckerPort;
    assert rules[..|rules|] == rules;
    Sift2Survivors(rules, wanted, actual, desired, usage, |rules|);
    var s := Sift2(rules, wanted, wanted, actual, desired, usage);
    assert Lacking2(rules, wanted, desired, s);
    assert s.backend == WithRoom(rules, wanted, b, 1);
    assert s.health == WithRoom(rules, wanted, h, if b == h then 2 else 1);
  }

  // ---------------------------------------------------------------------------------------------
  // How many rules each CIDR ends with

  function One(cidr: string, s: set<string>): nat {
    if cidr in s then 1 else 0
  }

  /** The rules of a CIDR on a port, and the claims on that port the CIDR still has. */
  function Tally(s: Sifted, desired: PortSpec, cidr: string, port: int): nat {
    Count(s.kept, cidr, port)
    + (if port == desired.backendPort then One(cidr, s.backend) else 0)
    + (if port == desired.healthCheckerPort then One(cidr, s.health) else 0)
  }

  lemma Verdict2Tally(r: Rule, backend: set<string>, health: set<string>, actual: Option<PortSpec>, desired: PortSpec, usage: Usage,
                      cidr: string, port: int)
    requires port == desired.backendPort || port == desired.healthCheckerPort
    ensures var (keep, b, h) := Verdict2(r, backend, health, actual, desired, usage);
      var before, after := Tally(Sifted([], backend, health), desired, cidr, port),
                           Tally(Sifted([], b, h), desired, cidr, port) + if keep && Applies(r, port) && r.cidr == cidr then 1 else 0;
      before <= after && (usage.Unused? || port != desired.healthCheckerPort ==> before == after)
  {
  }

  /** The tally never falls, and does not change when no surplus rule is saved. */
  lemma {:induction false} Sift2Tally(rules: seq<Rule>, backend: set<string>, health: set<string>,
                                      actual: Option<PortSpec>, desired: PortSpec, usage: Usage, cidr: string, port: int)
    requires port == desired.backendPort || port == desired.healthCheckerPort
    ensures var before := Tally(Sifted([], backend, health), desired, cidr, port);
      var after := Tally(Sift2(rules, backend, health, actual, desired, usage), desired, cidr, port);
      before <= after && (usage.Unused? || port != desired.healthCheckerPort ==> before == after)
    decreases |rules|
  {
    if rules != [] {
      var (keep, b, h) := Verdict2(rules[0], backend, health, actual, desired, usage);
      Verdict2Tally(rules[0], backend, health, actual, desired, usage, cidr, port);
      Sift2Tally(rules[1..], b, h, actual, desired, usage, cidr, port);
      var s := Sift2(rules[1..], b, h, actual, desired, usage);
      assert ([rules[0]] + s.kept)[1..] == s.kept;
      assert [] + s.kept == s.kept;
    }
  }

  lemma {:induction false} MadeElsewhere(cidrs: seq<string>, port: int, other: int, cidr: string)
    requires port != other
    ensures Count(MakeRules(cidrs, port), cidr, other) == 0
  {
    if cidrs != [] {
      MadeElsewhere(cidrs[1..], port, other, cidr);
      assert MakeRules(cidrs, port)[1..] == MakeRules(cidrs[1..], port);
    }
  }

  lemma AddedCount(s: set<string>, port: int, other: int, cidr: string)
    requires port != 0
    ensures Count(Added(s, port), cidr, other) == if port == other then One(cidr, s) else 0
  {
    if port == other { MadeCount(s, port, cidr); } else { MadeElsewhere(Ascending(s), port, other, cidr); }
  }

  lemma NodeCount(rules: seq<Rule>, wanted: set<string>, actual: Option<PortSpec>, desired: PortSpec, usage: Usage, cidr: string, port: int)
    requires port != 0 && (port == desired.backendPort || port == desired.healthCheckerPort)
    ensures Count(NodeRewrite(rules, wanted, actual, desired, usage), cidr, port)
         == Tally(Sift2(rules, wanted, wanted, actual, desired, usage), desired, cidr, port)
  {
    var b, h := desired.backendPort, desired.healthCheckerPort;
    var s := Sift2(rules, wanted, wanted, actual, desired, usage);
    CountConcat(s.kept + Added(s.backend, b), Added(s.health, h), cidr, port);
    CountConcat(s.kept, Added(s.backend, b), cidr, port);
    if b != 0 { AddedCount(s.backend, b, port, cidr); }
    if h != 0 { AddedCount(s.health, h, port, cidr); }
  }

  /** Coverage: every load balancer CIDR ends with a rule on each wanted port other than 0; two when the ports coincide. */
  lemma NodeRewriteCovers(rules: seq<Rule>, wanted: set<string>, actual: Option<PortSpec>, desired: PortSpec, usage: Usage,
                          cidr: string, port: int)
    requires port != 0 && (port == desired.backendPort || port == desired.healthCheckerPort)
    ensures Count(NodeRewrite(rules, wanted, actual, desired, usage), cidr, port) >= Room(wanted, desired, cidr)
  {
    NodeCount(rules, wanted, actual, desired, usage, cidr, port);
    Sift2Tally(rules, wanted, wanted, actual, desired, usage, cidr, port);
  }

  /** Exactly so when no other service uses the health-check port, and on a separate backend port in any case. */
  lemma NodeRewriteExact(rules: seq<Rule>, wanted: set<string>, actual: Option<PortSpec>, desired: PortSpec, usage: Usage,
                         cidr: string, port: int)
    requires port != 0 && (port == desired.backendPort || port == desired.healthCheckerPort)
    requires usage.Unused? || port != desired.healthCheckerPort
    ensures Count(NodeRewrite(rules, wanted, actual, desired, usage), cidr, port) == Room(wanted, desired, cidr)
  {
    NodeCount(rules, wanted, actual, desired, usage, cidr, port);
    Sift2Tally(rules, wanted, wanted, actual, desired, usage, cidr, port);
  }

  // ---------------------------------------------------------------------------------------------
  // What happens to each rule, in terms of its fields

  /** A rule for exactly one port that was used before and is wanted no more, whatever its source ports. */
  lemma OldMeans(r: Rule, actual: Option<PortSpec>, desired: PortSpec)
    ensures Old(r, actual, desired)
            <==> r.tcp.Some? && r.tcp.value.destination.Some?
                 && var range := r.tcp.value.destination.value;
                 && range.min == range.max && range.min != desired.backendPort && range.min != desired.healthCheckerPort
                 && if actual.None? then range.min == 0
                    else range.min == actual.value.backendPort || range.min == actual.value.healthCheckerPort
  {
    if r.tcp.Some? && r.tcp.value.destination.Some? {
      var range := r.tcp.value.destination.value;
      assert forall p :: range == PortRange(p, p) <==> range.min == p && range.max == p;
    }
  }

  lemma {:induction false} NodeSurvivorsKeep(rules: seq<Rule>, wanted: set<string>, actual: Option<PortSpec>, desired: PortSpec,
                                             usage: Usage, n: nat)
    requires n <= |rules|
    ensures var kept := NodeSurvivors(rules, wanted, actual, desired, usage, n);
      && (forall i | 0 <= i < n && !NodeDropped(rules, wanted, actual, desired, usage, i) :: rules[i] in kept)
      && (forall r <- kept :: exists i | 0 <= i < n :: rules[i] == r && !NodeDropped(rules, wanted, actual, desired, usage, i))
  {
    hide NodeDropped;
    if n > 0 { NodeSurvivorsKeep(rules, wanted, actual, desired, usage, n - 1); }
  }

  lemma AddedMember(cidrs: set<string>, port: int, r: Rule)
    ensures r in Added(cidrs, port) <==> port != 0 && r == MakeRule(r.cidr, port) && r.cidr in cidrs
  {
    AscendingMembers(cidrs);
    MadeRules(Ascending(cidrs), port);
  }

  /** The rules of the result are survivors, or new ones for wanted CIDRs. */
  lemma NodeMember(rules: seq<Rule>, wanted: set<string>, actual: Option<PortSpec>, desired: PortSpec, usage: Usage, r: Rule)
    ensures r in NodeSurvivors(rules, wanted, actual, desired, usage, |rules|) ==> r in NodeRewrite(rules, wanted, actual, desired, usage)
    ensures r in NodeRewrite(rules, wanted, actual, desired, usage) ==>
      || r in NodeSurvivors(rules, wanted, actual, desired, usage, |rules|)
      || (r.cidr in wanted && ((r == MakeRule(r.cidr, desired.backendPort) && desired.backendPort != 0)
                               || (r == MakeRule(r.cidr, desired.healthCheckerPort) && desired.healthCheckerPort != 0)))
  {
    hide NodeRewrite, NodeSurvivors, Added;
    var b, h := desired.backendPort, desired.healthCheckerPort;
    NodeRewriteConserves(rules, wanted, actual, desired, usage);
    AddedMember(WithRoom(rules, wanted, b, 1), b, r);
    AddedMember(WithRoom(rules, wanted, h, if b == h then 2 else 1), h, r);
  }

  /** A rule for neither port stays unless it is for a port given up. */
  lemma NodeOthersStay(rules: seq<Rule>, wanted: set<string>, actual: Option<PortSpec>, desired: PortSpec, usage: Usage, r: Rule)
    requires r in rules && !Applies(r, desired.backendPort) && !Applies(r, desired.healthCheckerPort)
    ensures r in NodeRewrite(rules, wanted, actual, desired, usage) <==> !Old(r, actual, desired)
  {
    hide NodeRewrite, NodeSurvivors, Count, Room;
    NodeMember(rules, wanted, actual, desired, usage, r);
    NodeSurvivorsKeep(rules, wanted, actual, desired, usage, |rules|);
    var i :| 0 <= i < |rules| && rules[i] == r;
    assert NodeDropped(rules, wanted, actual, desired, usage, i) <==> Old(r, actual, desired);
    if r in NodeSurvivors(rules, wanted, actual, desired, usage, |rules|) {
      var j :| 0 <= j < |rules| && rules[j] == r && !NodeDropped(rules, wanted, actual, desired, usage, j);
      assert !Old(r, actual, desired);
    }
  }

  /** While others may use the health-check port, its rules stay. */
  lemma NodeSharedStay(rules: seq<Rule>, wanted: set<string>, actual: Option<PortSpec>, desired: PortSpec, usage: Usage, r: Rule)
    requires r in rules && Applies(r, desired.healthCheckerPort) && !usage.Unused?
    ensures r in NodeRewrite(rules, wanted, actual, desired, usage)
  {
    hide NodeRewrite, NodeSurvivors, Count, Room;
    NodeMember(rules, wanted, actual, desired, usage, r);
    NodeSurvivorsKeep(rules, wanted, actual, desired, usage, |rules|);
    var i :| 0 <= i < |rules| && rules[i] == r;
    assert !NodeDropped(rules, wanted, actual, desired, usage, i);
  }

  /** On a separate backend port, and on a health-check port no one else uses, only wanted CIDRs have a rule. */
  lemma NodeOnlyWanted(rules: seq<Rule>, wanted: set<string>, actual: Option<PortSpec>, desired: PortSpec, usage: Usage, r: Rule, port: int)
    requires r in NodeRewrite(rules, wanted, actual, desired, usage) && Applies(r, port)
    requires port == desired.backendPort || port == desired.healthCheckerPort
    requires usage.Unused? || port != desired.healthCheckerPort
    ensures r.cidr in wanted
  {
    hide NodeRewrite, NodeSurvivors, Count;
    NodeMember(rules, wanted, actual, desired, usage, r);
    NodeSurvivorsKeep(rules, wanted, actual, desired, usage, |rules|);
  }

  lemma {:induction false} CountedRule(rules: seq<Rule>, cidr: string, port: int)
    requires Count(rules, cidr, port) > 0
    ensures exists r <- rules :: r.cidr == cidr && r.tcp == Some(TcpOptions(None, Some(PortRange(port, port))))
  {
    if Applies(rules[0], port) && rules[0].cidr == cidr {
      assert rules[0] in rules;
      assert rules[0].tcp == Some(TcpOptions(None, Some(PortRange(port, port))));
    } else {
      CountedRule(rules[1..], cidr, port);
    }
  }

  lemma NodeCoveredByRule(rules: seq<Rule>, wanted: set<string>, actual: Option<PortSpec>, desired: PortSpec, usage: Usage,
                          cidr: string, port: int)
    requires cidr in wanted && port != 0 && (port == desired.backendPort || port == desired.healthCheckerPort)
    ensures exists r <- NodeRewrite(rules, wanted, actual, desired, usage) ::
              r.cidr == cidr && r.tcp == Some(TcpOptions(None, Some(PortRange(port, port))))
  {
    hide NodeRewrite;
    NodeRewriteCovers(rules, wanted, actual, desired, usage, cidr, port);
    CountedRule(NodeRewrite(rules, wanted, actual, desired, usage), cidr, port);
  }

  lemma NodeNewRules(rules: seq<Rule>, wanted: set<string>, actual: Option<PortSpec>, desired: PortSpec, usage: Usage, r: Rule)
    requires r in NodeRewrite(rules, wanted, actual, desired, usage) && r !in rules
    ensures r.cidr in wanted
    ensures exists port <- [desired.backendPort, desired.healthCheckerPort] ::
              port != 0 && r == Rule(r.cidr, "6", Some(TcpOptions(None, Some(PortRange(port, port)))), false, "")
  {
    hide NodeRewrite, NodeSurvivors, NodeDropped;
    NodeMember(rules, wanted, actual, desired, usage, r);
    NodeSurvivorsKeep(rules, wanted, actual, desired, usage, |rules|);
    assert desired.backendPort in [desired.backendPort, desired.healthCheckerPort];
    assert desired.healthCheckerPort in [desired.backendPort, desired.healthCheckerPort];
  }

  /** All of it, for a result of the rewriting. */
  lemma NodeMembers(rules: seq<Rule>, cidrs: seq<string>, actual: Option<PortSpec>, desired: PortSpec, usage: Usage, result: seq<Rule>)
    requires result == NodeRewrite(rules, AsSet(cidrs), actual, desired, usage)
    ensures forall r <- rules | !Applies(r, desired.backendPort) && !Applies(r, desired.healthCheckerPort) ::
              r in result <==> !Old(r, actual, desired)
    ensures !usage.Unused? ==> forall r <- rules | Applies(r, desired.healthCheckerPort) :: r in result
    ensures usage.Unused? ==> forall r <- result | Applies(r, desired.healthCheckerPort) :: r.cidr in cidrs
    ensures desired.backendPort != desired.healthCheckerPort ==> forall r <- result | Applies(r, desired.backendPort) :: r.cidr in cidrs
    ensures forall cidr <- cidrs, port <- [desired.backendPort, desired.healthCheckerPort] | port != 0 ::
              exists r <- result :: r.cidr == cidr && r.tcp == Some(TcpOptions(None, Some(PortRange(port, port))))
    ensures forall r <- result | r !in rules :: r.cidr in cidrs
              && exists port <- [desired.backendPort, desired.healthCheckerPort] ::
                   port != 0 && r == Rule(r.cidr, "6", Some(TcpOptions(None, Some(PortRange(port, port)))), false, "")
  {
    hide NodeRewrite, Old, Applies;
    var wanted := AsSet(cidrs);
    var b, h := desired.backendPort, desired.healthCheckerPort;
    forall r | r in rules && !Applies(r, b) && !Applies(r, h) ensures r in result <==> !Old(r, actual, desired) {
      NodeOthersStay(rules, wanted, actual, desired, usage, r);
    }
    forall r | r in rules && Applies(r, h) && !usage.Unused? ensures r in result {
      NodeSharedStay(rules, wanted, actual, desired, usage, r);
    }
    forall r | r in result && Applies(r, h) && usage.Unused? ensures r.cidr in cidrs {
      NodeOnlyWanted(rules, wanted, actual, desired, usage, r, h);
    }
    forall r | r in result && Applies(r, b) && b != h ensures r.cidr in cidrs {
      NodeOnlyWanted(rules, wanted, actual, desired, usage, r, b);
    }
    forall cidr, port | cidr in cidrs && port in [b, h] && port != 0
      ensures exists r <- result :: r.cidr == cidr && r.tcp == Some(TcpOptions(None, Some(PortRange(port, port))))
    {
      NodeCoveredByRule(rules, wanted, actual, desired, usage, cidr, port);
    }
    forall r | r in result && r !in rules
      ensures r.cidr in cidrs
      ensures exists port <- [b, h] :: port != 0 && r == Rule(r.cidr, "6", Some(TcpOptions(None, Some(PortRange(port, port)))), false, "")
    {
      NodeNewRules(rules, wanted, actual, desired, usage, r);
    }
  }

  // ---------------------------------------------------------------------------------------------
  // Idempotence

  lemma {:induction false} Sift2Kept(rules: seq<Rule>, backend: set<string>, health: set<string>,
                                     actual: Option<PortSpec>, desired: PortSpec, usage: Usage)
    ensures var s := Sift2(rules, backend, health, actual, desired, usage);
            Sift2(s.kept, backend, health, actual, desired, usage) == s
    decreases |rules|
  {
    if rules != [] {
      var (keep, rb, rh) := Verdict2(rules[0], backend, health, actual, desired, usage);
      Sift2Kept(rules[1..], rb, rh, actual, desired, usage);
      var s := Sift2(rules[1..], rb, rh, actual, desired, usage);
      assert ([rules[0]] + s.kept)[1..] == s.kept;
      assert [] + s.kept == s.kept;
    }
  }

  lemma {:induction false} Sift2MadeBackend(backend: set<string>, health: set<string>, actual: Option<PortSpec>, desired: PortSpec, usage: Usage)
    ensures var made := MakeRules(Ascending(backend), desired.backendPort);
            Sift2(made, backend, health, actual, desired, usage) == Sifted(made, {}, health)
    decreases |backend|
  {
    if backend != {} {
      var rest := backend - {Least(backend)};
      Sift2MadeBackend(rest, health, actual, desired, usage);
      assert Ascending(backend)[1..] == Ascending(rest);
      var made := MakeRules(Ascending(backend), desired.backendPort);
      assert made[1..] == MakeRules(Ascending(rest), desired.backendPort);
      assert Verdict2(made[0], backend, health, actual, desired, usage) == (true, rest, health);
    }
  }

  lemma {:induction false} Sift2MadeHealth(backend: set<string>, health: set<string>, actual: Option<PortSpec>, desired: PortSpec, usage: Usage)
    requires desired.backendPort == desired.healthCheckerPort ==> backend == {}
    ensures var made := MakeRules(Ascending(health), desired.healthCheckerPort);
            Sift2(made, backend, health, actual, desired, usage) == Sifted(made, backend, {})
    decreases |health|
  {
    if health != {} {
      var rest := health - {Least(health)};
      var made := MakeRules(Ascending(health), desired.healthCheckerPort);
      Sift2MadeHealth(backend, rest, actual, desired, usage);
      assert Ascending(health)[1..] == Ascending(rest);
      assert made[1..] == MakeRules(Ascending(rest), desired.healthCheckerPort);
      assert Verdict2(made[0], backend, health, actual, desired, usage) == (true, backend, rest);
    }
  }

  /** Rewriting the result again changes nothing, also when the two ports coincide or one of them is 0. */
  lemma NodeRewriteIdempotent(rules: seq<Rule>, wanted: set<string>, actual: Option<PortSpec>, desired: PortSpec, usage: Usage)
    ensures var once := NodeRewrite(rules, wanted, actual, desired, usage);
            NodeRewrite(once, wanted, actual, desired, usage) == once
  {
    var b, h := desired.backendPort, desired.healthCheckerPort;
    var s := Sift2(rules, wanted, wanted, actual, desired, usage);
    var addedB, addedH := Added(s.backend, b), Added(s.health, h);
    Sift2Kept(rules, wanted, wanted, actual, desired, usage);
    Sift2Concat(s.kept + addedB, addedH, wanted, wanted, actual, desired, usage);
    Sift2Concat(s.kept, addedB, wanted, wanted, actual, desired, usage);
    var mid := if b == 0 then s.backend else {};
    var end := if h == 0 then s.health else {};
    if b != 0 { Sift2MadeBackend(s.backend, s.health, actual, desired, usage); }
    if h != 0 { Sift2MadeHealth(mid, s.health, actual, desired, usage); }
    var again := Sift2(s.kept + addedB + addedH, wanted, wanted, actual, desired, usage);
    assert again == Sifted(s.kept + addedB + addedH, mid, end);
    assert Added(mid, b) == [] && Added(end, h) == [];
  }

  // ---------------------------------------------------------------------------------------------
  // The change test of `updateBackendRules`

  /**
   When the node rewriting adds no copy of a rule in place of another one: with two ports, without any, without
   CIDRs, or when the port is in use and was the only one before.
   */
  predicate NodeTestIsExact(wanted: set<string>, actual: Option<PortSpec>, desired: PortSpec, usage: Usage) {
    var b, h := desired.backendPort, desired.healthCheckerPort;
    b != h || b == 0 || wanted == {} || (!usage.Unused? && OldPorts(actual) == (b, h))
  }

  lemma {:induction false} NodeSurvivorsLength(rules: seq<Rule>, wanted: set<string>, actual: Option<PortSpec>, desired: PortSpec, usage: Usage, n: nat)
    requires n <= |rules|
    ensures var kept := NodeSurvivors(rules, wanted, actual, desired, usage, n);
            |kept| <= n && (|kept| == n ==> kept == rules[..n])
  {
    if n > 0 {
      NodeSurvivorsLength(rules, wanted, actual, desired, usage, n - 1);
      assert rules[..n] == rules[..n - 1] + [rules[n - 1]];
    }
  }

  /** Without a rule to drop nothing is dropped. */
  lemma {:induction false} NodeSurvivorsAll(rules: seq<Rule>, wanted: set<string>, actual: Option<PortSpec>, desired: PortSpec, usage: Usage, n: nat)
    requires n <= |rules| && desired.backendPort == desired.healthCheckerPort
    requires !usage.Unused? && OldPorts(actual) == (desired.backendPort, desired.healthCheckerPort)
    ensures NodeSurvivors(rules, wanted, actual, desired, usage, n) == rules[..n]
  {
    if n > 0 {
      NodeSurvivorsAll(rules, wanted, actual, desired, usage, n - 1);
      assert rules[..n] == rules[..n - 1] + [rules[n - 1]];
    }
  }

  lemma {:induction false} MemberCounts(rules: seq<Rule>, cidr: string, port: int)
    requires MakeRule(cidr, port) in rules
    ensures Count(rules, cidr, port) >= 1
  {
    if rules[0] != MakeRule(cidr, port) { MemberCounts(rules[1..], cidr, port); }
  }

  /** A new rule for a CIDR without any was not there before. */
  lemma AddedIsNew(rules: seq<Rule>, wanted: set<string>, port: int)
    requires forall r <- Added(WithRoom(rules, wanted, port, 1), port) :: r in rules
    ensures Added(WithRoom(rules, wanted, port, 1), port) == []
  {
    var cidrs := WithRoom(rules, wanted, port, 1);
    AscendingMembers(cidrs);
    MadeRules(Ascending(cidrs), port);
    if port != 0 {
      forall c | c in cidrs ensures MakeRule(c, port) in rules {
        assert MakeRule(c, port) in Added(cidrs, port);
      }
      if c :| c in cidrs { MemberCounts(rules, c, port); }
    }
  }

  lemma NodeUnnoticed(rules: seq<Rule>, wanted: set<string>, actual: Option<PortSpec>, desired: PortSpec, usage: Usage)
    requires NodeTestIsExact(wanted, actual, desired, usage)
    requires !ListChanged(rules, NodeRewrite(rules, wanted, actual, desired, usage))
    ensures NodeRewrite(rules, wanted, actual, desired, usage) == rules
  {
    var b, h := desired.backendPort, desired.healthCheckerPort;
    var kept := NodeSurvivors(rules, wanted, actual, desired, usage, |rules|);
    var addedB, addedH := Added(WithRoom(rules, wanted, b, 1), b), Added(WithRoom(rules, wanted, h, if b == h then 2 else 1), h);
    NodeRewriteConserves(rules, wanted, actual, desired, usage);
    NodeSurvivorsLength(rules, wanted, actual, desired, usage, |rules|);
    assert rules[..|rules|] == rules;
    var result := NodeRewrite(rules, wanted, actual, desired, usage);
    assert result == kept + addedB + addedH;
    if b != h {
      assert forall r :: r in addedB ==> r in result;
      assert forall r :: r in addedH ==> r in result;
      AddedIsNew(rules, wanted, b);
      AddedIsNew(rules, wanted, h);
    } else if b == 0 || wanted == {} {
      assert addedB == [] && addedH == [];
    } else {
      NodeSurvivorsAll(rules, wanted, actual, desired, usage, |rules|);
    }
  }

  // What goes unnoticed otherwise

  /** Rules for some of the CIDRs that are left for the health-check port. */
  lemma {:induction false} Sift2MadeSome(some: set<string>, health: set<string>, actual: Option<PortSpec>, desired: PortSpec, usage: Usage)
    requires desired.backendPort == desired.healthCheckerPort && some <= health
    ensures var made := MakeRules(Ascending(some), desired.healthCheckerPort);
            Sift2(made, {}, health, actual, desired, usage) == Sifted(made, {}, health - some)
    decreases |some|
  {
    if some != {} {
      var rest := some - {Least(some)};
      var made := MakeRules(Ascending(some), desired.healthCheckerPort);
      Sift2MadeSome(rest, health - {Least(some)}, actual, desired, usage);
      assert Ascending(some)[1..] == Ascending(rest);
      assert made[1..] == MakeRules(Ascending(rest), desired.healthCheckerPort);
      assert Verdict2(made[0], {}, health, actual, desired, usage) == (true, {}, health - {Least(some)});
      assert health - {Least(some)} - rest == health - some;
    } else {
      assert health - some == health;
    }
  }

  /** A rule that is dropped and no copy of a wanted one. */
  function Doomed(outside: string, actual: Option<PortSpec>, desired: PortSpec, usage: Usage): Rule {
    var former := OldPorts(actual);
    MakeRule(outside, if usage.Unused? then desired.backendPort else if former.0 != desired.backendPort then former.0 else former.1)
  }

  /** The doomed rule, then rules for the CIDRs, and second ones for all but the first CIDR. */
  function Copied(wanted: set<string>, doomed: Rule, port: int): seq<Rule>
    requires wanted != {}
  {
    [doomed] + (MakeRules(Ascending(wanted), port) + MakeRules(Ascending(wanted - {Least(wanted)}), port))
  }

  lemma DoomedGoes(wanted: set<string>, outside: string, actual: Option<PortSpec>, desired: PortSpec, usage: Usage)
    requires !NodeTestIsExact(wanted, actual, desired, usage) && outside !in wanted
    ensures Sift2([Doomed(outside, actual, desired, usage)], wanted, wanted, actual, desired, usage) == Sifted([], wanted, wanted)
  {
    Sift2Single(Doomed(outside, actual, desired, usage), wanted, wanted, actual, desired, usage);
  }

  /** The rules for all CIDRs are taken for backend rules, the second ones for health-check rules. */
  lemma CopiesStay(wanted: set<string>, actual: Option<PortSpec>, desired: PortSpec, usage: Usage)
    requires wanted != {} && desired.backendPort == desired.healthCheckerPort
    ensures var port := desired.backendPort;
            var rules := MakeRules(Ascending(wanted), port) + MakeRules(Ascending(wanted - {Least(wanted)}), port);
            Sift2(rules, wanted, wanted, actual, desired, usage) == Sifted(rules, {}, {Least(wanted)})
  {
    var some := wanted - {Least(wanted)};
    Sift2Concat(MakeRules(Ascending(wanted), desired.backendPort), MakeRules(Ascending(some), desired.backendPort),
                wanted, wanted, actual, desired, usage);
    Sift2MadeBackend(wanted, wanted, actual, desired, usage);
    Sift2MadeSome(some, wanted, actual, desired, usage);
    assert wanted - some == {Least(wanted)};
  }

  lemma CopiedRewritten(wanted: set<string>, outside: string, actual: Option<PortSpec>, desired: PortSpec, usage: Usage)
    requires !NodeTestIsExact(wanted, actual, desired, usage) && outside !in wanted
    ensures var port := desired.backendPort;
            var rules := Copied(wanted, Doomed(outside, actual, desired, usage), port);
            NodeRewrite(rules, wanted, actual, desired, usage) == rules[1..] + [MakeRule(Least(wanted), port)]
  {
    var port, doomed := desired.backendPort, Doomed(outside, actual, desired, usage);
    var rest := MakeRules(Ascending(wanted), port) + MakeRules(Ascending(wanted - {Least(wanted)}), port);
    DoomedGoes(wanted, outside, actual, desired, usage);
    CopiesStay(wanted, actual, desired, usage);
    DroppedFirst(doomed, rest, wanted, {Least(wanted)}, actual, desired, usage);
    LastAdded(wanted, port);
  }

  lemma DroppedFirst(doomed: Rule, rest: seq<Rule>, wanted: set<string>, left: set<string>, actual: Option<PortSpec>, desired: PortSpec, usage: Usage)
    requires Sift2([doomed], wanted, wanted, actual, desired, usage) == Sifted([], wanted, wanted)
    requires Sift2(rest, wanted, wanted, actual, desired, usage) == Sifted(rest, {}, left)
    ensures ([doomed] + rest)[1..] == rest
    ensures NodeRewrite([doomed] + rest, wanted, actual, desired, usage)
         == rest + Added({}, desired.backendPort) + Added(left, desired.healthCheckerPort)
  {
    Sift2Concat([doomed], rest, wanted, wanted, actual, desired, usage);
    assert [] + rest == rest;
  }

  lemma LastAdded(wanted: set<string>, port: int)
    requires wanted != {} && port != 0
    ensures Added({}, port) == [] && Added({Least(wanted)}, port) == [MakeRule(Least(wanted), port)]
  {
    var one := {Least(wanted)};
    assert Least(one) == Least(wanted) && one - {Least(one)} == {};
    assert Ascending(one) == [Least(wanted)];
  }

  /**
   The change test of `updateBackendRules` is exact for every list if and only if `NodeTestIsExact`; else some list keeps
   a rule that the rewriting drops.
   */
  lemma NodeChangeTestExact(wanted: set<string>, actual: Option<PortSpec>, desired: PortSpec, usage: Usage)
    ensures NodeTestIsExact(wanted, actual, desired, usage)
            <==> forall rules :: ListChanged(rules, NodeRewrite(rules, wanted, actual, desired, usage))
                            <==> NodeRewrite(rules, wanted, actual, desired, usage) != rules
  {
    if NodeTestIsExact(wanted, actual, desired, usage) {
      forall rules ensures ListChanged(rules, NodeRewrite(rules, wanted, actual, desired, usage))
                      <==> NodeRewrite(rules, wanted, actual, desired, usage) != rules
      {
        if !ListChanged(rules, NodeRewrite(rules, wanted, actual, desired, usage)) {
          NodeUnnoticed(rules, wanted, actual, desired, usage);
        }
      }
    } else {
      var outside := Outside(wanted);
      var port, least := desired.backendPort, Least(wanted);
      var rules := Copied(wanted, Doomed(outside, actual, desired, usage), port);
      CopiedRewritten(wanted, outside, actual, desired, usage);
      AscendingMembers(wanted);
      MadeRules(Ascending(wanted), port);
      var copy := MakeRule(least, port);
      assert copy in MakeRules(Ascending(wanted), port);
      Shifted(rules[0], rules[1..], copy);
      assert rules == [rules[0]] + rules[1..];
    }
  }

  lemma Shifted(doomed: Rule, rest: seq<Rule>, copy: Rule)
    requires copy in rest && doomed !in rest
    ensures !ListChanged([doomed] + rest, rest + [copy]) && rest + [copy] != [doomed] + rest
  {
    assert ([doomed] + rest)[0] == doomed;
    assert (rest + [copy])[0] in rest;
  }

  /** `updateBackendRules` for one subnet's list. */
  method UpdateBackendRules(list: SecurityList, lbSubnets: seq<string>, actual: Option<PortSpec>, desired: PortSpec, services: Option<seq<Service>>)
    modifies list
    ensures list.egress == old(list.egress)
    ensures var usage := HealthCheckPortInUse(services, desired.healthCheckerPort);
            var ingress := NodeRewrite(old(list.ingress), AsSet(lbSubnets), actual, desired, usage);
            if ListChanged(old(list.ingress), ingress) then list.ingress == ingress
            else list.ingress == old(list.ingress)
                 && (NodeTestIsExact(AsSet(lbSubnets), actual, desired, usage) ==> list.ingress == ingress)
  {
    var ingress := GetNodeIngressRules(list.ingress, lbSubnets, actual, desired, services);
    var changed := SecurityListRulesChanged(list.ingress, list.egress, ingress, list.egress);
    NodeChangeTestExact(AsSet(lbSubnets), actual, desired, HealthCheckPortInUse(services, desired.healthCheckerPort));
    if changed { list.ingress := ingress; }
  }
}
