/**
 The security-list rewriting of load_balancer_security_lists.go.

 Ingress and egress rules have the same shape; `cidr` is the source of the one and the
 destination of the other.
 */
module SecurityRules {
  import opened Wrappers
  import opened SortedSets

  datatype PortRange = PortRange(min: int, max: int)

  datatype TcpOptions = TcpOptions(source: Option<PortRange>, destination: Option<PortRange>)

  /** `rest` stands for the fields the rewriting never looks at. */
  datatype Rule = Rule(cidr: string, protocol: string, tcp: Option<TcpOptions>, stateless: bool, rest: string)

  datatype PortSpec = PortSpec(listenerPort: int, backendPort: int, healthCheckerPort: int)

  /** A service as the lister gives it; the health-check path is empty unless the service has a custom one. */
  datatype Service = Service(isLoadBalancer: bool, ports: seq<int>, healthCheckPath: string)

  /** What asking the service lister gives: some service uses the port, none does, or the lister fails. */
  datatype Usage = Used | Unused | Unknown

  const NODES_HEALTH_CHECK_PORT := 10256

  /** `portInUse`; `services` is None when the lister fails. */
  function PortInUse(services: Option<seq<Service>>, port: int): Usage {
    if services.None? then Unknown
    else if exists s <- services.value :: s.isLoadBalancer && port in s.ports then Used
    else Unused
  }

  /** `healthCheckPortInUse`: a custom port is unique to its service, so the lister is not asked. */
  function HealthCheckPortInUse(services: Option<seq<Service>>, port: int): Usage {
    if port != NODES_HEALTH_CHECK_PORT then Unused
    else if services.None? then Unknown
    else if exists s <- services.value :: s.isLoadBalancer && s.healthCheckPath == "" then Used
    else Unused
  }

  /** `sets.NewString` of the listed CIDRs. */
  function AsSet(cidrs: seq<string>): set<string> {
    set c | c in cidrs
  }

  /** `makeIngressSecurityRule` and `makeEgressSecurityRule`; 6 is TCP. */
  function MakeRule(cidr: string, port: int): Rule {
    Rule(cidr, "6", Some(TcpOptions(None, Some(PortRange(port, port)))), false, "")
  }

  function MakeRules(cidrs: seq<string>, port: int): seq<Rule> {
    if cidrs == [] then [] else [MakeRule(cidrs[0], port)] + MakeRules(cidrs[1..], port)
  }

  /** A destination range of one single port. */
  predicate OnPort(r: Rule, port: int) {
    r.tcp.Some? && r.tcp.value.destination == Some(PortRange(port, port))
  }

  /** The rule is about `port` of this service: any source port, and exactly that destination port. */
  predicate Applies(r: Rule, port: int) {
    OnPort(r, port) && r.tcp.value.source.None?
  }

  /** A rule for the port that was used before, which is dropped without further questions. */
  predicate Outdated(r: Rule, actual: Option<int>, port: int) {
    actual.Some? && actual.value != port && OnPort(r, actual.value)
  }

  /** Whether a rule stays, and the CIDRs that still need a rule after it. */
  function Verdict(r: Rule, wanted: set<string>, actual: Option<int>, port: int, usage: Usage): (bool, set<string>) {
    if Outdated(r, actual, port) then (false, wanted)
    else if !Applies(r, port) then (true, wanted)
    else if r.cidr in wanted then (true, wanted - {r.cidr})
    else (!usage.Unused?, wanted)
  }

  /**
   The rules that stay and the CIDRs that still need a rule. This is the loop shared by the load balancer's
   ingress (`actual` is None) and egress rules.
   */
  function Sift(rules: seq<Rule>, wanted: set<string>, actual: Option<int>, port: int, usage: Usage): (seq<Rule>, set<string>) {
    if rules == [] then ([], wanted)
    else
      var (keep, rest) := Verdict(rules[0], wanted, actual, port, usage);
      var (kept, left) := Sift(rules[1..], rest, actual, port, usage);
      ((if keep then [rules[0]] else []) + kept, left)
  }

  /** `getLoadBalancerIngressRules` and `getLoadBalancerEgressRules` as a function of their inputs. */
  function Rewrite(rules: seq<Rule>, wanted: set<string>, actual: Option<int>, port: int, usage: Usage): seq<Rule> {
    var (kept, left) := Sift(rules, wanted, actual, port, usage);
    kept + MakeRules(Ascending(left), port)
  }

  // ---------------------------------------------------------------------------------------------
  // The loops

  lemma {:induction false} SiftConcat(a: seq<Rule>, b: seq<Rule>, wanted: set<string>, actual: Option<int>, port: int, usage: Usage)
    ensures var (ka, la) := Sift(a, wanted, actual, port, usage);
            var (kb, lb) := Sift(b, la, actual, port, usage);
            Sift(a + b, wanted, actual, port, usage) == (ka + kb, lb)
    decreases |a|
  {
    if a == [] {
      assert a + b == b;
      var (kb, lb) := Sift(b, wanted, actual, port, usage);
      assert [] + kb == kb;
    } else {
      assert (a + b)[1..] == a[1..] + b && (a + b)[0] == a[0];
      var (keep, rest) := Verdict(a[0], wanted, actual, port, usage);
      SiftConcat(a[1..], b, rest, actual, port, usage);
      var (ka, la) := Sift(a[1..], rest, actual, port, usage);
      var (kb, lb) := Sift(b, la, actual, port, usage);
      var head := if keep then [a[0]] else [];
      assert head + (ka + kb) == (head + ka) + kb;
    }
  }

  lemma SiftSingle(r: Rule, wanted: set<string>, actual: Option<int>, port: int, usage: Usage)
    ensures var (keep, rest) := Verdict(r, wanted, actual, port, usage);
            Sift([r], wanted, actual, port, usage) == (if keep then [r] else [], rest)
  {
    assert [r][1..] == [];
    var none: seq<Rule> := [];
    assert [r] + none == [r] && none + none == none;
  }

  lemma SiftNext(rules: seq<Rule>, i: nat, wanted: set<string>, actual: Option<int>, port: int, usage: Usage)
    requires i < |rules|
    ensures var (kept, left) := Sift(rules[..i], wanted, actual, port, usage);
            var (keep, rest) := Verdict(rules[i], left, actual, port, usage);
            Sift(rules[..i + 1], wanted, actual, port, usage) == (if keep then kept + [rules[i]] else kept, rest)
  {
    SiftConcat(rules[..i], [rules[i]], wanted, actual, port, usage);
    assert rules[..i] + [rules[i]] == rules[..i + 1];
    var (kept, left) := Sift(rules[..i], wanted, actual, port, usage);
    var (keep, rest) := Verdict(rules[i], left, actual, port, usage);
    SiftSingle(rules[i], left, actual, port, usage);
    assert kept + [] == kept;
  }

  lemma {:induction false} MakeRulesAppend(cidrs: seq<string>, cidr: string, port: int)
    ensures MakeRules(cidrs + [cidr], port) == MakeRules(cidrs, port) + [MakeRule(cidr, port)]
  {
    if cidrs != [] {
      MakeRulesAppend(cidrs[1..], cidr, port);
      assert (cidrs + [cidr])[1..] == cidrs[1..] + [cidr];
    } else {
      assert cidrs + [cidr] == [cidr];
    }
  }

  /** The closing loop of each function: a rule for every CIDR left. */
  method AddRules(rules: seq<Rule>, cidrs: seq<string>, port: int) returns (all: seq<Rule>)
    ensures all == rules + MakeRules(cidrs, port)
  {
    all := rules;
    for i := 0 to |cidrs|
      invariant all == rules + MakeRules(cidrs[..i], port)
    {
      MakeRulesAppend(cidrs[..i], cidrs[i], port);
      assert cidrs[..i] + [cidrs[i]] == cidrs[..i + 1];
      all := all + [MakeRule(cidrs[i], port)];
    }
    assert cidrs[..|cidrs|] == cidrs;
  }

  /** `getLoadBalancerIngressRules`; the lister gives the same answer throughout the call. */
  method GetLoadBalancerIngressRules(rules: seq<Rule>, sourceCIDRs: seq<string>, port: int, services: Option<seq<Service>>)
    returns (ingressRules: seq<Rule>)
    ensures ingressRules == Rewrite(rules, AsSet(sourceCIDRs), None, port, PortInUse(services, port))
    ensures forall r <- rules | r.tcp != Some(TcpOptions(None, Some(PortRange(port, port)))) :: r in ingressRules
    ensures services.None? || (exists s <- services.value :: s.isLoadBalancer && port in s.ports) ==>
              forall r <- rules :: r in ingressRules
    ensures services.Some? && !(exists s <- services.value :: s.isLoadBalancer && port in s.ports) ==>
              forall r <- ingressRules | r.tcp == Some(TcpOptions(None, Some(PortRange(port, port)))) :: r.cidr in sourceCIDRs
    ensures forall cidr <- sourceCIDRs ::
              exists r <- ingressRules :: r.cidr == cidr && r.tcp == Some(TcpOptions(None, Some(PortRange(port, port))))
    ensures forall r <- ingressRules :: r in rules
              || (r.cidr in sourceCIDRs && r == Rule(r.cidr, "6", Some(TcpOptions(None, Some(PortRange(port, port)))), false, ""))
  {
    ghost var usage := PortInUse(services, port);
    ghost var wanted := AsSet(sourceCIDRs);
    var desired := AsSet(sourceCIDRs);
    ingressRules := [];
    for i := 0 to |rules|
      invariant (ingressRules, desired) == Sift(rules[..i], wanted, None, port, usage)
    {
      var rule := rules[i];
      SiftNext(rules, i, wanted, None, port, usage);
      if rule.tcp.None? || rule.tcp.value.source.Some? || rule.tcp.value.destination.None?
         || rule.tcp.value.destination.value.min != port || rule.tcp.value.destination.value.max != port {
        ingressRules := ingressRules + [rule];
        continue;
      }
      if rule.cidr in desired {
        ingressRules := ingressRules + [rule];
        desired := desired - {rule.cidr};
        continue;
      }
      if !PortInUse(services, port).Unused? {
        ingressRules := ingressRules + [rule];
      }
    }
    assert rules[..|rules|] == rules;
    ingressRules := AddRules(ingressRules, Ascending(desired), port);
    RewriteMembers(rules, sourceCIDRs, None, port, usage, ingressRules);
  }

  /** `getLoadBalancerEgressRules`, for the backend port as well as for the health-check port. */
  method GetLoadBalancerEgressRules(rules: seq<Rule>, nodeSubnets: seq<string>, actualPort: int, desiredPort: int,
                                    services: Option<seq<Service>>)
    returns (egressRules: seq<Rule>)
    ensures egressRules == Rewrite(rules, AsSet(nodeSubnets), Some(actualPort), desiredPort, HealthCheckPortInUse(services, desiredPort))
    ensures forall r <- rules | r.tcp != Some(TcpOptions(None, Some(PortRange(desiredPort, desiredPort)))) ::
              r in egressRules <==>
              !(actualPort != desiredPort && r.tcp.Some? && r.tcp.value.destination == Some(PortRange(actualPort, actualPort)))
    ensures desiredPort == 10256 && (services.None? || exists s <- services.value :: s.isLoadBalancer && s.healthCheckPath == "") ==>
              forall r <- rules | r.tcp == Some(TcpOptions(None, Some(PortRange(desiredPort, desiredPort)))) :: r in egressRules
    ensures desiredPort != 10256 || (services.Some? && !(exists s <- services.value :: s.isLoadBalancer && s.healthCheckPath == "")) ==>
              forall r <- egressRules | r.tcp == Some(TcpOptions(None, Some(PortRange(desiredPort, desiredPort)))) :: r.cidr in nodeSubnets
    ensures forall cidr <- nodeSubnets ::
              exists r <- egressRules :: r.cidr == cidr && r.tcp == Some(TcpOptions(None, Some(PortRange(desiredPort, desiredPort))))
    ensures forall r <- egressRules :: r in rules
              || (r.cidr in nodeSubnets && r == Rule(r.cidr, "6", Some(TcpOptions(None, Some(PortRange(desiredPort, desiredPort)))), false, ""))
  {
    ghost var usage := HealthCheckPortInUse(services, desiredPort);
    ghost var wanted := AsSet(nodeSubnets);
    var nodeCIDRs := AsSet(nodeSubnets);
    egressRules := [];
    for i := 0 to |rules|
      invariant (egressRules, nodeCIDRs) == Sift(rules[..i], wanted, Some(actualPort), desiredPort, usage)
    {
      var rule := rules[i];
      SiftNext(rules, i, wanted, Some(actualPort), desiredPort, usage);
      if rule.tcp.Some? && rule.tcp.value.destination.Some? {
        var range := rule.tcp.value.destination.value;
        if range.min == range.max && range.min != desiredPort && range.max != desiredPort
           && range.min == actualPort && range.max == actualPort {
          continue;
        }
      }
      if rule.tcp.None? || rule.tcp.value.source.Some? || rule.tcp.value.destination.None?
         || rule.tcp.value.destination.value.min != desiredPort || rule.tcp.value.destination.value.max != desiredPort {
        egressRules := egressRules + [rule];
        continue;
      }
      if rule.cidr in nodeCIDRs {
        egressRules := egressRules + [rule];
        nodeCIDRs := nodeCIDRs - {rule.cidr};
        continue;
      }
      if !HealthCheckPortInUse(services, desiredPort).Unused? {
        egressRules := egressRules + [rule];
      }
    }
    assert rules[..|rules|] == rules;
    egressRules := AddRules(egressRules, Ascending(nodeCIDRs), desiredPort);
    RewriteMembers(rules, nodeSubnets, Some(actualPort), desiredPort, usage, egressRules);
  }

  // ---------------------------------------------------------------------------------------------
  // What stays and what is left: an independent description

  /** The `i`-th rule is the first one about the port with its CIDR, and that CIDR is wanted. */
  predicate Claims(rules: seq<Rule>, wanted: set<string>, port: int, i: nat)
    requires i < |rules|
  {
    && Applies(rules[i], port) && rules[i].cidr in wanted
    && forall j | 0 <= j < i :: Applies(rules[j], port) ==> rules[j].cidr != rules[i].cidr
  }

  /** When a rule fits a drop case. */
  predicate Dropped(rules: seq<Rule>, wanted: set<string>, actual: Option<int>, port: int, usage: Usage, i: nat)
    requires i < |rules|
  {
    || Outdated(rules[i], actual, port)
    || (Applies(rules[i], port) && !Claims(rules, wanted, port, i) && usage.Unused?)
  }

  function Survivors(rules: seq<Rule>, wanted: set<string>, actual: Option<int>, port: int, usage: Usage, n: nat): seq<Rule>
    requires n <= |rules|
  {
    if n == 0 then []
    else Survivors(rules, wanted, actual, port, usage, n - 1)
         + if Dropped(rules, wanted, actual, port, usage, n - 1) then [] else [rules[n - 1]]
  }

  predicate HasRule(rules: seq<Rule>, cidr: string, port: int) {
    exists r <- rules :: Applies(r, port) && r.cidr == cidr
  }

  /** `left` holds the wanted CIDRs that have no rule among `rules`. */
  ghost predicate Lacking(rules: seq<Rule>, wanted: set<string>, port: int, left: set<string>) {
    forall c :: c in left <==> c in wanted && !HasRule(rules, c, port)
  }

  /** The first `n` rules: what stays are the rules that fit no drop case, in order; what is left has no rule yet. */
  lemma {:induction false} SiftSurvivors(rules: seq<Rule>, wanted: set<string>, actual: Option<int>, port: int, usage: Usage, n: nat)
    requires n <= |rules|
    ensures var (kept, left) := Sift(rules[..n], wanted, actual, port, usage);
      kept == Survivors(rules, wanted, actual, port, usage, n) && Lacking(rules[..n], wanted, port, left)
  {
    if n > 0 {
      SiftSurvivors(rules, wanted, actual, port, usage, n - 1);
      SiftSurvivorsNext(rules, wanted, actual, port, usage, n - 1, Sift(rules[..n - 1], wanted, actual, port, usage).0,
                        Sift(rules[..n - 1], wanted, actual, port, usage).1);
    }
  }

  lemma SiftSurvivorsNext(rules: seq<Rule>, wanted: set<string>, actual: Option<int>, port: int, usage: Usage, n: nat,
                          kept: seq<Rule>, left: set<string>)
    requires n < |rules| && Sift(rules[..n], wanted, actual, port, usage) == (kept, left)
    requires kept == Survivors(rules, wanted, actual, port, usage, n) && Lacking(rules[..n], wanted, port, left)
    ensures var (kept', left') := Sift(rules[..n + 1], wanted, actual, port, usage);
      kept' == Survivors(rules, wanted, actual, port, usage, n + 1) && Lacking(rules[..n + 1], wanted, port, left')
  {
    SiftNext(rules, n, wanted, actual, port, usage);
    var (keep, rest) := Verdict(rules[n], left, actual, port, usage);
    LackingNext(rules, n, wanted, actual, port, usage, left);
    SurvivorsNext(rules, wanted, actual, port, usage, n, keep);
  }

  lemma SurvivorsNext(rules: seq<Rule>, wanted: set<string>, actual: Option<int>, port: int, usage: Usage, n: nat, keep: bool)
    requires n < |rules| && (keep <==> !Dropped(rules, wanted, actual, port, usage, n))
    ensures var before := Survivors(rules, wanted, actual, port, usage, n);
      Survivors(rules, wanted, actual, port, usage, n + 1) == if keep then before + [rules[n]] else before
  {
    var before := Survivors(rules, wanted, actual, port, usage, n);
    assert before + [] == before;
  }

  lemma LackingNext(rules: seq<Rule>, i: nat, wanted: set<string>, actual: Option<int>, port: int, usage: Usage, left: set<string>)
    requires i < |rules| && Lacking(rules[..i], wanted, port, left)
    ensures var (keep, rest) := Verdict(rules[i], left, actual, port, usage);
      Lacking(rules[..i + 1], wanted, port, rest) && (keep <==> !Dropped(rules, wanted, actual, port, usage, i))
  {
    HasRuleNext(rules, i, port);
    ClaimsLeft(rules, wanted, port, i);
    if Outdated(rules[i], actual, port) { assert !Applies(rules[i], port); }
  }

  lemma HasRuleNext(rules: seq<Rule>, i: nat, port: int)
    requires i < |rules|
    ensures forall c :: HasRule(rules[..i + 1], c, port)
              <==> HasRule(rules[..i], c, port) || (Applies(rules[i], port) && rules[i].cidr == c)
  {
    assert rules[..i + 1] == rules[..i] + [rules[i]];
    forall c ensures HasRule(rules[..i + 1], c, port)
              <==> HasRule(rules[..i], c, port) || (Applies(rules[i], port) && rules[i].cidr == c)
    {
      assert forall r :: r in rules[..i + 1] <==> r in rules[..i] || r == rules[i];
    }
  }

  lemma ClaimsLeft(rules: seq<Rule>, wanted: set<string>, port: int, i: nat)
    requires i < |rules|
    ensures Claims(rules, wanted, port, i)
            <==> Applies(rules[i], port) && rules[i].cidr in wanted && !HasRule(rules[..i], rules[i].cidr, port)
  {
    if forall j | 0 <= j < i :: Applies(rules[j], port) ==> rules[j].cidr != rules[i].cidr {
    } else {
      var j :| 0 <= j < i && Applies(rules[j], port) && rules[j].cidr == rules[i].cidr;
      assert rules[j] in rules[..i];
    }
  }

  /**
   Conservation: the result is every rule that fits no drop case, in the original order, followed by a new rule
   for each wanted CIDR that had none.
   */
  lemma RewriteConserves(rules: seq<Rule>, wanted: set<string>, actual: Option<int>, port: int, usage: Usage)
    ensures Rewrite(rules, wanted, actual, port, usage)
         == Survivors(rules, wanted, actual, port, usage, |rules|)
            + MakeRules(Ascending(set c <- wanted | !HasRule(rules, c, port)), port)
  {
    assert rules[..|rules|] == rules;
    SiftSurvivors(rules, wanted, actual, port, usage, |rules|);
    var (kept, left) := Sift(rules, wanted, actual, port, usage);
    assert left == set c <- wanted | !HasRule(rules, c, port) by { assert Lacking(rules, wanted, port, left); }
  }

  // ---------------------------------------------------------------------------------------------
  // Idempotence

  lemma {:induction false} SiftKept(rules: seq<Rule>, wanted: set<string>, actual: Option<int>, port: int, usage: Usage)
    ensures var (kept, left) := Sift(rules, wanted, actual, port, usage);
            Sift(kept, wanted, actual, port, usage) == (kept, left)
    decreases |rules|
  {
    if rules != [] {
      var (keep, rest) := Verdict(rules[0], wanted, actual, port, usage);
      SiftKept(rules[1..], rest, actual, port, usage);
      var (kept, left) := Sift(rules[1..], rest, actual, port, usage);
      assert ([rules[0]] + kept)[1..] == kept;
      assert [] + kept == kept;
    }
  }

  lemma {:induction false} SiftMade(left: set<string>, actual: Option<int>, port: int, usage: Usage)
    ensures var made := MakeRules(Ascending(left), port); Sift(made, left, actual, port, usage) == (made, {})
    decreases |left|
  {
    if left != {} {
      var rest := left - {Least(left)};
      SiftMade(rest, actual, port, usage);
      var made := MakeRules(Ascending(left), port);
      assert Ascending(left)[1..] == Ascending(rest);
      assert made[1..] == MakeRules(Ascending(rest), port);
    }
  }

  /** Rewriting the result again changes nothing. */
  lemma RewriteIdempotent(rules: seq<Rule>, wanted: set<string>, actual: Option<int>, port: int, usage: Usage)
    ensures var once := Rewrite(rules, wanted, actual, port, usage);
            Rewrite(once, wanted, actual, port, usage) == once
  {
    var (kept, left) := Sift(rules, wanted, actual, port, usage);
    var made := MakeRules(Ascending(left), port);
    SiftKept(rules, wanted, actual, port, usage);
    SiftMade(left, actual, port, usage);
    SiftConcat(kept, made, wanted, actual, port, usage);
    assert kept + made + MakeRules(Ascending({}), port) == kept + made;
  }

  // ---------------------------------------------------------------------------------------------
  // Coverage

  lemma {:induction false} MadeRules(cidrs: seq<string>, port: int)
    ensures forall r :: r in MakeRules(cidrs, port) <==> r.cidr in cidrs && r == MakeRule(r.cidr, port)
    ensures |MakeRules(cidrs, port)| == |cidrs|
  {
    if cidrs != [] { MadeRules(cidrs[1..], port); }
  }

  lemma {:induction false} SurvivorsKeep(rules: seq<Rule>, wanted: set<string>, actual: Option<int>, port: int, usage: Usage, n: nat)
    requires n <= |rules|
    ensures var kept := Survivors(rules, wanted, actual, port, usage, n);
      && (forall i | 0 <= i < n && !Dropped(rules, wanted, actual, port, usage, i) :: rules[i] in kept)
      && (forall r <- kept :: exists i | 0 <= i < n :: rules[i] == r && !Dropped(rules, wanted, actual, port, usage, i))
  {
    if n > 0 { SurvivorsKeep(rules, wanted, actual, port, usage, n - 1); }
  }

  lemma FirstClaims(rules: seq<Rule>, wanted: set<string>, port: int, cidr: string) returns (i: nat)
    requires cidr in wanted && HasRule(rules, cidr, port)
    ensures i < |rules| && rules[i].cidr == cidr && Claims(rules, wanted, port, i)
  {
    var r :| r in rules && Applies(r, port) && r.cidr == cidr;
    var last :| 0 <= last < |rules| && rules[last] == r;
    i := 0;
    while !(Applies(rules[i], port) && rules[i].cidr == cidr)
      invariant i <= last && forall j | 0 <= j < i :: !(Applies(rules[j], port) && rules[j].cidr == cidr)
      decreases last - i
    {
      i := i + 1;
    }
  }

  /** Coverage: every wanted CIDR ends with a rule on the wanted port. */
  lemma RewriteCovers(rules: seq<Rule>, wanted: set<string>, actual: Option<int>, port: int, usage: Usage, cidr: string)
    requires cidr in wanted
    ensures HasRule(Rewrite(rules, wanted, actual, port, usage), cidr, port)
  {
    RewriteConserves(rules, wanted, actual, port, usage);
    var result := Rewrite(rules, wanted, actual, port, usage);
    if HasRule(rules, cidr, port) {
      var i := FirstClaims(rules, wanted, port, cidr);
      SurvivorsKeep(rules, wanted, actual, port, usage, |rules|);
      assert rules[i] in result;
    } else {
      var left := set c <- wanted | !HasRule(rules, c, port);
      AscendingMembers(left);
      MadeRules(Ascending(left), port);
      assert MakeRule(cidr, port) in result;
    }
  }

  /** The rules of the result are survivors, or new ones for wanted CIDRs. */
  lemma RewriteMember(rules: seq<Rule>, wanted: set<string>, actual: Option<int>, port: int, usage: Usage, r: Rule)
    ensures r in Rewrite(rules, wanted, actual, port, usage)
            <==> r in Survivors(rules, wanted, actual, port, usage, |rules|)
                 || (r == MakeRule(r.cidr, port) && r.cidr in wanted && !HasRule(rules, r.cidr, port))
  {
    hide Rewrite, Survivors, HasRule;
    var left := set c <- wanted | !HasRule(rules, c, port);
    RewriteConserves(rules, wanted, actual, port, usage);
    AscendingMembers(left);
    MadeRules(Ascending(left), port);
  }

  /** A rule not for the port stays unless it is for the port given up. */
  lemma OthersStay(rules: seq<Rule>, wanted: set<string>, actual: Option<int>, port: int, usage: Usage, r: Rule)
    requires r in rules && r.tcp != Some(TcpOptions(None, Some(PortRange(port, port))))
    ensures r in Rewrite(rules, wanted, actual, port, usage) <==>
            !(actual.Some? && actual.value != port && r.tcp.Some? && r.tcp.value.destination == Some(PortRange(actual.value, actual.value)))
  {
    hide Rewrite, Survivors, HasRule, Claims;
    RewriteMember(rules, wanted, actual, port, usage, r);
    SurvivorsKeep(rules, wanted, actual, port, usage, |rules|);
    var i :| 0 <= i < |rules| && rules[i] == r;
    assert Applies(r, port) <==> r.tcp == Some(TcpOptions(None, Some(PortRange(port, port))));
    assert Dropped(rules, wanted, actual, port, usage, i) <==> Outdated(r, actual, port);
  }

  /** While others may use the port, its rules stay. */
  lemma SharedStay(rules: seq<Rule>, wanted: set<string>, actual: Option<int>, port: int, usage: Usage, r: Rule)
    requires r in rules && r.tcp == Some(TcpOptions(None, Some(PortRange(port, port)))) && !usage.Unused?
    ensures r in Rewrite(rules, wanted, actual, port, usage)
  {
    hide Rewrite, Survivors, HasRule, Claims;
    RewriteMember(rules, wanted, actual, port, usage, r);
    SurvivorsKeep(rules, wanted, actual, port, usage, |rules|);
    var i :| 0 <= i < |rules| && rules[i] == r;
    assert !Dropped(rules, wanted, actual, port, usage, i);
  }

  /** When no one else uses the port, only wanted CIDRs have a rule on it. */
  lemma OnlyWanted(rules: seq<Rule>, wanted: set<string>, actual: Option<int>, port: int, r: Rule)
    requires r in Rewrite(rules, wanted, actual, port, Unused) && r.tcp == Some(TcpOptions(None, Some(PortRange(port, port))))
    ensures r.cidr in wanted
  {
    hide Rewrite, Survivors, HasRule;
    RewriteMember(rules, wanted, actual, port, Unused, r);
    SurvivorsKeep(rules, wanted, actual, port, Unused, |rules|);
  }

  /** What is new is a plain stateful TCP rule for a wanted CIDR. */
  lemma NewRules(rules: seq<Rule>, wanted: set<string>, actual: Option<int>, port: int, usage: Usage, r: Rule)
    requires r in Rewrite(rules, wanted, actual, port, usage) && r !in rules
    ensures r.cidr in wanted && r == Rule(r.cidr, "6", Some(TcpOptions(None, Some(PortRange(port, port)))), false, "")
  {
    hide Rewrite, Survivors, HasRule, Dropped;
    RewriteMember(rules, wanted, actual, port, usage, r);
    SurvivorsKeep(rules, wanted, actual, port, usage, |rules|);
  }

  lemma CoveredByRule(rules: seq<Rule>, wanted: set<string>, actual: Option<int>, port: int, usage: Usage, cidr: string)
    requires cidr in wanted
    ensures exists r <- Rewrite(rules, wanted, actual, port, usage) ::
              r.cidr == cidr && r.tcp == Some(TcpOptions(None, Some(PortRange(port, port))))
  {
    hide Rewrite;
    RewriteCovers(rules, wanted, actual, port, usage, cidr);
    var r :| r in Rewrite(rules, wanted, actual, port, usage) && Applies(r, port) && r.cidr == cidr;
    assert r.tcp == Some(TcpOptions(None, Some(PortRange(port, port))));
  }

  /**
   What happens to each rule, in terms of the fields: rules not for the port stay unless they are for the port given up;
   rules for the port all stay while others may use it, and else only wanted CIDRs keep one; every wanted CIDR has one;
   and what is new is a plain stateful TCP rule for a wanted CIDR.
   */
  lemma RewriteMembers(rules: seq<Rule>, cidrs: seq<string>, actual: Option<int>, port: int, usage: Usage, result: seq<Rule>)
    requires result == Rewrite(rules, AsSet(cidrs), actual, port, usage)
    ensures forall r <- rules | r.tcp != Some(TcpOptions(None, Some(PortRange(port, port)))) :: r in result <==>
              !(actual.Some? && actual.value != port && r.tcp.Some? && r.tcp.value.destination == Some(PortRange(actual.value, actual.value)))
    ensures !usage.Unused? ==> forall r <- rules | r.tcp == Some(TcpOptions(None, Some(PortRange(port, port)))) :: r in result
    ensures usage.Unused? ==> forall r <- result | r.tcp == Some(TcpOptions(None, Some(PortRange(port, port)))) :: r.cidr in cidrs
    ensures forall cidr <- cidrs :: exists r <- result :: r.cidr == cidr && r.tcp == Some(TcpOptions(None, Some(PortRange(port, port))))
    ensures forall r <- result :: r in rules
              || (r.cidr in cidrs && r == Rule(r.cidr, "6", Some(TcpOptions(None, Some(PortRange(port, port)))), false, ""))
  {
    hide Rewrite;
    var wanted := AsSet(cidrs);
    forall r | r in rules && r.tcp != Some(TcpOptions(None, Some(PortRange(port, port))))
      ensures r in result <==> !(actual.Some? && actual.value != port && r.tcp.Some?
                                 && r.tcp.value.destination == Some(PortRange(actual.value, actual.value)))
    {
      OthersStay(rules, wanted, actual, port, usage, r);
    }
    forall r | r in rules && r.tcp == Some(TcpOptions(None, Some(PortRange(port, port)))) && !usage.Unused? ensures r in result {
      SharedStay(rules, wanted, actual, port, usage, r);
    }
    forall r | r in result && r.tcp == Some(TcpOptions(None, Some(PortRange(port, port)))) && usage.Unused? ensures r.cidr in cidrs {
      OnlyWanted(rules, wanted, actual, port, r);
    }
    forall cidr | cidr in cidrs
      ensures exists r <- result :: r.cidr == cidr && r.tcp == Some(TcpOptions(None, Some(PortRange(port, port))))
    {
      CoveredByRule(rules, wanted, actual, port, usage, cidr);
    }
    forall r | r in result && r !in rules
      ensures r.cidr in cidrs && r == Rule(r.cidr, "6", Some(TcpOptions(None, Some(PortRange(port, port)))), false, "")
    {
      NewRules(rules, wanted, actual, port, usage, r);
    }
  }

  /** The positions of the rules about a port and CIDR. */
  function Count(rules: seq<Rule>, cidr: string, port: int): nat {
    if rules == [] then 0
    else Count(rules[1..], cidr, port) + if Applies(rules[0], port) && rules[0].cidr == cidr then 1 else 0
  }

  lemma {:induction false} CountConcat(a: seq<Rule>, b: seq<Rule>, cidr: string, port: int)
    ensures Count(a + b, cidr, port) == Count(a, cidr, port) + Count(b, cidr, port)
  {
    if a == [] {
      assert a + b == b;
    } else {
      CountConcat(a[1..], b, cidr, port);
      assert (a + b)[1..] == a[1..] + b;
    }
  }

  lemma {:induction false} SiftCount(rules: seq<Rule>, wanted: set<string>, actual: Option<int>, port: int, cidr: string)
    ensures var (kept, left) := Sift(rules, wanted, actual, port, Unused);
            Count(kept, cidr, port) + (if cidr in left then 1 else 0) == if cidr in wanted then 1 else 0
    decreases |rules|
  {
    if rules != [] {
      var (keep, rest) := Verdict(rules[0], wanted, actual, port, Unused);
      SiftCount(rules[1..], rest, actual, port, cidr);
      var (kept, left) := Sift(rules[1..], rest, actual, port, Unused);
      assert ([rules[0]] + kept)[1..] == kept;
      assert [] + kept == kept;
    }
  }

  lemma {:induction false} MadeCount(s: set<string>, port: int, cidr: string)
    ensures Count(MakeRules(Ascending(s), port), cidr, port) == if cidr in s then 1 else 0
    decreases |s|
  {
    if s != {} {
      var rest := s - {Least(s)};
      MadeCount(rest, port, cidr);
      assert Ascending(s)[1..] == Ascending(rest);
      assert MakeRules(Ascending(s), port)[1..] == MakeRules(Ascending(rest), port);
    }
  }

  /** One to one: when no one else uses the port, each wanted CIDR ends with exactly one rule, and no other CIDR with any. */
  lemma RewriteOneToOne(rules: seq<Rule>, wanted: set<string>, actual: Option<int>, port: int, cidr: string)
    ensures Count(Rewrite(rules, wanted, actual, port, Unused), cidr, port) == if cidr in wanted then 1 else 0
  {
    var (kept, left) := Sift(rules, wanted, actual, port, Unused);
    SiftCount(rules, wanted, actual, port, cidr);
    MadeCount(left, port, cidr);
    CountConcat(kept, MakeRules(Ascending(left), port), cidr, port);
  }

  // ---------------------------------------------------------------------------------------------
  // The change test

  /** One half of `securityListRulesChanged`: another length, or a rule that was not there. */
  predicate ListChanged(existing: seq<Rule>, rules: seq<Rule>) {
    |rules| != |existing| || exists r <- rules :: r !in existing
  }

  /** `securityListRulesChanged`. */
  method SecurityListRulesChanged(oldIngress: seq<Rule>, oldEgress: seq<Rule>, ingress: seq<Rule>, egress: seq<Rule>)
    returns (changed: bool)
    ensures changed <==> ListChanged(oldIngress, ingress) || ListChanged(oldEgress, egress)
  {
    if |ingress| != |oldIngress| || |egress| != |oldEgress| { return true; }
    var found := AllFound(oldIngress, ingress);
    if !found { return true; }
    found := AllFound(oldEgress, egress);
    return !found;
  }

  method AllFound(existing: seq<Rule>, rules: seq<Rule>) returns (all: bool)
    ensures all <==> forall r <- rules :: r in existing
  {
    for i := 0 to |rules|
      invariant forall r <- rules[..i] :: r in existing
    {
      var found := false;
      for j := 0 to |existing|
        invariant !found && rules[i] !in existing[..j]
      {
        if existing[j] == rules[i] { found := true; break; }
      }
      assert existing[..|existing|] == existing;
      if !found { return false; }
      assert rules[..i + 1] == rules[..i] + [rules[i]];
    }
    assert rules[..|rules|] == rules;
    return true;
  }

  lemma {:induction false} SurvivorsLength(rules: seq<Rule>, wanted: set<string>, actual: Option<int>, port: int, usage: Usage, n: nat)
    requires n <= |rules|
    ensures var kept := Survivors(rules, wanted, actual, port, usage, n);
            |kept| <= n && (|kept| == n ==> kept == rules[..n])
  {
    if n > 0 {
      SurvivorsLength(rules, wanted, actual, port, usage, n - 1);
      assert rules[..n] == rules[..n - 1] + [rules[n - 1]];
    }
  }

  /** On the outcome of one rewriting the length-and-membership test is exact: no change means the same sequence. */
  lemma ChangeTestExact(rules: seq<Rule>, wanted: set<string>, actual: Option<int>, port: int, usage: Usage)
    ensures ListChanged(rules, Rewrite(rules, wanted, actual, port, usage))
            <==> Rewrite(rules, wanted, actual, port, usage) != rules
  {
    var result := Rewrite(rules, wanted, actual, port, usage);
    var left := set c <- wanted | !HasRule(rules, c, port);
    RewriteConserves(rules, wanted, actual, port, usage);
    SurvivorsLength(rules, wanted, actual, port, usage, |rules|);
    AscendingMembers(left);
    MadeRules(Ascending(left), port);
    if !ListChanged(rules, result) {
      if c :| c in left {
        assert false;
      }
    }
  }

  predicate NoDuplicates(rules: seq<Rule>) {
    forall i, j | 0 <= i < j < |rules| :: rules[i] != rules[j]
  }

  /** Without duplicates in the new list, members of the old one in the same number are all of them. */
  lemma {:induction false} MembersArePermutation(existing: seq<Rule>, rules: seq<Rule>)
    requires NoDuplicates(rules) && |rules| == |existing| && forall r <- rules :: r in existing
    ensures multiset(existing) == multiset(rules)
    decreases |rules|
  {
    if rules != [] {
      var r, rest := rules[0], rules[1..];
      assert r in rules && forall q :: q in rest ==> q in rules;
      var i :| 0 <= i < |existing| && existing[i] == r;
      forall q | q in rest ensures q in Without(existing, i) {
        WithoutHas(existing, i, q);
      }
      MembersArePermutation(Without(existing, i), rest);
      WithoutOne(existing, i);
      assert rules == [r] + rest;
    }
  }

  function Without(rules: seq<Rule>, i: nat): (rest: seq<Rule>)
    requires i < |rules|
    ensures |rest| == |rules| - 1
  {
    rules[..i] + rules[i + 1..]
  }

  lemma WithoutHas(rules: seq<Rule>, i: nat, q: Rule)
    requires i < |rules| && q in rules && q != rules[i]
    ensures q in Without(rules, i)
  {
    var j :| 0 <= j < |rules| && rules[j] == q;
    assert q == Without(rules, i)[if j < i then j else j - 1];
  }

  lemma WithoutOne(rules: seq<Rule>, i: nat)
    requires i < |rules|
    ensures multiset(rules) == multiset(Without(rules, i)) + multiset{rules[i]}
  {
    assert rules == rules[..i] + [rules[i]] + rules[i + 1..];
  }

  lemma Replaced(rules: seq<Rule>, i: nat, x: Rule)
    requires i < |rules|
    ensures multiset(rules[i := x]) == multiset(rules) - multiset{rules[i]} + multiset{x}
  {
    assert rules == rules[..i] + [rules[i]] + rules[i + 1..];
    assert rules[i := x] == rules[..i] + [x] + rules[i + 1..];
  }

  /**
   In general the test sees a list up to order, and exactly so for new lists without duplicates: with a duplicate
   there is an old list from which the copy differs and yet goes unnoticed.
   */
  lemma ChangeTestSeesPermutations(rules: seq<Rule>)
    ensures NoDuplicates(rules)
            <==> forall existing :: ListChanged(existing, rules) <==> multiset(existing) != multiset(rules)
  {
    if NoDuplicates(rules) {
      forall existing ensures ListChanged(existing, rules) <==> multiset(existing) != multiset(rules) {
        if !ListChanged(existing, rules) { MembersArePermutation(existing, rules); }
        if multiset(existing) == multiset(rules) { SameBag(existing, rules); }
      }
    } else {
      var i, j :| 0 <= i < j < |rules| && rules[i] == rules[j];
      var cidr := Outside(set r <- rules :: r.cidr);
      var x := MakeRule(cidr, 0);
      var existing := rules[i := x];
      Replaced(rules, i, x);
      assert x !in rules && existing[i] == x;
      assert x in multiset(existing) && x !in multiset(rules);
      forall r | r in rules ensures r in existing {
        var k :| 0 <= k < |rules| && rules[k] == r;
        assert existing[if k == i then j else k] == r;
      }
      assert !ListChanged(existing, rules) && multiset(existing) != multiset(rules);
    }
  }

  lemma SameBag(a: seq<Rule>, b: seq<Rule>)
    requires multiset(a) == multiset(b)
    ensures !ListChanged(a, b)
  {
    assert |multiset(a)| == |a| && |multiset(b)| == |b|;
    forall r | r in b ensures r in a { assert r in multiset(b); }
  }

  // ---------------------------------------------------------------------------------------------
  // The two chained egress rewritings of `updateLoadBalancerRules`

  /** The egress rules after the backend port and then the health-check port were dealt with; 0 stands for no port. */
  function EgressRules(rules: seq<Rule>, nodes: set<string>, actual: Option<PortSpec>, desired: PortSpec,
                       services: Option<seq<Service>>): seq<Rule> {
    var backend := if actual.Some? then actual.value.backendPort else 0;
    var healthCheck := if actual.Some? then actual.value.healthCheckerPort else 0;
    var first := Rewrite(rules, nodes, Some(backend), desired.backendPort, HealthCheckPortInUse(services, desired.backendPort));
    Rewrite(first, nodes, Some(healthCheck), desired.healthCheckerPort, HealthCheckPortInUse(services, desired.healthCheckerPort))
  }

  /** A rule that is neither outdated nor about the rewritten port stays, and nothing on other ports is added. */
  lemma RewriteElsewhere(rules: seq<Rule>, wanted: set<string>, actual: Option<int>, port: int, usage: Usage, cidr: string, other: int)
    requires other != port
    ensures HasRule(Rewrite(rules, wanted, actual, port, usage), cidr, other)
            <==> HasRule(rules, cidr, other) && actual != Some(other)
  {
    var kept := Survivors(rules, wanted, actual, port, usage, |rules|);
    RewriteConserves(rules, wanted, actual, port, usage);
    MadeRules(Ascending(set c <- wanted | !HasRule(rules, c, port)), port);
    var result := Rewrite(rules, wanted, actual, port, usage);
    forall r | Applies(r, other) ensures r in result <==> r in kept {
    }
    SurvivorsElsewhere(rules, wanted, actual, port, usage, cidr, other);
    assert HasRule(result, cidr, other) <==> HasRule(kept, cidr, other);
  }

  lemma SurvivorsElsewhere(rules: seq<Rule>, wanted: set<string>, actual: Option<int>, port: int, usage: Usage, cidr: string, other: int)
    requires other != port
    ensures HasRule(Survivors(rules, wanted, actual, port, usage, |rules|), cidr, other)
            <==> HasRule(rules, cidr, other) && actual != Some(other)
  {
    var kept := Survivors(rules, wanted, actual, port, usage, |rules|);
    SurvivorsKeep(rules, wanted, actual, port, usage, |rules|);
    if HasRule(rules, cidr, other) && actual != Some(other) {
      var r :| r in rules && Applies(r, other) && r.cidr == cidr;
      var i :| 0 <= i < |rules| && rules[i] == r;
      assert !Dropped(rules, wanted, actual, port, usage, i);
    }
    if HasRule(kept, cidr, other) {
      var r :| r in kept && Applies(r, other) && r.cidr == cidr;
      var i :| 0 <= i < |rules| && rules[i] == r && !Dropped(rules, wanted, actual, port, usage, i);
      assert !Outdated(r, actual, port);
    }
  }

  /**
   After both rewritings every node CIDR has a rule on the wanted health-check port. It has one on the wanted
   backend port exactly if that port is not the health-check port being given up.
   */
  lemma EgressCovers(rules: seq<Rule>, nodes: set<string>, actual: Option<PortSpec>, desired: PortSpec,
                     services: Option<seq<Service>>, cidr: string)
    requires cidr in nodes
    ensures var healthCheck := if actual.Some? then actual.value.healthCheckerPort else 0;
            var result := EgressRules(rules, nodes, actual, desired, services);
      && HasRule(result, cidr, desired.healthCheckerPort)
      && (HasRule(result, cidr, desired.backendPort)
          <==> desired.backendPort != healthCheck || desired.healthCheckerPort == healthCheck)
  {
    var backend := if actual.Some? then actual.value.backendPort else 0;
    var healthCheck := if actual.Some? then actual.value.healthCheckerPort else 0;
    var b, h := desired.backendPort, desired.healthCheckerPort;
    var first := Rewrite(rules, nodes, Some(backend), b, HealthCheckPortInUse(services, b));
    RewriteCovers(rules, nodes, Some(backend), b, HealthCheckPortInUse(services, b), cidr);
    RewriteCovers(first, nodes, Some(healthCheck), h, HealthCheckPortInUse(services, h), cidr);
    if b != h {
      RewriteElsewhere(first, nodes, Some(healthCheck), h, HealthCheckPortInUse(services, h), cidr, b);
    }
  }

  /** The rules kept are no more than the rules there were, and all of them only if none was dropped. */
  lemma {:induction false} SiftLength(rules: seq<Rule>, wanted: set<string>, actual: Option<int>, port: int, usage: Usage)
    ensures var (kept, left) := Sift(rules, wanted, actual, port, usage);
      |kept| <= |rules| && (|kept| == |rules| ==> kept == rules) && (forall r <- kept :: r in rules) && left <= wanted
    decreases |rules|
  {
    if rules != [] {
      var (keep, rest) := Verdict(rules[0], wanted, actual, port, usage);
      SiftLength(rules[1..], rest, actual, port, usage);
    }
  }

  /**
   When the two rewritings leave nothing for the second one to make up for: without nodes, with an unchanged
   backend port, or when the backend port given up is not the wanted health-check port.
   */
  predicate ChainsSafely(nodes: set<string>, actual: Option<PortSpec>, desired: PortSpec) {
    var backend := if actual.Some? then actual.value.backendPort else 0;
    nodes == {} || backend == desired.backendPort || backend != desired.healthCheckerPort
  }

  /** An unnoticed outcome has made no health-check rule in its second rewriting. */
  lemma NothingMadeUp(rules: seq<Rule>, nodes: set<string>, actual: Option<PortSpec>, desired: PortSpec, services: Option<seq<Service>>,
                      first: seq<Rule>)
    requires ChainsSafely(nodes, actual, desired)
    requires var backend := if actual.Some? then actual.value.backendPort else 0;
      first == Rewrite(rules, nodes, Some(backend), desired.backendPort, HealthCheckPortInUse(services, desired.backendPort))
    requires forall r <- EgressRules(rules, nodes, actual, desired, services) :: r in rules
    ensures (set c <- nodes | !HasRule(first, c, desired.healthCheckerPort)) == {}
  {
    var backend := if actual.Some? then actual.value.backendPort else 0;
    var healthCheck := if actual.Some? then actual.value.healthCheckerPort else 0;
    var b, h := desired.backendPort, desired.healthCheckerPort;
    var left := set c <- nodes | !HasRule(first, c, h);
    if c :| c in left {
      RewriteConserves(first, nodes, Some(healthCheck), h, HealthCheckPortInUse(services, h));
      AscendingMembers(left);
      MadeRules(Ascending(left), h);
      assert MakeRule(c, h) in EgressRules(rules, nodes, actual, desired, services);
      assert HasRule(rules, c, h);
      if b == h {
        RewriteCovers(rules, nodes, Some(backend), b, HealthCheckPortInUse(services, b), c);
      } else {
        RewriteElsewhere(rules, nodes, Some(backend), b, HealthCheckPortInUse(services, b), c, h);
      }
      assert false;
    }
  }

  /** The CIDRs left after sifting have no rule to begin with. */
  lemma LeftLacks(rules: seq<Rule>, wanted: set<string>, actual: Option<int>, port: int, usage: Usage)
    ensures var left := Sift(rules, wanted, actual, port, usage).1;
      left == (set c <- wanted | !HasRule(rules, c, port)) && forall c <- left :: MakeRule(c, port) !in rules
  {
    assert rules[..|rules|] == rules;
    SiftSurvivors(rules, wanted, actual, port, usage, |rules|);
    var left := Sift(rules, wanted, actual, port, usage).1;
    assert Lacking(rules, wanted, port, left);
  }

  lemma NothingLeft(rules: seq<Rule>, wanted: set<string>, actual: Option<int>, port: int, usage: Usage)
    requires (set c <- wanted | !HasRule(rules, c, port)) == {}
    ensures Rewrite(rules, wanted, actual, port, usage) == Sift(rules, wanted, actual, port, usage).0
  {
    LeftLacks(rules, wanted, actual, port, usage);
    var kept := Sift(rules, wanted, actual, port, usage).0;
    assert kept + [] == kept;
  }

  lemma FirstIsMember(rules: seq<Rule>)
    ensures rules != [] ==> rules[0] in rules
  {
  }

  /** What two siftings keep, if it is as much as there was, is what there was. */
  lemma KeptTwice(rules: seq<Rule>, kept: seq<Rule>, made: seq<Rule>, nodes: set<string>, actual: Option<int>, port: int, usage: Usage)
    requires |kept| <= |rules| && (|kept| == |rules| ==> kept == rules)
    requires var result := Sift(kept + made, nodes, actual, port, usage).0; |result| == |rules| && forall r <- result :: r in rules
    requires forall r <- made :: r !in rules
    ensures Sift(kept + made, nodes, actual, port, usage).0 == rules
  {
    var (still, after) := Sift(kept, nodes, actual, port, usage);
    var (more, last) := Sift(made, after, actual, port, usage);
    SiftConcat(kept, made, nodes, actual, port, usage);
    SiftLength(kept, nodes, actual, port, usage);
    SiftLength(made, after, actual, port, usage);
    var result := Sift(kept + made, nodes, actual, port, usage).0;
    assert result == still + more;
    assert forall r :: r in more ==> r in result && r in made;
    FirstIsMember(more);
    assert still + [] == still;
  }

  /** The second rewriting, when it makes nothing up. */
  lemma SecondKeeps(rules: seq<Rule>, nodes: set<string>, b: int, former: Option<int>, ub: Usage, actual: Option<int>, h: int, uh: Usage)
    requires var first := Rewrite(rules, nodes, former, b, ub);
      && (set c <- nodes | !HasRule(first, c, h)) == {}
      && !ListChanged(rules, Rewrite(first, nodes, actual, h, uh))
    ensures Rewrite(Rewrite(rules, nodes, former, b, ub), nodes, actual, h, uh) == rules
  {
    var (kept, left) := Sift(rules, nodes, former, b, ub);
    var made := MakeRules(Ascending(left), b);
    LeftLacks(rules, nodes, former, b, ub);
    SiftLength(rules, nodes, former, b, ub);
    NothingLeft(kept + made, nodes, actual, h, uh);
    AscendingMembers(left);
    MadeRules(Ascending(left), b);
    KeptTwice(rules, kept, made, nodes, actual, h, uh);
  }

  lemma UnnoticedIsSame(rules: seq<Rule>, nodes: set<string>, actual: Option<PortSpec>, desired: PortSpec, services: Option<seq<Service>>)
    requires ChainsSafely(nodes, actual, desired) && !ListChanged(rules, EgressRules(rules, nodes, actual, desired, services))
    ensures EgressRules(rules, nodes, actual, desired, services) == rules
  {
    var backend := if actual.Some? then actual.value.backendPort else 0;
    var healthCheck := if actual.Some? then actual.value.healthCheckerPort else 0;
    var b, h := desired.backendPort, desired.healthCheckerPort;
    var ub, uh := HealthCheckPortInUse(services, b), HealthCheckPortInUse(services, h);
    NothingMadeUp(rules, nodes, actual, desired, services, Rewrite(rules, nodes, Some(backend), b, ub));
    SecondKeeps(rules, nodes, b, Some(backend), ub, Some(healthCheck), h, uh);
  }

  /** Rules for another port than the ones looked at are all kept. */
  lemma {:induction false} SiftOthers(rules: seq<Rule>, wanted: set<string>, actual: Option<int>, port: int, usage: Usage)
    requires forall r <- rules :: !Applies(r, port) && !Outdated(r, actual, port)
    ensures Sift(rules, wanted, actual, port, usage) == (rules, wanted)
  {
    if rules != [] {
      assert forall r :: r in rules[1..] ==> r in rules;
      SiftOthers(rules[1..], wanted, actual, port, usage);
      assert rules == [rules[0]] + rules[1..];
    }
  }

  /** Rules for the port given up are all dropped. */
  lemma {:induction false} SiftGivenUp(rules: seq<Rule>, wanted: set<string>, actual: Option<int>, port: int, usage: Usage)
    requires forall r <- rules :: Outdated(r, actual, port)
    ensures Sift(rules, wanted, actual, port, usage) == ([], wanted)
  {
    if rules != [] {
      assert forall r :: r in rules[1..] ==> r in rules;
      SiftGivenUp(rules[1..], wanted, actual, port, usage);
      var none: seq<Rule> := [];
      assert rules[0] in rules && none + none == none;
    }
  }

  lemma MadeOn(cidrs: set<string>, port: int)
    ensures forall r <- MakeRules(Ascending(cidrs), port) :: Applies(r, port) && forall p :: OnPort(r, p) <==> p == port
  {
    MadeRules(Ascending(cidrs), port);
  }

  /** Rewriting a list of given-up rules followed by others: the former go, and rules for all wanted CIDRs come. */
  lemma GivenUpThenOthers(gone: seq<Rule>, others: seq<Rule>, wanted: set<string>, actual: Option<int>, port: int, usage: Usage)
    requires forall r <- gone :: Outdated(r, actual, port)
    requires forall r <- others :: !Applies(r, port) && !Outdated(r, actual, port)
    ensures Rewrite(gone + others, wanted, actual, port, usage) == others + MakeRules(Ascending(wanted), port)
  {
    SiftConcat(gone, others, wanted, actual, port, usage);
    SiftGivenUp(gone, wanted, actual, port, usage);
    SiftOthers(others, wanted, actual, port, usage);
    assert [] + others == others;
  }

  /** A list whose reordering goes unnoticed when the rewritings do not chain safely. */
  function Reordered(nodes: set<string>, actual: Option<PortSpec>, desired: PortSpec): seq<Rule> {
    var healthCheck := if actual.Some? then actual.value.healthCheckerPort else 0;
    MakeRules(Ascending(nodes), desired.healthCheckerPort)
    + if healthCheck != desired.backendPort then MakeRules(Ascending(nodes), desired.backendPort) else [Rule("", "", None, false, "")]
  }

  lemma ReorderedBack(nodes: set<string>, actual: Option<PortSpec>, desired: PortSpec, services: Option<seq<Service>>)
    requires !ChainsSafely(nodes, actual, desired)
    ensures var hs := MakeRules(Ascending(nodes), desired.healthCheckerPort);
            var rules := Reordered(nodes, actual, desired);
            EgressRules(rules, nodes, actual, desired, services) == rules[|hs|..] + hs
  {
    var backend := if actual.Some? then actual.value.backendPort else 0;
    var healthCheck := if actual.Some? then actual.value.healthCheckerPort else 0;
    var b, h := desired.backendPort, desired.healthCheckerPort;
    var ub, uh := HealthCheckPortInUse(services, b), HealthCheckPortInUse(services, h);
    var hs, bs, other := MakeRules(Ascending(nodes), h), MakeRules(Ascending(nodes), b), [Rule("", "", None, false, "")];
    MadeOn(nodes, h);
    MadeOn(nodes, b);
    if healthCheck != b {
      SiftConcat(hs, bs, nodes, Some(backend), b, ub);
      SiftGivenUp(hs, nodes, Some(backend), b, ub);
      SiftMade(nodes, Some(backend), b, ub);
      assert Rewrite(hs + bs, nodes, Some(backend), b, ub) == bs;
      GivenUpThenOthers([], bs, nodes, Some(healthCheck), h, uh);
      assert [] + bs == bs;
    } else {
      GivenUpThenOthers(hs, other, nodes, Some(backend), b, ub);
      SiftConcat(other, bs, nodes, Some(healthCheck), h, uh);
      SiftOthers(other, nodes, Some(healthCheck), h, uh);
      SiftGivenUp(bs, nodes, Some(healthCheck), h, uh);
      assert Rewrite(other + bs, nodes, Some(healthCheck), h, uh) == other + hs;
    }
  }

  /** Moving the first part of a list behind the rest: not seen by the change test, and no identity if the heads differ. */
  lemma Rotated(a: seq<Rule>, b: seq<Rule>)
    requires a != [] && b != [] && a[0] != b[0]
    ensures !ListChanged(a + b, b + a) && b + a != a + b
  {
    assert (a + b)[0] == a[0] && (b + a)[0] == b[0];
  }

  /**
   The change test after two rewritings is exact for every list if and only if they chain safely; otherwise there is a
   list that they reorder without the test noticing.
   */
  lemma ChainedTestExact(nodes: set<string>, actual: Option<PortSpec>, desired: PortSpec, services: Option<seq<Service>>)
    ensures ChainsSafely(nodes, actual, desired)
            <==> forall rules :: ListChanged(rules, EgressRules(rules, nodes, actual, desired, services))
                            <==> EgressRules(rules, nodes, actual, desired, services) != rules
  {
    if ChainsSafely(nodes, actual, desired) {
      forall rules ensures ListChanged(rules, EgressRules(rules, nodes, actual, desired, services))
                      <==> EgressRules(rules, nodes, actual, desired, services) != rules
      {
        if !ListChanged(rules, EgressRules(rules, nodes, actual, desired, services)) {
          UnnoticedIsSame(rules, nodes, actual, desired, services);
        }
      }
    } else {
      var rules := Reordered(nodes, actual, desired);
      var hs := MakeRules(Ascending(nodes), desired.healthCheckerPort);
      var rest := rules[|hs|..];
      ReorderedBack(nodes, actual, desired, services);
      AscendingMembers(nodes);
      MadeRules(Ascending(nodes), desired.healthCheckerPort);
      MadeRules(Ascending(nodes), desired.backendPort);
      assert rules == hs + rest && hs[0] == MakeRule(Ascending(nodes)[0], desired.healthCheckerPort);
      Rotated(hs, rest);
    }
  }

  /** A concrete list that is reordered unnoticed. */
  lemma ChainedTestMissesReordering(cidr: string, services: Option<seq<Service>>)
    ensures var rules := [MakeRule(cidr, 2), MakeRule(cidr, 1)];
            var result := EgressRules(rules, {cidr}, Some(PortSpec(0, 2, 2)), PortSpec(0, 1, 2), services);
            result == [MakeRule(cidr, 1), MakeRule(cidr, 2)] && result != rules && !ListChanged(rules, result)
  {
    var one, two := MakeRule(cidr, 1), MakeRule(cidr, 2);
    var u1, u2 := HealthCheckPortInUse(services, 1), HealthCheckPortInUse(services, 2);
    assert Rewrite([two, one], {cidr}, Some(2), 1, u1) == [one] by {
      SiftSingle(one, {cidr}, Some(2), 1, u1);
      assert [two, one][1..] == [one] && {cidr} - {cidr} == {};
      assert [one] + MakeRules(Ascending({}), 1) == [one];
    }
    assert Rewrite([one], {cidr}, Some(2), 2, u2) == [one, two] by {
      SiftSingle(one, {cidr}, Some(2), 2, u2);
      assert {cidr} - {Least({cidr})} == {} && Least({cidr}) == cidr;
      assert Ascending({cidr}) == [cidr];
      assert MakeRules([cidr], 2) == [two];
    }
    assert [one, two][0] != [two, one][0];
  }

  /** A security list as the client hands it out. */
  class SecurityList {
    var ingress: seq<Rule>
    var egress: seq<Rule>

    /** `updateLoadBalancerRules` for one subnet's list; nothing is written unless the change test fires. */
    method UpdateLoadBalancerRules(nodeSubnets: seq<string>, sourceCIDRs: seq<string>, actual: Option<PortSpec>, desired: PortSpec,
                                   services: Option<seq<Service>>)
      modifies this
      ensures var newEgress := EgressRules(old(egress), AsSet(nodeSubnets), actual, desired, services);
              var newIngress := if desired.listenerPort == 0 then old(ingress)
                else Rewrite(old(ingress), AsSet(sourceCIDRs), None, desired.listenerPort, PortInUse(services, desired.listenerPort));
              if ListChanged(old(ingress), newIngress) || ListChanged(old(egress), newEgress)
              then ingress == newIngress && egress == newEgress
              else ingress == old(ingress) && egress == old(egress) && newIngress == old(ingress)
                   && (ChainsSafely(AsSet(nodeSubnets), actual, desired) ==> newEgress == old(egress))
    {
      var currentBackEndPort, currentHealthCheck := 0, 0;
      if actual.Some? {
        currentBackEndPort := actual.value.backendPort;
        currentHealthCheck := actual.value.healthCheckerPort;
      }
      var lbEgress := GetLoadBalancerEgressRules(egress, nodeSubnets, currentBackEndPort, desired.backendPort, services);
      lbEgress := GetLoadBalancerEgressRules(lbEgress, nodeSubnets, currentHealthCheck, desired.healthCheckerPort, services);
      var lbIngress := ingress;
      if desired.listenerPort != 0 {
        lbIngress := GetLoadBalancerIngressRules(ingress, sourceCIDRs, desired.listenerPort, services);
        ChangeTestExact(ingress, AsSet(sourceCIDRs), None, desired.listenerPort, PortInUse(services, desired.listenerPort));
      }
      var changed := SecurityListRulesChanged(ingress, egress, lbIngress, lbEgress);
      ChainedTestExact(AsSet(nodeSubnets), actual, desired, services);
      if changed { ingress, egress := lbIngress, lbEgress; }
    }
  }
}
