/**
 What the comparisons of load_balancer_util.go and manager.go find equal, field by field: the meaning of `Changed`,
 said without it.
 */
module Comparisons {
  import opened Wrappers
  import opened Strings
  import opened Tables
  import opened Differences
  import opened Progress

  /** Some backend has the address and port. */
  ghost predicate HasAddress(backends: seq<Backend>, ip: string, port: int) {
    exists b <- backends :: b.ip == ip && b.port == port
  }

  lemma AddressMember(backends: seq<Backend>, ip: string, port: int)
    ensures (ip, port) in Addresses(backends) <==> HasAddress(backends, ip, port)
  {
  }

  /** Equal sets of addresses: whatever serves on one side serves on the other. */
  lemma SameAddresses(a: seq<Backend>, b: seq<Backend>)
    ensures Addresses(a) == Addresses(b) <==> forall ip, port :: HasAddress(a, ip, port) <==> HasAddress(b, ip, port)
  {
    forall ip, port
      ensures (ip, port) in Addresses(a) <==> HasAddress(a, ip, port)
      ensures (ip, port) in Addresses(b) <==> HasAddress(b, ip, port)
    {
      AddressMember(a, ip, port);
      AddressMember(b, ip, port);
    }
    hide HasAddress;
    if forall ip, port :: HasAddress(a, ip, port) <==> HasAddress(b, ip, port) {
      forall x ensures x in Addresses(a) <==> x in Addresses(b) {
        assert x == (x.0, x.1);
        assert HasAddress(a, x.0, x.1) <==> HasAddress(b, x.0, x.1);
      }
      SameMembersSameSet(Addresses(a), Addresses(b));
    }
  }

  lemma SameMembersSameSet<T>(a: set<T>, b: set<T>)
    requires forall x :: x in a <==> x in b
    ensures a == b
  {
  }

  /** The health checker there has every value that is wanted; a wanted regular expression or return code may be left open. */
  predicate HealthCheckerFits(actual: Option<HealthChecker>, desired: HealthChecker) {
    && actual.Some?
    && actual.value.protocol == desired.protocol
    && actual.value.urlPath == desired.urlPath
    && actual.value.port == desired.port
    && actual.value.retries == desired.retries
    && actual.value.intervalInMillis == desired.intervalInMillis
    && actual.value.timeoutInMillis == desired.timeoutInMillis
    && (desired.returnCode == 0 || actual.value.returnCode == desired.returnCode)
    && (desired.responseBodyRegex == "" || actual.value.responseBodyRegex == desired.responseBodyRegex)
  }

  /** A backend set is taken for unchanged exactly then. */
  lemma BackendSetsAgree(actual: Resource, desired: Resource)
    requires desired.BackendSet?
    ensures !Changed(actual, desired) <==>
      && actual.BackendSet?
      && actual.policy == desired.policy
      && (forall ip, port :: HasAddress(actual.backends, ip, port) <==> HasAddress(desired.backends, ip, port))
      && (actual.backends != [] && desired.backends != [] ==> actual.backends[0].port == desired.backends[0].port)
      && (desired.healthChecker.Some? ==> HealthCheckerFits(actual.healthChecker, desired.healthChecker.value))
  {
    hide HasAddress, Addresses;
    if actual.BackendSet? { SameAddresses(actual.backends, desired.backends); }
  }

  /**
   A listener is taken for unchanged exactly then: lists are compared as printed, which on plain lists is equality;
   connection settings that are not wanted and cipher suites are free.
   */
  lemma ListenersAgree(actual: Resource, desired: Resource)
    requires desired.Listener?
    ensures !Changed(actual, desired) <==>
      && actual.Listener?
      && actual.defaultBackendSet == desired.defaultBackendSet
      && actual.port == desired.port
      && actual.protocol == desired.protocol
      && actual.routingPolicy == desired.routingPolicy
      && Sprint(actual.hostnames) == Sprint(desired.hostnames)
      && Sprint(actual.ruleSets) == Sprint(desired.ruleSets)
      && (desired.connection.Some? ==> actual.connection == desired.connection)
      && (actual.ssl.Some? <==> desired.ssl.Some?)
      && (desired.ssl.Some? ==>
            && actual.ssl.value.certificateName == desired.ssl.value.certificateName
            && actual.ssl.value.verifyDepth == desired.ssl.value.verifyDepth
            && actual.ssl.value.verifyPeer == desired.ssl.value.verifyPeer)
    ensures !Changed(actual, desired) && PlainLists(actual) && PlainLists(desired) ==>
      actual.hostnames == desired.hostnames && actual.ruleSets == desired.ruleSets
  {
    hide Sprint;
    if actual.Listener? && !Changed(actual, desired) && PlainLists(actual) && PlainLists(desired) {
      SprintInjective(actual.hostnames, desired.hostnames);
      SprintInjective(actual.ruleSets, desired.ruleSets);
    }
  }

  /** Policies, rule sets and certificates are compared whole; a hostname entry that exists is never found different. */
  lemma OthersAgree(actual: Resource, desired: Resource)
    requires desired.RoutingPolicy? || desired.RuleSet? || desired.Certificate? || desired.Hostname?
    ensures !Changed(actual, desired) <==> actual == desired || (actual.Hostname? && desired.Hostname?)
  {
  }

  /** A node that joins is noticed, and so is one that leaves. */
  lemma NodesComeAndGo(policy: string, backends: seq<Backend>, healthChecker: Option<HealthChecker>, b: Backend)
    requires !HasAddress(backends, b.ip, b.port)
    ensures Changed(BackendSet(policy, backends, healthChecker), BackendSet(policy, backends + [b], healthChecker))
    ensures Changed(BackendSet(policy, backends + [b], healthChecker), BackendSet(policy, backends, healthChecker))
  {
    var fewer, more := BackendSet(policy, backends, healthChecker), BackendSet(policy, backends + [b], healthChecker);
    assert b in more.backends && HasAddress(more.backends, b.ip, b.port);
    BackendSetsAgree(fewer, more);
    BackendSetsAgree(more, fewer);
  }
}
