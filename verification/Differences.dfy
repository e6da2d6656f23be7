/**
 The comparisons of load_balancer_util.go and of the four enqueue functions, and what
 a list of calls computed from them is: a plan.
 */
module Differences {
  import opened Wrappers
  import opened Strings
  import opened Tables
  import opened ListenerNames

  predicate HealthCheckerChanged(actual: Option<HealthChecker>, desired: Option<HealthChecker>) {
    desired.Some? &&
    (actual.None? ||
     var a, d := actual.value, desired.value;
     || a.port != d.port
     || (d.responseBodyRegex != "" && a.responseBodyRegex != d.responseBodyRegex)
     || a.retries != d.retries
     || (d.returnCode != 0 && a.returnCode != d.returnCode)
     || a.timeoutInMillis != d.timeoutInMillis
     || a.intervalInMillis != d.intervalInMillis
     || a.urlPath != d.urlPath
     || a.protocol != d.protocol)
  }

  /** The `ip:port` entries compared; weights are not. */
  function Addresses(backends: seq<Backend>): set<(string, int)> {
    set b | b in backends :: (b.ip, b.port)
  }

  predicate BackendSetChanged(actual: Resource, desired: Resource)
    requires actual.BackendSet? && desired.BackendSet?
  {
    || HealthCheckerChanged(actual.healthChecker, desired.healthChecker)
    || (actual.backends != [] && desired.backends != [] && actual.backends[0].port != desired.backends[0].port)
    || actual.policy != desired.policy
    || Addresses(actual.backends) != Addresses(desired.backends)
  }

  predicate SslChanged(actual: Option<Ssl>, desired: Option<Ssl>) {
    if actual.None? || desired.None? then actual.Some? || desired.Some?
    else
      || actual.value.certificateName != desired.value.certificateName
      || actual.value.verifyDepth != desired.value.verifyDepth
      || actual.value.verifyPeer != desired.value.verifyPeer
  }

  predicate ConnectionChanged(actual: Option<Connection>, desired: Option<Connection>) {
    desired.Some? && actual != desired
  }

  predicate ListenerChanged(actual: Resource, desired: Resource)
    requires actual.Listener? && desired.Listener?
  {
    || actual.defaultBackendSet != desired.defaultBackendSet
    || actual.port != desired.port
    || actual.protocol != desired.protocol
    || SslChanged(actual.ssl, desired.ssl)
    || ConnectionChanged(actual.connection, desired.connection)
    || Sprint(actual.hostnames) != Sprint(desired.hostnames)
    || actual.routingPolicy != desired.routingPolicy
    || Sprint(actual.ruleSets) != Sprint(desired.ruleSets)
  }

  /**
   Whether the code sees a difference between what is there and what is wanted under one name.
   Policies are compared deeply, rule sets by items, certificates by their public parts; a hostname
   that exists is never different.
   */
  predicate Changed(actual: Resource, desired: Resource) {
    match (actual, desired)
    case (BackendSet(_, _, _), BackendSet(_, _, _)) => BackendSetChanged(actual, desired)
    case (Listener(_, _, _, _, _, _, _, _), Listener(_, _, _, _, _, _, _, _)) => ListenerChanged(actual, desired)
    case (Hostname(_), Hostname(_)) => false
    case _ => actual != desired
  }

  /** A listener created without its rule sets differs from the wanted one exactly when this holds. */
  predicate HasRuleSets(desired: Resource) {
    desired.Listener? && Sprint(desired.ruleSets) != Sprint([])
  }

  /** What is stored for an update is what was wanted; for a create, up to the rule sets. */
  lemma StoredIsWanted(server: Server, c: Call)
    requires !c.Delete?
    ensures Changed(server.Stored(c.Sent()), c.body) <==> c.Create? && HasRuleSets(c.body)
  {
  }

  /** The place a listener or other resource competes for. */
  function Slot(k: Key): Key {
    if k.kind == Listeners then Key(Listeners, Sanitized(k.name)) else k
  }

  predicate Holds(s: Store, slot: Key) {
    exists k <- s :: Slot(k) == slot
  }

  /** The hypothesis on listener names: sanitizing tells those of `s` apart. */
  ghost predicate WellNamed(s: Store) {
    forall a, b :: a in s && b in s && Slot(a) == Slot(b) ==> a == b
  }

  /** The call follows from comparing `s` with `spec`. */
  ghost predicate Justified(spec: Store, s: Store, c: Call) {
    match c
    case Create(k, body) => k in spec && body == spec[k] && !Holds(s, Slot(k))
    case Update(k, body) =>
      k in s && exists d <- spec :: Slot(d) == Slot(k) && body == spec[d] && Changed(s[k], spec[d])
    case Delete(k) => k in s && !Holds(spec, Slot(k))
  }

  /** An existing resource is settled, or a call of the plan deals with it. */
  ghost predicate Handled(spec: Store, s: Store, calls: seq<Call>, k: Key)
    requires k in s
  {
    if Holds(spec, Slot(k)) then
      exists d <- spec :: Slot(d) == Slot(k) && (Changed(s[k], spec[d]) ==> Update(k, spec[d]) in calls)
    else
      Delete(k) in calls
  }

  /** The calls that comparing the given tables of `s` with `spec` leads to, in any order. */
  ghost predicate Plan(spec: Store, s: Store, kinds: set<Kind>, calls: seq<Call>) {
    && (forall c <- calls :: c.key.kind in kinds && Justified(spec, s, c))
    && (forall k <- s | k.kind in kinds :: Handled(spec, s, calls, k))
    && (forall d <- spec | d.kind in kinds && !Holds(s, Slot(d)) :: Create(d, spec[d]) in calls)
  }

  ghost predicate DistinctKeys(calls: seq<Call>) {
    forall i, j | 0 <= i < j < |calls| :: calls[i].key != calls[j].key
  }

  /** `actionIndex`. */
  function ActionIndex(c: Call): int {
    match (c.key.kind, c)
    case (BackendSets, Create(_, _)) => 0
    case (BackendSets, Update(_, _)) => 1
    case (Listeners, Create(_, _)) => 2
    case (Listeners, Update(_, _)) => 3
    case (Listeners, Delete(_)) => 4
    case (BackendSets, Delete(_)) => 5
    case _ => -1
  }

  ghost predicate Sorted(calls: seq<Call>) {
    forall i, j | 0 <= i < j < |calls| :: ActionIndex(calls[i]) <= ActionIndex(calls[j])
  }

  /** The calls of one action index, in order. */
  function Bucket(calls: seq<Call>, index: int): seq<Call> {
    if calls == [] then []
    else (if ActionIndex(calls[0]) == index then [calls[0]] else []) + Bucket(calls[1..], index)
  }

  function BucketsFrom(calls: seq<Call>, index: int): seq<Call>
    decreases 6 - index
  {
    if index > 5 then [] else Bucket(calls, index) + BucketsFrom(calls, index + 1)
  }

  /** `sortAndCombineActions`: the two lists joined and stably sorted by action index. */
  function SortAndCombine(backendSetCalls: seq<Call>, listenerCalls: seq<Call>): seq<Call> {
    BucketsFrom(backendSetCalls + listenerCalls, -1)
  }
}
