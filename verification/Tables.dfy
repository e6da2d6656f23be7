/**
 The load balancer as the OCI API keeps it, and the calls that change it.

 The six tables of a load balancer are kept in one store, addressed by the table and
 the name. The API side is a modelling assumption: a keyed store that rejects a call
 naming a missing resource and rejects removing a resource that is still in use.
 */
module Tables {
  import opened Wrappers

  datatype Kind = BackendSets | Listeners | RoutingPolicies | RuleSets | Hostnames | Certificates

  datatype Key = Key(kind: Kind, name: string)

  /** A nil number or string is the zero value, which is how the comparisons read it. */
  datatype HealthChecker = HealthChecker(
    protocol: string, urlPath: string, port: int, retries: int, intervalInMillis: int,
    timeoutInMillis: int, returnCode: int, responseBodyRegex: string)

  datatype Backend = Backend(ip: string, port: int, weight: int)

  datatype Ssl = Ssl(certificateName: string, verifyDepth: int, verifyPeer: bool, cipherSuite: string)

  datatype Connection = Connection(idleTimeout: int, proxyProtocol: int)

  /** A routing rule: when the condition holds, forward to the backend set. */
  datatype Rule = Rule(name: string, condition: string, backendSet: string)

  datatype Resource =
    | BackendSet(policy: string, backends: seq<Backend>, healthChecker: Option<HealthChecker>)
    | Listener(defaultBackendSet: string, port: int, protocol: string, ssl: Option<Ssl>,
               connection: Option<Connection>, hostnames: seq<string>, routingPolicy: string, ruleSets: seq<string>)
    | RoutingPolicy(version: string, rules: seq<Rule>)
    | RuleSet(items: seq<string>)
    | Hostname(hostname: string)
    | Certificate(publicPem: string, caPem: string)
  {
    function Kind(): Kind {
      match this
      case BackendSet(_, _, _) => BackendSets
      case Listener(_, _, _, _, _, _, _, _) => Listeners
      case RoutingPolicy(_, _) => RoutingPolicies
      case RuleSet(_) => RuleSets
      case Hostname(_) => Hostnames
      case Certificate(_, _) => Certificates
    }

    /** The resources this one names. */
    function Refs(): set<Key> {
      match this
      case Listener(backendSet, _, _, ssl, _, hostnames, policy, ruleSets) =>
        {Key(BackendSets, backendSet)}
        + (if ssl.Some? then {Key(Certificates, ssl.value.certificateName)} else {})
        + (set h | h in hostnames :: Key(Hostnames, h))
        + (if policy != "" then {Key(RoutingPolicies, policy)} else {})
        + (set r | r in ruleSets :: Key(RuleSets, r))
      case RoutingPolicy(_, rules) => set r | r in rules :: Key(BackendSets, r.backendSet)
      case _ => {}
    }
  }

  type Store = map<Key, Resource>

  function At(s: Store, k: Key): Option<Resource> {
    if k in s then Some(s[k]) else None
  }

  /** The keys of one table. */
  function Table(s: Store, kind: Kind): set<Key> {
    set k <- s | k.kind == kind
  }

  /** Every resource sits in its own table. */
  predicate Typed(s: Store) {
    forall k <- s :: s[k].Kind() == k.kind
  }

  /** Every resource sits in its own table and names only resources that exist. */
  predicate Closed(s: Store) {
    forall k <- s :: s[k].Kind() == k.kind && s[k].Refs() <= s.Keys
  }

  /**
   What differs between API servers: whether a backend set named by a routing policy may be
   deleted, and the values the server fills in where a request leaves them to it.
   */
  datatype Server = Server(
    guardsPolicies: bool, healthChecker: HealthChecker, responseBodyRegex: string, returnCode: int,
    connection: Option<Connection>)
  {
    /** What is stored for a request that carries `r`. */
    function Stored(r: Resource): Resource {
      match r
      case BackendSet(_, _, None) => r.(healthChecker := Some(healthChecker))
      case BackendSet(_, _, Some(hc)) =>
        r.(healthChecker := Some(hc.(
            returnCode := if hc.returnCode == 0 then returnCode else hc.returnCode,
            responseBodyRegex := if hc.responseBodyRegex == "" then responseBodyRegex else hc.responseBodyRegex)))
      case Listener(_, _, _, _, None, _, _, _) => r.(connection := connection)
      case _ => r
    }
  }

  datatype Call =
    | Create(key: Key, body: Resource)
    | Update(key: Key, body: Resource)
    | Delete(key: Key)
  {
    /** The fields the client puts on the wire: CreateListener leaves out the rule sets. */
    function Sent(): Resource
      requires !Delete?
    {
      if Create? && body.Listener? then body.(ruleSets := []) else body
    }
  }

  /** Resources whose references keep a resource from being deleted. */
  predicate Blocks(server: Server, user: Key) {
    user.kind == Listeners || (server.guardsPolicies && user.kind == RoutingPolicies)
  }

  predicate InUse(server: Server, s: Store, k: Key) {
    exists user <- s :: Blocks(server, user) && k in s[user].Refs()
  }

  predicate Accepts(server: Server, s: Store, c: Call) {
    match c
    case Create(k, _) => k !in s && c.Sent().Refs() <= s.Keys
    case Update(k, _) => k in s && c.Sent().Refs() <= s.Keys
    case Delete(k) => k in s && !InUse(server, s, k)
  }

  function Outcome(server: Server, c: Call): Option<Resource> {
    if c.Delete? then None else Some(server.Stored(c.Sent()))
  }

  function Apply(server: Server, s: Store, c: Call): Store {
    match Outcome(server, c)
    case Some(r) => s[c.key := r]
    case None => s - {c.key}
  }

  /** The store after the first `n` calls took effect. */
  function After(server: Server, s: Store, calls: seq<Call>, n: nat): Store
    requires n <= |calls|
  {
    if n == 0 then s else Apply(server, After(server, s, calls, n - 1), calls[n - 1])
  }

  /** The `i`-th call is accepted when its predecessors took effect. */
  predicate AcceptedAt(server: Server, s: Store, calls: seq<Call>, i: nat)
    requires i < |calls|
  {
    Accepts(server, After(server, s, calls, i), calls[i])
  }

  ghost predicate AllAccepted(server: Server, s: Store, calls: seq<Call>, n: nat)
    requires n <= |calls|
  {
    forall i | 0 <= i < n :: AcceptedAt(server, s, calls, i)
  }

  lemma {:induction false} AfterConcat(server: Server, s: Store, a: seq<Call>, b: seq<Call>, n: nat)
    requires n <= |b|
    ensures After(server, s, a + b, |a| + n) == After(server, After(server, s, a, |a|), b, n)
  {
    if n == 0 {
      AfterPrefix(server, s, a, b, |a|);
    } else {
      AfterConcat(server, s, a, b, n - 1);
    }
  }

  lemma {:induction false} AfterPrefix(server: Server, s: Store, a: seq<Call>, b: seq<Call>, n: nat)
    requires n <= |a|
    ensures After(server, s, a + b, n) == After(server, s, a, n)
  {
    if n > 0 { AfterPrefix(server, s, a, b, n - 1); }
  }

  /** A call that is not made leaves its resource alone. */
  lemma {:induction false} Untouched(server: Server, s: Store, calls: seq<Call>, n: nat, k: Key)
    requires n <= |calls| && forall i | 0 <= i < n :: calls[i].key != k
    ensures At(After(server, s, calls, n), k) == At(s, k)
  {
    if n > 0 { Untouched(server, s, calls, n - 1, k); }
  }
}
