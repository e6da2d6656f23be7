# Verification of the OCI load balancer ingress controller

A Dafny model of the controller's logic: how an Ingress is compiled into the tables of a load balancer, how an existing
load balancer is brought to those tables through ordered steps that can fail, how the security lists of the subnets are
rewritten, and how the names involved are made. `dafny verify dfyconfig.toml` checks the whole project.

## How the system is modelled

* **Tables.** A load balancer is a map from keys (table and name) to resources: backend sets, listeners, routing
  policies, rule sets, hostnames and certificates (`Tables.dfy`). `Accepts` is a modelling assumption about the API, after the
  intent of the code's own comments: an operation that names a missing resource, a second creation of a name, and the
  deletion of a resource that a listener uses are rejected. Whether the API also guards backend sets named by policies
  (`Server.guardsPolicies`), and which values it fills in by itself, is left open and quantified over.
* **Failures.** `Cloud` is the mutable API object. Each call may succeed, fail without effect, or fail after taking
  effect, as its `weather` says. A suppressed pass that fails has made some prefix of its calls.
* **Map iteration.** Loops over maps take the keys in an arbitrary order, so every contract holds for each order.
* **Runs.** `updateLoadBalancer` is a method over `Cloud` and `ActionDispatcher` (`Manager.dfy`). Its contract says that
  what happened is a `Run`, a value on which the theorems of `Runs.dfy`, `Passes.dfy` and `Progress.dfy` are proved.
* **Compiler.** `SpecBuilder.Builder` fills the tables in place, as the closures and loops of `NewIngressLBSpec` do, and is
  proved against the functions of `SpecCompiler.dfy`; `SpecClosure.dfy` and `SpecMeaning.dfy` prove closure and first-match routing.
* **The whole.** `IngressManager.UpdateOrCreateIngress` composes compiler and reconciliation: when it returns without
  error, the live tables serve the Ingress. What that means is said in `Serving.dfy` field by field, in terms of Ingress, cluster and
  live tables, without the builders of the compiler or the comparisons of the reconciliation.

| file | models |
|---|---|
| `Tables`, `CloudApi` | the load balancer API |
| `Differences`, `Comparisons`, `Plans`, `Runs`, `Passes`, `Progress`, `Sorting`, `ListenerNames` | what the comparisons see, and the theory of plans and runs |
| `CloudProvider`, `Dispatcher`, `Manager`, `RuleSets`, `IngressManager` | load_balancer_util.go and loadbalancer.go, actions.go, manager.go |
| `SpecCompiler`, `SpecBuilder`, `SpecClosure`, `SpecMeaning`, `FrontTables`, `Serving`, `Compiling` | spec.go, load_balancer_spec.go, helpers.go |
| `RoutingRules`, `ConditionTexts`, `Prefixes`, `Globs`, `Conditions` | routing_rule.go, path prefixes, star patterns, the condition language |
| `SecurityRules`, `NodeRules` | load_balancer_security_lists.go |
| `Names`, `Strings`, `SortedSets`, `Wrappers` | generated names, string helpers, sorted sets |

## Hypotheses, each stated where it is used

* `WellNamed`: sanitizing tells apart the listener names of the wanted tables, and those of the actual tables. For compiled tables
  this is a condition on the Ingress, `ListenersApart`: no two listener names it leads to have the same first two hyphen-separated
  fields (`FrontTables.FrontWellNamed`). `ListenerNames.SanitizedSame` says exactly which names are merged.
* `GoodHash`: the hash gives 22 letters and digits. `RuleNamesApart`, `PolicyNamesApart`, `EntriesApart` and `ListenerNameApart`:
  it tells apart the rules, policies, hostname entries and listeners of one Ingress, and no host has one of the three fixed listener names.
* `IngressFits`: rule hosts are host names of section 2.1 of RFC 1123, possibly below `*.`, or empty, and the redirecting listener, if
  there is one, names hostname entries that exist (`TlsHostsListed`).
* `PlainListeners`: names in the lists of listeners are not empty and have no blanks, so `fmt.Sprint` shows them unambiguously.
* No `CertificateClash`: a certificate that exists under a wanted name has the wanted contents. Otherwise the code panics, and
  `Manager.UpdateLoadBalancer` says that it then does so before any change. For compiled tables this is `CertificatesFit`, a condition on the
  Ingress and the tables found (`IngressManager.ClashBySpec`).
* `ServicesFit`: ports have a protocol and at most five digits, and a service is stored under its own name. `ServicesTold`, for the nodes behind
  a request: ports are numbered from one, of TCP, UDP or SCTP, and no two of a service alike, and services do not share backend set names.
* `PlainSecrets`: names of TLS secrets hold no underscore, as for every Kubernetes object.
* For renewed certificates, `CertificatesKnown` and `IdsTell`: what is found under names of the Ingress came from bundles with the id in the
  name, and ids tell contents apart. The first is kept by `UpdateOrCreateIngress`, and both together give `CertificatesFit`
  (`FrontTables.RotationFits`).

## What the proofs found

* `action.do` works on a copy, so `done` is never remembered and the policy updates run twice. The replay is harmless (`Plans.Written`).
* `CreateListener` sends no rule sets. Every run from given tables ends without any difference at a wanted listener if and only if its slot was
  held in the tables found or it wants no rule sets (`RuleSets.RuleSetsSettle`); otherwise a run leaves them behind. One more pass or one
  more run repairs that (`Passes.TwoPassesSettle`, `Runs.SecondRunSettles`), and a load balancer that was just created is not affected
  (`Passes.FreshSettles`).
* Stale policies are deleted after stale backend sets. Against an API that guards backend sets named by policies, the run is
  rejected if and only if a stale policy names a stale backend set (`Progress.NothingRejected`).
* The redirecting listener names the TLS hosts themselves, not their hostname entries. The compiled tables are closed if and
  only if every such host is the entry of a rule host (`SpecClosure.SpecIsClosed`).
* A digest, used as the name of a routing rule, is a legal name if and only if the hash does not start with two digits
  (`Names.DigestAsName`); with two, only the first is moved away.
* `a*b` also accepts paths on which prefix and suffix overlap (`Globs.CompileMiddle`). Patterns with several stars at an end keep
  the inner ones as text, so they are understood if and only if there is one star at each end (`Globs.CompileBoth`).
* A condition of an `ImplementationSpecific` path that is a group replaces the host test, unless it is `all(...)` on one line; that takes in custom
  conditions and patterns with an encoded line break. This is exact: with a host to test the condition is used alone if and only if
  `KeepsHost` fails (`RoutingRules.CustomAlone`), and what is then served is the condition with or without the host test
  (`RoutingRules.CustomMeans`).
* The second egress rewriting removes the backend rules made by the first one if and only if the wanted backend port is the current
  health-check port and the health-check port changes (`SecurityRules.EgressCovers`). The change test is exact after one
  rewriting. After two it is exact for every list if and only if there are no nodes, the backend port stays, or the backend port
  given up is not the wanted health-check port (`SecurityRules.ChainedTestExact`); `ChainedTestMissesReordering` shows a list.
* The change test of the node rules is exact unless both ports coincide, and then only without CIDRs, for port 0, or when the port is in
  use and was the only one before (`NodeRules.NodeChangeTestExact`). In the other cases a rule to be dropped can stay.
* The listener for rules without host is named `any-host`, and so is that of the host `any-host` (`Names.AnyHostCollides`). Other short
  names are told apart exactly by the hosts, letter case aside (`Names.ListenerNamesApart`).
* Hostname entries are created and deleted but never updated. An entry ends with the wanted host if and only if it was absent or right in
  the tables found (`Runs.EntriesStay`, with `Runs.WrongEntryStays` for a wrong one); on a new load balancer all are right.
* Kubernetes documents `Prefix` as a match by path elements; the code compares text. The two agree on a path if and only if it does not go
  on within the last element of the prefix, or, for a prefix with a trailing slash, is not the prefix without it
  (`Prefixes.AgreeOn`), and on all paths only for the prefix `/` (`Prefixes.AgreeEverywhere`); `/foobar` for `/foo` is an example
  (`Prefixes.FoobarBelowFoo`). Where they agree, routing follows the elements (`SpecMeaning.RoutingByElements`).
* Code and tests disagree in one place: src/ingress/routing_rule_test.go:72-73 expects an older host condition. The model follows
  src/ingress/routing_rule.go:113.

## Model

| member | source | states |
|---|---|---|
| IngressManager.UpdateOrCreateIngress | src/manager/manager.go:106-148 | Without error, the live load balancer serves the Ingress, for every weather and every map order. Each host has a live listener with the host's policy name, hostname entry, dummy default, and port 443, HTTP2 and the certificate named after namespace, secret and id exactly if it is a TLS host, else port 80 and HTTP; the certificate is there with the secret's public parts. The policy that this listener names sends each request to a live backend set whose addresses are exactly the nodes on the node port of the port that the first declared path means, with the service's health checker, or nowhere if nothing is declared. The default and redirecting listeners are there, the former with the default backend's nodes. A hostname entry holds its host if and only if the load balancer was not found with another host under that name, and the redirecting listener has its rule set unless an existing load balancer lacked the listener. An Ingress that is objected to changes nothing. In fine weather any other is carried out if and only if the load balancer is new or no policy without a host names a backend set without a service under an API that minds. Certificates stay those of known bundles, with or without error. |
| IngressManager.SettledServes | src/manager/manager.go:116-148 | If every wanted resource is settled under the code's own comparisons, the tables serve the Ingress in the sense above, which mentions neither the comparisons nor the builders: the link between compiler and reconciliation. |
| IngressManager.ClashBySpec | src/manager/manager.go:437-485 | The panic on certificates is met if and only if a certificate found under the name of a TLS rule host's certificate has other contents. |
| IngressManager.SetOfBackend | src/ingress/spec.go:193-221 | The set a declared backend resolves to holds exactly the nodes with an address, on the node port of the port that the backend means by name or number, with the Ingress's policy and the service's health checker. |
| FrontTables.FrontListener | src/ingress/spec.go:244-269 | The listener under the name of a rule host has that host's policy name, its hostname entry or none for the empty host, the dummy default and no rule sets; port 443, HTTP2, depth 1 and the certificate named after namespace, secret and id exactly if it is a TLS host, else port 80 and HTTP. |
| FrontTables.FrontOpenListeners | src/ingress/spec.go:273-308 | The listener for unknown hosts is on port 80 with HTTP, without hosts and policy, and its set is the default backend's, or the dummy; if redirection is wanted, the redirecting listener names exactly the TLS hosts on port 80, with its rule set. |
| FrontTables.FrontCertificate | src/ingress/spec.go:122-162 | For a TLS host of a rule, the certificate named after namespace, secret and the id of what the secret holds is in the table, with its public parts. |
| FrontTables.SameSecret | src/ingress/spec.go:132 | For secrets without underscore, equal certificate names in a namespace mean the same secret and the same id. |
| FrontTables.RotationFits | src/ingress/spec.go:128-145 | Rotation: if every certificate found under a name of namespace, secret and id has the public parts of a known bundle with that id, and ids tell contents apart, then no certificate of the Ingress meets other contents, whatever known bundles its secrets hold now. |
| FrontTables.RenewedIsNew | src/ingress/spec.go:128-145 | A certificate with an id not known before gets a key that the load balancer does not hold, so it is created and nothing is overwritten. |
| FrontTables.FrontEntry | src/ingress/spec.go:105-120 | The hostname entry of a rule host is in the table, with that host. |
| FrontTables.FrontWellNamed | pkg/cloudprovider/providers/oci/load_balancer_util.go:466-519 | Sanitizing tells the compiled listener names apart if and only if no two names the Ingress leads to have the same first two fields. |
| FrontTables.FrontIsPlain | src/ingress/helpers.go:14-111 | For RFC 1123 hosts, optionally wildcards, no listener list compiled holds an empty name or a blank, so the textual comparison of lists is exact on them. |
| Runs.Converges | src/manager/manager.go:240-273 | A complete run ends with all six tables agreeing with the spec under the code's comparisons, with nothing unwanted left and names still tellable apart; the exception is exactly rule sets of listeners whose slot was empty at the refresh, and nothing but their rule sets. |
| Runs.EntriesStay | src/manager/manager.go:396-435 | After a complete run a hostname entry is as it was found, or as wanted if it was absent; so it is right if and only if it was absent or right. |
| Runs.WrongEntryStays | src/manager/manager.go:396-435 | A concrete entry with another host that every complete run leaves as it is. |
| Runs.SecondRunSettles | src/manager/manager.go:240-273 | After one complete run, any further complete run ends without any difference, rule sets included. |
| RuleSets.RuleSetsSettle | pkg/oci/client/loadbalancer.go:287-344 | All complete runs from given tables end without a difference at a wanted resource if and only if its slot is held in those tables or it wants no rule sets. |
| RuleSets.SomeRun | src/manager/manager.go:240-273 | From any tables there is a complete run, here one whose suppressed pass had no effect. |
| Runs.CompleteRunReachesTarget | src/manager/manager.go:243-271 | The final tables depend only on the tables at the start, not on map orders or on how far the suppressed pass came; rule sets aside. |
| Runs.RestartSafe | src/manager/manager.go:240-273 | After any number of runs stopped anywhere, the next complete run ends with the tables an uninterrupted run would have reached; rule sets aside. |
| Runs.RestIsPlan | src/manager/manager.go:243-271 | Though the queue was made before the suppressed pass, the calls left after the refresh are a plan for the refreshed tables. |
| Runs.RunKeepsTarget | src/manager/manager.go:249-271 | A run stopped anywhere keeps names tellable apart and does not move the target. |
| Plans.Written | src/manager/actions.go:24-32 | The last value of a key is the outcome of any of its calls: replaying the policy updates in the later run changes nothing. |
| Plans.NamesSurvive | pkg/cloudprovider/providers/oci/load_balancer_util.go:466-519 | The hypothesis on listener names holds after every step of a plan. |
| Plans.TargetStays | pkg/cloudprovider/providers/oci/loadbalancer.go:552-578 | The diff computed after any prefix of a plan leads to the same tables as before it. |
| Plans.PlanReachesTarget | pkg/cloudprovider/providers/oci/load_balancer_util.go:466-519 | A plan carried out to its end reaches the target: re-keyed by sanitized name, the wanted tables. |
| Progress.NothingRejected | src/manager/manager.go:249-271 | With closed wanted tables, in a run without outside failures every call after the refresh is accepted if and only if no stale policy names a stale backend set under an API that minds. |
| Progress.WantedSetsExist | src/manager/manager.go:249-254 | The suppressed pass always gets past creating backend sets, so policies find them. |
| Progress.RefsExist | src/manager/manager.go:256-264 | Nothing that a create or update after the refresh names is missing. |
| Progress.NotInUse | src/manager/manager.go:266-271 | What is deleted at the end is used by nothing that would block it. |
| Progress.CertificatesStay | src/manager/manager.go:437-485 | After a run, complete or not, each certificate is as it was found or as wanted. |
| Progress.PolicyBlocksSet | src/manager/manager.go:262-271 | A stale policy in the way makes the second pass meet a rejected deletion: the converse half of progress. |
| Progress.StaleRunRejected | src/manager/manager.go:262-271 | A concrete guarding server, stale policy and run that is rejected. |
| Passes.TwoPassesSettle | pkg/oci/client/loadbalancer.go:287-344 | After one complete pass the second updates exactly the listeners just created with rule sets, and the third has nothing to do. |
| Passes.EveryStepKeepsDefaults | pkg/cloudprovider/providers/oci/load_balancer_util.go:633-680 | After every single step of the sorted actions each listener's default backend set exists, even if the API checks nothing. |
| Passes.DetailsAreClosed | src/manager/manager.go:189-208 | Leaving out the policies and their mention by listeners is enough for the creation request to name nothing missing. |
| Passes.FreshSettles | src/manager/manager.go:122-130 | Creating and one complete run leave no difference at all, rule sets included. |
| Manager.UpdateLoadBalancer | src/manager/manager.go:240-273 | Whatever the weather, what the phases do is a run: complete if there is no error, stopped by a rejection in fine weather, and on a certificate clash a panic before any change. |
| Manager.Reconcile | src/manager/manager.go:131-143 | One reconciliation of an existing load balancer: in fine weather it finishes if and only if no stale policy is in the way, finishing means agreement, without exception where something was found under the wanted slot, with hostname entries as found or wanted, and with typed tables and plain lists; finished or not the target stays the same, and every certificate is as found or as wanted. |
| Manager.ReconcileNew | src/manager/manager.go:122-130 | Creation followed by an update: without error there is no difference left and hostname entries hold the wanted hosts, and in fine weather there is no error; in any case every certificate is as before or as wanted. |
| Manager.CreateLoadBalancer | src/manager/manager.go:167-238 | A returned load balancer has exactly the wanted tables but the policies, each resource as the API stores it, listeners without their policy and otherwise as wanted. |
| Manager.Enqueue | src/manager/manager.go:275-485 | The four enqueue functions add exactly the calls of a plan for their table, one per key and in any order, and panic exactly on a changed certificate. |
| Manager.EnqueueAll | src/manager/manager.go:243-247 | Together they queue a plan for the four dispatched tables, with distinct keys, and panic exactly on a certificate clash. |
| Manager.MapCompare | src/utils/utils.go:127-145 | Three sets that split the names into additional, missing, and common names, with a filter only those whose resources differ, for every order. |
| Manager.RunRest | src/manager/manager.go:256-272 | Creates, policy updates, second pass, updates and deletes run in this order, up to the first failure; a failed refresh means a panic at the second pass. |
| Dispatcher.ActionDispatcher.Run | src/manager/actions.go:62-78 | Makes the calls of a verb sweep by sweep over the subjects; on an error exactly a prefix of that order has been made. |
| Dispatcher.ActionDispatcher.AllSubjects | src/manager/actions.go:40-52 | The subjects in order of first appearance. |
| Dispatcher.RunsEachOnce | src/manager/actions.go:62-78 | Without given subjects the calls run are, as a bag, each action of the verb exactly once. |
| CloudProvider.UpdateLoadBalancer | pkg/cloudprovider/providers/oci/loadbalancer.go:480-580 | The actions are a plan for listeners and backend sets, sorted by action index, and a prefix of them is made, stopped in fine weather only by a rejection. |
| CloudProvider.GetListenerChanges | pkg/cloudprovider/providers/oci/load_balancer_util.go:466-519 | The changes are exactly those of comparing by sanitized name: unwanted listeners deleted, changed ones updated under their actual name, missing ones created, each once. |
| CloudProvider.GetBackendSetChanges | pkg/cloudprovider/providers/oci/load_balancer_util.go:333-381 | The same for backend sets, by name. |
| CloudProvider.HasBackendSetChanged | pkg/cloudprovider/providers/oci/load_balancer_util.go:209-259 | Answers unchanged if and only if the policies are equal, for every ip and port some actual backend has them exactly if some desired one has, the first ports agree where both have backends, and the health checker has every value that is desired. |
| Comparisons.BackendSetsAgree | pkg/cloudprovider/providers/oci/load_balancer_util.go:157-259 | The comparison on which plans, agreement and settling rest is exactly that one for backend sets. |
| Comparisons.ListenersAgree | pkg/cloudprovider/providers/oci/load_balancer_util.go:383-464 | A listener is taken for unchanged if and only if default set, port, protocol, policy, printed lists, presence of TLS, certificate name, depth and peer verification agree and a desired connection is there; on plain lists the lists are then equal. |
| Comparisons.OthersAgree | src/manager/manager.go:275-485 | Policies, rule sets and the public parts of certificates are unchanged exactly if equal; an existing hostname entry never differs. |
| Comparisons.NodesComeAndGo | pkg/cloudprovider/providers/oci/load_balancer_util.go:229-248 | A backend with a new address is noticed when it joins, and when it leaves. |
| Sorting.SortIsPermutation | pkg/cloudprovider/providers/oci/load_balancer_util.go:646-680 | Sorting and combining loses and invents no action. |
| Sorting.SortIsStable | pkg/cloudprovider/providers/oci/load_balancer_util.go:633-680 | The result is ordered by action index, and actions of one index keep their order. |
| Sorting.PhasesInOrder | pkg/cloudprovider/providers/oci/load_balancer_util.go:633-641 | Backend sets are created, then updated, before any listener is touched; listeners are created, updated, deleted in this order; backend sets are deleted last. |
| ListenerNames.SanitizedIdempotent | pkg/cloudprovider/providers/oci/load_balancer_util.go:559-569 | Sanitizing twice is sanitizing once. |
| ListenerNames.SanitizedUnchanged | pkg/cloudprovider/providers/oci/load_balancer_util.go:559-569 | A name is left alone if and only if it has at most one hyphen and its first field is not HTTP. |
| ListenerNames.SanitizedSame | pkg/cloudprovider/providers/oci/load_balancer_util.go:559-569 | Two names are merged if and only if their first two hyphen-separated fields agree, a leading HTTP read as TCP. |
| ListenerNames.HttpInAnyCase | pkg/cloudprovider/providers/oci/load_balancer_util.go:559-569 | The first field counts as HTTP exactly if it is that word, letter case aside. |
| Strings.SprintInjective | pkg/cloudprovider/providers/oci/load_balancer_util.go:425-433 | On names without blanks, equal prints of two lists mean equal lists. |
| SpecBuilder.NewIngressLBSpec | src/ingress/spec.go:77-352 | Succeeds if and only if the checks before the first rule and after the last listener pass, every rule compiles and the annotations of Ingress and used services are good; then gives the compiled tables with the right backend sets, for every map order. |
| Compiling.CompilesExactly | src/ingress/spec.go:177-302 | For RFC 1123 hosts with entries apart, the front tables compile if and only if every path has a backend that resolves and a condition that can be printed, every TLS rule host is named and the secret of the last entry naming it is named and there, and the default backend resolves. |
| Compiling.BuildableExactly | src/ingress/spec.go:77-352 | So a spec can be built if and only if, besides, the checks before and after pass, the policy annotation is good, and so are the health-check annotations of used services with ports. |
| Compiling.PrintsExactly | src/ingress/routing_rule.go:29-151 | A condition can be printed exactly for exact and prefix paths, custom conditions, and patterns that URL parsing takes and that have one of the known layouts. |
| SpecBuilder.Builder.ProcessBackendSpec | src/ingress/spec.go:177-222 | With its memo of services, gives what resolving the backend gives: among ports told apart, the set of the port that is meant by name or number, exactly if it has a node port; and remembers exactly the service it used. |
| SpecBuilder.Builder.ProcessRule | src/ingress/spec.go:224-270 | One round of the rule loop has the outcome of `AddRule`, same error included, whose listener, certificate, entry and policy the `FrontTables` and `SpecMeaning` rows describe field by field and whose success `Compiling.CompilesExactly` does. |
| SpecBuilder.Builder.AppendDefaultRule | src/ingress/spec.go:291-295 | In any order of the map, each policy gets the default rule once at its end and nothing else changes. |
| SpecBuilder.CollectBackendSets | src/ingress/spec.go:417-435 | In any order of services, succeeds if and only if every service's health-check annotations are good, and gives exactly one backend set name per port, each from a service and port of that name. |
| SpecBuilder.CollectHosts | src/ingress/spec.go:170-175 | The nested loops give the table of TLS hosts, which `Serving.LastEntryWins` describes. |
| Serving.LastEntryWins | src/ingress/spec.go:170-175 | A host is in that table if and only if some entry names it, with the secret of the last entry naming it. |
| Serving.RedirectionWanted | src/ingress/spec.go:304 | Redirection is set up if and only if some TLS entry names a host and the annotation says so, or says nothing and the default is on. |
| SpecBuilder.GetBackendSets | pkg/cloudprovider/providers/oci/load_balancer_spec.go:200-221 | A backend set for each port; an error exactly if there are ports and the annotations are bad. |
| SpecBuilder.BackendsAreNodes | pkg/cloudprovider/providers/oci/load_balancer_spec.go:183-198 | The backends are exactly the nodes with an internal address, on the node port, with weight one. |
| SpecBuilder.TlsHostsSuffice | src/ingress/spec.go:304-308 | TLS hosts that are rule hosts of at most 240 characters leave no name of the redirecting listener dangling. |
| SpecCompiler.ResolvedIsSet | src/ingress/spec.go:177-222 | What a backend resolves to is one of the backend sets its service gets. |
| SpecCompiler.NamedPort | src/ingress/spec.go:193-213 | With a port name, the number sought is that of the first TCP port of that name, resolving succeeds exactly if a TCP port of that number from there on has a node port, and fails if no TCP port has the name. |
| SpecCompiler.NumberedPort | src/ingress/spec.go:193-221 | With a port number, resolving succeeds exactly if a TCP port of that number has a node port, and gives the set of that number. |
| SpecCompiler.ResolvesToPort | src/ingress/spec.go:177-221 | Among ports as Kubernetes validates them, a backend resolves if and only if the port it means by name or number is there and has a node port, and then to the set of that very port. |
| SpecCompiler.SecondPortByName | src/ingress/spec.go:198-202 | A concrete service with ports `http` and `https`: a backend that names `https` gets the set of port 443. |
| SpecClosure.SpecIsClosed | src/ingress/spec.go:224-308 | The compiled tables name nothing missing if and only if no redirecting listener is made or each TLS host is the entry of a rule host. |
| SpecClosure.StrayTlsHostDangles | src/ingress/spec.go:304-308 | A concrete Ingress with redirection whose TLS host is no rule host: it compiles, and its tables name something missing. |
| SpecClosure.RulesForward | src/ingress/spec.go:226-242 | Every compiled rule forwards to a backend set that will exist. |
| SpecMeaning.RoutingPreserved | src/ingress/spec.go:224-302 | For every host and request the compiled policy picks the backend set of the first path meant for it over all rules of that host in declaration order, else of the default backend, else nothing. A path is meant for a request by host and path, patterns as URL parsing gives them, or by its condition and the host if the condition keeps it. |
| SpecMeaning.RoutingByElements | src/ingress/spec.go:224-302 | For requests on which the text test and the match by path elements agree, the same holds with `Prefix` read by path elements. |
| SpecMeaning.HttpRulesMeaning | src/ingress/spec.go:226-242 | Ignoring rules whose name occurred before never changes the choice. |
| SpecMeaning.MergedMeaning | src/ingress/spec.go:256-266 | Merging the rules of one host never changes the choice. |
| SpecMeaning.FrontPolicy | src/ingress/spec.go:256-302 | A policy exists exactly for the hosts of rules, and holds their rules in order followed by the default rule if there is one. |
| SpecMeaning.DefaultRuleMeaning | src/ingress/routing_rule.go:15-27 | The default rule catches exactly the paths that start with a slash. |
| SpecMeaning.DefaultRuleText | src/ingress/routing_rule.go:15-27 | Its name and condition, spelled out. |
| RoutingRules.CreateCondition | src/ingress/routing_rule.go:29-72 | The growing and replaced slice of conditions ends as the condition the other theorems are about, errors included. |
| RoutingRules.ConditionMeans | src/ingress/routing_rule.go:29-114 | For quote-free inputs the printed text, read back by the grammar, is the host test and the path test. |
| RoutingRules.ConditionMeaning | src/ingress/routing_rule.go:29-114 | So it holds of a request exactly if host and path match. |
| RoutingRules.CustomAllKept | src/ingress/routing_rule.go:52-72 | A one-line `all(X)` keeps X verbatim, nested commas included, behind the host condition. |
| RoutingRules.CustomAlone | src/ingress/routing_rule.go:46-72 | With a host to test, the condition of an `ImplementationSpecific` path is used alone if and only if it is a group other than a one-line `all(...)`. |
| RoutingRules.CustomMeans | src/ingress/routing_rule.go:46-72 | Such a condition within the grammar holds of a request exactly as written, joined with the host test exactly if it keeps the host. |
| ConditionTexts.HostText | src/ingress/routing_rule.go:84-114 | The host condition, spelled out: the `Host` header in the three spellings of a host. |
| ConditionTexts.PathText | src/ingress/routing_rule.go:41-82 | The condition of an exact or prefix path, spelled out, behind the host condition exactly if the host is named and no wildcard. |
| ConditionTexts.KeepsHostExactly | src/ingress/routing_rule.go:52-72 | A custom condition leaves the host out exactly if it is a group by `any` or `all`, negated or not, other than an `all(...)` on one line. |
| ConditionTexts.CustomText | src/ingress/routing_rule.go:120-123 | A path is a custom condition exactly if anything but spaces follows `condition:`, and then that is the condition, trimmed. |
| ConditionTexts.Trimmed | src/ingress/routing_rule.go:122 | Trimming takes away the spaces at both ends and nothing else. |
| Prefixes.AgreeOn | src/ingress/routing_rule.go:43-45 | Comparing text and matching by path elements agree on a path if and only if it does not go on within the last element, or lacks the prefix's trailing slash. |
| Prefixes.AgreeEverywhere | src/ingress/routing_rule.go:43-45 | They agree on all paths if and only if the prefix is `/`. |
| Prefixes.FoobarBelowFoo | src/ingress/routing_rule.go:43-45 | A concrete path on which they differ. |
| Conditions.ParseExact | src/ingress/routing_rule.go:41-46 | The grammar reads exactly the printed texts of quote-free conditions, each as the one condition it prints. |
| Globs.CompileMiddle | src/ingress/routing_rule.go:137-140 | `a*b` is understood exactly on paths at least as long as both parts, and accepts too much only below. |
| Globs.MiddleOverlaps | src/ingress/routing_rule.go:137-140 | A concrete path accepted by overlap: `aba` for `ab*ba`. |
| Globs.CompileSuffix | src/ingress/routing_rule.go:141-143 | `*x` compiles to a test equal to the pattern. |
| Globs.CompilePrefix | src/ingress/routing_rule.go:144-146 | `x*` compiles to a test equal to the pattern. |
| Globs.CompilePlain | src/ingress/routing_rule.go:134-136 | A pattern without star compiles to equality. |
| Globs.CompileBoth | src/ingress/routing_rule.go:147-149 | Stars at both ends are understood if and only if there is one on each side. |
| Globs.CompileAccepts | src/ingress/routing_rule.go:134-150 | The accepted patterns are exactly those without star, with one star besides other text, and with stars at both ends only. |
| Strings.JoinOfSplit | src/ingress/routing_rule.go:56-71 | Splitting and joining on a separator is the identity. |
| SecurityRules.GetLoadBalancerIngressRules | pkg/cloudprovider/providers/oci/load_balancer_security_lists.go:451-519 | The loop gives the rewriting the theorems are about. In terms of the services: rules not for the port stay; if the lister fails or some LoadBalancer service lists the port, every rule stays; else only wanted CIDRs keep a rule on it. Every wanted CIDR has one, and what is new is a stateful TCP rule for a wanted CIDR. |
| SecurityRules.GetLoadBalancerEgressRules | pkg/cloudprovider/providers/oci/load_balancer_security_lists.go:521-606 | The same for egress rules, with single-port rules for the former port dropped and no others. On port 10256, if the lister fails or some LoadBalancer service has no health-check path of its own, every rule on the port stays; on any other port, or if no such service is listed, only wanted CIDRs keep one. |
| SecurityRules.RewriteConserves | pkg/cloudprovider/providers/oci/load_balancer_security_lists.go:451-606 | The result is the rules that fit no drop case, in order, then a new rule for exactly the wanted CIDRs that had none. |
| SecurityRules.RewriteCovers | pkg/cloudprovider/providers/oci/load_balancer_security_lists.go:451-606 | Every wanted CIDR ends with a rule on the port. |
| SecurityRules.RewriteOneToOne | pkg/cloudprovider/providers/oci/load_balancer_security_lists.go:451-606 | If no one else uses the port, each wanted CIDR has exactly one rule on it, and no other CIDR has any. |
| SecurityRules.RewriteIdempotent | pkg/cloudprovider/providers/oci/load_balancer_security_lists.go:451-606 | Rewriting the result again changes nothing. |
| SecurityRules.ChangeTestExact | pkg/cloudprovider/providers/oci/load_balancer_security_lists.go:286-320 | On the result of one rewriting the change test fires if and only if the sequence differs. |
| SecurityRules.ChangeTestSeesPermutations | pkg/cloudprovider/providers/oci/load_balancer_security_lists.go:286-320 | A new list without duplicates is taken for unchanged exactly if it is a permutation of the old one; with a duplicate some other old list goes unnoticed. |
| SecurityRules.EgressCovers | pkg/cloudprovider/providers/oci/load_balancer_security_lists.go:143-152 | After both egress rewritings each node has a health-check rule, and a backend rule if and only if the wanted backend port is not the current health-check port or the health-check port stays. |
| SecurityRules.ChainedTestExact | pkg/cloudprovider/providers/oci/load_balancer_security_lists.go:143-163 | After the two egress rewritings the change test is exact for every list if and only if there are no nodes, the backend port stays, or the backend port given up is not the wanted health-check port. |
| SecurityRules.ChainedTestMissesReordering | pkg/cloudprovider/providers/oci/load_balancer_security_lists.go:143-163 | The concrete list beside it: reordered by the two rewritings without the test firing. |
| SecurityRules.SecurityList.UpdateLoadBalancerRules | pkg/cloudprovider/providers/oci/load_balancer_security_lists.go:134-173 | One list is replaced by its rewritings exactly if the change test fires; else the ingress rules are already right, and so are the egress rules when the rewritings chain safely. |
| SecurityRules.SecurityListRulesChanged | pkg/cloudprovider/providers/oci/load_balancer_security_lists.go:286-320 | True exactly if a length differs or some rule was not there before. |
| NodeRules.GetNodeIngressRules | pkg/cloudprovider/providers/oci/load_balancer_security_lists.go:330-449 | The loop over two ports and two sets of CIDRs gives the rewriting the theorems are about. In terms of the services: on health-check port 10256, if the lister fails or some LoadBalancer service has no path of its own, every rule on it stays; else, and always on a separate backend port, only wanted CIDRs keep one. Rules for other ports stay unless they are for a port given up; wanted CIDRs are covered; new rules are stateful TCP rules for them. |
| NodeRules.OldMeans | pkg/cloudprovider/providers/oci/load_balancer_security_lists.go:355-372 | A rule is for a port given up exactly if its destination is one single port that was the backend or health-check port, or 0 if there was none, and is neither wanted port; its source ports do not matter. |
| NodeRules.NodeRewriteConserves | pkg/cloudprovider/providers/oci/load_balancer_security_lists.go:330-449 | The result is the rules that fit no drop case, in order, then new backend and health-check rules for the CIDRs with room left. |
| NodeRules.NodeRewriteCovers | pkg/cloudprovider/providers/oci/load_balancer_security_lists.go:330-449 | Every load balancer CIDR has a rule on each wanted port other than 0, two when the ports coincide. |
| NodeRules.NodeRewriteExact | pkg/cloudprovider/providers/oci/load_balancer_security_lists.go:330-449 | Exactly so many on a separate backend port, and on the health-check port if no service uses it. |
| NodeRules.NodeRewriteIdempotent | pkg/cloudprovider/providers/oci/load_balancer_security_lists.go:330-449 | Rewriting the result again changes nothing, also when the ports coincide or are 0. |
| NodeRules.NodeChangeTestExact | pkg/cloudprovider/providers/oci/load_balancer_security_lists.go:105-130 | The change test on the node rewriting is exact for every list if and only if the ports differ, the common port is 0, there are no CIDRs, or the port is in use and was the only one before. |
| NodeRules.UpdateBackendRules | pkg/cloudprovider/providers/oci/load_balancer_security_lists.go:105-130 | One list's ingress rules are replaced exactly if the change test fires; else they are already right whenever the test is exact. Egress rules stay. |
| Names.ByteAlphaNumericDigest | src/utils/utils.go:69-89 | The loop ends, with exactly the requested length, for every length from 0 on. |
| Names.DigestAlphaNumeric | src/utils/utils.go:69-89 | A digest has only letters and digits. |
| Names.DigestAsName | src/utils/utils.go:62-89 | A digest is a legal rule name if and only if the hash does not start with two digits. |
| Names.LongDigest | src/utils/utils.go:69-89 | The digests of 32 and 15 characters: the hash, a leading digit moved to its end as the letter the code gives it, continued by the hash of that. |
| Names.RoutingPolicyNameFits | src/ingress/helpers.go:134-152 | For every RFC 1123 host, wildcard host or empty host the name has 32 legal characters, so the panic is unreachable. |
| Names.RoutingPolicyNameShape | src/ingress/helpers.go:134-152 | The name is the stem, cut to 25 characters, an underscore, and as much of the digest of the host as makes 32. |
| Names.StemOfLabels | src/ingress/helpers.go:136-145 | For a lower-case host of labels that starts with a letter, the stem is the host with dots and hyphens as underscores. |
| Names.ListenerNameFits | src/ingress/helpers.go:154-169 | For every such host the listener name is legal, so that panic is unreachable as well. |
| Names.ListenerNamesApart | src/ingress/helpers.go:154-169 | Listener names that need no digest are equal if and only if the hosts are, letter case aside. |
| Names.AnyHostCollides | src/ingress/helpers.go:154-157 | A concrete clash: the host `any-host` has the listener name of the empty host. |
| Names.LongListenerName | src/ingress/helpers.go:161-164 | A longer name is cut to 240 characters and continued by 15 of the digest of the host. |
| Names.HostnameNameShape | src/ingress/helpers.go:171-178 | A host of up to 240 characters is its own entry name; a longer one is cut and continued by the digest, within 255. |
| Names.BackendSetNameFits | pkg/cloudprovider/providers/oci/modified__.go:13-20 | 32 characters holding the whole port segment and at least 6 digest characters. |
| Names.BackendSetNamesApart | pkg/cloudprovider/providers/oci/modified__.go:13-20 | Two ports of one service, its name being free of underscores, share a name only if they have the same number and their protocols the same first letter. |
| Names.ItoaReads | pkg/cloudprovider/providers/oci/modified__.go:13-20 | A port is printed as its decimal digits, without leading zeros. |
| SortedSets.AscendingInOrder | src/ingress/spec.go:305 | The listing of a set of strings is strictly ascending. |
| SortedSets.LessMeans | src/ingress/spec.go:305 | Strings are ordered by the first place where they differ, a string before its continuations. |

## Left out

- OCI SDK calls, work-request polling, rate limiting and retries: a call succeeds, fails, or fails after taking effect.
- Lifecycle states, the lookup of the load balancer, the status update of the Ingress and `DeleteIngress`: one-shot calls around the reconciliation.
- Shape, network security groups, reserved addresses, bandwidth and subnet lookups: one-shot checks. While compiling they are inputs that may hold an error (`Ingress.opening`, `Ingress.closing`); during an update they are assumed to pass.
- Event handlers, controller wiring, configuration and annotation parsing: the parsed annotations are inputs (`Ingress.policy`, `Ingress.forceRedirect`, `Service.healthChecker`).
- X.509 and PEM parsing, private keys, MD5 and base64: a certificate is a name with its public parts, the hash an unknown function.
- `url.Parse` is an unknown function, and the regular expressions are predicates on strings; `ObjectHash` of a path is an unknown function `ruleName`.
- Log messages and the texts of change lists: only whether a list is empty matters. Error texts are shortened.
- The patches of the cached load balancer in `enqueue*Actions`: they change an object that is not read after the refresh.
- Backend set SSL and session persistence fields, listener protocols and cipher suites of existing listeners: `getSSLConfiguration` is called without a configuration.
- Nil and zero values: pointers whose nil the code reads as a zero value are that value.
- Weights and the order of backends, which the comparison does not look at; the nodes are a sequence where the code ranges over a map.
- `fmt.Sprintf` directives inside names, Unicode case folding and multi-byte characters: names are sequences of single characters.
- The loops over subnets in `updateLoadBalancerRules` and `updateBackendRules`, `getSecurityList` and the manager modes: one list is modelled at a time.
- SpecMeaning.RoutingPreserved: for hosts and paths with a single quote, and for conditions beyond the grammar of `eq`, `sw`, `ew`, `cw`, `any` and `all` over path and host, the declared side is the printed text, whose meaning is left open (`Custom`).
- Answers of the service lister that change within one call: the lister gives the same answer throughout a call.
- Changes to the load balancer by others during a run.
- Unused and commented-out code (`getListeners`, `LBSpec.Certificates`, `ensureSSLCertificates`).
- Manager.UpdateLoadBalancer: says that a failed refresh panics at the second pass, where the source dereferences nil; what a recovered panic leaves behind is only that the calls made are a prefix.
- Names.BackendSetNameFits: assumes ports of at most five digits, as Kubernetes guarantees.
