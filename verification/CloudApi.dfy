/** The OCI API as the controller meets it: calls go through, are lost, or take effect without confirmation. */
module CloudApi {
  import opened Wrappers
  import opened Tables

  datatype Weather =
    | Fine           // the answer is the API's own
    | Lost           // the call fails and changes nothing
    | Unconfirmed    // the call takes effect if the API accepts it, but is reported as failed

  /** `n` calls of the list took effect, each accepted when it was made. */
  ghost predicate Made(server: Server, s: Store, calls: seq<Call>, n: nat, t: Store) {
    n <= |calls| && t == After(server, s, calls, n) && AllAccepted(server, s, calls, n)
  }

  /** The outcome of working off a list: stopped at the first failure, which in fine weather is a rejection. */
  ghost predicate Ran(server: Server, s: Store, calls: seq<Call>, ok: bool, n: nat, t: Store, fine: bool) {
    && Made(server, s, calls, n, t)
    && (ok ==> n == |calls|)
    && (!ok && fine ==> n < |calls| && !AcceptedAt(server, s, calls, n))
  }

  lemma AcceptedLater(server: Server, s: Store, a: seq<Call>, b: seq<Call>, i: nat)
    requires i < |b|
    ensures AcceptedAt(server, s, a + b, |a| + i) <==> AcceptedAt(server, After(server, s, a, |a|), b, i)
  {
    AfterConcat(server, s, a, b, i);
  }

  lemma AcceptedEarlier(server: Server, s: Store, a: seq<Call>, b: seq<Call>, i: nat)
    requires i < |a|
    ensures AcceptedAt(server, s, a + b, i) <==> AcceptedAt(server, s, a, i)
  {
    AfterPrefix(server, s, a, b, i);
  }

  /** A list worked off completely, followed by another list. */
  lemma RanOn(server: Server, s: Store, a: seq<Call>, m: nat, t: Store, b: seq<Call>, ok: bool, n: nat, u: Store, fine: bool)
    requires Ran(server, s, a, true, m, t, fine) && Ran(server, t, b, ok, n, u, fine)
    ensures Ran(server, s, a + b, ok, m + n, u, fine)
  {
    assert m == |a|;
    AfterConcat(server, s, a, b, n);
    forall i | 0 <= i < |a| + n ensures AcceptedAt(server, s, a + b, i) {
      if i < |a| { AcceptedEarlier(server, s, a, b, i); } else { AcceptedLater(server, s, a, b, i - |a|); }
    }
    if n < |b| { AcceptedLater(server, s, a, b, n); }
  }

  /** A list that was not worked off completely, seen as a part of a longer one. */
  lemma RanShort(server: Server, s: Store, a: seq<Call>, b: seq<Call>, n: nat, t: Store, fine: bool)
    requires Ran(server, s, a, false, n, t, fine)
    ensures Ran(server, s, a + b, false, n, t, fine)
  {
    AfterPrefix(server, s, a, b, n);
    forall i | 0 <= i < n ensures AcceptedAt(server, s, a + b, i) {
      AcceptedEarlier(server, s, a, b, i);
    }
    if n < |a| { AcceptedEarlier(server, s, a, b, n); }
  }

  lemma OneMore(server: Server, s: Store, calls: seq<Call>, n: nat, t: Store)
    requires n < |calls| && Made(server, s, calls, n, t) && Accepts(server, t, calls[n])
    ensures Made(server, s, calls, n + 1, Apply(server, t, calls[n]))
  {
  }

  class Cloud {
    const server: Server
    const weather: nat -> Weather
    var store: Store
    /** Requests so far. */
    var requests: nat

    constructor (server: Server, weather: nat -> Weather, store: Store)
      ensures this.server == server && this.weather == weather && this.store == store && requests == 0
    {
      this.server := server;
      this.weather := weather;
      this.store := store;
      requests := 0;
    }

    /** No request fails for a reason of its own. */
    ghost predicate AlwaysFine() {
      forall n :: weather(n).Fine?
    }

    /** One call of the API, awaited. */
    method Send(c: Call) returns (ok: bool)
      modifies this
      ensures requests == old(requests) + 1
      ensures var accepted := Accepts(server, old(store), c);
        && (ok <==> weather(old(requests)).Fine? && accepted)
        && store == if accepted && !weather(old(requests)).Lost? then Apply(server, old(store), c) else old(store)
    {
      var accepted := Accepts(server, store, c);
      var w := weather(requests);
      requests := requests + 1;
      if accepted && !w.Lost? { store := Apply(server, store, c); }
      ok := accepted && w.Fine?;
    }

    /** CreateLoadBalancer: all tables at once, accepted if they name nothing that is missing. */
    method Provision(details: Store) returns (ok: bool)
      modifies this
      ensures requests == old(requests) + 1
      ensures ok <==> weather(old(requests)).Fine? && Closed(details)
      ensures store == if Closed(details) && !weather(old(requests)).Lost? then map k <- details :: server.Stored(details[k])
                       else old(store)
    {
      var w := weather(requests);
      requests := requests + 1;
      if Closed(details) && !w.Lost? { store := map k <- details :: server.Stored(details[k]); }
      ok := Closed(details) && w.Fine?;
    }

    /** GetLoadBalancer: the current tables, or nil. */
    method Get() returns (lb: Option<Store>)
      modifies this
      ensures requests == old(requests) + 1 && store == old(store)
      ensures lb == if weather(old(requests)).Fine? then Some(store) else None
    {
      lb := if weather(requests).Fine? then Some(store) else None;
      requests := requests + 1;
    }

    /** Making one more call of a list of which `n` took effect. */
    method SendNext(ghost start: Store, ghost calls: seq<Call>, ghost n: nat, c: Call) returns (ok: bool, ghost made: nat)
      requires n < |calls| && calls[n] == c && Made(server, start, calls, n, store)
      modifies this
      ensures Made(server, start, calls, made, store)
      ensures if ok then made == n + 1 else made == n || made == n + 1
      ensures !ok && AlwaysFine() ==> made == n && !AcceptedAt(server, start, calls, n)
    {
      ghost var before := store;
      ok := Send(c);
      if Accepts(server, before, c) { OneMore(server, start, calls, n, before); }
      made := if Accepts(server, before, c) && !weather(old(requests)).Lost? then n + 1 else n;
    }
  }
}
