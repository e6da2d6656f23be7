/**
 Runs of `updateLoadBalancer`: complete or stopped anywhere, with the suppressed first pass
 cut off anywhere, and for every order in which the tables are walked.
 */
module Runs {
  import opened Wrappers
  import opened Tables
  import opened Differences
  import opened Plans

  /** The tables that UpdateLoadBalancer of the cloud provider takes care of. */
  const PROVIDER: set<Kind> := {BackendSets, Listeners}
  /** The tables whose calls go through the action dispatcher. */
  const DISPATCHED: set<Kind> := {RoutingPolicies, RuleSets, Hostnames, Certificates}

  lemma EveryKind(kind: Kind)
    ensures kind in PROVIDER <==> kind !in DISPATCHED
  {
    match kind case BackendSets => case Listeners => case RoutingPolicies =>
    case RuleSets => case Hostnames => case Certificates =>
  }

  /**
   One run. `queue` holds the calls given to the dispatcher, `first` and `second` those of the two
   provider passes; the other lists are the parts of the queue in the order they were run.
   `tried` calls of the suppressed pass took effect, and `done` calls after the refresh.
   */
  datatype Run = Run(
    queue: seq<Call>, first: seq<Call>, tried: nat,
    creates: seq<Call>, policyUpdates: seq<Call>, second: seq<Call>, updates: seq<Call>, deletes: seq<Call>,
    done: nat)
  {
    /** The calls after the refresh, none of whose errors is suppressed. */
    function Rest(): seq<Call> {
      creates + policyUpdates + second + updates + deletes
    }

    function Refreshed(server: Server, s: Store): Store
      requires tried <= |first|
    {
      After(server, s, first, tried)
    }

    function Final(server: Server, s: Store): Store
      requires tried <= |first| && done <= |Rest()|
    {
      After(server, Refreshed(server, s), Rest(), done)
    }

    predicate Complete() {
      done == |Rest()|
    }
  }

  predicate IsUpdateOfPolicy(c: Call) {
    c.Update? && c.key.kind == RoutingPolicies
  }

  ghost predicate IsRun(server: Server, spec: Store, s: Store, r: Run) {
    && r.tried <= |r.first| && r.done <= |r.Rest()|
    && Plan(spec, s, DISPATCHED, r.queue) && DistinctKeys(r.queue)
    && Plan(spec, s, PROVIDER, r.first) && DistinctKeys(r.first) && Sorted(r.first)
    && Plan(spec, r.Refreshed(server, s), PROVIDER, r.second) && DistinctKeys(r.second) && Sorted(r.second)
    && (forall c :: c in r.creates <==> c in r.queue && c.Create?) && DistinctKeys(r.creates)
    && (forall c :: c in r.policyUpdates <==> c in r.queue && IsUpdateOfPolicy(c)) && DistinctKeys(r.policyUpdates)
    && (forall c :: c in r.updates <==> c in r.queue && c.Update?) && DistinctKeys(r.updates)
    && (forall c :: c in r.deletes <==> c in r.queue && c.Delete?) && DistinctKeys(r.deletes)
  }

  /** The calls of a plan for some tables leave the other tables alone. */
  lemma OtherTablesSame(server: Server, spec: Store, s: Store, kinds: set<Kind>, calls: seq<Call>, n: nat, k: Key)
    requires Plan(spec, s, kinds, calls) && n <= |calls| && k.kind !in kinds
    ensures At(After(server, s, calls, n), k) == At(s, k)
  {
    forall i | 0 <= i < n ensures calls[i].key != k {
      assert calls[i] in calls;
    }
    Untouched(server, s, calls, n, k);
  }

  lemma QueueStillJustified(server: Server, spec: Store, s: Store, r: Run, c: Call)
    requires IsRun(server, spec, s, r) && c in r.queue
    ensures Justified(spec, r.Refreshed(server, s), c)
  {
    EveryKind(c.key.kind);
    assert c.key.kind in DISPATCHED && Justified(spec, s, c);
    CallStillJustified(server, spec, s, r.first, r.tried, c);
  }

  lemma CallStillJustified(server: Server, spec: Store, s: Store, first: seq<Call>, tried: nat, c: Call)
    requires Plan(spec, s, PROVIDER, first) && tried <= |first|
    requires c.key.kind !in PROVIDER && Justified(spec, s, c)
    ensures Justified(spec, After(server, s, first, tried), c)
  {
    OtherTablesSame(server, spec, s, PROVIDER, first, tried, c.key);
    JustifiedElsewhere(spec, s, After(server, s, first, tried), c);
  }

  lemma JustifiedElsewhere(spec: Store, s: Store, t: Store, c: Call)
    requires Justified(spec, s, c) && c.key.kind != Listeners && At(t, c.key) == At(s, c.key)
    ensures Justified(spec, t, c)
  {
    OwnSlot(s, c.key);
    OwnSlot(t, c.key);
  }

  lemma OwnSlot(s: Store, k: Key)
    requires k.kind != Listeners
    ensures Holds(s, Slot(k)) <==> k in s
  {
  }

  lemma QueueStillHandles(server: Server, spec: Store, s: Store, r: Run, k: Key)
    requires IsRun(server, spec, s, r) && k.kind in DISPATCHED && k in r.Refreshed(server, s)
    ensures Handled(spec, r.Refreshed(server, s), r.Rest(), k)
  {
    var t := r.Refreshed(server, s);
    OtherTablesSame(server, spec, s, PROVIDER, r.first, r.tried, k);
    assert Handled(spec, s, r.queue, k);
    assert forall c :: c in r.queue ==> c in r.Rest();
  }

  /** After the refresh, what is left to run is a plan for all six tables. */
  lemma RestIsPlan(server: Server, spec: Store, s: Store, r: Run)
    requires IsRun(server, spec, s, r)
    ensures Plan(spec, r.Refreshed(server, s), PROVIDER + DISPATCHED, r.Rest())
  {
    var t := r.Refreshed(server, s);
    var kinds := PROVIDER + DISPATCHED;
    forall c | c in r.Rest() ensures c.key.kind in kinds && Justified(spec, t, c) {
      EveryKind(c.key.kind);
      if c !in r.second { QueueStillJustified(server, spec, s, r, c); }
    }
    forall k | k in t ensures Handled(spec, t, r.Rest(), k) {
      if k.kind in PROVIDER {
        assert Handled(spec, t, r.second, k);
        assert forall c :: c in r.second ==> c in r.Rest();
      } else {
        EveryKind(k.kind);
        QueueStillHandles(server, spec, s, r, k);
      }
    }
    forall d | d in spec && !Holds(t, Slot(d)) ensures Create(d, spec[d]) in r.Rest() {
      EveryKind(d.kind);
      if d.kind in PROVIDER {
        assert Create(d, spec[d]) in r.second;
      } else {
        OtherTablesSame(server, spec, s, PROVIDER, r.first, r.tried, d);
        OwnSlot(s, d);
        OwnSlot(t, d);
        assert Create(d, spec[d]) in r.creates;
      }
    }
  }

  /** A run, complete or not, keeps the name hypothesis and does not move the target. */
  lemma RunKeepsTarget(server: Server, spec: Store, s: Store, r: Run)
    requires WellNamed(spec) && WellNamed(s) && IsRun(server, spec, s, r)
    ensures WellNamed(r.Refreshed(server, s)) && WellNamed(r.Final(server, s))
    ensures Target(server, spec, r.Refreshed(server, s)) == Target(server, spec, s)
    ensures Target(server, spec, r.Final(server, s)) == Target(server, spec, s)
  {
    RestIsPlan(server, spec, s, r);
    NamesSurvive(server, spec, s, r.first, r.tried);
    TargetStays(server, spec, s, r.first, r.tried);
    NamesSurvive(server, spec, r.Refreshed(server, s), r.Rest(), r.done);
    TargetStays(server, spec, r.Refreshed(server, s), r.Rest(), r.done);
  }

  /** A complete run ends at the target of the state it started from. */
  lemma CompleteRunReachesTarget(server: Server, spec: Store, s: Store, r: Run)
    requires WellNamed(spec) && WellNamed(s) && IsRun(server, spec, s, r) && r.Complete()
    ensures StripAll(r.Final(server, s)) == Target(server, spec, s)
  {
    RestIsPlan(server, spec, s, r);
    RunKeepsTarget(server, spec, s, r);
    forall kind: Kind ensures kind in PROVIDER + DISPATCHED { EveryKind(kind); }
    PlanReachesTarget(server, spec, r.Refreshed(server, s), PROVIDER + DISPATCHED, r.Rest());
  }

  /** Runs one after the other, each starting where the one before stopped. */
  ghost predicate IsHistory(server: Server, spec: Store, s: Store, runs: seq<Run>)
    decreases |runs|
  {
    runs != [] ==> IsRun(server, spec, s, runs[0]) && IsHistory(server, spec, runs[0].Final(server, s), runs[1..])
  }

  ghost function Outcome(server: Server, spec: Store, s: Store, runs: seq<Run>): Store
    requires IsHistory(server, spec, s, runs)
    decreases |runs|
  {
    if runs == [] then s else Outcome(server, spec, runs[0].Final(server, s), runs[1..])
  }

  lemma {:induction false} HistoryKeepsTarget(server: Server, spec: Store, s: Store, runs: seq<Run>)
    requires WellNamed(spec) && WellNamed(s) && IsHistory(server, spec, s, runs)
    ensures WellNamed(Outcome(server, spec, s, runs))
    ensures Target(server, spec, Outcome(server, spec, s, runs)) == Target(server, spec, s)
    decreases |runs|
  {
    if runs != [] {
      RunKeepsTarget(server, spec, s, runs[0]);
      HistoryKeepsTarget(server, spec, runs[0].Final(server, s), runs[1..]);
    }
  }

  /**
   Restart safety: after any number of runs that stopped anywhere, a complete run ends with the tables
   that an uninterrupted run from the beginning ends with, names included; only rule sets of listeners may differ.
   */
  lemma RestartSafe(server: Server, spec: Store, s: Store, stopped: seq<Run>, last: Run, uninterrupted: Run)
    requires WellNamed(spec) && WellNamed(s) && IsHistory(server, spec, s, stopped)
    requires IsRun(server, spec, Outcome(server, spec, s, stopped), last) && last.Complete()
    requires IsRun(server, spec, s, uninterrupted) && uninterrupted.Complete()
    ensures StripAll(last.Final(server, Outcome(server, spec, s, stopped))) == StripAll(uninterrupted.Final(server, s))
  {
    HistoryKeepsTarget(server, spec, s, stopped);
    CompleteRunReachesTarget(server, spec, Outcome(server, spec, s, stopped), last);
    CompleteRunReachesTarget(server, spec, s, uninterrupted);
  }

  /** The resource under a wanted slot shows no difference, save the rule sets of a listener just created. */
  ghost predicate Agrees(spec: Store, before: Store, t: Store, d: Key)
    requires d in spec
  {
    exists k <- t :: Slot(k) == Slot(d)
      && (Changed(t[k], spec[d]) <==> !Holds(before, Slot(d)) && HasRuleSets(spec[d]))
      && !Changed(Strip(t[k]), Strip(spec[d]))
  }

  lemma PlanAgrees(server: Server, spec: Store, s: Store, kinds: set<Kind>, calls: seq<Call>, d: Key)
    requires WellNamed(spec) && WellNamed(s) && Plan(spec, s, kinds, calls) && d in spec && d.kind in kinds
    ensures Agrees(spec, s, After(server, s, calls, |calls|), d)
  {
    var n := |calls|;
    var t := After(server, s, calls, n);
    if Holds(s, Slot(d)) {
      var k :| k in s && Slot(k) == Slot(d);
      StaysHeld(server, spec, s, calls, n, k);
      var i := WrittenOrUntouched(server, spec, s, calls, n, k);
      if i < n { StoredIsWanted(server, calls[i]); } else { assert Handled(spec, s, calls, k); }
      assert !Changed(t[k], spec[d]);
      StripKeepsAgreement(t[k], spec[d]);
    } else {
      var c := Create(d, spec[d]);
      assert c in calls;
      var i :| 0 <= i < n && calls[i] == c;
      Written(server, spec, s, calls, n, i);
      StoredIsWanted(server, c);
      StoredIsAlike(server, c);
      assert d in t && (Changed(t[d], spec[d]) <==> HasRuleSets(spec[d]));
    }
  }

  /** What is not wanted is gone after a plan is carried out. */
  lemma PlanRemoves(server: Server, spec: Store, s: Store, kinds: set<Kind>, calls: seq<Call>, k: Key)
    requires WellNamed(spec) && WellNamed(s) && Plan(spec, s, kinds, calls) && k.kind in kinds
    requires k in After(server, s, calls, |calls|)
    ensures Holds(spec, Slot(k))
  {
    PlanSettles(server, spec, s, kinds, calls, k);
  }

  /**
   Convergence: a complete run ends with all six tables agreeing with the spec under the code's own
   comparisons. The one exception, and exactly that, is the rule sets of a listener whose slot was empty
   at the refresh, because CreateListener does not send them.
   */
  lemma Converges(server: Server, spec: Store, s: Store, r: Run)
    requires WellNamed(spec) && WellNamed(s) && IsRun(server, spec, s, r) && r.Complete()
    ensures forall d <- spec :: Agrees(spec, r.Refreshed(server, s), r.Final(server, s), d)
    ensures forall k <- r.Final(server, s) :: Holds(spec, Slot(k))
    ensures WellNamed(r.Final(server, s))
  {
    RestIsPlan(server, spec, s, r);
    RunKeepsTarget(server, spec, s, r);
    forall kind: Kind ensures kind in PROVIDER + DISPATCHED { EveryKind(kind); }
    PlanConverges(server, spec, r.Refreshed(server, s), PROVIDER + DISPATCHED, r.Rest());
  }

  lemma PlanConverges(server: Server, spec: Store, s: Store, kinds: set<Kind>, calls: seq<Call>)
    requires WellNamed(spec) && WellNamed(s) && Plan(spec, s, kinds, calls)
    requires forall kind: Kind :: kind in kinds
    ensures forall d <- spec :: Agrees(spec, s, After(server, s, calls, |calls|), d)
    ensures forall k <- After(server, s, calls, |calls|) :: Holds(spec, Slot(k))
  {
    forall d | d in spec ensures Agrees(spec, s, After(server, s, calls, |calls|), d) {
      PlanAgrees(server, spec, s, kinds, calls, d);
    }
    forall k | k in After(server, s, calls, |calls|) ensures Holds(spec, Slot(k)) {
      PlanRemoves(server, spec, s, kinds, calls, k);
    }
  }

  // ---------------------------------------------------------------------------------------------
  // What the tables found tell about the end

  /** The resource under a wanted slot shows no difference, rule sets included. */
  ghost predicate NoDifference(spec: Store, t: Store, d: Key)
    requires d in spec
  {
    exists k <- t :: Slot(k) == Slot(d) && !Changed(t[k], spec[d])
  }

  /** A slot held in the tables found, or wanted without rule sets, ends without any difference. */
  lemma FoundSlotsSettle(server: Server, spec: Store, s: Store, r: Run, d: Key)
    requires WellNamed(spec) && WellNamed(s) && IsRun(server, spec, s, r) && r.Complete()
    requires d in spec && (Holds(s, Slot(d)) || !HasRuleSets(spec[d]))
    ensures NoDifference(spec, r.Final(server, s), d)
  {
    Converges(server, spec, s, r);
    assert Agrees(spec, r.Refreshed(server, s), r.Final(server, s), d);
    if Holds(s, Slot(d)) {
      var k :| k in s && Slot(k) == Slot(d);
      StaysHeld(server, spec, s, r.first, r.tried, k);
    }
  }

  /** After one complete run, any further complete run ends without any difference at all. */
  lemma SecondRunSettles(server: Server, spec: Store, s: Store, one: Run, two: Run, d: Key)
    requires WellNamed(spec) && WellNamed(s) && d in spec
    requires IsRun(server, spec, s, one) && one.Complete()
    requires IsRun(server, spec, one.Final(server, s), two) && two.Complete()
    ensures NoDifference(spec, two.Final(server, one.Final(server, s)), d)
  {
    Converges(server, spec, s, one);
    assert Agrees(spec, one.Refreshed(server, s), one.Final(server, s), d);
    FoundSlotsSettle(server, spec, one.Final(server, s), two, d);
  }

  /**
   Hostname entries are created but never updated: an entry found under a wanted name ends as it was found. So it ends
   right if and only if it was absent or right to begin with.
   */
  lemma EntriesStay(server: Server, spec: Store, s: Store, r: Run, d: Key)
    requires Typed(spec) && Typed(s) && WellNamed(spec) && IsRun(server, spec, s, r) && r.Complete()
    requires d in spec && d.kind == Hostnames
    ensures d in r.Final(server, s) && r.Final(server, s)[d] == if d in s then s[d] else spec[d]
    ensures r.Final(server, s)[d] == spec[d] <==> (d in s ==> s[d] == spec[d])
  {
    hide After;
    var t, rest := r.Refreshed(server, s), r.Rest();
    OtherTablesSame(server, spec, s, PROVIDER, r.first, r.tried, d);
    RestIsPlan(server, spec, s, r);
    hide IsRun, Plan;
    EntryAfterPlan(server, spec, t, PROVIDER + DISPATCHED, rest, d);
  }

  lemma EntryAfterPlan(server: Server, spec: Store, t: Store, kinds: set<Kind>, calls: seq<Call>, d: Key)
    requires WellNamed(spec) && Plan(spec, t, kinds, calls) && d in spec && d.kind == Hostnames && d.kind in kinds
    requires spec[d].Hostname? && (d in t ==> t[d].Hostname?)
    ensures At(After(server, t, calls, |calls|), d) == Some(if d in t then t[d] else spec[d])
  {
    OwnSlot(t, d);
    OwnSlot(spec, d);
    assert d !in t ==> Create(d, spec[d]) in calls;
    var i := WrittenOrUntouched(server, spec, t, calls, |calls|, d);
    if i < |calls| {
      assert calls[i].Create? && calls[i].body == spec[d];
    }
  }

  /** An entry with another host, found under a wanted name, is still there after every complete run. */
  lemma WrongEntryStays(server: Server, r: Run)
    requires var d := Key(Hostnames, "shop.example");
      IsRun(server, map[d := Hostname("shop.example")], map[d := Hostname("other.example")], r) && r.Complete()
    ensures var d := Key(Hostnames, "shop.example");
      At(r.Final(server, map[d := Hostname("other.example")]), d) == Some(Hostname("other.example"))
  {
    var d := Key(Hostnames, "shop.example");
    EntriesStay(server, map[d := Hostname("shop.example")], map[d := Hostname("other.example")], r, d);
  }
}
