/**
 What executing any prefix of a plan does: the names stay tellable apart, the table the
 load balancer is heading for does not move, and at the end of the plan it is reached.
 */
module Plans {
  import opened Tables
  import opened Differences

  ghost predicate AllJustified(spec: Store, s: Store, calls: seq<Call>) {
    forall c <- calls :: Justified(spec, s, c)
  }

  lemma JustifiedUnique(spec: Store, s: Store, a: Call, b: Call)
    requires WellNamed(spec) && Justified(spec, s, a) && Justified(spec, s, b) && a.key == b.key
    ensures a == b
  {
  }

  /** The last word on a key is the same as the first: replaying a call changes nothing. */
  lemma {:induction false} Written(server: Server, spec: Store, s: Store, calls: seq<Call>, n: nat, i: nat)
    requires WellNamed(spec) && AllJustified(spec, s, calls) && i < n <= |calls|
    ensures At(After(server, s, calls, n), calls[i].key) == Outcome(server, calls[i])
  {
    if calls[n - 1].key == calls[i].key {
      JustifiedUnique(spec, s, calls[n - 1], calls[i]);
    } else {
      Written(server, spec, s, calls, n - 1, i);
    }
  }

  /** Every key after `n` calls is either untouched or the outcome of one of them. */
  lemma WrittenOrUntouched(server: Server, spec: Store, s: Store, calls: seq<Call>, n: nat, k: Key) returns (i: nat)
    requires WellNamed(spec) && AllJustified(spec, s, calls) && n <= |calls|
    ensures i <= n
    ensures i < n ==> calls[i].key == k && Justified(spec, s, calls[i])
                      && At(After(server, s, calls, n), k) == Outcome(server, calls[i])
    ensures i == n ==> (forall j | 0 <= j < n :: calls[j].key != k) && At(After(server, s, calls, n), k) == At(s, k)
  {
    if j: nat :| j < n && calls[j].key == k {
      i := j;
      assert calls[i] in calls;
      Written(server, spec, s, calls, n, i);
    } else {
      i := n;
      Untouched(server, s, calls, n, k);
    }
  }

  /** The name hypothesis survives every step. */
  lemma NamesSurvive(server: Server, spec: Store, s: Store, calls: seq<Call>, n: nat)
    requires WellNamed(spec) && WellNamed(s) && AllJustified(spec, s, calls) && n <= |calls|
    ensures WellNamed(After(server, s, calls, n))
  {
    var t := After(server, s, calls, n);
    forall a, b | a in t && b in t && Slot(a) == Slot(b) ensures a == b {
      var i := WrittenOrUntouched(server, spec, s, calls, n, a);
      var j := WrittenOrUntouched(server, spec, s, calls, n, b);
    }
  }

  /** A slot that is wanted stays held once it is. */
  lemma StaysHeld(server: Server, spec: Store, s: Store, calls: seq<Call>, n: nat, k: Key)
    requires WellNamed(spec) && AllJustified(spec, s, calls) && n <= |calls|
    requires k in s && Holds(spec, Slot(k))
    ensures k in After(server, s, calls, n)
  {
    var i := WrittenOrUntouched(server, spec, s, calls, n, k);
  }

  /** Two resources are alike when at most their rule sets differ. */
  function Strip(r: Resource): Resource {
    if r.Listener? then r.(ruleSets := []) else r
  }

  lemma StripKeepsAgreement(actual: Resource, desired: Resource)
    requires !Changed(actual, desired)
    ensures !Changed(Strip(actual), Strip(desired))
  {
  }

  /** Rule sets aside, what is stored is what was wanted. */
  lemma StoredIsAlike(server: Server, c: Call)
    requires !c.Delete?
    ensures !Changed(Strip(server.Stored(c.Sent())), Strip(c.body))
  {
  }

  function StripAll(s: Store): Store {
    map k <- s :: Strip(s[k])
  }

  ghost function WantedBy(spec: Store, slot: Key): (d: Key)
    requires Holds(spec, slot)
    ensures d in spec && Slot(d) == slot
  {
    var d :| d in spec && Slot(d) == slot;
    d
  }

  /** The value the code leaves at `k` when it is done: what is there if it sees no difference, else what is wanted. */
  ghost function TargetValue(server: Server, spec: Store, s: Store, k: Key): Resource
    requires Holds(spec, Slot(k))
  {
    var d := WantedBy(spec, Slot(k));
    if k in s && !Changed(s[k], spec[d]) then s[k] else server.Stored(spec[d])
  }

  /** Whether `k` is a name in use when the code is done: existing names are kept. */
  ghost predicate InTarget(spec: Store, s: Store, k: Key) {
    Holds(spec, Slot(k)) && (k in s || (k in spec && !Holds(s, Slot(k))))
  }

  /** The tables a load balancer in state `s` is heading for, with rule sets of listeners left out. */
  ghost function Target(server: Server, spec: Store, s: Store): Store {
    map k | k in s.Keys + spec.Keys && InTarget(spec, s, k) :: Strip(TargetValue(server, spec, s, k))
  }

  lemma InTargetStays(server: Server, spec: Store, s: Store, calls: seq<Call>, n: nat, k: Key)
    requires WellNamed(spec) && WellNamed(s) && AllJustified(spec, s, calls) && n <= |calls|
    ensures InTarget(spec, After(server, s, calls, n), k) <==> InTarget(spec, s, k)
  {
    var t := After(server, s, calls, n);
    var i := WrittenOrUntouched(server, spec, s, calls, n, k);
    if i == n && k !in s && Holds(spec, Slot(k)) && k in spec {
      if Holds(s, Slot(k)) {
        var held :| held in s && Slot(held) == Slot(k);
        StaysHeld(server, spec, s, calls, n, held);
      }
      if Holds(t, Slot(k)) {
        var held :| held in t && Slot(held) == Slot(k);
        var j := WrittenOrUntouched(server, spec, s, calls, n, held);
      }
    }
  }

  lemma ValueStays(server: Server, spec: Store, s: Store, calls: seq<Call>, n: nat, k: Key)
    requires WellNamed(spec) && AllJustified(spec, s, calls) && n <= |calls|
    requires InTarget(spec, s, k)
    ensures Strip(TargetValue(server, spec, After(server, s, calls, n), k)) == Strip(TargetValue(server, spec, s, k))
  {
    var t := After(server, s, calls, n);
    var d := WantedBy(spec, Slot(k));
    var i := WrittenOrUntouched(server, spec, s, calls, n, k);
    if i < n {
      assert calls[i].body == spec[d] && t[k] == server.Stored(calls[i].Sent());
      assert TargetValue(server, spec, s, k) == server.Stored(spec[d]);
      assert Strip(t[k]) == Strip(server.Stored(spec[d]));
    }
  }

  /** No step moves the target. */
  lemma TargetStays(server: Server, spec: Store, s: Store, calls: seq<Call>, n: nat)
    requires WellNamed(spec) && WellNamed(s) && AllJustified(spec, s, calls) && n <= |calls|
    ensures Target(server, spec, After(server, s, calls, n)) == Target(server, spec, s)
  {
    var t := After(server, s, calls, n);
    forall k: Key
      ensures InTarget(spec, t, k) <==> InTarget(spec, s, k)
      ensures InTarget(spec, s, k) ==>
                Strip(TargetValue(server, spec, t, k)) == Strip(TargetValue(server, spec, s, k))
    {
      InTargetStays(server, spec, s, calls, n, k);
      if InTarget(spec, s, k) { ValueStays(server, spec, s, calls, n, k); }
    }
    SameTarget(server, spec, t, s);
  }

  lemma SameTarget(server: Server, spec: Store, t: Store, s: Store)
    requires forall k: Key :: InTarget(spec, t, k) <==> InTarget(spec, s, k)
    requires forall k: Key :: InTarget(spec, s, k) ==>
               Strip(TargetValue(server, spec, t, k)) == Strip(TargetValue(server, spec, s, k))
    ensures Target(server, spec, t) == Target(server, spec, s)
  {
    var a, b := Target(server, spec, t), Target(server, spec, s);
    forall k: Key
      ensures k in a <==> k in b
      ensures k in a ==> a[k] == b[k]
    {
      assert InTarget(spec, t, k) ==> k in t.Keys + spec.Keys;
      assert InTarget(spec, s, k) ==> k in s.Keys + spec.Keys;
    }
  }

  /** What a plan carried out to its end leaves at a key. */
  lemma PlanSettles(server: Server, spec: Store, s: Store, kinds: set<Kind>, calls: seq<Call>, k: Key)
    requires WellNamed(spec) && WellNamed(s) && Plan(spec, s, kinds, calls) && k.kind in kinds
    ensures k in After(server, s, calls, |calls|) <==> InTarget(spec, s, k)
  {
    var i := WrittenOrUntouched(server, spec, s, calls, |calls|, k);
    if i == |calls| {
      if k in s {
        assert Handled(spec, s, calls, k);
        assert Delete(k) !in calls;
      }
    }
  }

  lemma PlanSettlesValue(server: Server, spec: Store, s: Store, kinds: set<Kind>, calls: seq<Call>, k: Key)
    requires WellNamed(spec) && WellNamed(s) && Plan(spec, s, kinds, calls) && k.kind in kinds
    requires k in After(server, s, calls, |calls|) && InTarget(spec, s, k)
    ensures Strip(After(server, s, calls, |calls|)[k]) == Strip(TargetValue(server, spec, s, k))
  {
    hide After;
    var t := After(server, s, calls, |calls|);
    var d := WantedBy(spec, Slot(k));
    var i := WrittenOrUntouched(server, spec, s, calls, |calls|, k);
    if i < |calls| {
      assert calls[i].body == spec[d] && t[k] == server.Stored(calls[i].Sent());
      assert TargetValue(server, spec, s, k) == server.Stored(spec[d]);
      assert Strip(t[k]) == Strip(server.Stored(spec[d]));
    } else {
      assert Handled(spec, s, calls, k);
      assert Update(k, spec[d]) !in calls;
      assert !Changed(s[k], spec[d]);
    }
  }

  /** A plan carried out to its end reaches the target. */
  lemma PlanReachesTarget(server: Server, spec: Store, s: Store, kinds: set<Kind>, calls: seq<Call>)
    requires WellNamed(spec) && WellNamed(s) && Plan(spec, s, kinds, calls)
    requires forall kind: Kind :: kind in kinds
    ensures StripAll(After(server, s, calls, |calls|)) == Target(server, spec, s)
  {
    var t := After(server, s, calls, |calls|);
    forall k: Key
      ensures k in t <==> InTarget(spec, s, k)
      ensures k in t && InTarget(spec, s, k) ==> Strip(t[k]) == Strip(TargetValue(server, spec, s, k))
    {
      PlanSettles(server, spec, s, kinds, calls, k);
      if k in t { PlanSettlesValue(server, spec, s, kinds, calls, k); }
    }
    IsTarget(server, spec, s, t);
  }

  lemma IsTarget(server: Server, spec: Store, s: Store, t: Store)
    requires forall k: Key :: k in t <==> InTarget(spec, s, k)
    requires forall k: Key :: k in t && InTarget(spec, s, k) ==> Strip(t[k]) == Strip(TargetValue(server, spec, s, k))
    ensures StripAll(t) == Target(server, spec, s)
  {
    var a, b := StripAll(t), Target(server, spec, s);
    forall k: Key
      ensures k in a <==> k in b
      ensures k in a ==> a[k] == b[k]
    {
      assert InTarget(spec, s, k) ==> k in s.Keys + spec.Keys;
    }
  }
}
