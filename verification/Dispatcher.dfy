/** `ActionDispatcher` of src/manager/actions.go. */
module Dispatcher {
  import opened Tables
  import opened CloudApi

  datatype Verb = CreateAction | UpdateAction | DeleteAction

  /** The closure of an action makes one call. `done` is set on a copy only, so it stays false. */
  datatype Action = Action(done: bool, verb: Verb, subject: string, call: Call)

  function VerbOf(c: Call): Verb {
    match c
    case Create(_, _) => CreateAction
    case Update(_, _) => UpdateAction
    case Delete(_) => DeleteAction
  }

  predicate Runs(a: Action, verb: Verb, subject: string) {
    !a.done && a.verb == verb && a.subject == subject
  }

  /** The calls one sweep over the actions makes. */
  function Pick(actions: seq<Action>, verb: Verb, subject: string): seq<Call> {
    if actions == [] then []
    else (if Runs(actions[0], verb, subject) then [actions[0].call] else []) + Pick(actions[1..], verb, subject)
  }

  /** The calls `Run` makes when none fails: one sweep for each subject. */
  function RunOrder(actions: seq<Action>, verb: Verb, subjects: seq<string>): seq<Call> {
    if subjects == [] then [] else Pick(actions, verb, subjects[0]) + RunOrder(actions, verb, subjects[1..])
  }

  /** The subjects in the order of their first appearance. */
  function Subjects(actions: seq<Action>): seq<string> {
    if actions == [] then []
    else
      var before := Subjects(actions[..|actions| - 1]);
      var last := actions[|actions| - 1].subject;
      if last in before then before else before + [last]
  }

  /** The calls `Run` makes for the given subjects, or for all subjects when none is given. */
  function Order(actions: seq<Action>, verb: Verb, given: seq<string>): seq<Call> {
    RunOrder(actions, verb, if |given| == 0 then Subjects(actions) else given)
  }

  /** The calls of the actions with the given verb, in the order they were added. */
  function OfVerb(actions: seq<Action>, verb: Verb): seq<Call> {
    if actions == [] then []
    else (if !actions[0].done && actions[0].verb == verb then [actions[0].call] else []) + OfVerb(actions[1..], verb)
  }

  predicate Distinct(subjects: seq<string>) {
    forall i, j | 0 <= i < j < |subjects| :: subjects[i] != subjects[j]
  }

  class ActionDispatcher {
    var actions: seq<Action>

    constructor ()
      ensures actions == []
    {
      actions := [];
    }

    method AddFunc(verb: Verb, subject: string, call: Call)
      modifies this
      ensures actions == old(actions) + [Action(false, verb, subject, call)]
    {
      actions := actions + [Action(false, verb, subject, call)];
    }

    method AllSubjects() returns (subjects: seq<string>)
      ensures subjects == Subjects(actions)
    {
      subjects := [];
      for i := 0 to |actions|
        invariant subjects == Subjects(actions[..i])
      {
        var a := actions[i];
        assert actions[..i + 1][..i] == actions[..i];
        var known := false;
        for j := 0 to |subjects|
          invariant known <==> a.subject in subjects[..j]
        {
          if a.subject == subjects[j] { known := true; }
        }
        assert subjects[..|subjects|] == subjects;
        if !known { subjects := subjects + [a.subject]; }
      }
      assert actions[..|actions|] == actions;
    }

    /**
     Runs the actions of one verb for the given subjects, or for all when none is given, and stops at the
     first error. Nothing about the actions is remembered.
     */
    method Run(cloud: Cloud, verb: Verb, given: seq<string>) returns (ok: bool, ghost made: nat)
      modifies cloud
      ensures Ran(cloud.server, old(cloud.store), Order(actions, verb, given), ok, made, cloud.store, cloud.AlwaysFine())
    {
      var subjects := given;
      if |subjects| == 0 { subjects := AllSubjects(); }
      ghost var order := Order(actions, verb, given);
      ghost var start := cloud.store;
      made := 0;
      ok := true;
      for i := 0 to |subjects|
        invariant made <= |order| && order[made..] == RunOrder(actions, verb, subjects[i..])
        invariant Made(cloud.server, start, order, made, cloud.store)
      {
        RunOrderStep(actions, verb, subjects, i);
        ok, made := Sweep(cloud, verb, subjects[i], start, order, made, RunOrder(actions, verb, subjects[i + 1..]));
        if !ok { return; }
      }
      assert order[made..] == [];
    }

    /** The inner loop of `Run`: the actions of one verb and subject, then `after` is left of the whole order. */
    method Sweep(cloud: Cloud, verb: Verb, subject: string,
                 ghost start: Store, ghost order: seq<Call>, ghost n: nat, ghost after: seq<Call>)
      returns (ok: bool, ghost made: nat)
      requires n <= |order| && order[n..] == Pick(actions, verb, subject) + after
      requires Made(cloud.server, start, order, n, cloud.store)
      modifies cloud
      ensures made <= |order| && Made(cloud.server, start, order, made, cloud.store)
      ensures ok ==> order[made..] == after
      ensures !ok && cloud.AlwaysFine() ==> made < |order| && !AcceptedAt(cloud.server, start, order, made)
    {
      made := n;
      ok := true;
      for j := 0 to |actions|
        invariant made <= |order| && order[made..] == Pick(actions[j..], verb, subject) + after
        invariant Made(cloud.server, start, order, made, cloud.store)
      {
        var a := actions[j];
        PickNext(actions, j, verb, subject, order, made, after);
        if a.done || a.verb != verb || a.subject != subject { continue; }
        ok, made := cloud.SendNext(start, order, made, a.call);
        if !ok { return; }
      }
    }
  }

  lemma PickNext(actions: seq<Action>, j: nat, verb: Verb, subject: string, order: seq<Call>, made: nat, after: seq<Call>)
    requires j < |actions| && made <= |order| && order[made..] == Pick(actions[j..], verb, subject) + after
    ensures if Runs(actions[j], verb, subject)
            then made < |order| && order[made] == actions[j].call && order[made + 1..] == Pick(actions[j + 1..], verb, subject) + after
            else order[made..] == Pick(actions[j + 1..], verb, subject) + after
  {
    assert actions[j..][1..] == actions[j + 1..];
    if Runs(actions[j], verb, subject) {
      assert order[made..][0] == order[made] && order[made..][1..] == order[made + 1..];
    }
  }

  lemma RunOrderStep(actions: seq<Action>, verb: Verb, subjects: seq<string>, i: nat)
    requires i < |subjects|
    ensures RunOrder(actions, verb, subjects[i..])
         == Pick(actions, verb, subjects[i]) + RunOrder(actions, verb, subjects[i + 1..])
  {
    assert subjects[i..][1..] == subjects[i + 1..];
  }

  lemma {:induction false} SubjectsDistinct(actions: seq<Action>)
    ensures Distinct(Subjects(actions)) && forall a <- actions :: a.subject in Subjects(actions)
  {
    if actions != [] {
      var init := actions[..|actions| - 1];
      SubjectsDistinct(init);
      forall a | a in actions ensures a.subject in Subjects(actions) {
        if a != actions[|actions| - 1] { assert a in init; }
      }
    }
  }

  /** What one action adds to the calls for some subjects. */
  function Share(a: Action, verb: Verb, subjects: seq<string>): multiset<Call> {
    if !a.done && a.verb == verb && a.subject in subjects then multiset{a.call} else multiset{}
  }

  lemma ShareParts(a: Action, verb: Verb, subjects: seq<string>)
    requires subjects != [] && Distinct(subjects)
    ensures Distinct(subjects[1..])
    ensures Share(a, verb, subjects) == Share(a, verb, [subjects[0]]) + Share(a, verb, subjects[1..])
  {
    assert subjects == [subjects[0]] + subjects[1..];
  }

  /** One more action adds its call once, if its subject is among the distinct subjects swept. */
  lemma {:induction false} RunOrderCount(actions: seq<Action>, verb: Verb, subjects: seq<string>)
    requires actions != [] && Distinct(subjects)
    ensures multiset(RunOrder(actions, verb, subjects))
         == multiset(RunOrder(actions[1..], verb, subjects)) + Share(actions[0], verb, subjects)
  {
    if subjects != [] {
      hide RunOrder, Pick, Share, Distinct;
      var a, rest := actions[0], actions[1..];
      ShareParts(a, verb, subjects);
      RunOrderCount(actions, verb, subjects[1..]);
      PickMore(actions, verb, subjects[0]);
      RunOrderParts(actions, verb, subjects);
      RunOrderParts(rest, verb, subjects);
      BagSum(multiset(Pick(rest, verb, subjects[0])), multiset(RunOrder(rest, verb, subjects[1..])),
             Share(a, verb, [subjects[0]]), Share(a, verb, subjects[1..]));
    }
  }

  lemma BagSum(p: multiset<Call>, r: multiset<Call>, x: multiset<Call>, y: multiset<Call>)
    ensures (p + x) + (r + y) == (p + r) + (x + y)
  {
  }

  lemma PickMore(actions: seq<Action>, verb: Verb, subject: string)
    requires actions != []
    ensures multiset(Pick(actions, verb, subject)) == multiset(Pick(actions[1..], verb, subject)) + Share(actions[0], verb, [subject])
  {
  }

  lemma RunOrderParts(actions: seq<Action>, verb: Verb, subjects: seq<string>)
    requires subjects != []
    ensures multiset(RunOrder(actions, verb, subjects))
         == multiset(Pick(actions, verb, subjects[0])) + multiset(RunOrder(actions, verb, subjects[1..]))
  {
  }

  lemma {:induction false} RunOrderEmpty(verb: Verb, subjects: seq<string>)
    ensures RunOrder([], verb, subjects) == []
  {
    if subjects != [] { RunOrderEmpty(verb, subjects[1..]); }
  }

  lemma {:induction false} RunOrderComplete(actions: seq<Action>, verb: Verb, subjects: seq<string>)
    requires Distinct(subjects) && forall a <- actions :: a.subject in subjects
    ensures multiset(RunOrder(actions, verb, subjects)) == multiset(OfVerb(actions, verb))
  {
    if actions == [] {
      RunOrderEmpty(verb, subjects);
    } else {
      RunOrderCount(actions, verb, subjects);
      RunOrderComplete(actions[1..], verb, subjects);
      assert actions[0] in actions;
    }
  }

  /** Running a verb without naming subjects makes the call of each action of that verb exactly once. */
  lemma RunsEachOnce(actions: seq<Action>, verb: Verb)
    ensures multiset(RunOrder(actions, verb, Subjects(actions))) == multiset(OfVerb(actions, verb))
  {
    SubjectsDistinct(actions);
    RunOrderComplete(actions, verb, Subjects(actions));
  }
}
