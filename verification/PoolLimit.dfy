/** When exactly the connection pool keeps its limit, and a run that exceeds it. */
module PoolLimit {
  import opened Pool

  // Room for the callers that passed the check and have not counted their connection yet.
  predicate Roomy(s: State) { Existing(s) + Admitted(s.phases) <= s.lim.maxSize }

  predicate NoChecks(actions: seq<Action>) { forall i | 0 <= i < |actions| :: !actions[i].Check? }

  /** However the callers that are already past the check finish, the limit is kept. */
  ghost predicate Contained(s: State) {
    forall more | CanRun(s, more) && NoChecks(more) :: Existing(Run(s, more)) <= s.lim.maxSize
  }

  lemma StepInv(s: State, a: Action)
    requires Inv(s) && Enabled(s, a)
    ensures Inv(Apply(s, a)) && Apply(s, a).lim == s.lim && |Apply(s, a).phases| == |s.phases|
  {
    hide Placed, Fair, Counted, Apply, Enabled;
    PlacedKeeps(s, a);
    FairKeeps(s, a);
    CountedKeeps(s, a);
  }

  // Only a passing check raises the number of connections and admitted callers together.
  lemma LoadMoves(s: State, a: Action)
    requires Inv(s) && Enabled(s, a)
    ensures var load, load' := Existing(s) + Admitted(s.phases), Existing(Apply(s, a)) + Admitted(Apply(s, a).phases);
            load' <= load + (if a.Check? && s.total < s.lim.maxSize then 1 else 0)
    ensures a.Check? && s.total < s.lim.maxSize ==>
              Existing(Apply(s, a)) == Existing(s) && Admitted(Apply(s, a).phases) == Admitted(s.phases) + 1
    ensures a.Connect? && a.ok ==>
              Existing(Apply(s, a)) == Existing(s) + 1 && Admitted(Apply(s, a).phases) == Admitted(s.phases) - 1
  {
    hide Placed, Fair, Counted, Apply, Existing, Admitted;
    ExistingMoves(s, a);
    AdmittedMoves(s, a);
  }

  lemma {:induction false} RoomyStays(s: State, more: seq<Action>)
    requires Inv(s) && Roomy(s) && CanRun(s, more) && NoChecks(more)
    ensures Existing(Run(s, more)) <= s.lim.maxSize
    decreases |more|
  {
    hide Inv, Apply, Enabled, Existing, Admitted;
    if more != [] {
      LoadMoves(s, more[0]);
      StepInv(s, more[0]);
      RoomyStays(Apply(s, more[0]), more[1..]);
    }
  }

  lemma {:induction false} SomeAdmitted(ps: seq<Phase>) returns (i: nat)
    requires Admitted(ps) > 0
    ensures i < |ps| && ps[i].Connecting?
  {
    if ps[0].Connecting? { return 0; }
    i := SomeAdmitted(ps[1..]);
    i := i + 1;
  }

  // All admitted callers connect.
  lemma {:induction false} AllConnect(s: State) returns (more: seq<Action>)
    requires Inv(s)
    ensures CanRun(s, more) && NoChecks(more) && Existing(Run(s, more)) == Existing(s) + Admitted(s.phases)
    decreases Admitted(s.phases)
  {
    hide Inv, CanRun, Run, Existing, Admitted, Apply;
    if Admitted(s.phases) == 0 {
      RunNothing(s);
      return [];
    }
    var i := SomeAdmitted(s.phases);
    var a := Connect(i, true, 0);
    assert Enabled(s, a);
    hide Enabled;
    LoadMoves(s, a);
    StepInv(s, a);
    var rest := AllConnect(Apply(s, a));
    RunCons(s, a, rest);
    return [a] + rest;
  }

  /** The callers already admitted cannot exceed the limit if and only if there is room for them. */
  lemma ContainedIsRoomy(s: State)
    requires Inv(s)
    ensures Contained(s) <==> Roomy(s)
  {
    hide Inv, CanRun, Run, Existing, Admitted;
    if Roomy(s) {
      forall more | CanRun(s, more) && NoChecks(more) ensures Existing(Run(s, more)) <= s.lim.maxSize { RoomyStays(s, more); }
    } else {
      var more := AllConnect(s);
    }
  }

  ghost predicate ContainedThroughout(s: State, actions: seq<Action>)
    requires CanRun(s, actions)
    decreases |actions|
  {
    Contained(s) && (actions != [] ==> ContainedThroughout(Apply(s, actions[0]), actions[1..]))
  }

  // Every check that passes leaves room for the callers admitted before.
  predicate Careful(s: State, actions: seq<Action>)
    requires CanRun(s, actions)
    decreases |actions|
  {
    actions != [] ==>
      && (actions[0].Check? && s.total < s.lim.maxSize ==> s.total + Admitted(s.phases) < s.lim.maxSize)
      && Careful(Apply(s, actions[0]), actions[1..])
  }

  // With room, the counter is exact and a step keeps the room exactly when it is careful.
  lemma RoomyStep(s: State, a: Action)
    requires Inv(s) && Roomy(s) && s.lim.maxSize < WORD && Enabled(s, a)
    ensures Roomy(Apply(s, a)) <==> (a.Check? && s.total < s.lim.maxSize ==> s.total + Admitted(s.phases) < s.lim.maxSize)
  {
    LoadMoves(s, a);
    StepInv(s, a);
    hide Placed, Fair, Apply, Existing, Admitted, Enabled;
    assert s.total == Existing(s);
  }

  /** The limit is kept in every state of a run, and however the admitted callers go on from there, if
      and only if at each passing check the counter and the callers admitted before leave room. */
  lemma {:induction false} LimitExactly(s: State, actions: seq<Action>)
    requires Inv(s) && Roomy(s) && s.lim.maxSize < WORD && CanRun(s, actions)
    ensures ContainedThroughout(s, actions) <==> Careful(s, actions)
    decreases |actions|
  {
    hide Inv, Contained, Roomy, Apply, Enabled, Admitted;
    ContainedIsRoomy(s);
    if actions != [] {
      var s' := Apply(s, actions[0]);
      RoomyStep(s, actions[0]);
      StepInv(s, actions[0]);
      if Roomy(s') { LimitExactly(s', actions[1..]); } else { ContainedIsRoomy(s'); }
    }
  }

  lemma FreshIsRoomy(lim: Limits, callers: nat)
    ensures Inv(Fresh(lim, callers)) && Roomy(Fresh(lim, callers))
  {
    hide Inv, Fresh, Existing, Admitted;
    FreshIsOk(lim, callers);
  }

  // ---- A run that exceeds the limit ----

  lemma {:induction false} RunConcat(s: State, a: seq<Action>, b: seq<Action>)
    requires CanRun(s, a) && CanRun(Run(s, a), b)
    ensures CanRun(s, a + b) && Run(s, a + b) == Run(Run(s, a), b)
    decreases |a|
  {
    hide Apply, Enabled;
    if a == [] {
      assert a + b == b;
    } else {
      assert (a + b)[1..] == a[1..] + b;
      RunConcat(Apply(s, a[0]), a[1..], b);
    }
  }

  lemma RunOf2(s: State, a: Action, b: Action)
    requires Enabled(s, a) && Enabled(Apply(s, a), b)
    ensures CanRun(s, [a, b]) && Run(s, [a, b]) == Apply(Apply(s, a), b)
  {
    hide Enabled, Apply, CanRun, Run;
    assert [b] + [] == [b] && [a] + [b] == [a, b];
    RunNothing(Apply(Apply(s, a), b));
    RunCons(Apply(s, a), b, []);
    RunCons(s, a, [b]);
  }

  // No idle connection, and two callers.
  predicate Pair(s: State, lim: Limits, total: nat, p: Phase, q: Phase) {
    s.lim == lim && s.total == total && s.idle == [] && s.phases == [p, q]
  }

  // A caller finds nothing idle.
  lemma FindNothing(s: State, lim: Limits, total: nat, p: Phase, i: nat)
    requires i < 2 && total < WORD && Pair(s, lim, total, if i == 0 then Rest else p, if i == 0 then p else Rest)
    ensures var run := [Sweep(i, {}, 0), Settle(i)];
            CanRun(s, run) && Pair(Run(s, run), lim, total, if i == 0 then Deciding else p, if i == 0 then p else Deciding)
  {
    hide CanRun, Run;
    RunOf2(s, Sweep(i, {}, 0), Settle(i));
  }

  lemma MakeOne(s: State, lim: Limits, total: nat)
    requires Pair(s, lim, total, Deciding, Rest) && total < lim.maxSize < WORD
    ensures var run := [Check(0), Connect(0, true, 0)];
            CanRun(s, run) && Pair(Run(s, run), lim, (total + 1) % WORD, Rest, Rest)
  {
    hide CanRun, Run;
    RunOf2(s, Check(0), Connect(0, true, 0));
  }

  // One caller makes connections until `total` of them exist.
  lemma {:induction false} Fill(lim: Limits, total: nat) returns (acts: seq<Action>)
    requires total <= lim.maxSize < WORD
    ensures CanRun(Fresh(lim, 2), acts) && Pair(Run(Fresh(lim, 2), acts), lim, total, Rest, Rest)
  {
    hide CanRun, Run, Apply, Enabled;
    if total == 0 {
      RunNothing(Fresh(lim, 2));
      return [];
    }
    var s := Fresh(lim, 2);
    var before := Fill(lim, total - 1);
    var find, make := [Sweep(0, {}, 0), Settle(0)], [Check(0), Connect(0, true, 0)];
    hide Fresh;
    FindNothing(Run(s, before), lim, total - 1, Rest, 0);
    RunConcat(s, before, find);
    MakeOne(Run(s, before + find), lim, total - 1);
    RunConcat(s, before + find, make);
    return before + find + make;
  }

  /** For every limit: two callers, an empty pool at first, and a run after which there is one
      connection too many. */
  lemma OverlapExceeds(lim: Limits) returns (acts: seq<Action>)
    requires 0 < lim.maxSize < WORD - 1
    ensures CanRun(Fresh(lim, 2), acts) && Run(Fresh(lim, 2), acts).total == lim.maxSize + 1
  {
    hide CanRun, Run, Apply, Enabled, Fresh;
    var s := Fresh(lim, 2);
    var fill := Fill(lim, lim.maxSize - 1);
    var one, two := [Sweep(0, {}, 0), Settle(0)], [Sweep(1, {}, 0), Settle(1)];
    FindNothing(Run(s, fill), lim, lim.maxSize - 1, Rest, 0);
    RunConcat(s, fill, one);
    FindNothing(Run(s, fill + one), lim, lim.maxSize - 1, Deciding, 1);
    RunConcat(s, fill + one, two);
    var s' := Run(s, fill + one + two);
    TwoCallersExceed(s', 0, 1, 0);
    var both := [Check(0), Check(1), Connect(0, true, 0), Connect(1, true, 0)];
    RunConcat(s, fill + one + two, both);
    return fill + one + two + both;
  }
}
