/** What the state of a fiber says about where it is, and which worker a bound task ends up with. */
module Fibers {
  import opened Options
  import opened Scheduler
  import opened Exclusion

  // ---- States ----

  ghost predicate InHands(s: State, f: FiberId) { exists w :: 0 <= w < |s.pcs| && Served(s.pcs[w]) == Some(f) }

  predicate IsFor(t: Task, f: FiberId) { t.FiberTask? && t.f == f }

  ghost predicate Queued(s: State, f: FiberId) { exists t :: t in s.queue && IsFor(t, f) }

  ghost predicate Taken(s: State, f: FiberId) { exists w :: 0 <= w < |s.pcs| && s.pcs[w].Picked? && IsFor(s.pcs[w].task, f) }

  /** A fiber that is EXEC is in some worker's hands; one that is READY is in some worker's hands,
      queued or picked, so none is forgotten. */
  ghost predicate Accounted(s: State) {
    && (forall f | f in s.fibers && s.fibers[f] == EXEC :: InHands(s, f))
    && (forall f | f in s.fibers && s.fibers[f] == READY :: InHands(s, f) || Queued(s, f) || Taken(s, f))
  }

  // How one fiber's state may change.
  lemma {:induction false} StateMoves(s: State, a: Action, f: FiberId)
    requires Inv(s) && Enabled(s, a) && f in Apply(s, a).fibers
    ensures var st := Apply(s, a).fibers[f];
            && (st == EXEC && !(f in s.fibers && s.fibers[f] == EXEC) ==>
                  (a.Start? || a.StartCb?) && Served(NextPc(s, a)) == Some(f))
            && (st == READY && !(f in s.fibers && s.fibers[f] == READY) ==> a.Mark? && Served(NextPc(s, a)) == Some(f))
  {
    hide Inv, Apply, Enabled;
    if Sets(a) { StateSet(s, a, f); } else { StateStays(s, a, f); }
  }

  predicate Sets(a: Action) { a.Start? || a.StartCb? || a.Mark? || a.Decide? || a.Finish? }

  lemma {:induction false} StateSet(s: State, a: Action, f: FiberId)
    requires Sets(a) && Enabled(s, a) && f in Apply(s, a).fibers
    ensures var st := Apply(s, a).fibers[f];
            && (st == EXEC && !(f in s.fibers && s.fibers[f] == EXEC) ==>
                  (a.Start? || a.StartCb?) && Served(NextPc(s, a)) == Some(f))
            && (st == READY && !(f in s.fibers && s.fibers[f] == READY) ==> a.Mark? && Served(NextPc(s, a)) == Some(f))
  {
  }

  lemma {:induction false} StateStays(s: State, a: Action, f: FiberId)
    requires !Sets(a) && Enabled(s, a) && f in Apply(s, a).fibers
    ensures Apply(s, a).fibers[f] == if a == Spawn(f) then INIT else if f in s.fibers then s.fibers[f] else INIT
    ensures a == Spawn(f) || f in s.fibers
  {
    hide MayPick;
  }

  // A worker lets go of a fiber only when it has ended, is held, or is back in the queue.
  lemma {:induction false} LettingGo(s: State, a: Action, f: FiberId)
    requires Inv(s) && Enabled(s, a) && !Outside(a) && Served(s.pcs[a.w]) == Some(f) && Served(NextPc(s, a)) != Some(f)
    ensures var s' := Apply(s, a);
            f in s'.fibers && s'.fibers[f] != EXEC && (s'.fibers[f] == READY ==> FiberTask(f, -1) in s'.queue)
  {
    assert Local(s.fibers, s.pcs[a.w], s.cbFiber[a.w], s.idle[a.w]);
    hide Inv, MayPick;
    if a.Finish? && s.pcs[a.w].Requeue? { assert Apply(s, a).queue[|s.queue|] == FiberTask(f, -1); }
  }

  lemma {:induction false} HandsKept(s: State, a: Action, f: FiberId)
    requires Inv(s) && Enabled(s, a) && InHands(s, f) && f in Apply(s, a).fibers
    ensures var s' := Apply(s, a);
            InHands(s', f) || (s'.fibers[f] != EXEC && (s'.fibers[f] == READY ==> Queued(s', f)))
  {
    hide Inv, Apply, Enabled, NextPc, Served;
    PcsMove(s, a);
    if !Outside(a) { NextBinds(s, a); }
    var v :| 0 <= v < |s.pcs| && Served(s.pcs[v]) == Some(f);
    if !Outside(a) && a.w == v && Served(NextPc(s, a)) != Some(f) {
      LettingGo(s, a, f);
      if Apply(s, a).fibers[f] == READY { assert IsFor(FiberTask(f, -1), f); }
    } else {
      assert Served(Apply(s, a).pcs[v]) == Some(f);
    }
  }

  // A queued fiber stays queued, or is picked.
  lemma {:induction false} QueuedKept(s: State, a: Action, f: FiberId)
    requires Enabled(s, a) && Queued(s, f)
    ensures Queued(Apply(s, a), f) || Taken(Apply(s, a), f)
  {
    var t :| t in s.queue && IsFor(t, f);
    if a.Pick? && a.i < |s.queue| {
      if t != s.queue[a.i] { PickKeepsOthers(s, a.w, a.i, t); }
      assert Apply(s, a).pcs[a.w] == Picked(s.queue[a.i]);
    } else {
      hide MayPick;
      assert t in Apply(s, a).queue;
    }
  }

  lemma {:induction false} PickKeepsOthers(s: State, w: nat, i: nat, t: Task)
    requires Enabled(s, Pick(w, i)) && i < |s.queue| && t in s.queue && t != s.queue[i]
    ensures t in Apply(s, Pick(w, i)).queue
  {
    assert s.queue == s.queue[..i] + [s.queue[i]] + s.queue[i + 1..];
  }

  // A picked fiber stays picked until it is entered, or was found ended.
  lemma {:induction false} TakenKept(s: State, a: Action, f: FiberId)
    requires Enabled(s, a) && Taken(s, f) && f in s.fibers && s.fibers[f] == READY
    ensures Taken(Apply(s, a), f) || (a.Start? && Served(NextPc(s, a)) == Some(f))
  {
    var v :| 0 <= v < |s.pcs| && s.pcs[v].Picked? && IsFor(s.pcs[v].task, f);
    PcsMove(s, a);
    hide Apply, MayPick;
    if Outside(a) || a.w != v { assert Apply(s, a).pcs[v] == s.pcs[v]; }
  }

  /** Every step that keeps mutual exclusion keeps this. */
  lemma {:induction false} StepAccounts(s: State, a: Action)
    requires Inv(s) && Accounted(s) && Enabled(s, a)
    ensures Accounted(Apply(s, a))
  {
    var s' := Apply(s, a);
    PcsMove(s, a);
    hide Inv, Apply, Enabled, InHands, Queued, Taken;
    forall f | f in s'.fibers && (s'.fibers[f] == EXEC || s'.fibers[f] == READY)
      ensures InHands(s', f) || (s'.fibers[f] == READY && (Queued(s', f) || Taken(s', f)))
    {
      StateMoves(s, a, f);
      if f in s.fibers && s.fibers[f] == s'.fibers[f] {
        if InHands(s, f) { HandsKept(s, a, f); }
        else if Queued(s, f) { QueuedKept(s, a, f); }
        else {
          TakenKept(s, a, f);
          if a.Start? && Served(NextPc(s, a)) == Some(f) { NowInHands(s, a, f); }
        }
      } else {
        NowInHands(s, a, f);
      }
    }
  }

  lemma {:induction false} NowInHands(s: State, a: Action, f: FiberId)
    requires Enabled(s, a) && !Outside(a) && Served(NextPc(s, a)) == Some(f)
    ensures InHands(Apply(s, a), f)
  {
    PcsMove(s, a);
    hide Apply;
    assert Served(Apply(s, a).pcs[a.w]) == Some(f);
  }

  /** Over every run that keeps mutual exclusion, no fiber is EXEC outside a worker's hands, and no READY
      fiber is lost. */
  lemma {:induction false} RunAccounts(s: State, acts: seq<Action>)
    requires Inv(s) && Accounted(s) && CanRun(s, acts) && AloneThroughout(s, acts)
    ensures Accounted(Run(s, acts))
    decreases |acts|
  {
    hide Inv, Accounted, Apply, Enabled, EntersAlone;
    if acts != [] {
      StepAccounts(s, acts[0]);
      StepKeeps(s, acts[0]);
      RunAccounts(Apply(s, acts[0]), acts[1..]);
    }
  }

  lemma {:induction false} FreshAccounts(n: nat)
    ensures Accounted(Fresh(n))
  {
  }

  // ---- Bound tasks ----

  /** What a worker has picked is for it or for anybody, and a worker is gone only when its idle fiber
      has ended. */
  predicate Bound(s: State) {
    && |s.pcs| == |s.idle|
    && (forall w | 0 <= w < |s.pcs| && s.pcs[w].Picked? :: s.pcs[w].task.thread == -1 || s.pcs[w].task.thread == w)
    && (forall w | 0 <= w < |s.pcs| && s.pcs[w].Exited? :: s.idle[w] == TERM)
  }

  lemma {:induction false} StepBinds(s: State, a: Action)
    requires Bound(s) && Enabled(s, a)
    ensures Bound(Apply(s, a))
  {
    hide Apply, Enabled, NextPc;
    PcsMove(s, a);
    IdleMoves(s, a);
    if !Outside(a) { NextBinds(s, a); }
  }

  lemma {:induction false} NextBinds(s: State, a: Action)
    requires Enabled(s, a) && !Outside(a)
    ensures a.w < |s.pcs| && var pc := NextPc(s, a);
            && (pc.Picked? ==> pc.task.thread == -1 || pc.task.thread == a.w)
            && (pc.Exited? ==> a.w < |s.idle| && s.idle[a.w] == TERM && a.Exit?)
            && (a.EnterIdle? || a.LeaveIdle? ==> s.pcs[a.w].NoTask? || s.pcs[a.w].InIdle?)
  {
    if a.Pick? { PicksExactly(s, a.w, a.i); }
    hide MayPick;
  }

  lemma {:induction false} IdleMoves(s: State, a: Action)
    requires Enabled(s, a)
    ensures |Apply(s, a).idle| == |s.idle|
    ensures forall w | 0 <= w < |s.idle| && (Outside(a) || a.w != w || !(a.EnterIdle? || a.LeaveIdle?)) :: Apply(s, a).idle[w] == s.idle[w]
  {
    hide MayPick;
  }

  // What a step takes or starts is for its worker.
  predicate OwnTask(s: State, a: Action)
    requires Enabled(s, a)
  {
    match a
    case Pick(w, i) => i < |s.queue| ==> s.queue[i].thread == -1 || s.queue[i].thread == w
    case Start(w) => s.pcs[w].task.thread == -1 || s.pcs[w].task.thread == w
    case StartCb(w, _) => s.pcs[w].task.thread == -1 || s.pcs[w].task.thread == w
    case _ => true
  }

  ghost predicate OwnThroughout(s: State, acts: seq<Action>)
    requires CanRun(s, acts)
    decreases |acts|
  {
    acts != [] ==> OwnTask(s, acts[0]) && OwnThroughout(Apply(s, acts[0]), acts[1..])
  }

  /** In every run, with no condition on wake-ups, a task bound to a worker is picked and started by
      that worker only. */
  lemma {:induction false} BoundTasksStayHome(s: State, acts: seq<Action>)
    requires Bound(s) && CanRun(s, acts)
    ensures OwnThroughout(s, acts) && Bound(Run(s, acts))
    decreases |acts|
  {
    if acts != [] {
      if acts[0].Pick? { PicksExactly(s, acts[0].w, acts[0].i); }
      assert OwnTask(s, acts[0]);
      StepBinds(s, acts[0]);
      hide Bound, Apply, Enabled, OwnTask;
      BoundTasksStayHome(Apply(s, acts[0]), acts[1..]);
    }
  }

  lemma {:induction false} FreshIsBound(n: nat)
    ensures Bound(Fresh(n))
  {
  }

  // ---- The binding is the task's, not the fiber's ----

  predicate Two(s: State, a: PC, b: PC, queue: seq<Task>, fibers: map<FiberId, FiberState>) {
    && s.pcs == [a, b] && s.cbFiber == [None, None] && |s.idle| == 2 && s.queue == queue && s.fibers == fibers
  }

  predicate NoNewTask(acts: seq<Action>) { forall i | 0 <= i < |acts| :: !acts[i].Schedule? && !acts[i].Register? }

  // A run without new tasks to a state in which the second worker is inside fiber 7.
  ghost predicate Strays(s: State, acts: seq<Action>) {
    CanRun(s, acts) && NoNewTask(acts) && |Run(s, acts).pcs| == 2 && Served(Run(s, acts).pcs[1]) == Some(7)
  }

  lemma {:induction false} StraysOn(s: State, a: Action, acts: seq<Action>)
    requires Enabled(s, a) && !a.Schedule? && !a.Register? && Strays(Apply(s, a), acts)
    ensures Strays(s, [a] + acts)
  {
    hide Apply, Enabled, CanRun, Run;
    RunCons(s, a, acts);
  }

  lemma {:induction false} EnterElsewhere(s: State) returns (acts: seq<Action>)
    requires Two(s, Scan, Picked(FiberTask(7, -1)), [], map[7 := READY])
    ensures Strays(s, acts)
  {
    var t := Apply(s, Start(1));
    hide CanRun, Run;
    RunNothing(t);
    assert Strays(t, []);
    hide Strays;
    StraysOn(s, Start(1), []);
    return [Start(1)] + [];
  }

  lemma {:induction false} PickElsewhere(s: State) returns (acts: seq<Action>)
    requires Two(s, Scan, Scan, [FiberTask(7, -1)], map[7 := READY])
    ensures Strays(s, acts)
  {
    hide Strays;
    acts := EnterElsewhere(Apply(s, Pick(1, 0)));
    StraysOn(s, Pick(1, 0), acts);
    return [Pick(1, 0)] + acts;
  }

  lemma {:induction false} GiveBack(s: State) returns (acts: seq<Action>)
    requires Two(s, Post(7, false), Scan, [], map[7 := READY])
    ensures Strays(s, acts)
  {
    hide Strays;
    var t := Apply(s, Decide(0));
    acts := PickElsewhere(Apply(t, Finish(0)));
    StraysOn(t, Finish(0), acts);
    StraysOn(s, Decide(0), [Finish(0)] + acts);
    return [Decide(0)] + ([Finish(0)] + acts);
  }

  lemma {:induction false} YieldReady(s: State) returns (acts: seq<Action>)
    requires Two(s, Running(7, false, None), Scan, [], map[7 := EXEC])
    ensures Strays(s, acts)
  {
    hide Strays;
    var t := Apply(s, Mark(0, READY));
    var u := Apply(t, SwapOut(0));
    acts := GiveBack(Apply(u, Decrement(0)));
    StraysOn(u, Decrement(0), acts);
    StraysOn(t, SwapOut(0), [Decrement(0)] + acts);
    StraysOn(s, Mark(0, READY), [SwapOut(0)] + ([Decrement(0)] + acts));
    return [Mark(0, READY)] + ([SwapOut(0)] + ([Decrement(0)] + acts));
  }

  lemma {:induction false} EnterAtHome(s: State) returns (acts: seq<Action>)
    requires Two(s, Scan, Scan, [FiberTask(7, 0)], map[7 := INIT])
    ensures Strays(s, acts)
  {
    hide Strays;
    var t := Apply(s, Pick(0, 0));
    acts := YieldReady(Apply(t, Start(0)));
    StraysOn(t, Start(0), acts);
    StraysOn(s, Pick(0, 0), [Start(0)] + acts);
    return [Pick(0, 0)] + ([Start(0)] + acts);
  }

  /** A fiber scheduled for the first worker that yields READY is queued for anybody, and the second
      worker goes on with it. */
  lemma {:induction false} BindingIsLost()
    ensures exists acts :: NoNewTask(acts) && var all := [Spawn(7)] + ([Schedule(FiberTask(7, 0))] + acts);
              CanRun(Fresh(2), all) && |Run(Fresh(2), all).pcs| == 2 && Served(Run(Fresh(2), all).pcs[1]) == Some(7)
  {
    var b := Schedule(FiberTask(7, 0));
    var s := Apply(Fresh(2), Spawn(7));
    var acts := EnterAtHome(Apply(s, b));
    hide CanRun, Run, Apply;
    RunCons(s, b, acts);
    RunCons(Fresh(2), Spawn(7), [b] + acts);
    assert NoNewTask(acts);
  }
}
