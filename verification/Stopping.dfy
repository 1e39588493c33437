/** When the scheduler may stop, and whether that answer stays true. */
module Stopping {
  import opened Options
  import opened Scheduler
  import opened Accounting

  // IOManager::stopping as one snapshot: asked to stop, no timers and no pending events, an empty
  // queue and no active worker.
  predicate CanStop(s: State) {
    s.stop && s.waiters == map[] && s.queue == [] && s.active == 0
  }

  // A worker has given up its active count for a READY fiber and has not queued it yet; or it is
  // idle, has taken the callbacks of expired timers out of the set and has not queued them yet.
  predicate HandsBack(pc: PC, fibers: map<FiberId, FiberState>) {
    pc.Requeue? || (pc.Post? && pc.f in fibers && fibers[pc.f] == READY) || (pc.InIdle? && pc.due != [])
  }

  // One entry for each worker.
  predicate Sized(s: State) { |s.pcs| == |s.cbFiber| == |s.idle| }

  ghost predicate HandBack(s: State) {
    exists w :: 0 <= w < |s.pcs| && HandsBack(s.pcs[w], s.fibers)
  }

  // Tasks, waiters and fibers come from inside, that is from a running fiber.
  ghost predicate FromInside(s: State, a: Action) {
    a.Spawn? || a.Schedule? || a.Register? ==> exists w :: 0 <= w < |s.pcs| && s.pcs[w].Running?
  }

  ghost predicate AllInside(s: State, acts: seq<Action>)
    requires CanRun(s, acts)
    decreases |acts|
  {
    acts != [] ==> FromInside(s, acts[0]) && AllInside(Apply(s, acts[0]), acts[1..])
  }

  ghost predicate InsideRun(s: State, acts: seq<Action>) { CanRun(s, acts) && AllInside(s, acts) }

  lemma {:induction false} SomeActive(pcs: seq<PC>, w: nat)
    requires w < |pcs| && IsActive(pcs[w])
    ensures ActiveWorkers(pcs) > 0
  {
    if w > 0 { SomeActive(pcs[1..], w - 1); }
  }

  // With no active worker, the steps left are those that change neither the queue nor the count.
  lemma {:induction false} StepStops(s: State, a: Action)
    requires Balanced(s) && CanStop(s) && !HandBack(s) && Enabled(s, a) && FromInside(s, a)
    ensures CanStop(Apply(s, a)) && !HandBack(Apply(s, a))
  {
    hide Balanced;
    assert forall w | 0 <= w < |s.pcs| :: !IsActive(s.pcs[w]) by {
      forall w | 0 <= w < |s.pcs| ensures !IsActive(s.pcs[w]) {
        if IsActive(s.pcs[w]) { NotActive(s, w); assert false; }
      }
    }
    QuietSteps(s, a);
  }

  lemma {:induction false} NotActive(s: State, w: nat)
    requires Balanced(s) && s.active == 0 && w < |s.pcs|
    ensures !IsActive(s.pcs[w])
  {
    if IsActive(s.pcs[w]) { SomeActive(s.pcs, w); assert false; }
  }

  lemma {:induction false} QuietSteps(s: State, a: Action)
    requires CanStop(s) && !HandBack(s) && Enabled(s, a) && FromInside(s, a)
    requires forall w | 0 <= w < |s.pcs| :: !IsActive(s.pcs[w])
    ensures CanStop(Apply(s, a)) && !HandBack(Apply(s, a))
  {
    PcsMove(s, a);
    if Idling(a) { QuietIdling(s, a); } else { QuietOther(s, a); }
    var t := Apply(s, a);
    hide Apply, Enabled, MayPick;
    forall w | 0 <= w < |t.pcs| ensures !HandsBack(t.pcs[w], t.fibers) {
      assert !HandsBack(s.pcs[w], s.fibers);
    }
  }

  lemma {:induction false} QuietIdling(s: State, a: Action)
    requires CanStop(s) && !HandBack(s) && Enabled(s, a) && Idling(a)
    ensures CanStop(Apply(s, a)) && Apply(s, a).fibers == s.fibers && !HandsBack(NextPc(s, a), s.fibers)
  {
    assert !HandsBack(s.pcs[a.w], s.fibers);
    hide MayPick;
  }

  // Outside steps from inside need a running fiber; of the others only the last two are left.
  lemma {:induction false} QuietOther(s: State, a: Action)
    requires CanStop(s) && !HandBack(s) && Enabled(s, a) && FromInside(s, a) && !Idling(a)
    requires forall w | 0 <= w < |s.pcs| :: !IsActive(s.pcs[w])
    ensures CanStop(Apply(s, a)) && (Outside(a) ==> Apply(s, a).fibers == s.fibers)
    ensures !Outside(a) ==> !HandsBack(NextPc(s, a), Apply(s, a).fibers)
    ensures forall f | f in Apply(s, a).fibers && Apply(s, a).fibers[f] == READY :: f in s.fibers && s.fibers[f] == READY
  {
    if !Outside(a) { assert !HandsBack(s.pcs[a.w], s.fibers) && !IsActive(s.pcs[a.w]); }
  }

  lemma {:induction false} RunStops(s: State, acts: seq<Action>)
    requires Balanced(s) && CanStop(s) && !HandBack(s) && InsideRun(s, acts)
    ensures CanStop(Run(s, acts))
    decreases |acts|
  {
    hide Balanced, Apply, Enabled, HandBack, CanStop;
    if acts != [] {
      StepStops(s, acts[0]);
      StepBalances(s, acts[0]);
      RunStops(Apply(s, acts[0]), acts[1..]);
    }
  }

  // A task on its way to the queue gets there, and stopping is false again.
  lemma {:induction false} HandBackUndoes(s: State)
    requires Sized(s) && HandBack(s)
    ensures exists acts :: InsideRun(s, acts) && !CanStop(Run(s, acts))
  {
    var w :| 0 <= w < |s.pcs| && HandsBack(s.pcs[w], s.fibers);
    hide Run;
    if s.pcs[w].Requeue? {
      RequeueUndoes(s, w);
    } else if s.pcs[w].Post? {
      PostUndoes(s, w);
    } else {
      DeliverUndoes(s, w);
    }
  }

  lemma {:induction false} PostUndoes(s: State, w: nat)
    requires At(s, w) && s.pcs[w].Post? && s.pcs[w].f in s.fibers && s.fibers[s.pcs[w].f] == READY
    ensures InsideRun(s, [Decide(w), Finish(w)]) && !CanStop(Run(s, [Decide(w), Finish(w)]))
  {
    var t := Apply(s, Decide(w));
    RequeueUndoes(t, w);
    hide CanStop;
    assert [Decide(w), Finish(w)][1..] == [Finish(w)];
  }

  lemma {:induction false} DeliverUndoes(s: State, w: nat)
    requires At(s, w) && s.pcs[w].InIdle? && s.pcs[w].due != []
    ensures InsideRun(s, [Deliver(w)]) && !CanStop(Run(s, [Deliver(w)]))
  {
    var t := Apply(s, Deliver(w));
    assert [Deliver(w)][1..] == [];
    assert Run(t, []) == t && |t.queue| > 0;
  }

  lemma {:induction false} RequeueUndoes(s: State, w: nat)
    requires At(s, w) && s.pcs[w].Requeue?
    ensures InsideRun(s, [Finish(w)]) && !CanStop(Run(s, [Finish(w)]))
  {
    var t := Apply(s, Finish(w));
    assert [Finish(w)][1..] == [];
    assert Run(t, []) == t && |t.queue| > 0;
  }

  /** Once stopping() holds, it holds after every further run from inside if and only if no worker
      is between giving up its active count for a READY fiber and queueing that fiber, and none
      between taking the callbacks of expired timers and queueing them. */
  lemma {:induction false} StoppingIsStable(s: State)
    requires Sized(s) && Balanced(s) && CanStop(s)
    ensures (forall acts | InsideRun(s, acts) :: CanStop(Run(s, acts))) <==> !HandBack(s)
  {
    hide Balanced, CanStop, HandBack, Run, CanRun, AllInside;
    if HandBack(s) {
      HandBackUndoes(s);
    } else {
      forall acts | InsideRun(s, acts) ensures CanStop(Run(s, acts)) { RunStops(s, acts); }
    }
  }

  // ---- Both windows are reached ----

  // One worker and nothing else, but for the queue, the waiters and the fibers.
  predicate Sole(s: State, pc: PC, queue: seq<Task>, fibers: map<FiberId, FiberState>, waiters: map<Token, Task>, active: int) {
    && At(s, 0) && s.pcs == [pc] && s.cbFiber == [None] && s.queue == queue && s.fibers == fibers
    && s.waiters == waiters && s.active == active && s.stop && s.idle[0] != TERM
  }

  lemma {:induction false} RunOf2(s: State, a: Action, b: Action)
    requires Enabled(s, a) && Enabled(Apply(s, a), b)
    ensures CanRun(s, [a, b]) && Run(s, [a, b]) == Apply(Apply(s, a), b)
  {
    hide Apply, Enabled, CanRun, Run;
    assert [b] + [] == [b] && [a] + [b] == [a, b];
    var s1 := Apply(s, a);
    RunNothing(Apply(s1, b));
    RunCons(s1, b, []);
    RunCons(s, a, [b]);
  }

  lemma {:induction false} RunOf3(s: State, a: Action, b: Action, c: Action)
    requires Enabled(s, a) && Enabled(Apply(s, a), b) && Enabled(Apply(Apply(s, a), b), c)
    ensures CanRun(s, [a, b, c]) && Run(s, [a, b, c]) == Apply(Apply(Apply(s, a), b), c)
  {
    hide Apply, Enabled, CanRun, Run;
    assert [a] + [b, c] == [a, b, c];
    RunOf2(Apply(s, a), b, c);
    RunCons(s, a, [b, c]);
  }

  lemma {:induction false} ReadyQueued(t: Task)
    requires t == FiberTask(7, -1)
    ensures var acts := [Spawn(7), Schedule(t), Stop];
            CanRun(Fresh(1), acts) && Sole(Run(Fresh(1), acts), Scan, [t], map[7 := INIT], map[], 0)
  {
    hide CanRun, Run;
    RunOf3(Fresh(1), Spawn(7), Schedule(t), Stop);
  }

  lemma {:induction false} ReadyMarked(s: State, t: Task)
    requires t == FiberTask(7, -1) && Sole(s, Scan, [t], map[7 := INIT], map[], 0)
    ensures var acts := [Pick(0, 0), Start(0), Mark(0, READY)];
            CanRun(s, acts) && Sole(Run(s, acts), Marked(7, false), [], map[7 := READY], map[], 1)
  {
    hide CanRun, Run;
    assert MayPick(s.queue, 0, s.fibers, 0);
    RunOf3(s, Pick(0, 0), Start(0), Mark(0, READY));
  }

  lemma {:induction false} ReadyPosted(s: State)
    requires Sole(s, Marked(7, false), [], map[7 := READY], map[], 1)
    ensures var acts := [SwapOut(0), Decrement(0)];
            CanRun(s, acts) && Sole(Run(s, acts), Post(7, false), [], map[7 := READY], map[], 0)
  {
    hide CanRun, Run;
    RunOf2(s, SwapOut(0), Decrement(0));
  }

  /** A run to a state that may stop, in which a worker holds a READY fiber and then queues it. */
  lemma {:induction false} ReadyWindow()
    ensures exists acts, more :: CanRun(Fresh(1), acts) && CanStop(Run(Fresh(1), acts))
              && InsideRun(Run(Fresh(1), acts), more) && !CanStop(Run(Run(Fresh(1), acts), more))
  {
    hide CanRun, Run, Fresh, Apply, Enabled, AllInside;
    var t := FiberTask(7, -1);
    var a, b, c := [Spawn(7), Schedule(t), Stop], [Pick(0, 0), Start(0), Mark(0, READY)], [SwapOut(0), Decrement(0)];
    ReadyQueued(t);
    ReadyMarked(Run(Fresh(1), a), t);
    RunConcat(Fresh(1), a, b);
    ReadyPosted(Run(Fresh(1), a + b));
    RunConcat(Fresh(1), a + b, c);
    PostUndoes(Run(Fresh(1), a + b + c), 0);
  }

  lemma {:induction false} TimerIdle(t: Task)
    requires t == CbTask(1, None, -1)
    ensures var acts := [Register(Timer(0), t), Stop, Pick(0, 0)];
            CanRun(Fresh(1), acts) && Sole(Run(Fresh(1), acts), NoTask, [], map[], map[Timer(0) := t], 0)
  {
    hide CanRun, Run;
    assert MayPick([], 0, map[], 0);
    RunOf3(Fresh(1), Register(Timer(0), t), Stop, Pick(0, 0));
  }

  lemma {:induction false} TimerTaken(s: State, t: Task)
    requires t == CbTask(1, None, -1) && Sole(s, NoTask, [], map[], map[Timer(0) := t], 0)
    ensures var acts := [EnterIdle(0), Collect(0, Timer(0), false)];
            CanRun(s, acts) && Sole(Run(s, acts), InIdle([t]), [], map[], map[], 0)
  {
    hide CanRun, Run;
    RunOf2(s, EnterIdle(0), Collect(0, Timer(0), false));
    assert s.waiters - {Timer(0)} == map[] && [] + [t] == [t];
  }

  /** A run to a state that may stop, in which an idle worker holds the callback of an expired timer
      and then queues it. */
  lemma {:induction false} ExpiryWindow()
    ensures exists acts, more :: CanRun(Fresh(1), acts) && CanStop(Run(Fresh(1), acts))
              && InsideRun(Run(Fresh(1), acts), more) && !CanStop(Run(Run(Fresh(1), acts), more))
  {
    hide CanRun, Run, Fresh, Apply, Enabled, AllInside;
    var t := CbTask(1, None, -1);
    var a, b := [Register(Timer(0), t), Stop, Pick(0, 0)], [EnterIdle(0), Collect(0, Timer(0), false)];
    TimerIdle(t);
    TimerTaken(Run(Fresh(1), a), t);
    RunConcat(Fresh(1), a, b);
    DeliverUndoes(Run(Fresh(1), a + b), 0);
  }

  // ---- What the answer means ----

  lemma {:induction false} NobodyHolds(pcs: seq<PC>, t: Task)
    requires ActiveWorkers(pcs) == 0
    ensures Held(pcs, t) == 0
  {
    if pcs != [] { NobodyHolds(pcs[1..], t); }
  }

  /** When stopping answers true, every task ever queued has been started or discarded, nothing is
      registered, and no worker is inside a fiber. */
  lemma {:induction false} StoppingMeansDone(s: State)
    requires Balanced(s) && CanStop(s)
    ensures forall t :: s.pushed[t] == s.taken[t]
    ensures s.waiters == map[] && forall w | 0 <= w < |s.pcs| :: !s.pcs[w].Running? && !s.pcs[w].Picked?
  {
    forall t ensures s.pushed[t] == s.taken[t] { NobodyHolds(s.pcs, t); }
    forall w | 0 <= w < |s.pcs| ensures !IsActive(s.pcs[w]) { NotActive(s, w); }
  }

  lemma {:induction false} StopIsAsked(s: State, a: Action)
    requires Enabled(s, a)
    ensures Apply(s, a).stop == (s.stop || a.Stop?)
  {
    hide MayPick;
  }

  /** It never answers true before it was asked to stop, and being asked is never forgotten. */
  lemma {:induction false} UnaskedNeverStops(s: State, acts: seq<Action>)
    requires CanRun(s, acts)
    ensures Run(s, acts).stop <==> s.stop || Stop in acts
    ensures CanStop(Run(s, acts)) ==> s.stop || Stop in acts
    decreases |acts|
  {
    hide Apply, Enabled;
    if acts != [] {
      StopIsAsked(s, acts[0]);
      UnaskedNeverStops(Apply(s, acts[0]), acts[1..]);
      assert acts == [acts[0]] + acts[1..];
    }
  }

  /** From the start: stopping is the answer only if it was asked to stop. */
  lemma {:induction false} StartsUnasked(n: nat, acts: seq<Action>)
    requires CanRun(Fresh(n), acts)
    ensures Run(Fresh(n), acts).stop <==> Stop in acts
    ensures CanStop(Run(Fresh(n), acts)) ==> Stop in acts
  {
    UnaskedNeverStops(Fresh(n), acts);
  }

  // ---- How a worker leaves its loop ----

  // The idle fiber executes while the worker is inside it, and can be entered or has ended otherwise;
  // a worker that has left its loop has seen it ended.
  predicate Parked(s: State, w: nat) {
    && At(s, w)
    && (s.pcs[w].InIdle? <==> s.idle[w] == EXEC)
    && (!s.pcs[w].InIdle? ==> s.idle[w] == INIT || s.idle[w] == HOLD || s.idle[w] == TERM)
    && (s.pcs[w].Exited? ==> s.idle[w] == TERM)
  }

  lemma {:induction false} StepParks(s: State, a: Action, w: nat)
    requires Parked(s, w) && Enabled(s, a)
    ensures Parked(Apply(s, a), w)
    ensures Apply(s, a).idle[w] == TERM <==> s.idle[w] == TERM || a == LeaveIdle(w, true)
    ensures s.idle[w] == TERM ==> a != EnterIdle(w)
  {
    hide Apply, Enabled;
    if Idling(a) { IdlingParks(s, a, w); } else { OthersPark(s, a, w); }
  }

  lemma {:induction false} IdlingParks(s: State, a: Action, w: nat)
    requires Parked(s, w) && Enabled(s, a) && Idling(a)
    ensures Parked(Apply(s, a), w)
    ensures Apply(s, a).idle[w] == TERM <==> s.idle[w] == TERM || a == LeaveIdle(w, true)
    ensures s.idle[w] == TERM ==> a != EnterIdle(w)
  {
    hide MayPick, DoPick, DoCollect, DoDeliver;
    if a.Pick? || a.Collect? || a.Deliver? { ScanningParks(s, a, w); }
  }

  lemma {:induction false} ScanningParks(s: State, a: Action, w: nat)
    requires Parked(s, w) && Enabled(s, a) && (a.Pick? || a.Collect? || a.Deliver?)
    ensures Parked(Apply(s, a), w) && Apply(s, a).idle == s.idle
  {
    hide Apply, Enabled, NextPc;
    PcsMove(s, a);
    ScanningStays(s, a);
  }

  lemma {:induction false} ScanningStays(s: State, a: Action)
    requires Enabled(s, a) && (a.Pick? || a.Collect? || a.Deliver?)
    ensures Apply(s, a).idle == s.idle && |Apply(s, a).cbFiber| == |s.cbFiber|
    ensures At(s, a.w) && (NextPc(s, a).InIdle? <==> s.pcs[a.w].InIdle?) && !NextPc(s, a).Exited?
  {
    hide MayPick;
  }

  lemma {:induction false} OthersPark(s: State, a: Action, w: nat)
    requires Parked(s, w) && Enabled(s, a) && !Idling(a)
    ensures Parked(Apply(s, a), w) && Apply(s, a).idle == s.idle
  {
    hide Apply, Enabled, NextPc;
    IdleStays(s, a);
    PcsMove(s, a);
    if !Outside(a) { ServingIsNotIdle(s, a); }
  }

  lemma {:induction false} ServingIsNotIdle(s: State, a: Action)
    requires Enabled(s, a) && !Idling(a) && !Outside(a)
    ensures At(s, a.w) && !s.pcs[a.w].InIdle? && !NextPc(s, a).InIdle? && !NextPc(s, a).Exited?
  {
  }

  lemma {:induction false} IdleStays(s: State, a: Action)
    requires Enabled(s, a) && !Idling(a)
    ensures Apply(s, a).idle == s.idle && |Apply(s, a).cbFiber| == |s.cbFiber|
  {
  }

  /** Over every run: the idle fiber of a worker has ended exactly when it came to its end, a worker has
      left its loop only after that, and never enters it again. */
  lemma {:induction false} WorkersExit(s: State, acts: seq<Action>, w: nat)
    requires Parked(s, w) && CanRun(s, acts)
    ensures var s' := Run(s, acts);
            && Parked(s', w)
            && (s'.idle[w] == TERM <==> s.idle[w] == TERM || LeaveIdle(w, true) in acts)
            && (s'.pcs[w].Exited? ==> s.idle[w] == TERM || LeaveIdle(w, true) in acts)
    ensures s.idle[w] == TERM ==> EnterIdle(w) !in acts
    decreases |acts|
  {
    if acts != [] {
      StepParks(s, acts[0], w);
      hide Apply, Enabled;
      WorkersExit(Apply(s, acts[0]), acts[1..], w);
      assert acts == [acts[0]] + acts[1..];
    }
  }

  lemma {:induction false} FreshIsParked(n: nat, w: nat)
    requires w < n
    ensures Parked(Fresh(n), w) && Fresh(n).idle[w] == INIT
  {
  }

  /** A worker that comes back from its idle fiber and finds nothing to do leaves its loop if the idle
      fiber has come to its end, and enters it again if it has not. */
  lemma {:induction false} IdleDecides(s: State, w: nat, term: bool)
    requires Enabled(s, LeaveIdle(w, term)) && s.queue == []
    ensures var t := Apply(s, LeaveIdle(w, term));
            && Enabled(t, Pick(w, 0))
            && (Enabled(Apply(t, Pick(w, 0)), Exit(w)) <==> term)
            && (Enabled(Apply(t, Pick(w, 0)), EnterIdle(w)) <==> !term)
  {
    var t := Apply(s, LeaveIdle(w, term));
    assert MayPick(t.queue, w, t.fibers, 0);
  }
}
