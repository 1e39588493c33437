/** The coroutine scheduler as a transition system: any number of workers running
    Scheduler::run, any number of fibers, tasks and registered waiters, in any interleaving. */
module Scheduler {
  import opened Options

  type FiberId = nat

  // A registration that will schedule a task: an fd event or a timer.
  datatype Token = Event(n: nat) | Timer(n: nat)

  // Fiber::State.
  datatype FiberState = INIT | HOLD | EXEC | TERM | READY | EXCEPT

  // FiberAndThread: a fiber or a callback, bound to a worker or (-1) to any. `wakes` is the fiber
  // that the callback schedules when it is run, as the callbacks of the sleep functions do.
  datatype Task = FiberTask(f: FiberId, thread: int) | CbTask(cb: nat, wakes: Option<FiberId>, thread: int)

  // Where a worker is in its loop. `cb` tells the callback branch from the fiber branch.
  datatype PC =
    | Scan                            // about to look at the queue
    | Picked(task: Task)              // task taken and counted active, not started
    | Running(f: FiberId, cb: bool, owes: Option<FiberId>) // inside the fiber, which is still to schedule `owes`
    | Marked(f: FiberId, cb: bool)    // the fiber has set READY, TERM or EXCEPT and not swapped out
    | Back(f: FiberId, cb: bool)      // swapIn has returned
    | Post(f: FiberId, cb: bool)      // no longer counted active, state not looked at
    | Requeue(f: FiberId, cb: bool)   // state seen READY, not yet back in the queue
    | Holding(f: FiberId, cb: bool)   // state seen EXEC, not yet set to HOLD
    | NoTask                          // the queue had nothing for this worker
    | InIdle(due: seq<Task>)          // inside the idle fiber, with expired callbacks not yet scheduled
    | Exited

  // `waiters` are the registrations. `pushed` and `taken` record every task ever queued and every
  // task ever started or discarded.
  datatype State = State(
    queue: seq<Task>,
    fibers: map<FiberId, FiberState>,
    pcs: seq<PC>,
    cbFiber: seq<Option<FiberId>>,
    idle: seq<FiberState>,
    waiters: map<Token, Task>,
    active: int,
    idling: int,
    stop: bool,
    pushed: multiset<Task>,
    taken: multiset<Task>)

  datatype Action =
    | Spawn(f: FiberId)                     // a new fiber object
    | Schedule(task: Task)                  // schedule(fiber or callback)
    | Register(tok: Token, task: Task)      // addEvent, addTimer
    | Fire(tok: Token)                      // dispatch, cancelEvent, cancelAll
    | Drop(tok: Token)                      // delEvent, Timer::cancel
    | Stop
    | Pick(w: nat, i: nat)                  // take entry i, or find nothing when i is the length
    | Start(w: nat)
    | Discard(w: nat)
    | StartCb(w: nat, spare: FiberId)
    | Repay(w: nat)                         // the callback schedules the fiber it wakes
    | Mark(w: nat, to: FiberState)          // YieldToReady before its swap, or the end of the fiber
    | SwapOut(w: nat)
    | Decrement(w: nat)
    | Decide(w: nat)
    | Finish(w: nat)
    | EnterIdle(w: nat)
    | Collect(w: nat, tok: Token, again: bool) // listExpiredCb: the callback of one expired timer
    | Deliver(w: nat)                       // the collected callbacks are scheduled
    | LeaveIdle(w: nat, term: bool)
    | Exit(w: nat)

  // ---- The queue scan ----

  predicate Eligible(t: Task, w: nat, fibers: map<FiberId, FiberState>) {
    && (t.thread == -1 || t.thread == w)
    && !(t.FiberTask? && t.f in fibers && fibers[t.f] == EXEC)
  }

  function PickIndex(queue: seq<Task>, w: nat, fibers: map<FiberId, FiberState>): (i: nat)
    ensures i <= |queue|
    ensures i < |queue| ==> Eligible(queue[i], w, fibers)
    ensures forall j | 0 <= j < i :: !Eligible(queue[j], w, fibers)
  {
    if queue == [] || Eligible(queue[0], w, fibers) then 0 else 1 + PickIndex(queue[1..], w, fibers)
  }

  // The loop under the mutex: skip tasks bound to other workers, skip fibers that execute, stop
  // at the first other task. `tickle` is set when a task bound to another worker was skipped.
  method ScanQueue(queue: seq<Task>, w: nat, fibers: map<FiberId, FiberState>) returns (it: nat, tickle: bool)
    ensures it == PickIndex(queue, w, fibers)
    ensures it < |queue| ==> queue[it].thread == -1 || queue[it].thread == w
    ensures it < |queue| && queue[it].FiberTask? && queue[it].f in fibers ==> fibers[queue[it].f] != EXEC
    ensures forall j | 0 <= j < it ::
              (queue[j].thread != -1 && queue[j].thread != w)
              || (queue[j].FiberTask? && queue[j].f in fibers && fibers[queue[j].f] == EXEC)
    ensures tickle <==> exists j | 0 <= j < it :: queue[j].thread != -1 && queue[j].thread != w
  {
    it, tickle := 0, false;
    while it != |queue|
      invariant it <= |queue| && forall j | 0 <= j < it :: !Eligible(queue[j], w, fibers)
      invariant tickle <==> exists j | 0 <= j < it :: queue[j].thread != -1 && queue[j].thread != w
      decreases |queue| - it
    {
      var t := queue[it];
      if t.thread != -1 && t.thread != w {
        it, tickle := it + 1, true;
        continue;
      }
      if t.FiberTask? && t.f in fibers && fibers[t.f] == EXEC {
        it := it + 1;
        continue;
      }
      break;
    }
    PickIsUnique(queue, w, fibers, it);
  }

  lemma {:induction false} PickIsUnique(queue: seq<Task>, w: nat, fibers: map<FiberId, FiberState>, i: nat)
    requires i <= |queue| && (i < |queue| ==> Eligible(queue[i], w, fibers))
    requires forall j | 0 <= j < i :: !Eligible(queue[j], w, fibers)
    ensures i == PickIndex(queue, w, fibers)
  {
  }

  // The scan reads the fibers' states one after the other, and a state that it saw EXEC may be HOLD
  // by the time it takes a later entry. So it may pass any fiber, and any task bound elsewhere.
  predicate Passes(t: Task, w: nat) { t.FiberTask? || (t.thread != -1 && t.thread != w) }

  predicate MayPick(queue: seq<Task>, w: nat, fibers: map<FiberId, FiberState>, i: nat) {
    && i <= |queue|
    && (forall j | 0 <= j < i :: Passes(queue[j], w))
    && (i < |queue| ==> Eligible(queue[i], w, fibers))
  }

  // What the scan finds when the states do not change meanwhile is among what it may find.
  lemma {:induction false} ScanMayPick(queue: seq<Task>, w: nat, fibers: map<FiberId, FiberState>)
    ensures MayPick(queue, w, fibers, PickIndex(queue, w, fibers))
  {
    var i := PickIndex(queue, w, fibers);
    forall j | 0 <= j < i ensures Passes(queue[j], w) { assert !Eligible(queue[j], w, fibers); }
  }

  // ---- The steps ----

  predicate Ended(st: FiberState) { st == TERM || st == EXCEPT }

  predicate At(s: State, w: nat) { w < |s.pcs| == |s.cbFiber| == |s.idle| }

  // The fiber that a task enters or wakes.
  function Target(t: Task): Option<FiberId> { if t.FiberTask? then Some(t.f) else t.wakes }

  predicate Mentions(fibers: map<FiberId, FiberState>, t: Task) { Target(t).Some? ==> Target(t).value in fibers }

  // The fiber a worker has in its hands, from swapIn until it is done with it.
  function Served(pc: PC): Option<FiberId> {
    if pc.Running? || pc.Marked? || pc.Back? || pc.Post? || pc.Requeue? || pc.Holding? then Some(pc.f) else None
  }

  predicate Enabled(s: State, a: Action) {
    match a
    case Spawn(f) => f !in s.fibers
    case Schedule(t) => Mentions(s.fibers, t)
    case Register(tok, t) => tok !in s.waiters && Mentions(s.fibers, t)
    case Fire(tok) => tok.Event? && tok in s.waiters
    case Drop(tok) => tok in s.waiters
    case Stop => true
    case Pick(w, i) => At(s, w) && s.pcs[w].Scan? && MayPick(s.queue, w, s.fibers, i)
    case Start(w) => At(s, w) && s.pcs[w].Picked? && s.pcs[w].task.FiberTask?
                     && s.pcs[w].task.f in s.fibers && !Ended(s.fibers[s.pcs[w].task.f])
    case Discard(w) => At(s, w) && s.pcs[w].Picked? && s.pcs[w].task.FiberTask?
                       && s.pcs[w].task.f in s.fibers && Ended(s.fibers[s.pcs[w].task.f])
    case StartCb(w, spare) => At(s, w) && s.pcs[w].Picked? && s.pcs[w].task.CbTask? && spare !in s.fibers
    case Repay(w) => At(s, w) && s.pcs[w].Running? && s.pcs[w].owes.Some?
    case Mark(w, to) => At(s, w) && s.pcs[w].Running? && s.pcs[w].owes.None? && (to == READY || Ended(to))
    case SwapOut(w) => At(s, w) && (s.pcs[w].Marked? || (s.pcs[w].Running? && s.pcs[w].owes.None?))
    case Decrement(w) => At(s, w) && s.pcs[w].Back?
    case Decide(w) => At(s, w) && s.pcs[w].Post? && s.pcs[w].f in s.fibers
    case Finish(w) => At(s, w) && (s.pcs[w].Requeue? || s.pcs[w].Holding?)
    case EnterIdle(w) => At(s, w) && s.pcs[w].NoTask? && s.idle[w] != TERM
    case Collect(w, tok, again) => At(s, w) && s.pcs[w].InIdle? && tok.Timer? && tok in s.waiters
    case Deliver(w) => At(s, w) && s.pcs[w].InIdle? && s.pcs[w].due != []
    case LeaveIdle(w, _) => At(s, w) && s.pcs[w] == InIdle([])
    case Exit(w) => At(s, w) && s.pcs[w].NoTask? && s.idle[w] == TERM
  }

  // Steps that are not the worker loop's.
  predicate Outside(a: Action) { a.Spawn? || a.Schedule? || a.Register? || a.Fire? || a.Drop? || a.Stop? }

  // Steps of the idle branch, and the scan.
  predicate Idling(a: Action) { a.Pick? || a.EnterIdle? || a.Collect? || a.Deliver? || a.LeaveIdle? || a.Exit? }

  /** What a worker may take: an entry for it or for anybody, whose fiber is not executing, and no
      callback that it may run is passed over. */
  lemma {:induction false} PicksExactly(s: State, w: nat, i: nat)
    requires At(s, w) && s.pcs[w].Scan?
    ensures Enabled(s, Pick(w, i)) <==>
            && i <= |s.queue|
            && (i < |s.queue| ==> s.queue[i].thread == -1 || s.queue[i].thread == w)
            && (i < |s.queue| && s.queue[i].FiberTask? && s.queue[i].f in s.fibers ==> s.fibers[s.queue[i].f] != EXEC)
            && (forall j | 0 <= j < i :: s.queue[j].FiberTask? || (s.queue[j].thread != -1 && s.queue[j].thread != w))
  {
    assert MayPick(s.queue, w, s.fibers, i) ==> forall j | 0 <= j < i :: Passes(s.queue[j], w);
  }

  function Push(s: State, t: Task): State {
    s.(queue := s.queue + [t], pushed := s.pushed + multiset{t})
  }

  function Goto(s: State, w: nat, pc: PC): State
    requires w < |s.pcs|
  {
    s.(pcs := s.pcs[w := pc])
  }

  function DoPick(s: State, w: nat, i: nat): State
    requires At(s, w) && i <= |s.queue|
  {
    if i == |s.queue| then Goto(s, w, NoTask)
    else Goto(s, w, Picked(s.queue[i])).(queue := s.queue[..i] + s.queue[i + 1..], active := s.active + 1)
  }

  // The fiber that a callback is run on: the one the worker keeps, or a new one.
  function CbFiber(s: State, w: nat, spare: FiberId): FiberId
    requires At(s, w)
  {
    if s.cbFiber[w].Some? then s.cbFiber[w].value else spare
  }

  function DoStartCb(s: State, w: nat, spare: FiberId): State
    requires At(s, w) && s.pcs[w].Picked? && s.pcs[w].task.CbTask?
  {
    var f := CbFiber(s, w, spare);
    Goto(s, w, Running(f, true, s.pcs[w].task.wakes)).(
      fibers := s.fibers[f := EXEC], cbFiber := s.cbFiber[w := Some(f)], taken := s.taken + multiset{s.pcs[w].task})
  }

  function DoDecide(s: State, w: nat): State
    requires At(s, w) && s.pcs[w].Post? && s.pcs[w].f in s.fibers
  {
    var f, cb := s.pcs[w].f, s.pcs[w].cb;
    if s.fibers[f] == READY then Goto(s, w, Requeue(f, cb))
    else if !Ended(s.fibers[f]) then Goto(s, w, Holding(f, cb))
    else if cb then Goto(s, w, Scan).(fibers := s.fibers[f := INIT])
    else Goto(s, w, Scan)
  }

  function DoFinish(s: State, w: nat): State
    requires At(s, w) && (s.pcs[w].Requeue? || s.pcs[w].Holding?)
  {
    var f, cb := s.pcs[w].f, s.pcs[w].cb;
    var s' := if s.pcs[w].Requeue? then Push(s, FiberTask(f, -1)) else s.(fibers := s.fibers[f := HOLD]);
    Goto(s', w, Scan).(cbFiber := if cb then s.cbFiber[w := None] else s.cbFiber)
  }

  function DoCollect(s: State, w: nat, tok: Token, again: bool): State
    requires At(s, w) && s.pcs[w].InIdle? && tok in s.waiters
  {
    Goto(s, w, InIdle(s.pcs[w].due + [s.waiters[tok]])).(waiters := if again then s.waiters else s.waiters - {tok})
  }

  function DoDeliver(s: State, w: nat): State
    requires At(s, w) && s.pcs[w].InIdle?
  {
    Goto(s, w, InIdle([])).(queue := s.queue + s.pcs[w].due, pushed := s.pushed + multiset(s.pcs[w].due))
  }

  function Apply(s: State, a: Action): State
    requires Enabled(s, a)
  {
    match a
    case Spawn(f) => s.(fibers := s.fibers[f := INIT])
    case Schedule(t) => Push(s, t)
    case Register(tok, t) => s.(waiters := s.waiters[tok := t])
    case Fire(tok) => Push(s, s.waiters[tok]).(waiters := s.waiters - {tok})
    case Drop(tok) => s.(waiters := s.waiters - {tok})
    case Stop => s.(stop := true)
    case Pick(w, i) => DoPick(s, w, i)
    case Start(w) =>
      var f := s.pcs[w].task.f;
      Goto(s, w, Running(f, false, None)).(fibers := s.fibers[f := EXEC], taken := s.taken + multiset{s.pcs[w].task})
    case Discard(w) => Goto(s, w, Scan).(active := s.active - 1, taken := s.taken + multiset{s.pcs[w].task})
    case StartCb(w, spare) => DoStartCb(s, w, spare)
    case Repay(w) =>
      Goto(Push(s, FiberTask(s.pcs[w].owes.value, -1)), w, Running(s.pcs[w].f, s.pcs[w].cb, None))
    case Mark(w, to) => Goto(s, w, Marked(s.pcs[w].f, s.pcs[w].cb)).(fibers := s.fibers[s.pcs[w].f := to])
    case SwapOut(w) => Goto(s, w, Back(s.pcs[w].f, s.pcs[w].cb))
    case Decrement(w) => Goto(s, w, Post(s.pcs[w].f, s.pcs[w].cb)).(active := s.active - 1)
    case Decide(w) => DoDecide(s, w)
    case Finish(w) => DoFinish(s, w)
    case EnterIdle(w) => Goto(s, w, InIdle([])).(idle := s.idle[w := EXEC], idling := s.idling + 1)
    case Collect(w, tok, again) => DoCollect(s, w, tok, again)
    case Deliver(w) => DoDeliver(s, w)
    case LeaveIdle(w, term) => Goto(s, w, Scan).(idle := s.idle[w := if term then TERM else HOLD], idling := s.idling - 1)
    case Exit(w) => Goto(s, w, Exited).(cbFiber := s.cbFiber[w := None])
  }

  // Where a step leaves its own worker.
  function NextPc(s: State, a: Action): PC
    requires Enabled(s, a) && !Outside(a)
  {
    var pc := s.pcs[a.w];
    match a
    case Pick(_, i) => if i == |s.queue| then NoTask else Picked(s.queue[i])
    case Start(_) => Running(pc.task.f, false, None)
    case StartCb(w, spare) => Running(CbFiber(s, w, spare), true, pc.task.wakes)
    case Repay(_) => Running(pc.f, pc.cb, None)
    case Mark(_, _) => Marked(pc.f, pc.cb)
    case SwapOut(_) => Back(pc.f, pc.cb)
    case Decrement(_) => Post(pc.f, pc.cb)
    case Decide(_) =>
      if s.fibers[pc.f] == READY then Requeue(pc.f, pc.cb) else if !Ended(s.fibers[pc.f]) then Holding(pc.f, pc.cb) else Scan
    case EnterIdle(_) => InIdle([])
    case Collect(_, tok, _) => InIdle(pc.due + [s.waiters[tok]])
    case Deliver(_) => InIdle([])
    case Exit(_) => Exited
    case _ => Scan
  }

  /** A step moves its own worker only. */
  lemma {:induction false} PcsMove(s: State, a: Action)
    requires Enabled(s, a)
    ensures Apply(s, a).pcs == if Outside(a) then s.pcs else s.pcs[a.w := NextPc(s, a)]
  {
    hide Enabled, Apply;
    if Outside(a) { PcsStay(s, a); } else if Idling(a) { PcsMoveIdling(s, a); } else { PcsMoveServing(s, a); }
  }

  lemma {:induction false} PcsStay(s: State, a: Action)
    requires Enabled(s, a) && Outside(a)
    ensures Apply(s, a).pcs == s.pcs
  {
  }

  lemma {:induction false} PcsMoveIdling(s: State, a: Action)
    requires Enabled(s, a) && Idling(a)
    ensures Apply(s, a).pcs == s.pcs[a.w := NextPc(s, a)]
  {
    hide MayPick;
  }

  lemma {:induction false} PcsMoveServing(s: State, a: Action)
    requires Enabled(s, a) && !Idling(a) && !Outside(a)
    ensures Apply(s, a).pcs == s.pcs[a.w := NextPc(s, a)]
  {
  }

  // A scheduler with `n` workers about to enter their loops.
  function Fresh(n: nat): State {
    State([], map[], seq(n, _ => Scan), seq(n, _ => None), seq(n, _ => INIT), map[], 0, 0, false, multiset{}, multiset{})
  }

  ghost predicate CanRun(s: State, acts: seq<Action>)
    decreases |acts|
  {
    acts != [] ==> Enabled(s, acts[0]) && CanRun(Apply(s, acts[0]), acts[1..])
  }

  ghost function Run(s: State, acts: seq<Action>): State
    requires CanRun(s, acts)
    decreases |acts|
  {
    if acts == [] then s else Run(Apply(s, acts[0]), acts[1..])
  }

  lemma {:induction false} RunNothing(s: State)
    ensures CanRun(s, []) && Run(s, []) == s
  {
  }

  lemma {:induction false} RunCons(s: State, a: Action, acts: seq<Action>)
    requires Enabled(s, a) && CanRun(Apply(s, a), acts)
    ensures CanRun(s, [a] + acts) && Run(s, [a] + acts) == Run(Apply(s, a), acts)
  {
    hide Apply, Enabled;
    assert ([a] + acts)[1..] == acts;
  }

  lemma {:induction false} RunConcat(s: State, acts: seq<Action>, more: seq<Action>)
    requires CanRun(s, acts) && CanRun(Run(s, acts), more)
    ensures CanRun(s, acts + more) && Run(s, acts + more) == Run(Run(s, acts), more)
    decreases |acts|
  {
    hide Apply, Enabled;
    if acts == [] {
      assert acts + more == more;
    } else {
      assert (acts + more)[1..] == acts[1..] + more;
      RunConcat(Apply(s, acts[0]), acts[1..], more);
    }
  }
}
