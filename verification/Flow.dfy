/** Where tasks come from and where they go: every task registered, scheduled or given back is
    waiting, in hand, queued or picked until it is started, discarded or dropped. */
module Flow {
  import opened Options
  import opened Scheduler
  import opened Accounting

  // How many idle workers hold this task from an expired timer, each as often as it holds it.
  function Due(pcs: seq<PC>, t: Task): nat {
    if pcs == [] then 0 else (if pcs[0].InIdle? then multiset(pcs[0].due)[t] else 0) + Due(pcs[1..], t)
  }

  function DueOf(pc: PC, t: Task): nat { if pc.InIdle? then multiset(pc.due)[t] else 0 }

  // How many registrations wait with this task.
  ghost function Waiting(waiters: map<Token, Task>, t: Task): nat { |set tok | tok in waiters && waiters[tok] == t| }

  /** How often the scheduler has the task, anywhere. */
  ghost function Having(s: State, t: Task): nat {
    multiset(s.queue)[t] + Held(s.pcs, t) + Due(s.pcs, t) + Waiting(s.waiters, t)
  }

  // What a step brings in: what is scheduled or registered, the callback of a recurring timer, the
  // fiber that a callback wakes and the fiber that has yielded READY, both for any worker.
  function Brings(s: State, a: Action): Option<Task>
    requires Enabled(s, a)
  {
    match a
    case Schedule(t) => Some(t)
    case Register(_, t) => Some(t)
    case Collect(_, tok, true) => Some(s.waiters[tok])
    case Repay(w) => Some(FiberTask(s.pcs[w].owes.value, -1))
    case Finish(w) => if s.pcs[w].Requeue? then Some(FiberTask(s.pcs[w].f, -1)) else None
    case _ => None
  }

  // What a step uses up: the task a worker starts or discards, and a dropped registration's.
  function Uses(s: State, a: Action): Option<Task>
    requires Enabled(s, a)
  {
    match a
    case Start(w) => Some(s.pcs[w].task)
    case StartCb(w, _) => Some(s.pcs[w].task)
    case Discard(w) => Some(s.pcs[w].task)
    case Drop(tok) => Some(s.waiters[tok])
    case _ => None
  }

  // ---- Counting ----

  lemma {:induction false} MoveDue(pcs: seq<PC>, w: nat, pc: PC, t: Task)
    requires w < |pcs|
    ensures Due(pcs[w := pc], t) == Due(pcs, t) - DueOf(pcs[w], t) + DueOf(pc, t)
    decreases w
  {
    if w == 0 {
      assert pcs[w := pc][1..] == pcs[1..];
    } else {
      assert pcs[w := pc][1..] == pcs[1..][w - 1 := pc];
      MoveDue(pcs[1..], w - 1, pc, t);
    }
  }

  lemma {:induction false} WaitingLess(waiters: map<Token, Task>, tok: Token, t: Task)
    requires tok in waiters
    ensures Waiting(waiters, t) == Waiting(waiters - {tok}, t) + One(waiters[tok] == t)
  {
    var rest := set k | k in waiters - {tok} && (waiters - {tok})[k] == t;
    var all := set k | k in waiters && waiters[k] == t;
    assert all == if waiters[tok] == t then rest + {tok} else rest;
  }

  lemma {:induction false} WaitingMore(waiters: map<Token, Task>, tok: Token, u: Task, t: Task)
    requires tok !in waiters
    ensures Waiting(waiters[tok := u], t) == Waiting(waiters, t) + One(u == t)
  {
    WaitingLess(waiters[tok := u], tok, t);
    assert waiters[tok := u] - {tok} == waiters;
  }

  // What a worker has in its hands, picked or due.
  function Hand(pc: PC, t: Task): nat { One(pc == Picked(t)) + DueOf(pc, t) }

  lemma {:induction false} HandMoves(s: State, t: State, w: nat, x: Task)
    requires w < |s.pcs| && |t.pcs| == |s.pcs| && t.pcs == s.pcs[w := t.pcs[w]]
    ensures Held(t.pcs, x) + Due(t.pcs, x) + Hand(s.pcs[w], x) == Held(s.pcs, x) + Due(s.pcs, x) + Hand(t.pcs[w], x)
  {
    hide Held, Due, DueOf;
    MoveHeld(s.pcs, w, t.pcs[w], x);
    MoveDue(s.pcs, w, t.pcs[w], x);
  }

  // ---- Every step ----

  ghost predicate Flows(s: State, a: Action, t: Task)
    requires Enabled(s, a)
  {
    Having(Apply(s, a), t) + One(Uses(s, a) == Some(t)) == Having(s, t) + One(Brings(s, a) == Some(t))
  }

  // A step of worker `w` flows when the queue, its hand and the waiters do.
  lemma {:induction false} WorkerFlows(s: State, t: State, w: nat, x: Task, brought: nat, used: nat)
    requires w < |s.pcs| && |t.pcs| == |s.pcs| && t.pcs == s.pcs[w := t.pcs[w]]
    requires multiset(t.queue)[x] + Hand(t.pcs[w], x) + Waiting(t.waiters, x) + used
          == multiset(s.queue)[x] + Hand(s.pcs[w], x) + Waiting(s.waiters, x) + brought
    ensures Having(t, x) + used == Having(s, x) + brought
  {
    hide Held, Due, Hand, Waiting;
    HandMoves(s, t, w, x);
  }

  lemma {:induction false} PushCounts(queue: seq<Task>, more: seq<Task>, x: Task)
    ensures multiset(queue + more)[x] == multiset(queue)[x] + multiset(more)[x]
  {
  }

  lemma {:induction false} OneCounts(t: Task, x: Task)
    ensures multiset([t])[x] == One(t == x)
  {
  }

  lemma {:induction false} RemoveCountsAt(queue: seq<Task>, i: nat, x: Task)
    requires i < |queue|
    ensures multiset(queue)[x] == multiset(queue[..i] + queue[i + 1..])[x] + One(queue[i] == x)
  {
    RemoveCounts(queue, i);
  }

  // A step outside the workers flows when the queue and the waiters do.
  lemma {:induction false} StillFlows(s: State, t: State, x: Task, brought: nat, used: nat)
    requires t.pcs == s.pcs
    requires multiset(t.queue)[x] + Waiting(t.waiters, x) + used == multiset(s.queue)[x] + Waiting(s.waiters, x) + brought
    ensures Having(t, x) + used == Having(s, x) + brought
  {
  }

  lemma {:induction false} QueueFlows(s: State, a: Action, t: Task)
    requires (a.Schedule? || a.Fire?) && Enabled(s, a)
    ensures Flows(s, a, t)
  {
    hide Having, Waiting;
    var u := if a.Schedule? then a.task else s.waiters[a.tok];
    PushCounts(s.queue, [u], t);
    OneCounts(u, t);
    if a.Fire? { WaitingLess(s.waiters, a.tok, t); }
    StillFlows(s, Apply(s, a), t, One(a.Schedule? && u == t), 0);
  }

  lemma {:induction false} WaiterFlows(s: State, a: Action, t: Task)
    requires (a.Register? || a.Drop?) && Enabled(s, a)
    ensures Flows(s, a, t)
  {
    hide Having, Waiting;
    if a.Register? { WaitingMore(s.waiters, a.tok, a.task, t); } else { WaitingLess(s.waiters, a.tok, t); }
    StillFlows(s, Apply(s, a), t, One(a.Register? && a.task == t), One(a.Drop? && s.waiters[a.tok] == t));
  }

  lemma {:induction false} NoFlow(s: State, a: Action, t: Task)
    requires (a.Spawn? || a.Stop?) && Enabled(s, a)
    ensures Flows(s, a, t)
  {
    hide Having, Waiting;
    StillFlows(s, Apply(s, a), t, 0, 0);
  }

  lemma {:induction false} PickFlows(s: State, w: nat, i: nat, t: Task)
    requires Enabled(s, Pick(w, i))
    ensures Flows(s, Pick(w, i), t)
  {
    hide Having, Waiting;
    if i < |s.queue| { RemoveCountsAt(s.queue, i, t); }
    WorkerFlows(s, Apply(s, Pick(w, i)), w, t, 0, 0);
  }

  lemma {:induction false} CollectFlows(s: State, a: Action, t: Task)
    requires a.Collect? && Enabled(s, a)
    ensures Flows(s, a, t)
  {
    hide Having, Waiting;
    var u := s.waiters[a.tok];
    WaitingLess(s.waiters, a.tok, t);
    PushCounts(s.pcs[a.w].due, [u], t);
    OneCounts(u, t);
    WorkerFlows(s, Apply(s, a), a.w, t, One(a.again && u == t), 0);
  }

  lemma {:induction false} DeliverFlows(s: State, a: Action, t: Task)
    requires a.Deliver? && Enabled(s, a)
    ensures Flows(s, a, t)
  {
    hide Having, Waiting;
    PushCounts(s.queue, s.pcs[a.w].due, t);
    WorkerFlows(s, Apply(s, a), a.w, t, 0, 0);
  }

  lemma {:induction false} IdleFlows(s: State, a: Action, t: Task)
    requires (a.EnterIdle? || a.LeaveIdle? || a.Exit?) && Enabled(s, a)
    ensures Flows(s, a, t)
  {
    hide Having, Waiting;
    WorkerFlows(s, Apply(s, a), a.w, t, 0, 0);
  }

  lemma {:induction false} TakingFlows(s: State, a: Action, t: Task)
    requires (a.Start? || a.StartCb? || a.Discard?) && Enabled(s, a)
    ensures Flows(s, a, t)
  {
    hide Having, Waiting;
    WorkerFlows(s, Apply(s, a), a.w, t, 0, One(s.pcs[a.w].task == t));
  }

  lemma {:induction false} LeavingFlows(s: State, a: Action, t: Task)
    requires (a.Mark? || a.SwapOut? || a.Decrement?) && Enabled(s, a)
    ensures Flows(s, a, t)
  {
    hide Having, Waiting;
    WorkerFlows(s, Apply(s, a), a.w, t, 0, 0);
  }

  lemma {:induction false} DecideFlows(s: State, a: Action, t: Task)
    requires a.Decide? && Enabled(s, a)
    ensures Flows(s, a, t)
  {
    hide Having, Waiting;
    WorkerFlows(s, Apply(s, a), a.w, t, 0, 0);
  }

  lemma {:induction false} RepayFlows(s: State, a: Action, t: Task)
    requires a.Repay? && Enabled(s, a)
    ensures Flows(s, a, t)
  {
    hide Having, Waiting;
    var u := FiberTask(s.pcs[a.w].owes.value, -1);
    PushCounts(s.queue, [u], t);
    OneCounts(u, t);
    WorkerFlows(s, Apply(s, a), a.w, t, One(u == t), 0);
  }

  lemma {:induction false} FinishFlows(s: State, a: Action, t: Task)
    requires a.Finish? && Enabled(s, a)
    ensures Flows(s, a, t)
  {
    hide Having, Waiting;
    var u := FiberTask(s.pcs[a.w].f, -1);
    PushCounts(s.queue, [u], t);
    OneCounts(u, t);
    WorkerFlows(s, Apply(s, a), a.w, t, One(s.pcs[a.w].Requeue? && u == t), 0);
  }

  /** Every step, whatever the wake-ups: a task appears only where it is brought in and disappears only
      where it is used up. */
  lemma {:induction false} StepFlows(s: State, a: Action, t: Task)
    requires Enabled(s, a)
    ensures Flows(s, a, t)
  {
    hide Flows, Enabled;
    match a
    case Pick(w, i) => PickFlows(s, w, i, t);
    case Collect(_, _, _) => CollectFlows(s, a, t);
    case Deliver(_) => DeliverFlows(s, a, t);
    case EnterIdle(_) => IdleFlows(s, a, t);
    case LeaveIdle(_, _) => IdleFlows(s, a, t);
    case Exit(_) => IdleFlows(s, a, t);
    case Start(_) => TakingFlows(s, a, t);
    case StartCb(_, _) => TakingFlows(s, a, t);
    case Discard(_) => TakingFlows(s, a, t);
    case Repay(_) => RepayFlows(s, a, t);
    case Finish(_) => FinishFlows(s, a, t);
    case Mark(_, _) => LeavingFlows(s, a, t);
    case SwapOut(_) => LeavingFlows(s, a, t);
    case Decrement(_) => LeavingFlows(s, a, t);
    case Decide(_) => DecideFlows(s, a, t);
    case Schedule(_) => QueueFlows(s, a, t);
    case Fire(_) => QueueFlows(s, a, t);
    case Register(_, _) => WaiterFlows(s, a, t);
    case Drop(_) => WaiterFlows(s, a, t);
    case Spawn(_) => NoFlow(s, a, t);
    case Stop => NoFlow(s, a, t);
  }

  ghost function AllBrought(s: State, acts: seq<Action>, t: Task): nat
    requires CanRun(s, acts)
    decreases |acts|
  {
    if acts == [] then 0 else One(Brings(s, acts[0]) == Some(t)) + AllBrought(Apply(s, acts[0]), acts[1..], t)
  }

  ghost function AllUsed(s: State, acts: seq<Action>, t: Task): nat
    requires CanRun(s, acts)
    decreases |acts|
  {
    if acts == [] then 0 else One(Uses(s, acts[0]) == Some(t)) + AllUsed(Apply(s, acts[0]), acts[1..], t)
  }

  /** Over every run: what the scheduler has of a task is what it had, plus what was brought in, less
      what was used up. */
  lemma {:induction false} RunFlows(s: State, acts: seq<Action>, t: Task)
    requires CanRun(s, acts)
    ensures Having(Run(s, acts), t) + AllUsed(s, acts, t) == Having(s, t) + AllBrought(s, acts, t)
    decreases |acts|
  {
    hide Having, Enabled, Apply, Brings, Uses;
    if acts != [] {
      StepFlows(s, acts[0], t);
      RunFlows(Apply(s, acts[0]), acts[1..], t);
    }
  }

  /** The queue grows at its end only, and loses only the entry that a worker picks. */
  lemma {:induction false} QueueIsInOrder(s: State, a: Action)
    requires Enabled(s, a)
    ensures if a.Pick? && a.i < |s.queue| then Apply(s, a).queue == s.queue[..a.i] + s.queue[a.i + 1..]
            else s.queue <= Apply(s, a).queue
  {
  }
}
