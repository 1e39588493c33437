/** The event operations as steps of the scheduler: a registration with its ticket is a waiter with
    that token, triggering it fires the token, and deleting it drops the token. */
module EventTasks {
  import opened Options
  import S = Scheduler
  import opened Events
  import X = Exclusion

  function TaskOf(w: Waiter): S.Task {
    match w
    case Fiber(f) => S.FiberTask(f, -1)
    case Callback(cb) => S.CbTask(cb, None, -1)
  }

  /** The scheduler waits, by event token, for exactly the tickets behind set bits, each with the
      task of whoever registered. */
  ghost predicate Coupled(es: State, sc: S.State) {
    forall n: nat :: (S.Event(n) in sc.waiters <==> IsLive(es, n))
      && (S.Event(n) in sc.waiters && n in es.who ==> sc.waiters[S.Event(n)] == TaskOf(es.who[n]))
  }

  // What the consumption of a registration is to the scheduler.
  function ActionOf(x: Spent): S.Action {
    if x.woken.Some? then S.Fire(S.Event(x.ticket)) else S.Drop(S.Event(x.ticket))
  }

  function Actions(more: seq<Spent>): seq<S.Action> {
    if more == [] then [] else [ActionOf(more[0])] + Actions(more[1..])
  }

  function Woken(more: seq<Spent>): seq<S.Task> {
    if more == [] then [] else (if more[0].woken.Some? then [TaskOf(more[0].woken.value)] else []) + Woken(more[1..])
  }

  function Trace(es: State, op: Op): seq<S.Action> {
    var r := Step(es, op);
    if !r.Ok? then []
    else if op.OpAdd? then [S.Register(S.Event(es.issued), TaskOf(op.w))]
    else if |es.spent| <= |r.s.spent| then Actions(r.s.spent[|es.spent|..])
    else []
  }

  // Nothing but the waiters and the queue changes.
  ghost predicate Moved(sc: S.State, sc': S.State, waiters: map<S.Token, S.Task>, woken: seq<S.Task>) {
    sc' == sc.(waiters := waiters, queue := sc.queue + woken, pushed := sc.pushed + multiset(woken))
  }

  function Without(waiters: map<S.Token, S.Task>, more: seq<Spent>): map<S.Token, S.Task> {
    if more == [] then waiters else Without(waiters - {S.Event(more[0].ticket)}, more[1..])
  }

  lemma {:induction false} WithoutMeans(waiters: map<S.Token, S.Task>, more: seq<Spent>, tok: S.Token)
    ensures tok in Without(waiters, more) <==> tok in waiters && forall i | 0 <= i < |more| :: S.Event(more[i].ticket) != tok
    ensures tok in Without(waiters, more) ==> tok in waiters && Without(waiters, more)[tok] == waiters[tok]
    decreases |more|
  {
    if more != [] {
      WithoutMeans(waiters - {S.Event(more[0].ticket)}, more[1..], tok);
      assert forall i | 0 < i < |more| :: more[i] == more[1..][i - 1];
      assert forall i | 0 <= i < |more[1..]| :: more[1..][i] == more[i + 1];
    }
  }

  // The consumed tickets are waiters of the scheduler, each once.
  ghost predicate Consumable(sc: S.State, more: seq<Spent>) {
    && (forall i | 0 <= i < |more| :: S.Event(more[i].ticket) in sc.waiters
          && (more[i].woken.Some? ==> sc.waiters[S.Event(more[i].ticket)] == TaskOf(more[i].woken.value)))
    && (forall i, j | 0 <= i < j < |more| :: more[i].ticket != more[j].ticket)
  }

  lemma {:induction false} ConsumeOne(sc: S.State, more: seq<Spent>)
    requires more != [] && Consumable(sc, more)
    ensures S.Enabled(sc, ActionOf(more[0]))
    ensures var x, sc' := more[0], S.Apply(sc, ActionOf(more[0]));
            && Moved(sc, sc', sc.waiters - {S.Event(x.ticket)}, if x.woken.Some? then [TaskOf(x.woken.value)] else [])
            && Consumable(sc', more[1..])
  {
  }

  lemma {:induction false} MovedTwice(a: S.State, b: S.State, c: S.State, w1: map<S.Token, S.Task>, w2: map<S.Token, S.Task>,
                                      x: seq<S.Task>, y: seq<S.Task>)
    requires Moved(a, b, w1, x) && Moved(b, c, w2, y)
    ensures Moved(a, c, w2, x + y)
  {
    assert a.queue + x + y == a.queue + (x + y);
    assert a.pushed + multiset(x) + multiset(y) == a.pushed + multiset(x + y);
  }

  lemma {:induction false} MovedNot(sc: S.State)
    ensures Moved(sc, sc, sc.waiters, [])
  {
    assert sc.queue + [] == sc.queue && sc.pushed + multiset([]) == sc.pushed;
  }

  lemma {:induction false} ConsumeRuns(sc: S.State, more: seq<Spent>)
    requires Consumable(sc, more)
    ensures S.CanRun(sc, Actions(more)) && Moved(sc, S.Run(sc, Actions(more)), Without(sc.waiters, more), Woken(more))
    decreases |more|
  {
    hide S.CanRun, S.Run, S.Apply, S.Enabled, Consumable;
    if more == [] {
      S.RunNothing(sc);
      MovedNot(sc);
    } else {
      ConsumeOne(sc, more);
      var sc' := S.Apply(sc, ActionOf(more[0]));
      assert sc'.waiters == sc.waiters - {S.Event(more[0].ticket)};
      hide Moved;
      ConsumeRuns(sc', more[1..]);
      S.RunCons(sc, ActionOf(more[0]), Actions(more[1..]));
      MovedTwice(sc, sc', S.Run(sc', Actions(more[1..])), sc'.waiters, Without(sc'.waiters, more[1..]),
                 if more[0].woken.Some? then [TaskOf(more[0].woken.value)] else [], Woken(more[1..]));
    }
  }

  // ---- What each operation consumes ----

  // What an operation that registers nothing leaves alone.
  ghost predicate Consumes(s: State, s': State, more: seq<Spent>) {
    s'.issued == s.issued && s'.who == s.who && s'.spent == s.spent + more
  }

  lemma {:induction false} TriggerConsumes(s: State, fd: nat, ev: Event)
    ensures var r := Trigger(s, fd, ev);
            r.Ok? ==> |r.s.spent| == |s.spent| + 1 && Consumes(s, r.s, r.s.spent[|s.spent|..])
  {
  }

  lemma {:induction false} BothConsume(s: State, fd: nat, a: bool, b: bool)
    ensures var r := TriggerIf(TriggerIf(Ok(s), a, fd, READ), b, fd, WRITE);
            r.Ok? ==> |s.spent| <= |r.s.spent| && Consumes(s, r.s, r.s.spent[|s.spent|..])
  {
    hide Trigger;
    TriggerConsumes(s, fd, READ);
    var r := TriggerIf(Ok(s), a, fd, READ);
    if r.Ok? { TriggerConsumes(r.s, fd, WRITE); }
  }

  lemma {:induction false} OpConsumes(s: State, op: Op)
    requires !op.OpAdd? && Step(s, op).Ok?
    ensures var s' := Step(s, op).s; |s.spent| <= |s'.spent| && Consumes(s, s', s'.spent[|s.spent|..])
  {
    hide Trigger, TriggerIf;
    match op
    case OpDel(fd, ev, refuse) =>
    case OpCancel(fd, ev, refuse) => TriggerConsumes(Unlist(s, fd, ev, refuse).s, fd, ev);
    case OpCancelAll(fd, refuse) =>
      var c := Get(s, fd);
      BothConsume(s.(epoll := Update(s.epoll, DEL, fd, {})), fd, READ in c.events, WRITE in c.events);
    case OpDispatch(fd, r, refuse) =>
      var c, hit := Get(s, fd), RealEvents(r);
      var left := c.events - hit;
      BothConsume(s.(epoll := Update(s.epoll, if left != {} then MOD else DEL, fd, left)), fd, READ in hit, WRITE in hit);
    case OpClose(fd) =>
  }

  // A ticket is live or spent, and not both.
  lemma {:induction false} LiveOrSpent(s: State, n: nat)
    requires Numbered(s)
    ensures IsLive(s, n) <==> n < s.issued && !IsSpent(s, n)
  {
    if IsLive(s, n) {
      var a :| a in s.live && s.live[a] == n;
      assert !IsSpent(s, s.live[a]);
    }
  }

  predicate Among(more: seq<Spent>, n: nat) { exists i | 0 <= i < |more| :: more[i].ticket == n }

  lemma {:induction false} LiveAfter(s: State, s': State, more: seq<Spent>, n: nat)
    requires Numbered(s) && Numbered(s') && Consumes(s, s', more)
    ensures IsLive(s', n) <==> IsLive(s, n) && !Among(more, n)
  {
    LiveOrSpent(s, n);
    LiveOrSpent(s', n);
    assert IsSpent(s', n) <==> IsSpent(s, n) || Among(more, n) by {
      if i :| 0 <= i < |s'.spent| && s'.spent[i].ticket == n {
        assert if i < |s.spent| then s.spent[i] == s'.spent[i] else more[i - |s.spent|] == s'.spent[i];
      }
      if i :| 0 <= i < |s.spent| && s.spent[i].ticket == n { assert s'.spent[i].ticket == n; }
      if i :| 0 <= i < |more| && more[i].ticket == n { assert s'.spent[|s.spent| + i].ticket == n; }
    }
  }

  lemma {:induction false} IsConsumable(s: State, s': State, more: seq<Spent>, sc: S.State)
    requires Numbered(s) && Numbered(s') && Spending(s') && Consumes(s, s', more) && Coupled(s, sc)
    ensures Consumable(sc, more)
  {
    forall i | 0 <= i < |more|
      ensures S.Event(more[i].ticket) in sc.waiters
      ensures more[i].woken.Some? ==> sc.waiters[S.Event(more[i].ticket)] == TaskOf(more[i].woken.value)
    {
      var k, n := |s.spent| + i, more[i].ticket;
      assert s'.spent[k] == more[i];
      LiveOrSpent(s, n);
      assert !IsSpent(s, n) by {
        forall j | 0 <= j < |s.spent| ensures s.spent[j].ticket != n { assert s'.spent[j].ticket != s'.spent[k].ticket; }
      }
    }
    forall i, j | 0 <= i < j < |more| ensures more[i].ticket != more[j].ticket {
      assert s'.spent[|s.spent| + i].ticket != s'.spent[|s.spent| + j].ticket;
    }
  }

  lemma {:induction false} StillCoupled(s: State, s': State, more: seq<Spent>, sc: S.State, sc': S.State)
    requires Numbered(s) && Numbered(s') && Consumes(s, s', more) && Coupled(s, sc)
    requires sc'.waiters == Without(sc.waiters, more)
    ensures Coupled(s', sc')
  {
    forall n: nat
      ensures S.Event(n) in sc'.waiters <==> IsLive(s', n)
      ensures S.Event(n) in sc'.waiters && n in s'.who ==> sc'.waiters[S.Event(n)] == TaskOf(s'.who[n])
    {
      hide Numbered, IsLive;
      LiveAfter(s, s', more, n);
      WithoutMeans(sc.waiters, more, S.Event(n));
      assert S.Event(n) in sc.waiters <==> IsLive(s, n);
    }
  }

  lemma {:induction false} RegisterCouples(s: State, op: Op, sc: S.State)
    requires op.OpAdd? && Inv(s) && Allowed(s, op) && Step(s, op).Ok? && Coupled(s, sc) && S.Mentions(sc.fibers, TaskOf(op.w))
    ensures var a := S.Register(S.Event(s.issued), TaskOf(op.w));
            && S.Enabled(sc, a) && Coupled(After(s, op), S.Apply(sc, a))
  {
    hide Numbered, Spending, Step, Allowed, IsLive;
    KeptInv(s, op);
    LiveOrSpent(s, s.issued);
    Issued(s, op);
    IssuedCouples(s, After(s, op), op.w, sc, S.Apply(sc, S.Register(S.Event(s.issued), TaskOf(op.w))));
  }

  lemma {:induction false} IssuedCouples(s: State, s': State, w: Waiter, sc: S.State, sc': S.State)
    requires Numbered(s) && Spending(s) && Numbered(s') && Coupled(s, sc)
    requires s'.issued == s.issued + 1 && s'.who == s.who[s.issued := w] && s'.spent == s.spent
    requires sc'.waiters == sc.waiters[S.Event(s.issued) := TaskOf(w)]
    ensures Coupled(s', sc')
  {
    forall n: nat
      ensures S.Event(n) in sc'.waiters <==> IsLive(s', n)
      ensures S.Event(n) in sc'.waiters && n in s'.who ==> sc'.waiters[S.Event(n)] == TaskOf(s'.who[n])
    {
      hide IsLive, Numbered, Spending;
      TicketAfterAdd(s, s', n);
      assert S.Event(n) in sc.waiters <==> IsLive(s, n);
    }
  }

  lemma {:induction false} NotYetSpent(s: State)
    requires Numbered(s) && Spending(s)
    ensures !IsSpent(s, s.issued)
  {
    assert s.issued !in s.who;
  }

  lemma {:induction false} TicketAfterAdd(s: State, s': State, n: nat)
    requires Numbered(s) && Spending(s) && Numbered(s') && s'.issued == s.issued + 1 && s'.spent == s.spent
    ensures IsLive(s', n) <==> n == s.issued || IsLive(s, n)
  {
    LiveOrSpent(s, n);
    LiveOrSpent(s', n);
    SameSpent(s, s', n);
    NotYetSpent(s);
  }

  lemma {:induction false} Issued(s: State, op: Op)
    requires op.OpAdd? && Step(s, op).Ok?
    ensures var s' := After(s, op); s'.issued == s.issued + 1 && s'.who == s.who[s.issued := op.w] && s'.spent == s.spent
  {
  }

  lemma {:induction false} SameSpent(s: State, s': State, n: nat)
    requires s'.spent == s.spent
    ensures IsSpent(s, n) == IsSpent(s', n)
  {
  }

  /** Every event operation is steps of the scheduler: what it registers is registered, what it
      triggers is fired and queued in order, what it deletes is dropped; and the scheduler goes on
      waiting for exactly the live tickets. */
  lemma {:induction false} OperationsAreSteps(s: State, op: Op, sc: S.State)
    requires Inv(s) && Allowed(s, op) && Coupled(s, sc)
    requires op.OpAdd? ==> S.Mentions(sc.fibers, TaskOf(op.w))
    ensures S.CanRun(sc, Trace(s, op)) && Coupled(After(s, op), S.Run(sc, Trace(s, op)))
    ensures var s' := After(s, op);
            |s.spent| <= |s'.spent| && S.Run(sc, Trace(s, op)).queue == sc.queue + Woken(s'.spent[|s.spent|..])
    ensures S.Run(sc, Trace(s, op)).fibers == sc.fibers
    ensures forall n: nat :: S.Timer(n) in S.Run(sc, Trace(s, op)).waiters <==> S.Timer(n) in sc.waiters
  {
    hide Inv, Step, Allowed, Coupled, S.CanRun, S.Run, S.Apply, S.Enabled;
    if !Step(s, op).Ok? {
      S.RunNothing(sc);
      assert s.spent[|s.spent|..] == [];
    } else if op.OpAdd? {
      AddRuns(s, op, sc);
    } else {
      ConsumeOp(s, op, sc);
    }
  }

  // The tasks woken are those of the registrations consumed by a trigger, in order, for any worker.
  lemma {:induction false} WokenAreUnbound(more: seq<Spent>, i: nat)
    requires i < |Woken(more)|
    ensures Woken(more)[i].thread == -1
    ensures exists j | 0 <= j < |more| :: more[j].woken.Some?
              && (match more[j].woken.value
                  case Fiber(f) => Woken(more)[i] == S.FiberTask(f, -1)
                  case Callback(cb) => Woken(more)[i] == S.CbTask(cb, None, -1))
    decreases |more|
  {
    var first := if more[0].woken.Some? then 1 else 0;
    if i >= first {
      WokenAreUnbound(more[1..], i - first);
      var j :| 0 <= j < |more[1..]| && more[1..][j].woken.Some?
        && (match more[1..][j].woken.value
            case Fiber(f) => Woken(more[1..])[i - first] == S.FiberTask(f, -1)
            case Callback(cb) => Woken(more[1..])[i - first] == S.CbTask(cb, None, -1));
      assert more[j + 1] == more[1..][j];
    }
  }

  // Tasks for any worker were appended.
  ghost predicate GrowsUnbound(q: seq<S.Task>, q': seq<S.Task>) {
    q <= q' && forall i | |q| <= i < |q'| :: q'[i].thread == -1
  }

  /** An event operation queues behind what is queued, and only for any worker: a thread that a
      registering fiber was scheduled for is forgotten. */
  lemma {:induction false} EventsWakeForAnyWorker(s: State, op: Op, sc: S.State)
    requires Inv(s) && Allowed(s, op) && Coupled(s, sc)
    requires op.OpAdd? ==> S.Mentions(sc.fibers, TaskOf(op.w))
    ensures S.CanRun(sc, Trace(s, op)) && GrowsUnbound(sc.queue, S.Run(sc, Trace(s, op)).queue)
  {
    hide Inv, Allowed, Coupled, Woken, Trace, S.Run, S.CanRun, After;
    OperationsAreSteps(s, op, sc);
    var more := After(s, op).spent[|s.spent|..];
    var q := S.Run(sc, Trace(s, op)).queue;
    forall i | |sc.queue| <= i < |q| ensures q[i].thread == -1 {
      WokenAreUnbound(more, i - |sc.queue|);
    }
  }

  lemma {:induction false} AddRuns(s: State, op: Op, sc: S.State)
    requires op.OpAdd? && Inv(s) && Allowed(s, op) && Step(s, op).Ok? && Coupled(s, sc) && S.Mentions(sc.fibers, TaskOf(op.w))
    ensures S.CanRun(sc, Trace(s, op)) && Coupled(After(s, op), S.Run(sc, Trace(s, op)))
    ensures After(s, op).spent == s.spent && S.Run(sc, Trace(s, op)).queue == sc.queue && S.Run(sc, Trace(s, op)).fibers == sc.fibers
    ensures forall n: nat :: S.Timer(n) in S.Run(sc, Trace(s, op)).waiters <==> S.Timer(n) in sc.waiters
  {
    RegisterCouples(s, op, sc);
    var a := S.Register(S.Event(s.issued), TaskOf(op.w));
    hide Inv, S.CanRun, S.Run, Coupled;
    S.RunNothing(S.Apply(sc, a));
    S.RunCons(sc, a, []);
    assert [a] + [] == [a];
  }

  lemma {:induction false} ConsumeOp(s: State, op: Op, sc: S.State)
    requires !op.OpAdd? && Inv(s) && Allowed(s, op) && Step(s, op).Ok? && Coupled(s, sc)
    ensures S.CanRun(sc, Trace(s, op)) && Coupled(After(s, op), S.Run(sc, Trace(s, op)))
    ensures var s' := After(s, op);
            |s.spent| <= |s'.spent| && S.Run(sc, Trace(s, op)).queue == sc.queue + Woken(s'.spent[|s.spent|..])
    ensures S.Run(sc, Trace(s, op)).fibers == sc.fibers
    ensures forall n: nat :: S.Timer(n) in S.Run(sc, Trace(s, op)).waiters <==> S.Timer(n) in sc.waiters
  {
    StepKeeps(s, op);
    OpConsumes(s, op);
    var s' := Step(s, op).s;
    var more := s'.spent[|s.spent|..];
    hide Step, Allowed, Numbered, Spending, Coupled, Consumes, Consumable, S.CanRun, S.Run, Without;
    IsConsumable(s, s', more, sc);
    ConsumeRuns(sc, more);
    StillCoupled(s, s', more, sc, S.Run(sc, Actions(more)));
    forall n: nat ensures S.Timer(n) in Without(sc.waiters, more) <==> S.Timer(n) in sc.waiters {
      WithoutMeans(sc.waiters, more, S.Timer(n));
    }
  }

  // ---- Whole runs ----

  function TraceAll(s: State, ops: seq<Op>): seq<S.Action>
    decreases |ops|
  {
    if ops == [] then [] else Trace(s, ops[0]) + TraceAll(After(s, ops[0]), ops[1..])
  }

  // The fibers that register exist.
  ghost predicate Known(fibers: map<S.FiberId, S.FiberState>, ops: seq<Op>) {
    forall i | 0 <= i < |ops| && ops[i].OpAdd? :: S.Mentions(fibers, TaskOf(ops[i].w))
  }

  /** Every run of event operations is a run of the scheduler that ends waiting for exactly the live
      tickets. */
  lemma {:induction false} RunsAreRuns(s: State, ops: seq<Op>, sc: S.State)
    requires Inv(s) && AllAllowed(s, ops) && Coupled(s, sc) && Known(sc.fibers, ops)
    ensures S.CanRun(sc, TraceAll(s, ops)) && Coupled(Run(s, ops), S.Run(sc, TraceAll(s, ops)))
    decreases |ops|
  {
    hide Inv, Coupled, Allowed, After, S.CanRun, S.Run, Trace;
    if ops == [] {
      S.RunNothing(sc);
    } else {
      OperationsAreSteps(s, ops[0], sc);
      var s', sc' := After(s, ops[0]), S.Run(sc, Trace(s, ops[0]));
      KeptInv(s, ops[0]);
      RunsAreRuns(s', ops[1..], sc');
      S.RunConcat(sc, Trace(s, ops[0]), TraceAll(s', ops[1..]));
    }
  }

  lemma {:induction false} KeptInv(s: State, op: Op)
    requires Inv(s) && Allowed(s, op)
    ensures Inv(After(s, op))
  {
    StepKeeps(s, op);
  }

  /** A fiber with at most one outstanding wake-up has at most one live ticket. */
  lemma {:induction false} OneTicketPerFiber(s: State, sc: S.State, f: nat, m: nat, n: nat)
    requires Numbered(s) && Coupled(s, sc) && X.AtMostOneWakeUp(sc)
    requires IsLive(s, m) && IsLive(s, n) && m in s.who && n in s.who && s.who[m] == Fiber(f) && s.who[n] == Fiber(f)
    ensures m == n
  {
    hide Numbered, IsLive;
    assert S.Event(m) in sc.waiters && S.Event(n) in sc.waiters;
    assert X.ClaimAt(sc, X.AtToken(S.Event(m)), f) && X.ClaimAt(sc, X.AtToken(S.Event(n)), f);
  }

  lemma {:induction false} FreshIsCoupled(n: nat)
    ensures Coupled(FRESH, S.Fresh(n))
  {
  }
}
