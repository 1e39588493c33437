/** Mutual exclusion: no fiber is executed by two workers. It is kept by a step exactly when no fiber
    is entered that another worker has, and that is so as long as no fiber has two outstanding
    wake-ups, where the fiber that a worker keeps for its next callback counts as woken. */
module Exclusion {
  import opened Options
  import opened Scheduler

  // ---- Outstanding wake-ups ----

  // Where a wake-up of a fiber can be: an entry of the queue, a registered waiter, an expired
  // callback that an idle worker has not scheduled yet, a worker that has picked the fiber or a
  // callback that wakes it, is inside that callback, or is handing the fiber back READY, or a
  // worker that keeps the fiber to run callbacks.
  datatype Place = InQueue(i: nat) | AtToken(tok: Token) | InHand(w: nat, i: nat) | AtWorker(w: nat) | Kept(w: nat)

  predicate Wakes(t: Task, f: FiberId) { Target(t) == Some(f) }

  predicate ClaimAt(s: State, p: Place, f: FiberId) {
    match p
    case InQueue(i) => i < |s.queue| && Wakes(s.queue[i], f)
    case AtToken(tok) => tok in s.waiters && Wakes(s.waiters[tok], f)
    case InHand(w, i) => w < |s.pcs| && s.pcs[w].InIdle? && i < |s.pcs[w].due| && Wakes(s.pcs[w].due[i], f)
    case AtWorker(w) =>
      w < |s.pcs| && ((s.pcs[w].Picked? && Wakes(s.pcs[w].task, f))
                      || (s.pcs[w].Running? && s.pcs[w].owes == Some(f))
                      || (Served(s.pcs[w]) == Some(f) && f in s.fibers && s.fibers[f] == READY))
    case Kept(w) =>
      w < |s.pcs| && w < |s.cbFiber| && s.cbFiber[w] == Some(f)
      && (Served(s.pcs[w]) != Some(f) || (f in s.fibers && Ended(s.fibers[f])))
  }

  ghost predicate AtMostOneWakeUp(s: State) {
    forall f, p, q :: ClaimAt(s, p, f) && ClaimAt(s, q, f) ==> p == q
  }

  // ---- Safety ----

  /** No fiber is in the hands of two workers, and none of the assertions on fiber states can
      fail: those of swapIn (`m_state != EXEC`), of reset (`TERM`, `EXCEPT` or `INIT`), and those
      of YieldToReady, YieldToHold and addEvent (`EXEC`), which the running fiber may call at any
      point. */
  ghost predicate Safe(s: State) {
    && (forall w, w' | 0 <= w < w' < |s.pcs| && Served(s.pcs[w]).Some? :: Served(s.pcs[w]) != Served(s.pcs[w']))
    && (forall w | 0 <= w < |s.pcs| && s.pcs[w].Picked? && s.pcs[w].task.FiberTask? ::
          s.pcs[w].task.f in s.fibers && s.fibers[s.pcs[w].task.f] != EXEC)
    && (forall w | 0 <= w < |s.pcs| && s.pcs[w].Picked? && s.pcs[w].task.CbTask? ::
          w < |s.cbFiber| && (s.cbFiber[w].Some? ==>
            s.cbFiber[w].value in s.fibers && (Ended(s.fibers[s.cbFiber[w].value]) || s.fibers[s.cbFiber[w].value] == INIT)))
    && (forall w | 0 <= w < |s.pcs| && s.pcs[w].Running? :: s.pcs[w].f in s.fibers && s.fibers[s.pcs[w].f] == EXEC)
    && (forall w | 0 <= w < |s.pcs| && s.pcs[w].NoTask? :: w < |s.idle| && s.idle[w] != EXEC)
  }

  // The states a fiber can be in while a worker has it.
  predicate ServedState(pc: PC, st: FiberState) {
    && (st == EXEC || st == READY || Ended(st))
    && (pc.Running? || pc.Holding? ==> st == EXEC)
    && (pc.Marked? ==> st != EXEC)
    && (pc.Requeue? ==> st == READY)
  }

  // What holds of one worker: the fiber it serves, the fiber it has picked, the fiber it keeps for
  // callbacks and its idle fiber.
  predicate Local(fibers: map<FiberId, FiberState>, pc: PC, cb: Option<FiberId>, idle: FiberState) {
    && (Served(pc).Some? ==> pc.f in fibers && ServedState(pc, fibers[pc.f]) && (pc.cb <==> cb == Some(pc.f)))
    && (pc.Picked? && pc.task.FiberTask? ==> pc.task.f in fibers && fibers[pc.task.f] != EXEC)
    && (pc.Picked? ==> Mentions(fibers, pc.task))
    && (pc.Running? && pc.owes.Some? ==> pc.owes.value in fibers)
    && (pc.InIdle? ==> forall i | 0 <= i < |pc.due| :: Mentions(fibers, pc.due[i]))
    && (cb.Some? ==> cb.value in fibers && (Served(pc) == cb || fibers[cb.value] == INIT))
    && (pc.InIdle? <==> idle == EXEC)
  }

  // Two workers serve and keep different fibers.
  predicate Apart(pc: PC, cb: Option<FiberId>, pc': PC, cb': Option<FiberId>) {
    && (Served(pc).Some? ==> Served(pc) != Served(pc'))
    && (cb.Some? ==> cb != cb')
  }

  ghost predicate Workers(s: State) {
    && |s.pcs| == |s.cbFiber| == |s.idle|
    && (forall w | 0 <= w < |s.pcs| :: Local(s.fibers, s.pcs[w], s.cbFiber[w], s.idle[w]))
    && (forall w, w' | 0 <= w < |s.pcs| && 0 <= w' < |s.pcs| && w != w' :: Apart(s.pcs[w], s.cbFiber[w], s.pcs[w'], s.cbFiber[w']))
  }

  // Every fiber that a task names exists.
  ghost predicate Tasks(s: State) {
    && (forall i | 0 <= i < |s.queue| :: Mentions(s.fibers, s.queue[i]))
    && (forall tok | tok in s.waiters :: Mentions(s.fibers, s.waiters[tok]))
  }

  ghost predicate Inv(s: State) { Workers(s) && Tasks(s) }

  lemma {:induction false} InvIsSafe(s: State)
    requires Inv(s)
    ensures Safe(s)
  {
    forall w, w' | 0 <= w < w' < |s.pcs| && Served(s.pcs[w]).Some? ensures Served(s.pcs[w]) != Served(s.pcs[w']) {
      assert Apart(s.pcs[w], s.cbFiber[w], s.pcs[w'], s.cbFiber[w']);
    }
    forall w | 0 <= w < |s.pcs| ensures Local(s.fibers, s.pcs[w], s.cbFiber[w], s.idle[w]) {}
  }

  // A step of worker `w` keeps the invariant when it leaves the worker in order, the others
  // undisturbed, and the worker apart from the others.
  lemma {:induction false} WorkerStep(s: State, t: State, w: nat)
    requires Workers(s) && w < |s.pcs| && |t.pcs| == |s.pcs| && |t.cbFiber| == |s.pcs| && |t.idle| == |s.pcs|
    requires t.pcs == s.pcs[w := t.pcs[w]] && t.cbFiber == s.cbFiber[w := t.cbFiber[w]] && t.idle == s.idle[w := t.idle[w]]
    requires Local(t.fibers, t.pcs[w], t.cbFiber[w], t.idle[w])
    requires forall v | 0 <= v < |s.pcs| && v != w :: Local(t.fibers, s.pcs[v], s.cbFiber[v], s.idle[v])
    requires forall v | 0 <= v < |s.pcs| && v != w :: Apart(t.pcs[w], t.cbFiber[w], s.pcs[v], s.cbFiber[v])
    ensures Workers(t)
  {
    hide Local;
    forall v, v' | 0 <= v < |t.pcs| && 0 <= v' < |t.pcs| && v != v'
      ensures Apart(t.pcs[v], t.cbFiber[v], t.pcs[v'], t.cbFiber[v'])
    {
      if v != w && v' != w { assert Apart(s.pcs[v], s.cbFiber[v], s.pcs[v'], s.cbFiber[v']); }
      if v' == w { assert Apart(t.pcs[w], t.cbFiber[w], s.pcs[v], s.cbFiber[v]); }
    }
  }

  // The tasks still name existing fibers when fibers are only added and queued tasks are known.
  lemma {:induction false} TasksKept(s: State, t: State)
    requires Tasks(s) && s.fibers.Keys <= t.fibers.Keys
    requires forall x | x in t.queue :: x in s.queue || Mentions(t.fibers, x)
    requires forall k | k in t.waiters :: (k in s.waiters && t.waiters[k] == s.waiters[k]) || Mentions(t.fibers, t.waiters[k])
    ensures Tasks(t)
  {
    forall i | 0 <= i < |t.queue| ensures Mentions(t.fibers, t.queue[i]) {
      assert t.queue[i] in t.queue;
    }
  }

  ghost predicate OnlyWorker(s: State, t: State, w: nat) {
    && w < |s.pcs| == |s.cbFiber| == |s.idle| == |t.pcs| == |t.cbFiber| == |t.idle|
    && t.pcs == s.pcs[w := t.pcs[w]] && t.cbFiber == s.cbFiber[w := t.cbFiber[w]] && t.idle == s.idle[w := t.idle[w]]
  }

  // A step that takes up no new fiber and changes no fiber's state.
  lemma {:induction false} QuietStep(s: State, t: State, w: nat)
    requires Workers(s) && OnlyWorker(s, t, w) && t.fibers == s.fibers
    requires Served(t.pcs[w]).Some? ==> Served(t.pcs[w]) == Served(s.pcs[w])
    requires t.cbFiber[w].Some? ==> t.cbFiber[w] == s.cbFiber[w]
    requires Local(t.fibers, t.pcs[w], t.cbFiber[w], t.idle[w])
    ensures Workers(t)
  {
    hide Local;
    forall v | 0 <= v < |s.pcs| && v != w ensures Apart(t.pcs[w], t.cbFiber[w], s.pcs[v], s.cbFiber[v]) {
      assert Apart(s.pcs[w], s.cbFiber[w], s.pcs[v], s.cbFiber[v]);
    }
    WorkerStep(s, t, w);
  }

  // A step that changes the state of the fiber the worker serves.
  lemma {:induction false} OwnStep(s: State, t: State, w: nat, f: FiberId, st: FiberState)
    requires Workers(s) && OnlyWorker(s, t, w) && Served(s.pcs[w]) == Some(f) && st != EXEC
    requires t.fibers == s.fibers[f := st]
    requires Served(t.pcs[w]).Some? ==> Served(t.pcs[w]) == Some(f)
    requires t.cbFiber[w].Some? ==> t.cbFiber[w] == s.cbFiber[w]
    requires Local(t.fibers, t.pcs[w], t.cbFiber[w], t.idle[w])
    ensures Workers(t)
  {
    assert Local(s.fibers, s.pcs[w], s.cbFiber[w], s.idle[w]);
    forall v | 0 <= v < |s.pcs| && v != w
      ensures Apart(t.pcs[w], t.cbFiber[w], s.pcs[v], s.cbFiber[v]) && Local(t.fibers, s.pcs[v], s.cbFiber[v], s.idle[v])
    {
      assert Apart(s.pcs[w], s.cbFiber[w], s.pcs[v], s.cbFiber[v]) && Local(s.fibers, s.pcs[v], s.cbFiber[v], s.idle[v]);
    }
    hide Local, Apart;
    WorkerStep(s, t, w);
  }

  // A step that takes up a fiber nobody else has in hand, keeps or has picked.
  lemma {:induction false} TakeStep(s: State, t: State, w: nat, f: FiberId)
    requires Workers(s) && OnlyWorker(s, t, w) && t.fibers == s.fibers[f := EXEC]
    requires forall v | 0 <= v < |s.pcs| && v != w ::
               Served(s.pcs[v]) != Some(f) && s.cbFiber[v] != Some(f) && !(s.pcs[v].Picked? && s.pcs[v].task.FiberTask? && s.pcs[v].task.f == f)
    requires Served(t.pcs[w]) == Some(f)
    requires t.cbFiber[w].Some? ==> t.cbFiber[w] == s.cbFiber[w] || t.cbFiber[w] == Some(f)
    requires Local(t.fibers, t.pcs[w], t.cbFiber[w], t.idle[w])
    ensures Workers(t)
  {
    forall v | 0 <= v < |s.pcs| && v != w
      ensures Apart(t.pcs[w], t.cbFiber[w], s.pcs[v], s.cbFiber[v]) && Local(t.fibers, s.pcs[v], s.cbFiber[v], s.idle[v])
    {
      assert Apart(s.pcs[w], s.cbFiber[w], s.pcs[v], s.cbFiber[v]) && Local(s.fibers, s.pcs[v], s.cbFiber[v], s.idle[v]);
    }
    hide Local, Apart;
    WorkerStep(s, t, w);
  }

  // ---- Every step keeps the invariant ----

  lemma {:induction false} OutsideKeeps(s: State, a: Action)
    requires Inv(s) && Enabled(s, a)
    requires Outside(a)
    ensures Inv(Apply(s, a))
  {
    var t := Apply(s, a);
    assert Workers(t) by {
      forall w | 0 <= w < |t.pcs| ensures Local(t.fibers, t.pcs[w], t.cbFiber[w], t.idle[w]) {
        assert Local(s.fibers, s.pcs[w], s.cbFiber[w], s.idle[w]);
      }
      hide Local;
      forall v, v' | 0 <= v < |t.pcs| && 0 <= v' < |t.pcs| && v != v'
        ensures Apart(t.pcs[v], t.cbFiber[v], t.pcs[v'], t.cbFiber[v'])
      {
        assert Apart(s.pcs[v], s.cbFiber[v], s.pcs[v'], s.cbFiber[v']);
      }
    }
    hide Workers;
    TasksKept(s, t);
  }

  lemma {:induction false} PickKeeps(s: State, w: nat, i: nat)
    requires Inv(s) && Enabled(s, Pick(w, i))
    ensures Inv(Apply(s, Pick(w, i)))
  {
    var t := Apply(s, Pick(w, i));
    PickIsLocal(s, w, i);
    PickShrinks(s, w, i);
    hide Workers, Tasks, Local, MayPick;
    QuietStep(s, t, w);
    TasksKept(s, t);
  }

  lemma {:induction false} PickIsLocal(s: State, w: nat, i: nat)
    requires Workers(s) && Tasks(s) && Enabled(s, Pick(w, i))
    ensures var t := Apply(s, Pick(w, i)); OnlyWorker(s, t, w) && Local(t.fibers, t.pcs[w], t.cbFiber[w], t.idle[w])
  {
    assert Local(s.fibers, s.pcs[w], s.cbFiber[w], s.idle[w]);
    assert i < |s.queue| ==> Mentions(s.fibers, s.queue[i]);
  }

  lemma {:induction false} PickShrinks(s: State, w: nat, i: nat)
    requires Enabled(s, Pick(w, i))
    ensures forall x | x in Apply(s, Pick(w, i)).queue :: x in s.queue
  {
  }

  // The callback of an expired timer goes from the set to the idle worker, and on to the queue.
  lemma {:induction false} ExpiryKeeps(s: State, a: Action)
    requires Inv(s) && Enabled(s, a) && (a.Collect? || a.Deliver?)
    ensures Inv(Apply(s, a))
  {
    var t := Apply(s, a);
    assert Local(s.fibers, s.pcs[a.w], s.cbFiber[a.w], s.idle[a.w]);
    ExpiryIsLocal(s, a);
    hide Workers, Tasks, Local;
    QuietStep(s, t, a.w);
    TasksKept(s, t);
  }

  lemma {:induction false} ExpiryIsLocal(s: State, a: Action)
    requires Tasks(s) && Enabled(s, a) && (a.Collect? || a.Deliver?) && Local(s.fibers, s.pcs[a.w], s.cbFiber[a.w], s.idle[a.w])
    ensures var t := Apply(s, a); OnlyWorker(s, t, a.w) && Local(t.fibers, t.pcs[a.w], t.cbFiber[a.w], t.idle[a.w])
    ensures forall x | x in Apply(s, a).queue :: x in s.queue || Mentions(s.fibers, x)
  {
  }

  // ---- Entering a fiber ----

  // Worker `v` has fiber `f`: it serves it, keeps it for its next callback, or has picked it.
  predicate Has(s: State, v: nat, f: FiberId)
    requires At(s, v)
  {
    Served(s.pcs[v]) == Some(f) || s.cbFiber[v] == Some(f)
    || (s.pcs[v].Picked? && s.pcs[v].task.FiberTask? && s.pcs[v].task.f == f)
  }

  predicate NobodyElse(s: State, w: nat, f: FiberId)
    requires At(s, w)
  {
    forall v | 0 <= v < |s.pcs| && v != w :: !Has(s, v, f)
  }

  /** A step enters no fiber that another worker has, and no task is the fiber that its own worker
      keeps for callbacks. */
  predicate EntersAlone(s: State, a: Action)
    requires Enabled(s, a)
  {
    match a
    case Start(w) => NobodyElse(s, w, s.pcs[w].task.f) && s.cbFiber[w] != Some(s.pcs[w].task.f)
    case StartCb(w, spare) => NobodyElse(s, w, CbFiber(s, w, spare))
    case _ => true
  }

  lemma {:induction false} StartKeeps(s: State, w: nat)
    requires Inv(s) && Enabled(s, Start(w)) && EntersAlone(s, Start(w))
    ensures Inv(Apply(s, Start(w)))
  {
    var t := Apply(s, Start(w));
    var f := s.pcs[w].task.f;
    assert Local(s.fibers, s.pcs[w], s.cbFiber[w], s.idle[w]);
    forall v | 0 <= v < |s.pcs| && v != w
      ensures Served(s.pcs[v]) != Some(f) && s.cbFiber[v] != Some(f) && !(s.pcs[v].Picked? && s.pcs[v].task.FiberTask? && s.pcs[v].task.f == f)
    {
      assert !Has(s, v, f);
    }
    hide Workers, Tasks;
    TakeStep(s, t, w, f);
    TasksKept(s, t);
  }

  lemma {:induction false} StartCbKeeps(s: State, w: nat, spare: FiberId)
    requires Inv(s) && Enabled(s, StartCb(w, spare)) && EntersAlone(s, StartCb(w, spare))
    ensures Inv(Apply(s, StartCb(w, spare)))
  {
    var t := Apply(s, StartCb(w, spare));
    var f := t.pcs[w].f;
    assert Local(s.fibers, s.pcs[w], s.cbFiber[w], s.idle[w]);
    forall v | 0 <= v < |s.pcs| && v != w
      ensures Served(s.pcs[v]) != Some(f) && s.cbFiber[v] != Some(f) && !(s.pcs[v].Picked? && s.pcs[v].task.FiberTask? && s.pcs[v].task.f == f)
    {
      assert !Has(s, v, f);
    }
    hide Workers, Tasks;
    TakeStep(s, t, w, f);
    TasksKept(s, t);
  }

  // After a fiber has been entered in order, no other worker has it.
  lemma {:induction false} EnteredAlone(s: State, w: nat, f: FiberId, v: nat)
    requires Inv(s) && w < |s.pcs| && v < |s.pcs| && v != w && s.pcs[w].Running? && s.pcs[w].f == f
    ensures !Has(s, v, f) && (s.cbFiber[w] == Some(f) <==> s.pcs[w].cb)
  {
    assert Local(s.fibers, s.pcs[w], s.cbFiber[w], s.idle[w]);
    assert Local(s.fibers, s.pcs[v], s.cbFiber[v], s.idle[v]);
    assert Apart(s.pcs[w], s.cbFiber[w], s.pcs[v], s.cbFiber[v]);
  }

  lemma {:induction false} EnteringNeedsAlone(s: State, a: Action)
    requires Enabled(s, a) && (a.Start? || a.StartCb?) && Inv(Apply(s, a))
    ensures EntersAlone(s, a)
  {
    var t, w := Apply(s, a), a.w;
    var f := t.pcs[w].f;
    forall v | 0 <= v < |s.pcs| && v != w ensures !Has(s, v, f) { EnteredAlone(t, w, f, v); }
    assert Local(t.fibers, t.pcs[w], t.cbFiber[w], t.idle[w]);
    hide Inv;
  }

  // With one wake-up per fiber, nobody has the fiber that a step enters: a worker handing it back
  // READY, or keeping it, would be a second one.
  lemma {:induction false} OneWakeUpEntersAlone(s: State, a: Action)
    requires Inv(s) && AtMostOneWakeUp(s) && Enabled(s, a)
    ensures EntersAlone(s, a)
  {
    if a.Start? {
      var w, f := a.w, s.pcs[a.w].task.f;
      assert ClaimAt(s, AtWorker(w), f);
      assert Local(s.fibers, s.pcs[w], s.cbFiber[w], s.idle[w]);
      forall v | 0 <= v < |s.pcs| && v != w ensures !Has(s, v, f) {
        assert Local(s.fibers, s.pcs[v], s.cbFiber[v], s.idle[v]);
        assert !ClaimAt(s, AtWorker(v), f) && !ClaimAt(s, Kept(v), f);
      }
      assert !ClaimAt(s, Kept(w), f);
    } else if a.StartCb? {
      var w, f := a.w, CbFiber(s, a.w, a.spare);
      assert Local(s.fibers, s.pcs[w], s.cbFiber[w], s.idle[w]);
      forall v | 0 <= v < |s.pcs| && v != w ensures !Has(s, v, f) { CbFiberIsAlone(s, w, a.spare, v); }
    }
  }

  lemma {:induction false} CbFiberIsAlone(s: State, w: nat, spare: FiberId, v: nat)
    requires Inv(s) && AtMostOneWakeUp(s) && Enabled(s, StartCb(w, spare)) && v < |s.pcs| && v != w
    ensures !Has(s, v, CbFiber(s, w, spare))
  {
    var f := CbFiber(s, w, spare);
    assert Local(s.fibers, s.pcs[w], s.cbFiber[w], s.idle[w]);
    assert Local(s.fibers, s.pcs[v], s.cbFiber[v], s.idle[v]);
    assert Apart(s.pcs[w], s.cbFiber[w], s.pcs[v], s.cbFiber[v]);
    if s.cbFiber[w].Some? {
      assert ClaimAt(s, Kept(w), f);
      assert !ClaimAt(s, AtWorker(v), f);
    }
  }

  lemma {:induction false} MarkKeeps(s: State, w: nat, to: FiberState)
    requires Inv(s) && Enabled(s, Mark(w, to))
    ensures Inv(Apply(s, Mark(w, to)))
  {
    var t := Apply(s, Mark(w, to));
    assert Local(s.fibers, s.pcs[w], s.cbFiber[w], s.idle[w]);
    hide Workers, Tasks;
    OwnStep(s, t, w, s.pcs[w].f, to);
    TasksKept(s, t);
  }

  lemma {:induction false} RepayKeeps(s: State, w: nat)
    requires Inv(s) && Enabled(s, Repay(w))
    ensures Inv(Apply(s, Repay(w)))
  {
    var t := Apply(s, Repay(w));
    assert Local(s.fibers, s.pcs[w], s.cbFiber[w], s.idle[w]);
    hide Workers, Tasks;
    QuietStep(s, t, w);
    TasksKept(s, t);
  }

  lemma {:induction false} DecideKeeps(s: State, w: nat)
    requires Inv(s) && Enabled(s, Decide(w))
    ensures Inv(Apply(s, Decide(w)))
  {
    var t := Apply(s, Decide(w));
    var f := s.pcs[w].f;
    assert Local(s.fibers, s.pcs[w], s.cbFiber[w], s.idle[w]);
    hide Workers, Tasks;
    if Ended(s.fibers[f]) && s.pcs[w].cb { OwnStep(s, t, w, f, INIT); } else { QuietStep(s, t, w); }
    TasksKept(s, t);
  }

  lemma {:induction false} FinishKeeps(s: State, w: nat)
    requires Inv(s) && Enabled(s, Finish(w))
    ensures Inv(Apply(s, Finish(w)))
  {
    var t := Apply(s, Finish(w));
    assert Local(s.fibers, s.pcs[w], s.cbFiber[w], s.idle[w]);
    hide Workers, Tasks;
    if s.pcs[w].Holding? { OwnStep(s, t, w, s.pcs[w].f, HOLD); } else { QuietStep(s, t, w); }
    TasksKept(s, t);
  }

  lemma {:induction false} PlainKeeps(s: State, a: Action)
    requires Inv(s) && Enabled(s, a) && (a.Discard? || a.SwapOut? || a.Decrement?)
    ensures Inv(Apply(s, a))
  {
    var t := Apply(s, a);
    assert Local(s.fibers, s.pcs[a.w], s.cbFiber[a.w], s.idle[a.w]);
    hide Workers, Tasks;
    QuietStep(s, t, a.w);
    TasksKept(s, t);
  }

  lemma {:induction false} IdleKeeps(s: State, a: Action)
    requires Inv(s) && Enabled(s, a) && (a.EnterIdle? || a.LeaveIdle? || a.Exit?)
    ensures Inv(Apply(s, a))
  {
    var t := Apply(s, a);
    assert Local(s.fibers, s.pcs[a.w], s.cbFiber[a.w], s.idle[a.w]);
    hide Workers, Tasks;
    QuietStep(s, t, a.w);
    TasksKept(s, t);
  }

  /** Whatever the wake-ups, a step keeps every fiber with one worker if and only if it enters no
      fiber that another worker serves, keeps or has picked. */
  lemma {:induction false} StepKeeps(s: State, a: Action)
    requires Inv(s) && Enabled(s, a)
    ensures Inv(Apply(s, a)) <==> EntersAlone(s, a)
  {
    hide Inv, Apply, Enabled, NobodyElse;
    match a
    case Pick(w, i) => PickKeeps(s, w, i);
    case Start(w) =>
      if EntersAlone(s, a) { StartKeeps(s, w); }
      if Inv(Apply(s, a)) { EnteringNeedsAlone(s, a); }
    case StartCb(w, spare) =>
      if EntersAlone(s, a) { StartCbKeeps(s, w, spare); }
      if Inv(Apply(s, a)) { EnteringNeedsAlone(s, a); }
    case Mark(w, to) => MarkKeeps(s, w, to);
    case Repay(w) => RepayKeeps(s, w);
    case Collect(_, _, _) => ExpiryKeeps(s, a);
    case Deliver(_) => ExpiryKeeps(s, a);
    case Decide(w) => DecideKeeps(s, w);
    case Finish(w) => FinishKeeps(s, w);
    case Discard(_) => PlainKeeps(s, a);
    case SwapOut(_) => PlainKeeps(s, a);
    case Decrement(_) => PlainKeeps(s, a);
    case EnterIdle(_) => IdleKeeps(s, a);
    case LeaveIdle(_, _) => IdleKeeps(s, a);
    case Exit(_) => IdleKeeps(s, a);
    case _ => OutsideKeeps(s, a);
  }

  // ---- Whole runs ----

  // Every fiber is with one worker in every state of the run.
  ghost predicate KeptThroughout(s: State, acts: seq<Action>)
    requires CanRun(s, acts)
    decreases |acts|
  {
    Inv(s) && (acts != [] ==> KeptThroughout(Apply(s, acts[0]), acts[1..]))
  }

  ghost predicate AloneThroughout(s: State, acts: seq<Action>)
    requires CanRun(s, acts)
    decreases |acts|
  {
    acts != [] ==> EntersAlone(s, acts[0]) && AloneThroughout(Apply(s, acts[0]), acts[1..])
  }

  /** The same over every run, as an if-and-only-if. */
  lemma {:induction false} ExclusionExactly(s: State, acts: seq<Action>)
    requires Inv(s) && CanRun(s, acts)
    ensures KeptThroughout(s, acts) <==> AloneThroughout(s, acts)
    decreases |acts|
  {
    hide Inv, Apply, Enabled, EntersAlone;
    if acts != [] {
      StepKeeps(s, acts[0]);
      if Inv(Apply(s, acts[0])) { ExclusionExactly(Apply(s, acts[0]), acts[1..]); }
    }
  }

  // What is kept throughout holds at the end, and is safe.
  lemma {:induction false} KeptIsSafe(s: State, acts: seq<Action>)
    requires CanRun(s, acts) && KeptThroughout(s, acts)
    ensures Inv(Run(s, acts)) && Safe(Run(s, acts))
    decreases |acts|
  {
    hide Inv, Safe, Apply, Enabled;
    if acts == [] { InvIsSafe(s); } else { KeptIsSafe(Apply(s, acts[0]), acts[1..]); }
  }

  // No state of the run, from the first to the last, has a fiber with two wake-ups.
  ghost predicate OneWakeUpThroughout(s: State, acts: seq<Action>)
    requires CanRun(s, acts)
    decreases |acts|
  {
    AtMostOneWakeUp(s) && (acts != [] ==> OneWakeUpThroughout(Apply(s, acts[0]), acts[1..]))
  }

  lemma {:induction false} OneWakeUpIsAlone(s: State, acts: seq<Action>)
    requires Inv(s) && CanRun(s, acts) && OneWakeUpThroughout(s, acts)
    ensures AloneThroughout(s, acts)
    decreases |acts|
  {
    hide Inv, Apply, Enabled, EntersAlone, AtMostOneWakeUp;
    if acts != [] {
      OneWakeUpEntersAlone(s, acts[0]);
      StepKeeps(s, acts[0]);
      OneWakeUpIsAlone(Apply(s, acts[0]), acts[1..]);
    }
  }

  /** In every interleaving of any number of workers in which no fiber ever has two outstanding
      wake-ups, counting the fiber that a worker keeps for its next callback, no fiber is in the
      hands of two workers and none of the assertions of swapIn, reset, the yields and addEvent on
      fiber states fails, including wake-ups that arrive before the yielding worker has set HOLD. */
  lemma {:induction false} MutualExclusion(s: State, acts: seq<Action>)
    requires Inv(s) && CanRun(s, acts) && OneWakeUpThroughout(s, acts)
    ensures Inv(Run(s, acts)) && Safe(Run(s, acts))
  {
    hide Inv, Safe, CanRun, Run, OneWakeUpThroughout, KeptThroughout, AloneThroughout;
    OneWakeUpIsAlone(s, acts);
    ExclusionExactly(s, acts);
    KeptIsSafe(s, acts);
  }

  // ---- What a step that does not enter alone leads to ----

  /** Entering a fiber that another worker serves or has picked breaks safety at once. */
  lemma {:induction false} SharingFails(s: State, w: nat, v: nat)
    requires Inv(s) && Enabled(s, Start(w)) && v < |s.pcs| && v != w
    requires Has(s, v, s.pcs[w].task.f) && s.cbFiber[v] != Some(s.pcs[w].task.f)
    ensures !Safe(Apply(s, Start(w)))
  {
    var t, f := Apply(s, Start(w)), s.pcs[w].task.f;
    assert t.pcs[v] == s.pcs[v] && t.fibers[f] == EXEC && Served(t.pcs[w]) == Some(f);
    if Served(s.pcs[v]) == Some(f) {
      assert Served(t.pcs[if v < w then v else w]) == Served(t.pcs[if v < w then w else v]);
    }
  }

  /** So does entering a fiber that another worker keeps, once that worker has a callback to run. */
  lemma {:induction false} TakingAKeptFiberFails(s: State, w: nat, v: nat)
    requires Inv(s) && Enabled(s, Start(w)) && v < |s.pcs| && v != w
    requires s.cbFiber[v] == Some(s.pcs[w].task.f) && s.pcs[v].Picked? && s.pcs[v].task.CbTask?
    ensures !Safe(Apply(s, Start(w)))
  {
    var t, f := Apply(s, Start(w)), s.pcs[w].task.f;
    assert t.pcs[v] == s.pcs[v] && t.cbFiber[v] == Some(f) && t.fibers[f] == EXEC;
  }

  lemma {:induction false} FreshIsOrdered(n: nat)
    ensures Inv(Fresh(n))
  {
  }

  // A fiber scheduled twice.
  lemma {:induction false} TwoEntries(t: Task)
    requires t == FiberTask(7, -1)
    ensures var s := Fresh(2);
            && Enabled(s, Spawn(7)) && Enabled(Apply(s, Spawn(7)), Schedule(t))
            && Enabled(Apply(Apply(s, Spawn(7)), Schedule(t)), Schedule(t))
            && var s3 := Apply(Apply(Apply(s, Spawn(7)), Schedule(t)), Schedule(t));
               s3.queue == [t, t] && s3.pcs == [Scan, Scan] && s3.fibers == map[7 := INIT] && At(s3, 0)
  {
  }

  // Two entries of one fiber, two idle-handed workers: both pick it.
  lemma {:induction false} BothPick(s: State, t: Task)
    requires s.queue == [t, t] && s.pcs == [Scan, Scan] && At(s, 0) && t == FiberTask(7, -1)
    requires s.fibers == map[7 := INIT]
    ensures var s1 := Apply(s, Pick(0, 0));
            && Enabled(s, Pick(0, 0)) && Enabled(s1, Pick(1, 0))
            && var s2 := Apply(s1, Pick(1, 0));
               At(s2, 0) && s2.pcs == [Picked(t), Picked(t)] && s2.fibers == s.fibers
  {
    assert Eligible(t, 0, s.fibers) && Eligible(t, 1, s.fibers);
    assert s.queue[..0] + s.queue[1..] == [t];
  }

  // A fiber picked by two workers: once the first has entered it, the second fails the assertion.
  lemma {:induction false} SecondFails(s: State, t: Task)
    requires At(s, 0) && s.pcs == [Picked(t), Picked(t)] && t == FiberTask(7, -1) && s.fibers == map[7 := INIT]
    ensures Enabled(s, Start(0)) && !Safe(Apply(s, Start(0)))
  {
    var s' := Apply(s, Start(0));
    assert s'.pcs[1] == Picked(t) && s'.fibers[7] == EXEC;
  }

  /** The condition is needed: scheduling one fiber twice lets a second worker pick it before the
      first has entered it, and the assertion in swapIn fails. */
  lemma {:induction false} TwoWakeUpsBreakIt()
    ensures exists acts :: CanRun(Fresh(2), acts) && !Safe(Run(Fresh(2), acts))
  {
    hide Safe, CanRun, Run, Apply, Enabled, Fresh;
    var t := FiberTask(7, -1);
    TwoEntries(t);
    var s3 := Apply(Apply(Apply(Fresh(2), Spawn(7)), Schedule(t)), Schedule(t));
    BothPick(s3, t);
    SecondFails(Apply(Apply(s3, Pick(0, 0)), Pick(1, 0)), t);
    RunOf6(Fresh(2), Spawn(7), Schedule(t), Schedule(t), Pick(0, 0), Pick(1, 0), Start(0));
  }

  lemma {:induction false} RunOf6(s: State, a: Action, b: Action, c: Action, d: Action, e: Action, f: Action)
    requires Enabled(s, a) && Enabled(Apply(s, a), b) && Enabled(Apply(Apply(s, a), b), c)
    requires var s3 := Apply(Apply(Apply(s, a), b), c);
             Enabled(s3, d) && Enabled(Apply(s3, d), e) && Enabled(Apply(Apply(s3, d), e), f)
    ensures CanRun(s, [a, b, c, d, e, f])
    ensures Run(s, [a, b, c, d, e, f]) == Apply(Apply(Apply(Apply(Apply(Apply(s, a), b), c), d), e), f)
  {
    hide Apply, Enabled;
    var s1 := Apply(s, a);
    var s2 := Apply(s1, b);
    var s3 := Apply(s2, c);
    var s4 := Apply(s3, d);
    var s5 := Apply(s4, e);
    var s6 := Apply(s5, f);
    RunNothing(s6);
    RunCons(s5, f, []);
    RunCons(s4, e, [f]);
    RunCons(s3, d, [e, f]);
    RunCons(s2, c, [d, e, f]);
    RunCons(s1, b, [c, d, e, f]);
    RunCons(s, a, [b, c, d, e, f]);
  }
}
