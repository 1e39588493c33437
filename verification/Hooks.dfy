/** The hooked system calls keep the scheduler's condition: a fiber that waits through them
    registers one wake-up and yields, so no fiber ever has two. */
module Hooks {
  import opened Options
  import opened Scheduler
  import opened Exclusion

  // `armed` are the fibers that have registered a wake-up since they were last entered; `unborn`
  // those that were created and never scheduled.
  datatype World = World(s: State, armed: set<FiberId>, unborn: set<FiberId>)

  /** The protocol of do_io, connect_with_timeout and the sleep functions, and of handing a new
      fiber to the scheduler once: only the running fiber registers itself, at most once before it
      yields by hold; a fiber that yields READY or ends has registered nothing; no recurring timer
      wakes a fiber. Everything else, who fires or drops a registration and when, is free. */
  ghost predicate Follows(h: World, a: Action)
    requires Enabled(h.s, a)
  {
    match a
    case Schedule(t) => Target(t).Some? ==> Target(t).value in h.unborn
    case Register(_, t) => Target(t).Some? ==>
      var f := Target(t).value; f !in h.armed && h.s.fibers[f] == EXEC && InHands(h.s, f)
    case Mark(w, _) => h.s.pcs[w].f !in h.armed
    case Collect(_, tok, again) => again ==> Target(h.s.waiters[tok]).None?
    case _ => true
  }

  ghost predicate InHands(s: State, f: FiberId) {
    exists w :: 0 <= w < |s.pcs| && Served(s.pcs[w]) == Some(f)
  }

  ghost function Next(h: World, a: Action): World
    requires Enabled(h.s, a)
  {
    var s' := Apply(h.s, a);
    match a
    case Spawn(f) => World(s', h.armed, h.unborn + {f})
    case Schedule(t) => World(s', h.armed, if Target(t).Some? then h.unborn - {Target(t).value} else h.unborn)
    case Register(_, t) => World(s', if Target(t).Some? then h.armed + {Target(t).value} else h.armed, h.unborn)
    case Start(w) => World(s', h.armed - {s'.pcs[w].f}, h.unborn)
    case StartCb(w, _) => World(s', h.armed - {s'.pcs[w].f}, h.unborn)
    case _ => World(s', h.armed, h.unborn)
  }

  ghost predicate Unclaimed(s: State, f: FiberId) { forall p :: !ClaimAt(s, p, f) }

  ghost predicate Orderly(h: World) {
    && Inv(h.s) && AtMostOneWakeUp(h.s)
    && (forall f | f in h.unborn :: f in h.s.fibers && h.s.fibers[f] == INIT && Unclaimed(h.s, f))
    && (forall f | f in h.s.fibers && h.s.fibers[f] == EXEC && InHands(h.s, f) && f !in h.armed :: Unclaimed(h.s, f))
  }

  // ---- Where each wake-up came from ----

  // The step makes a new wake-up for `f`.
  predicate Creates(s: State, a: Action, f: FiberId)
    requires Enabled(s, a)
  {
    match a
    case Schedule(t) => Wakes(t, f)
    case Register(_, t) => Wakes(t, f)
    case Mark(w, _) => s.pcs[w].f == f
    case Collect(_, tok, again) => again && Wakes(s.waiters[tok], f)
    case _ => false
  }

  // The place, before the step, of a wake-up that is at `p` after it.
  function Origin(s: State, a: Action, p: Place): Place {
    match a
    case Pick(w, i) =>
      if i < |s.queue| && p == AtWorker(w) then InQueue(i)
      else if i < |s.queue| && p.InQueue? && p.i >= i then InQueue(p.i + 1)
      else p
    case Fire(tok) => if p == InQueue(|s.queue|) then AtToken(tok) else p
    case Finish(w) => if p == InQueue(|s.queue|) then AtWorker(w) else p
    case Repay(w) => if p == InQueue(|s.queue|) then AtWorker(w) else p
    case Collect(w, tok, _) => if w < |s.pcs| && s.pcs[w].InIdle? && p == InHand(w, |s.pcs[w].due|) then AtToken(tok) else p
    case Deliver(w) => if p.InQueue? && p.i >= |s.queue| then InHand(w, p.i - |s.queue|) else p
    case _ => p
  }

  lemma {:induction false} PickOrigin(s: State, w: nat, i: nat, p: Place, f: FiberId)
    requires Inv(s) && Enabled(s, Pick(w, i)) && ClaimAt(Apply(s, Pick(w, i)), p, f)
    ensures ClaimAt(s, Origin(s, Pick(w, i), p), f)
  {
    hide Inv;
    if i < |s.queue| && p.InQueue? {
      assert (s.queue[..i] + s.queue[i + 1..])[p.i] == s.queue[if p.i < i then p.i else p.i + 1];
    }
  }

  lemma {:induction false} FinishOrigin(s: State, w: nat, p: Place, f: FiberId)
    requires Inv(s) && Enabled(s, Finish(w)) && ClaimAt(Apply(s, Finish(w)), p, f)
    ensures ClaimAt(s, Origin(s, Finish(w), p), f)
  {
    hide Inv, Apply, ClaimAt;
    if s.pcs[w].Requeue? { RequeueOrigin(s, w, p, f); } else { HoldOrigin(s, w, p, f); }
  }

  lemma {:induction false} RequeueOrigin(s: State, w: nat, p: Place, f: FiberId)
    requires Inv(s) && Enabled(s, Finish(w)) && s.pcs[w].Requeue? && ClaimAt(Apply(s, Finish(w)), p, f)
    ensures ClaimAt(s, Origin(s, Finish(w), p), f)
  {
    assert Local(s.fibers, s.pcs[w], s.cbFiber[w], s.idle[w]);
    hide Inv;
  }

  lemma {:induction false} HoldOrigin(s: State, w: nat, p: Place, f: FiberId)
    requires Inv(s) && Enabled(s, Finish(w)) && s.pcs[w].Holding? && ClaimAt(Apply(s, Finish(w)), p, f)
    ensures ClaimAt(s, Origin(s, Finish(w), p), f)
  {
    assert Local(s.fibers, s.pcs[w], s.cbFiber[w], s.idle[w]);
    if (p.AtWorker? || p.Kept?) && p.w < |s.pcs| && p.w != w {
      assert Apart(s.pcs[w], s.cbFiber[w], s.pcs[p.w], s.cbFiber[p.w]);
      assert Local(s.fibers, s.pcs[p.w], s.cbFiber[p.w], s.idle[p.w]);
    }
    hide Inv;
  }

  // A wake-up on its way from a timer to the queue.
  lemma {:induction false} ExpiryOrigin(s: State, a: Action, p: Place, f: FiberId)
    requires (a.Collect? || a.Deliver?) && Enabled(s, a) && !Creates(s, a, f) && ClaimAt(Apply(s, a), p, f)
    ensures ClaimAt(s, Origin(s, a, p), f)
  {
  }

  lemma {:induction false} RepayOrigin(s: State, w: nat, p: Place, f: FiberId)
    requires Enabled(s, Repay(w)) && ClaimAt(Apply(s, Repay(w)), p, f)
    ensures ClaimAt(s, Origin(s, Repay(w), p), f)
  {
  }

  lemma {:induction false} DecideOrigin(s: State, w: nat, p: Place, f: FiberId)
    requires Inv(s) && Enabled(s, Decide(w)) && ClaimAt(Apply(s, Decide(w)), p, f)
    ensures ClaimAt(s, p, f)
  {
    assert Local(s.fibers, s.pcs[w], s.cbFiber[w], s.idle[w]);
    if (p.AtWorker? || p.Kept?) && p.w < |s.pcs| && p.w != w {
      assert Apart(s.pcs[w], s.cbFiber[w], s.pcs[p.w], s.cbFiber[p.w]);
      assert Local(s.fibers, s.pcs[p.w], s.cbFiber[p.w], s.idle[p.w]);
    }
  }

  lemma {:induction false} EnterOrigin(s: State, a: Action, p: Place, f: FiberId)
    requires Inv(s) && (a.Start? || a.StartCb?) && Enabled(s, a) && ClaimAt(Apply(s, a), p, f)
    ensures ClaimAt(s, p, f)
  {
    assert Local(s.fibers, s.pcs[a.w], s.cbFiber[a.w], s.idle[a.w]);
    hide Inv;
  }

  lemma {:induction false} PlainOrigin(s: State, a: Action, p: Place, f: FiberId)
    requires a.Discard? || a.SwapOut? || a.Decrement?
    requires Enabled(s, a) && ClaimAt(Apply(s, a), p, f)
    ensures ClaimAt(s, p, f)
  {
  }

  lemma {:induction false} MarkOrigin(s: State, a: Action, p: Place, f: FiberId)
    requires a.Mark? && Enabled(s, a) && !Creates(s, a, f) && ClaimAt(Apply(s, a), p, f)
    ensures ClaimAt(s, p, f)
  {
  }

  lemma {:induction false} IdleOrigin(s: State, a: Action, p: Place, f: FiberId)
    requires a.EnterIdle? || a.LeaveIdle? || a.Exit?
    requires Enabled(s, a) && ClaimAt(Apply(s, a), p, f)
    ensures ClaimAt(s, p, f)
  {
  }

  lemma {:induction false} OutsideOrigin(s: State, a: Action, p: Place, f: FiberId)
    requires Outside(a)
    requires Inv(s) && Enabled(s, a) && !Creates(s, a, f) && ClaimAt(Apply(s, a), p, f)
    ensures ClaimAt(s, Origin(s, a, p), f)
  {
    if a.Spawn? && p.AtWorker? && p.w < |s.pcs| { assert Local(s.fibers, s.pcs[p.w], s.cbFiber[p.w], s.idle[p.w]); }
    if a.Spawn? && p.Kept? && p.w < |s.pcs| { assert Local(s.fibers, s.pcs[p.w], s.cbFiber[p.w], s.idle[p.w]); }
    hide Inv;
  }

  // A wake-up that the step does not create was there before.
  lemma {:induction false} HasOrigin(s: State, a: Action, p: Place, f: FiberId)
    requires Inv(s) && Enabled(s, a) && !Creates(s, a, f) && ClaimAt(Apply(s, a), p, f)
    ensures ClaimAt(s, Origin(s, a, p), f)
  {
    hide Inv, Apply, Enabled, ClaimAt, Creates;
    match a
    case Pick(w, i) => PickOrigin(s, w, i, p, f);
    case Repay(w) => RepayOrigin(s, w, p, f);
    case Collect(_, _, _) => ExpiryOrigin(s, a, p, f);
    case Deliver(_) => ExpiryOrigin(s, a, p, f);
    case Finish(w) => FinishOrigin(s, w, p, f);
    case Decide(w) => DecideOrigin(s, w, p, f);
    case Start(_) => EnterOrigin(s, a, p, f);
    case StartCb(_, _) => EnterOrigin(s, a, p, f);
    case Discard(_) => PlainOrigin(s, a, p, f);
    case SwapOut(_) => PlainOrigin(s, a, p, f);
    case Decrement(_) => PlainOrigin(s, a, p, f);
    case Mark(_, _) => MarkOrigin(s, a, p, f);
    case EnterIdle(_) => IdleOrigin(s, a, p, f);
    case LeaveIdle(_, _) => IdleOrigin(s, a, p, f);
    case Exit(_) => IdleOrigin(s, a, p, f);
    case _ => OutsideOrigin(s, a, p, f);
  }

  // Two wake-ups after the step come from two before it.
  lemma {:induction false} OriginsDiffer(s: State, a: Action, p: Place, q: Place, f: FiberId)
    requires Inv(s) && Enabled(s, a) && !Creates(s, a, f) && ClaimAt(Apply(s, a), p, f) && ClaimAt(Apply(s, a), q, f)
    requires Origin(s, a, p) == Origin(s, a, q)
    ensures p == q
  {
    hide Inv, Apply, ClaimAt, Enabled, Creates;
    if a.Pick? || a.Fire? || a.Finish? || a.Repay? || a.Collect? || a.Deliver? {
      OriginUnclaimed(s, a, p, f);
      OriginUnclaimed(s, a, q, f);
    }
  }

  // A place that a wake-up has left is not claimed again.
  lemma {:induction false} OriginUnclaimed(s: State, a: Action, p: Place, f: FiberId)
    requires Inv(s) && Enabled(s, a) && !Creates(s, a, f) && ClaimAt(Apply(s, a), p, f)
    ensures a.Fire? ==> p != AtToken(a.tok)
    ensures a.Finish? ==> p != AtWorker(a.w)
    ensures a.Repay? && ClaimAt(Apply(s, a), InQueue(|s.queue|), f) ==> p != AtWorker(a.w)
    ensures a.Collect? ==> p != AtToken(a.tok)
    ensures a.Deliver? && p.InHand? ==> p.w != a.w
  {
    hide Inv, Apply, Enabled, ClaimAt, Creates;
    if a.Fire? || a.Collect? { TokenUnclaimed(s, a, f); }
    if a.Finish? || a.Deliver? { WorkerUnclaimed(s, a, p, f); }
    if a.Repay? && ClaimAt(Apply(s, a), InQueue(|s.queue|), f) { RepaidUnclaimed(s, a.w, f); }
  }

  lemma {:induction false} TokenUnclaimed(s: State, a: Action, f: FiberId)
    requires Enabled(s, a) && (a.Fire? || a.Collect?) && !Creates(s, a, f)
    ensures !ClaimAt(Apply(s, a), AtToken(a.tok), f)
  {
  }

  lemma {:induction false} WorkerUnclaimed(s: State, a: Action, p: Place, f: FiberId)
    requires Enabled(s, a) && (a.Finish? || a.Deliver?) && ClaimAt(Apply(s, a), p, f)
    ensures a.Finish? ==> p != AtWorker(a.w)
    ensures a.Deliver? && p.InHand? ==> p.w != a.w
  {
    PcsMove(s, a);
    hide Apply;
  }

  lemma {:induction false} RepaidUnclaimed(s: State, w: nat, f: FiberId)
    requires Inv(s) && Enabled(s, Repay(w)) && ClaimAt(Apply(s, Repay(w)), InQueue(|s.queue|), f)
    ensures !ClaimAt(Apply(s, Repay(w)), AtWorker(w), f)
  {
    assert Local(s.fibers, s.pcs[w], s.cbFiber[w], s.idle[w]);
    hide Inv;
  }

  lemma {:induction false} SoleServer(s: State, w: nat, v: nat)
    requires Inv(s) && w < |s.pcs| && v < |s.pcs| && v != w && Served(s.pcs[w]).Some?
    ensures Served(s.pcs[v]) != Served(s.pcs[w]) && s.cbFiber[v] != Served(s.pcs[w])
  {
    assert Apart(s.pcs[w], s.cbFiber[w], s.pcs[v], s.cbFiber[v]);
    assert Local(s.fibers, s.pcs[v], s.cbFiber[v], s.idle[v]);
    assert Local(s.fibers, s.pcs[w], s.cbFiber[w], s.idle[w]);
  }

  // Where a step that creates a wake-up for `f` puts it.
  function NewPlace(s: State, a: Action): Place
    requires a.Schedule? || a.Register? || a.Mark? || (a.Collect? && a.w < |s.pcs| && s.pcs[a.w].InIdle?)
  {
    match a
    case Schedule(_) => InQueue(|s.queue|)
    case Register(tok, _) => AtToken(tok)
    case Mark(w, to) => if to == READY then AtWorker(w) else Kept(w)
    case Collect(w, _, _) => InHand(w, |s.pcs[w].due|)
  }

  // The wake-up a step creates is the only one when there was none before.
  lemma {:induction false} CreatedIsOnly(s: State, a: Action, p: Place, f: FiberId)
    requires Inv(s) && Enabled(s, a) && Creates(s, a, f) && Unclaimed(s, f) && ClaimAt(Apply(s, a), p, f)
    ensures p == NewPlace(s, a)
  {
    assert !ClaimAt(s, p, f);
    hide Inv;
    match a
    case Mark(w, to) => MarkedIsOnly(s, w, to, p);
    case Schedule(_) =>
    case Register(_, _) =>
    case Collect(_, _, _) =>
  }

  lemma {:induction false} MarkedIsOnly(s: State, w: nat, to: FiberState, p: Place)
    requires Inv(s) && Enabled(s, Mark(w, to))
    requires var f := s.pcs[w].f; ClaimAt(Apply(s, Mark(w, to)), p, f) && !ClaimAt(s, p, f)
    ensures p == if to == READY then AtWorker(w) else Kept(w)
  {
    if (p.AtWorker? || p.Kept?) && p.w < |s.pcs| && p.w != w { SoleServer(s, w, p.w); }
    hide Inv;
  }

  // ---- The protocol keeps the condition ----

  // Under the protocol, a step creates a wake-up only for a fiber that has none.
  lemma {:induction false} CreatesFromNone(h: World, a: Action, f: FiberId)
    requires Orderly(h) && Enabled(h.s, a) && Follows(h, a) && Creates(h.s, a, f)
    ensures Unclaimed(h.s, f)
  {
    if a.Mark? { assert Local(h.s.fibers, h.s.pcs[a.w], h.s.cbFiber[a.w], h.s.idle[a.w]); }
    hide Inv, AtMostOneWakeUp, Unclaimed;
    if a.Mark? {
      assert Served(h.s.pcs[a.w]) == Some(f);
      assert InHands(h.s, f);
    }
  }

  lemma {:induction false} StaysAtMostOne(h: World, a: Action)
    requires Orderly(h) && Enabled(h.s, a) && Follows(h, a)
    ensures AtMostOneWakeUp(Apply(h.s, a))
  {
    var s' := Apply(h.s, a);
    hide Apply, Inv, Enabled, ClaimAt, Creates, Follows, Origin, NewPlace;
    forall f, p, q | ClaimAt(s', p, f) && ClaimAt(s', q, f) ensures p == q {
      if Creates(h.s, a, f) {
        CreatesFromNone(h, a, f);
        CreatedIsOnly(h.s, a, p, f);
        CreatedIsOnly(h.s, a, q, f);
      } else {
        HasOrigin(h.s, a, p, f);
        HasOrigin(h.s, a, q, f);
        OriginsDiffer(h.s, a, p, q, f);
      }
    }
  }

  // A fiber without a wake-up that gets none keeps having none.
  lemma {:induction false} StaysUnclaimed(s: State, a: Action, f: FiberId)
    requires Inv(s) && Enabled(s, a) && Unclaimed(s, f) && !Creates(s, a, f)
    ensures Unclaimed(Apply(s, a), f)
  {
    hide Inv, Apply, Enabled, ClaimAt, Creates, Origin;
    forall p ensures !ClaimAt(Apply(s, a), p, f) {
      if ClaimAt(Apply(s, a), p, f) { HasOrigin(s, a, p, f); assert false; }
    }
  }

  // Entering a fiber uses up its one wake-up.
  lemma {:induction false} EnteringUnclaims(s: State, a: Action, f: FiberId)
    requires Inv(s) && AtMostOneWakeUp(s) && (a.Start? || a.StartCb?) && Enabled(s, a) && Apply(s, a).pcs[a.w].f == f
    ensures Unclaimed(Apply(s, a), f)
  {
    var s', w := Apply(s, a), a.w;
    var used := if a.Start? then AtWorker(w) else Kept(w);
    assert !ClaimAt(s', used, f);
    assert f in s.fibers ==> ClaimAt(s, used, f);
    forall p ensures !ClaimAt(s', p, f) {
      if ClaimAt(s', p, f) {
        EnterOrigin(s, a, p, f);
        if f !in s.fibers { UnknownIsUnclaimed(s, f, p); }
        assert false;
      }
    }
  }

  lemma {:induction false} UnknownIsUnclaimed(s: State, f: FiberId, p: Place)
    requires Inv(s) && f !in s.fibers
    ensures !ClaimAt(s, p, f)
  {
    if (p.AtWorker? || p.Kept?) && p.w < |s.pcs| { assert Local(s.fibers, s.pcs[p.w], s.cbFiber[p.w], s.idle[p.w]); }
  }

  lemma {:induction false} UnbornStay(h: World, a: Action, f: FiberId)
    requires Orderly(h) && Enabled(h.s, a) && Follows(h, a) && f in Next(h, a).unborn
    ensures f in Apply(h.s, a).fibers && Apply(h.s, a).fibers[f] == INIT && Unclaimed(Apply(h.s, a), f)
  {
    if f in h.unborn && f in h.s.fibers {
      assert !InHands(h.s, f) by {
        forall w | 0 <= w < |h.s.pcs| ensures Served(h.s.pcs[w]) != Some(f) {
          assert Local(h.s.fibers, h.s.pcs[w], h.s.cbFiber[w], h.s.idle[w]);
        }
      }
      UnbornUntouched(h, a, f);
      hide Inv, Apply, Unclaimed, Enabled;
      StaysUnclaimed(h.s, a, f);
    } else {
      assert a == Spawn(f);
      forall p ensures !ClaimAt(Apply(h.s, a), p, f) {
        UnknownIsUnclaimed(h.s, f, p);
        if ClaimAt(Apply(h.s, a), p, f) { OutsideOrigin(h.s, a, p, f); assert false; }
      }
    }
  }

  lemma {:induction false} UnbornUntouched(h: World, a: Action, f: FiberId)
    requires Orderly(h) && Enabled(h.s, a) && Follows(h, a) && f in h.unborn && f in Next(h, a).unborn && !InHands(h.s, f)
    ensures !Creates(h.s, a, f) && f in Apply(h.s, a).fibers && Apply(h.s, a).fibers[f] == INIT
  {
    hide Inv, AtMostOneWakeUp;
    assert forall p :: !ClaimAt(h.s, p, f);
    if a.Mark? || a.Decide? || a.Finish? { assert Served(h.s.pcs[a.w]) == Some(h.s.pcs[a.w].f); }
    if a.Start? { assert !ClaimAt(h.s, AtWorker(a.w), f); }
    if a.StartCb? { assert !ClaimAt(h.s, Kept(a.w), f); }
  }

  lemma {:induction false} UnarmedStay(h: World, a: Action, f: FiberId)
    requires Orderly(h) && Enabled(h.s, a) && Follows(h, a)
    requires var h' := Next(h, a);
             f in h'.s.fibers && h'.s.fibers[f] == EXEC && InHands(h'.s, f) && f !in h'.armed
    ensures Unclaimed(Apply(h.s, a), f)
  {
    if (a.Start? || a.StartCb?) && Apply(h.s, a).pcs[a.w].f == f {
      hide Inv, Unclaimed;
      EnteringUnclaims(h.s, a, f);
    } else {
      UnarmedBefore(h, a, f);
      hide Inv, Apply, Unclaimed, Enabled;
      StaysUnclaimed(h.s, a, f);
    }
  }

  predicate Moves(a: Action) { a.SwapOut? || a.Decrement? || a.Decide? || a.Finish? || a.Start? || a.StartCb? || a.Mark? || a.Repay? }

  // Only entering a fiber makes it EXEC.
  lemma {:induction false} ExecBefore(s: State, a: Action, f: FiberId)
    requires Enabled(s, a) && !((a.Start? || a.StartCb?) && Apply(s, a).pcs[a.w].f == f)
    requires f in Apply(s, a).fibers && Apply(s, a).fibers[f] == EXEC
    ensures f in s.fibers && s.fibers[f] == EXEC && !(a.Mark? && s.pcs[a.w].f == f)
  {
    hide Apply, Enabled;
    if Leaves(a) { ExecBeforeLeaving(s, a, f); }
    else if Moves(a) { ExecBeforeMove(s, a, f); }
    else { ExecBeforeOther(s, a, f); }
  }

  predicate Leaves(a: Action) { a.SwapOut? || a.Decrement? || a.Repay? || a.Mark? }

  lemma {:induction false} ExecBeforeLeaving(s: State, a: Action, f: FiberId)
    requires Leaves(a) && Enabled(s, a) && f in Apply(s, a).fibers && Apply(s, a).fibers[f] == EXEC
    ensures f in s.fibers && s.fibers[f] == EXEC && !(a.Mark? && s.pcs[a.w].f == f)
  {
  }

  lemma {:induction false} ExecBeforeMove(s: State, a: Action, f: FiberId)
    requires Moves(a) && !Leaves(a) && Enabled(s, a) && !((a.Start? || a.StartCb?) && Apply(s, a).pcs[a.w].f == f)
    requires f in Apply(s, a).fibers && Apply(s, a).fibers[f] == EXEC
    ensures f in s.fibers && s.fibers[f] == EXEC
  {
  }

  lemma {:induction false} ExecBeforeOther(s: State, a: Action, f: FiberId)
    requires !Moves(a) && Enabled(s, a)
    requires f in Apply(s, a).fibers && Apply(s, a).fibers[f] == EXEC
    ensures f in s.fibers && s.fibers[f] == EXEC
  {
    hide MayPick;
  }

  // Only entering a fiber puts it in a worker's hands.
  lemma {:induction false} ServedBefore(s: State, a: Action, v: nat)
    requires Enabled(s, a) && v < |Apply(s, a).pcs| && Served(Apply(s, a).pcs[v]).Some?
    requires !((a.Start? || a.StartCb?) && a.w == v)
    ensures v < |s.pcs| && Served(s.pcs[v]) == Served(Apply(s, a).pcs[v])
  {
    hide Apply, MayPick;
    PcsMove(s, a);
  }

  lemma {:induction false} UnarmedBefore(h: World, a: Action, f: FiberId)
    requires Orderly(h) && Enabled(h.s, a) && Follows(h, a)
    requires !((a.Start? || a.StartCb?) && Apply(h.s, a).pcs[a.w].f == f)
    requires var h' := Next(h, a);
             f in h'.s.fibers && h'.s.fibers[f] == EXEC && InHands(h'.s, f) && f !in h'.armed
    ensures f in h.s.fibers && h.s.fibers[f] == EXEC && InHands(h.s, f) && f !in h.armed && !Creates(h.s, a, f)
  {
    hide Inv, AtMostOneWakeUp, Unclaimed, Apply, Enabled;
    ExecBefore(h.s, a, f);
    var s' := Apply(h.s, a);
    var v :| 0 <= v < |s'.pcs| && Served(s'.pcs[v]) == Some(f);
    ServedBefore(h.s, a, v);
  }

  lemma {:induction false} FollowingStaysOrderly(h: World, a: Action)
    requires Orderly(h) && Enabled(h.s, a) && Follows(h, a)
    ensures Orderly(Next(h, a))
  {
    var h' := Next(h, a);
    OneWakeUpEntersAlone(h.s, a);
    StepKeeps(h.s, a);
    StaysAtMostOne(h, a);
    hide EntersAlone;
    hide Inv, AtMostOneWakeUp, Apply, Enabled, Follows, Unclaimed, InHands;
    forall f | f in h'.unborn ensures f in h'.s.fibers && h'.s.fibers[f] == INIT && Unclaimed(h'.s, f) {
      UnbornStay(h, a, f);
    }
    forall f | f in h'.s.fibers && h'.s.fibers[f] == EXEC && InHands(h'.s, f) && f !in h'.armed ensures Unclaimed(h'.s, f) {
      UnarmedStay(h, a, f);
    }
  }

  ghost predicate FollowingRun(h: World, acts: seq<Action>)
    decreases |acts|
  {
    acts != [] ==> Enabled(h.s, acts[0]) && Follows(h, acts[0]) && FollowingRun(Next(h, acts[0]), acts[1..])
  }

  ghost function Final(h: World, acts: seq<Action>): World
    requires FollowingRun(h, acts)
    decreases |acts|
  {
    if acts == [] then h else Final(Next(h, acts[0]), acts[1..])
  }

  /** Fibers that wait through the hooks are never executed twice at once: in every interleaving
      that follows the protocol no fiber ever has two outstanding wake-ups, so the scheduler's
      condition holds throughout and every state is safe. */
  lemma {:induction false} HooksAreSafe(h: World, acts: seq<Action>)
    requires Orderly(h) && FollowingRun(h, acts)
    ensures AtMostOneWakeUp(Final(h, acts).s) && Safe(Final(h, acts).s)
    decreases |acts|
  {
    if acts == [] {
      InvIsSafe(h.s);
    } else {
      hide Orderly, Safe, AtMostOneWakeUp, Next, Follows, Enabled;
      FollowingStaysOrderly(h, acts[0]);
      HooksAreSafe(Next(h, acts[0]), acts[1..]);
    }
  }

  lemma {:induction false} FreshIsOrderly(n: nat)
    ensures Orderly(World(Fresh(n), {}, {}))
  {
    FreshIsOrdered(n);
  }
}
