/** The fiber that a worker keeps for its next callback: a run in which every fiber has at most one
    wake-up that a caller can see, and an assertion fails. */
module KeptFiber {
  import opened Options
  import opened Scheduler
  import opened Exclusion

  // At most one wake-up in the queue, among the waiters, in hand or at a worker, kept fibers apart.
  ghost predicate OneVisible(s: State) {
    forall f, p, q :: ClaimAt(s, p, f) && ClaimAt(s, q, f) && !p.Kept? && !q.Kept? ==> p == q
  }

  ghost predicate OneVisibleThroughout(s: State, acts: seq<Action>)
    requires CanRun(s, acts)
    decreases |acts|
  {
    OneVisible(s) && (acts != [] ==> OneVisibleThroughout(Apply(s, acts[0]), acts[1..]))
  }

  // A run with one visible wake-up throughout that ends in `t`.
  ghost predicate Leads(s: State, acts: seq<Action>, t: State) {
    CanRun(s, acts) && OneVisibleThroughout(s, acts) && Run(s, acts) == t
  }

  lemma {:induction false} LeadsNowhere(s: State)
    requires OneVisible(s)
    ensures Leads(s, [], s)
  {
    RunNothing(s);
  }

  lemma {:induction false} LeadsOn(s: State, a: Action, acts: seq<Action>, t: State)
    requires Enabled(s, a) && OneVisible(s) && Leads(Apply(s, a), acts, t)
    ensures Leads(s, [a] + acts, t)
  {
    hide Apply, Enabled, OneVisible;
    assert ([a] + acts)[1..] == acts;
  }

  // Two workers; the first may keep a fiber, the second keeps none.
  predicate Duo(s: State, a: PC, b: PC, kept: Option<FiberId>, queue: seq<Task>, fibers: map<FiberId, FiberState>, waiters: map<Token, Task>) {
    && s.pcs == [a, b] && s.cbFiber == [kept, None] && |s.idle| == 2
    && s.queue == queue && s.fibers == fibers && s.waiters == waiters
  }

  // Whether a worker is a place of a wake-up.
  predicate Carries(s: State, w: nat)
    requires w < |s.pcs|
  {
    (s.pcs[w].Picked? && Target(s.pcs[w].task).Some?) || (s.pcs[w].Running? && s.pcs[w].owes.Some?)
    || (Served(s.pcs[w]).Some? && s.pcs[w].f in s.fibers && s.fibers[s.pcs[w].f] == READY)
  }

  function One(b: bool): nat { if b then 1 else 0 }

  // At most one place in all.
  lemma {:induction false} OnePlace(s: State, tok: Token)
    requires |s.pcs| == 2 && !s.pcs[0].InIdle? && !s.pcs[1].InIdle? && |s.queue| <= 1 && s.waiters.Keys <= {tok}
    requires One(|s.queue| == 1 && Target(s.queue[0]).Some?) + One(tok in s.waiters) + One(Carries(s, 0)) + One(Carries(s, 1)) <= 1
    ensures OneVisible(s)
  {
    forall f, p, q | ClaimAt(s, p, f) && ClaimAt(s, q, f) && !p.Kept? && !q.Kept? ensures p == q {
      OnePlaceOf(s, tok, p, f);
      OnePlaceOf(s, tok, q, f);
    }
  }

  lemma {:induction false} OnePlaceOf(s: State, tok: Token, p: Place, f: FiberId)
    requires |s.pcs| == 2 && !s.pcs[0].InIdle? && !s.pcs[1].InIdle? && |s.queue| <= 1 && s.waiters.Keys <= {tok}
    requires ClaimAt(s, p, f) && !p.Kept?
    ensures (p == InQueue(0) && |s.queue| == 1 && Target(s.queue[0]).Some?) || (p == AtToken(tok) && tok in s.waiters)
            || (p == AtWorker(0) && Carries(s, 0)) || (p == AtWorker(1) && Carries(s, 1))
  {
    if p.AtToken? { assert p.tok in s.waiters.Keys; }
  }

  const CB := CbTask(1, None, -1)
  const F7 := FiberTask(7, -1)
  const EV := Event(0)

  // ---- The run, last steps first ----

  // The second worker enters the kept fiber while the first has a callback to run on it.
  lemma {:induction false} LastStep(s: State) returns (acts: seq<Action>, t: State)
    requires Duo(s, Picked(CB), Picked(F7), Some(7), [], map[7 := INIT], map[])
    ensures Leads(s, acts, t) && !Safe(t)
  {
    t := Apply(s, Start(1));
    OnePlace(s, EV);
    OnePlace(t, EV);
    LeadsNowhere(t);
    LeadsOn(s, Start(1), [], t);
    assert t.pcs[0] == Picked(CB) && t.cbFiber[0] == Some(7) && t.fibers[7] == EXEC;
    return [Start(1)] + [], t;
  }

  // The first worker picks its second callback ...
  lemma {:induction false} PickAgain(s: State) returns (acts: seq<Action>, t: State)
    requires Duo(s, Scan, Picked(F7), Some(7), [CB], map[7 := INIT], map[])
    ensures Leads(s, acts, t) && !Safe(t)
  {
    hide Leads, Safe, OneVisible;
    OnePlace(s, EV);
    acts, t := LastStep(Apply(s, Pick(0, 0)));
    LeadsOn(s, Pick(0, 0), acts, t);
    return [Pick(0, 0)] + acts, t;
  }

  // ... which is scheduled after ...
  lemma {:induction false} ScheduleAgain(s: State) returns (acts: seq<Action>, t: State)
    requires Duo(s, Scan, Picked(F7), Some(7), [], map[7 := INIT], map[])
    ensures Leads(s, acts, t) && !Safe(t)
  {
    hide Leads, Safe, OneVisible;
    OnePlace(s, EV);
    acts, t := PickAgain(Apply(s, Schedule(CB)));
    LeadsOn(s, Schedule(CB), acts, t);
    return [Schedule(CB)] + acts, t;
  }

  // ... the second worker has picked the fiber ...
  lemma {:induction false} PickFiber(s: State) returns (acts: seq<Action>, t: State)
    requires Duo(s, Scan, Scan, Some(7), [F7], map[7 := INIT], map[])
    ensures Leads(s, acts, t) && !Safe(t)
  {
    hide Leads, Safe, OneVisible;
    OnePlace(s, EV);
    acts, t := ScheduleAgain(Apply(s, Pick(1, 0)));
    LeadsOn(s, Pick(1, 0), acts, t);
    return [Pick(1, 0)] + acts, t;
  }

  // ... that its event has woken ...
  lemma {:induction false} EventComes(s: State) returns (acts: seq<Action>, t: State)
    requires Duo(s, Scan, Scan, Some(7), [], map[7 := INIT], map[EV := F7])
    ensures Leads(s, acts, t) && !Safe(t)
  {
    hide Leads, Safe, OneVisible;
    OnePlace(s, EV);
    acts, t := PickFiber(Apply(s, Fire(EV)));
    LeadsOn(s, Fire(EV), acts, t);
    return [Fire(EV)] + acts, t;
  }

  // ... when the first worker had already kept it for callbacks ...
  lemma {:induction false} KeepIt(s: State) returns (acts: seq<Action>, t: State)
    requires Duo(s, Post(7, true), Scan, Some(7), [], map[7 := TERM], map[EV := F7])
    ensures Leads(s, acts, t) && !Safe(t)
  {
    hide Leads, Safe, OneVisible;
    OnePlace(s, EV);
    acts, t := EventComes(Apply(s, Decide(0)));
    LeadsOn(s, Decide(0), acts, t);
    return [Decide(0)] + acts, t;
  }

  lemma {:induction false} CountDown(s: State) returns (acts: seq<Action>, t: State)
    requires Duo(s, Back(7, true), Scan, Some(7), [], map[7 := TERM], map[EV := F7])
    ensures Leads(s, acts, t) && !Safe(t)
  {
    hide Leads, Safe, OneVisible;
    OnePlace(s, EV);
    acts, t := KeepIt(Apply(s, Decrement(0)));
    LeadsOn(s, Decrement(0), acts, t);
    return [Decrement(0)] + acts, t;
  }

  lemma {:induction false} LeaveCallback(s: State) returns (acts: seq<Action>, t: State)
    requires Duo(s, Marked(7, true), Scan, Some(7), [], map[7 := TERM], map[EV := F7])
    ensures Leads(s, acts, t) && !Safe(t)
  {
    hide Leads, Safe, OneVisible;
    OnePlace(s, EV);
    acts, t := CountDown(Apply(s, SwapOut(0)));
    LeadsOn(s, SwapOut(0), acts, t);
    return [SwapOut(0)] + acts, t;
  }

  // ... at the end of its first callback ...
  lemma {:induction false} EndIt(s: State) returns (acts: seq<Action>, t: State)
    requires Duo(s, Running(7, true, None), Scan, Some(7), [], map[7 := EXEC], map[EV := F7])
    ensures Leads(s, acts, t) && !Safe(t)
  {
    hide Leads, Safe, OneVisible;
    OnePlace(s, EV);
    acts, t := LeaveCallback(Apply(s, Mark(0, TERM)));
    LeadsOn(s, Mark(0, TERM), acts, t);
    return [Mark(0, TERM)] + acts, t;
  }

  // ... which had registered its own fiber.
  lemma {:induction false} RegisterItself(s: State) returns (acts: seq<Action>, t: State)
    requires Duo(s, Running(7, true, None), Scan, Some(7), [], map[7 := EXEC], map[])
    ensures Leads(s, acts, t) && !Safe(t)
  {
    hide Leads, Safe, OneVisible;
    OnePlace(s, EV);
    acts, t := EndIt(Apply(s, Register(EV, F7)));
    LeadsOn(s, Register(EV, F7), acts, t);
    return [Register(EV, F7)] + acts, t;
  }

  lemma {:induction false} RunCallback(s: State) returns (acts: seq<Action>, t: State)
    requires Duo(s, Picked(CB), Scan, None, [], map[], map[])
    ensures Leads(s, acts, t) && !Safe(t)
  {
    hide Leads, Safe, OneVisible;
    OnePlace(s, EV);
    acts, t := RegisterItself(Apply(s, StartCb(0, 7)));
    LeadsOn(s, StartCb(0, 7), acts, t);
    return [StartCb(0, 7)] + acts, t;
  }

  lemma {:induction false} PickCallback(s: State) returns (acts: seq<Action>, t: State)
    requires Duo(s, Scan, Scan, None, [CB], map[], map[])
    ensures Leads(s, acts, t) && !Safe(t)
  {
    hide Leads, Safe, OneVisible;
    OnePlace(s, EV);
    acts, t := RunCallback(Apply(s, Pick(0, 0)));
    LeadsOn(s, Pick(0, 0), acts, t);
    return [Pick(0, 0)] + acts, t;
  }

  lemma {:induction false} ScheduleCallback(s: State) returns (acts: seq<Action>, t: State)
    requires Duo(s, Scan, Scan, None, [], map[], map[])
    ensures Leads(s, acts, t) && !Safe(t)
  {
    hide Leads, Safe, OneVisible;
    OnePlace(s, EV);
    acts, t := PickCallback(Apply(s, Schedule(CB)));
    LeadsOn(s, Schedule(CB), acts, t);
    return [Schedule(CB)] + acts, t;
  }

  /** A callback registers its own fiber with addEvent and ends, so that its worker keeps the fiber;
      the event comes, another worker picks the fiber, and the first one has a second callback. At
      every point each fiber has at most one wake-up that is not the keeping itself, and in the end
      the assertion of reset or of swapIn fails. */
  lemma {:induction false} KeptFiberBreaksIt()
    ensures exists acts :: CanRun(Fresh(2), acts) && OneVisibleThroughout(Fresh(2), acts) && !Safe(Run(Fresh(2), acts))
  {
    hide CanRun, Run, Safe, OneVisibleThroughout;
    var acts, t := ScheduleCallback(Fresh(2));
  }
}
