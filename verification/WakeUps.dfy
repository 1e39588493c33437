/** No wake-up is lost on its way: what wakes a fiber stays until the fiber is entered, found ended, or
    the registration is dropped. */
module WakeUps {
  import opened Options
  import opened Scheduler
  import opened Exclusion

  // The place, after the step, of a wake-up of `f` that is at `p` before it.
  function Dest(s: State, a: Action, p: Place): Place {
    match a
    case Pick(w, i) =>
      if p == InQueue(i) then AtWorker(w) else if p.InQueue? && p.i > i then InQueue(p.i - 1) else p
    case Fire(tok) => if p == AtToken(tok) then InQueue(|s.queue|) else p
    case Collect(w, tok, _) => if p == AtToken(tok) && w < |s.pcs| && s.pcs[w].InIdle? then InHand(w, |s.pcs[w].due|) else p
    case Deliver(w) => if p.InHand? && p.w == w then InQueue(|s.queue| + p.i) else p
    case Repay(w) => if p == AtWorker(w) then InQueue(|s.queue|) else p
    case Finish(w) => if p == AtWorker(w) then InQueue(|s.queue|) else p
    case _ => p
  }

  // The step enters the fiber, finds it ended, or drops the registration.
  predicate Consumes(s: State, a: Action, p: Place) {
    match a
    case Start(w) => p == AtWorker(w)
    case Discard(w) => p == AtWorker(w)
    case Drop(tok) => p == AtToken(tok)
    case _ => false
  }

  predicate Outstanding(s: State, p: Place, f: FiberId) { !p.Kept? && ClaimAt(s, p, f) }

  lemma {:induction false} PickLoses(s: State, w: nat, i: nat, p: Place, f: FiberId)
    requires Enabled(s, Pick(w, i)) && Outstanding(s, p, f)
    ensures Outstanding(Apply(s, Pick(w, i)), Dest(s, Pick(w, i), p), f)
  {
    if p.InQueue? && i < |s.queue| && p.i > i { assert (s.queue[..i] + s.queue[i + 1..])[p.i - 1] == s.queue[p.i]; }
  }

  lemma {:induction false} OutsideLoses(s: State, a: Action, p: Place, f: FiberId)
    requires Outside(a) && Enabled(s, a) && Outstanding(s, p, f) && !Consumes(s, a, p)
    ensures Outstanding(Apply(s, a), Dest(s, a, p), f)
  {
  }

  lemma {:induction false} ExpiryLoses(s: State, a: Action, p: Place, f: FiberId)
    requires (a.Collect? || a.Deliver?) && Enabled(s, a) && Outstanding(s, p, f)
    ensures Outstanding(Apply(s, a), Dest(s, a, p), f)
  {
  }

  lemma {:induction false} IdleLoses(s: State, a: Action, p: Place, f: FiberId)
    requires (a.EnterIdle? || a.LeaveIdle? || a.Exit?) && Enabled(s, a) && Outstanding(s, p, f)
    ensures Outstanding(Apply(s, a), p, f)
  {
  }

  // Entering a fiber that nobody else has disturbs no other wake-up.
  lemma {:induction false} EnterLoses(s: State, a: Action, p: Place, f: FiberId)
    requires Inv(s) && (a.Start? || a.StartCb?) && Enabled(s, a) && EntersAlone(s, a)
    requires Outstanding(s, p, f) && !Consumes(s, a, p)
    ensures Outstanding(Apply(s, a), p, f)
  {
    assert Local(s.fibers, s.pcs[a.w], s.cbFiber[a.w], s.idle[a.w]);
    hide Inv;
    if p.AtWorker? && p.w != a.w { assert !Has(s, p.w, NextPc(s, a).f); }
  }

  lemma {:induction false} ServeLoses(s: State, a: Action, p: Place, f: FiberId)
    requires Inv(s) && (a.Discard? || a.SwapOut? || a.Decrement? || a.Repay?) && Enabled(s, a)
    requires Outstanding(s, p, f) && !Consumes(s, a, p)
    ensures Outstanding(Apply(s, a), Dest(s, a, p), f)
  {
    assert Local(s.fibers, s.pcs[a.w], s.cbFiber[a.w], s.idle[a.w]);
    hide Inv;
  }

  // A worker changes the state of the fiber it serves, which no other worker hands back.
  lemma {:induction false} OthersApart(s: State, w: nat, p: Place)
    requires Inv(s) && w < |s.pcs| && p.AtWorker? && p.w < |s.pcs| && p.w != w && Served(s.pcs[w]).Some?
    ensures Served(s.pcs[p.w]) != Served(s.pcs[w])
  {
    assert Apart(s.pcs[w], s.cbFiber[w], s.pcs[p.w], s.cbFiber[p.w]);
  }

  lemma {:induction false} MarkLoses(s: State, a: Action, p: Place, f: FiberId)
    requires Inv(s) && a.Mark? && Enabled(s, a) && Outstanding(s, p, f)
    ensures Outstanding(Apply(s, a), Dest(s, a, p), f)
  {
    assert Local(s.fibers, s.pcs[a.w], s.cbFiber[a.w], s.idle[a.w]);
    if p.AtWorker? && p.w < |s.pcs| && p.w != a.w { OthersApart(s, a.w, p); }
    hide Inv;
  }

  lemma {:induction false} DecideLoses(s: State, a: Action, p: Place, f: FiberId)
    requires Inv(s) && a.Decide? && Enabled(s, a) && Outstanding(s, p, f)
    ensures Outstanding(Apply(s, a), Dest(s, a, p), f)
  {
    assert Local(s.fibers, s.pcs[a.w], s.cbFiber[a.w], s.idle[a.w]);
    if p.AtWorker? && p.w < |s.pcs| && p.w != a.w { OthersApart(s, a.w, p); }
    hide Inv;
  }

  lemma {:induction false} FinishLoses(s: State, a: Action, p: Place, f: FiberId)
    requires Inv(s) && a.Finish? && Enabled(s, a) && Outstanding(s, p, f)
    ensures Outstanding(Apply(s, a), Dest(s, a, p), f)
  {
    assert Local(s.fibers, s.pcs[a.w], s.cbFiber[a.w], s.idle[a.w]);
    if p.AtWorker? && p.w < |s.pcs| && p.w != a.w { OthersApart(s, a.w, p); }
    hide Inv;
  }

  /** Every step that keeps mutual exclusion: a wake-up is where it was or a place further on, unless the
      step uses it up. */
  lemma {:induction false} WakeUpStays(s: State, a: Action, p: Place, f: FiberId)
    requires Inv(s) && Enabled(s, a) && EntersAlone(s, a) && Outstanding(s, p, f) && !Consumes(s, a, p)
    ensures Outstanding(Apply(s, a), Dest(s, a, p), f)
  {
    hide Inv, Enabled, Apply, Outstanding, EntersAlone;
    match a
    case Pick(w, i) => PickLoses(s, w, i, p, f);
    case Start(_) => EnterLoses(s, a, p, f);
    case StartCb(_, _) => EnterLoses(s, a, p, f);
    case Discard(_) => ServeLoses(s, a, p, f);
    case SwapOut(_) => ServeLoses(s, a, p, f);
    case Decrement(_) => ServeLoses(s, a, p, f);
    case Repay(_) => ServeLoses(s, a, p, f);
    case Mark(_, _) => MarkLoses(s, a, p, f);
    case Decide(_) => DecideLoses(s, a, p, f);
    case Finish(_) => FinishLoses(s, a, p, f);
    case Collect(_, _, _) => ExpiryLoses(s, a, p, f);
    case Deliver(_) => ExpiryLoses(s, a, p, f);
    case EnterIdle(_) => IdleLoses(s, a, p, f);
    case LeaveIdle(_, _) => IdleLoses(s, a, p, f);
    case Exit(_) => IdleLoses(s, a, p, f);
    case _ => OutsideLoses(s, a, p, f);
  }

  // No step of the run uses up the wake-up that starts at `p`.
  ghost predicate Spared(s: State, acts: seq<Action>, p: Place)
    requires CanRun(s, acts)
    decreases |acts|
  {
    acts != [] ==> !Consumes(s, acts[0], p) && Spared(Apply(s, acts[0]), acts[1..], Dest(s, acts[0], p))
  }

  // Where it is in the end.
  ghost function Carried(s: State, acts: seq<Action>, p: Place): Place
    requires CanRun(s, acts)
    decreases |acts|
  {
    if acts == [] then p else Carried(Apply(s, acts[0]), acts[1..], Dest(s, acts[0], p))
  }

  /** Over every run that keeps mutual exclusion: a wake-up that is not used up is still outstanding at
      the end. */
  lemma {:induction false} WakeUpSurvives(s: State, acts: seq<Action>, p: Place, f: FiberId)
    requires Inv(s) && CanRun(s, acts) && AloneThroughout(s, acts) && Outstanding(s, p, f) && Spared(s, acts, p)
    ensures Outstanding(Run(s, acts), Carried(s, acts, p), f)
    decreases |acts|
  {
    hide Inv, Enabled, Apply, Outstanding, EntersAlone, Consumes, Dest;
    if acts != [] {
      WakeUpStays(s, acts[0], p, f);
      StepKeeps(s, acts[0]);
      WakeUpSurvives(Apply(s, acts[0]), acts[1..], Dest(s, acts[0], p), f);
    }
  }

  /** The wake-up that a step uses up by starting is the one of the fiber that is entered. */
  lemma {:induction false} StartUsesItsOwn(s: State, w: nat, f: FiberId)
    requires Enabled(s, Start(w)) && Outstanding(s, AtWorker(w), f)
    ensures Apply(s, Start(w)).fibers[f] == EXEC && Served(Apply(s, Start(w)).pcs[w]) == Some(f)
  {
  }
}
