/** Conservation of tasks, and the meaning of the scheduler's counters. */
module Accounting {
  import opened Scheduler

  // Between the pick and the matching decrement.
  predicate IsActive(pc: PC) { pc.Picked? || pc.Running? || pc.Marked? || pc.Back? }

  function One(b: bool): nat { if b then 1 else 0 }

  function ActiveWorkers(pcs: seq<PC>): nat {
    if pcs == [] then 0 else One(IsActive(pcs[0])) + ActiveWorkers(pcs[1..])
  }

  function IdleWorkers(pcs: seq<PC>): nat {
    if pcs == [] then 0 else One(pcs[0].InIdle?) + IdleWorkers(pcs[1..])
  }

  // How many workers have taken this task from the queue and not started it.
  function Held(pcs: seq<PC>, t: Task): nat {
    if pcs == [] then 0 else One(pcs[0] == Picked(t)) + Held(pcs[1..], t)
  }

  /** Every task ever queued is in the queue, in the hands of one worker, or was started or
      discarded, and it is in one of these places only; the two counters count what they say. */
  ghost predicate Balanced(s: State) {
    && (forall t :: s.pushed[t] == multiset(s.queue)[t] + Held(s.pcs, t) + s.taken[t])
    && s.active == ActiveWorkers(s.pcs)
    && s.idling == IdleWorkers(s.pcs)
  }

  lemma {:induction false} MoveCounts(pcs: seq<PC>, w: nat, pc: PC)
    requires w < |pcs|
    ensures ActiveWorkers(pcs[w := pc]) == ActiveWorkers(pcs) - One(IsActive(pcs[w])) + One(IsActive(pc))
    ensures IdleWorkers(pcs[w := pc]) == IdleWorkers(pcs) - One(pcs[w].InIdle?) + One(pc.InIdle?)
    decreases w
  {
    if w == 0 {
      assert pcs[w := pc][1..] == pcs[1..];
    } else {
      assert pcs[w := pc][1..] == pcs[1..][w - 1 := pc];
      MoveCounts(pcs[1..], w - 1, pc);
    }
  }

  lemma {:induction false} MoveHeld(pcs: seq<PC>, w: nat, pc: PC, t: Task)
    requires w < |pcs|
    ensures Held(pcs[w := pc], t) == Held(pcs, t) - One(pcs[w] == Picked(t)) + One(pc == Picked(t))
    decreases w
  {
    if w == 0 {
      assert pcs[w := pc][1..] == pcs[1..];
    } else {
      assert pcs[w := pc][1..] == pcs[1..][w - 1 := pc];
      MoveHeld(pcs[1..], w - 1, pc, t);
    }
  }

  lemma {:induction false} RemoveCounts(queue: seq<Task>, i: nat)
    requires i < |queue|
    ensures multiset(queue) == multiset(queue[..i] + queue[i + 1..]) + multiset{queue[i]}
  {
    assert queue == queue[..i] + [queue[i]] + queue[i + 1..];
  }

  // A step of worker `w` balances when what it adds and removes balances.
  lemma {:induction false} Rebalance(s: State, t: State, w: nat)
    requires Balanced(s) && w < |s.pcs| && |t.pcs| == |s.pcs| && t.pcs == s.pcs[w := t.pcs[w]]
    requires t.active + One(IsActive(s.pcs[w])) == s.active + One(IsActive(t.pcs[w]))
    requires t.idling + One(s.pcs[w].InIdle?) == s.idling + One(t.pcs[w].InIdle?)
    requires forall x :: t.pushed[x] + multiset(s.queue)[x] + One(s.pcs[w] == Picked(x)) + s.taken[x]
                      == s.pushed[x] + multiset(t.queue)[x] + One(t.pcs[w] == Picked(x)) + t.taken[x]
    ensures Balanced(t)
  {
    hide Held, ActiveWorkers, IdleWorkers, IsActive;
    MoveCounts(s.pcs, w, t.pcs[w]);
    forall x ensures t.pushed[x] == multiset(t.queue)[x] + Held(t.pcs, x) + t.taken[x] {
      MoveHeld(s.pcs, w, t.pcs[w], x);
    }
  }

  lemma {:induction false} PlainBalances(s: State, a: Action)
    requires Balanced(s) && Enabled(s, a) && (a.Mark? || a.SwapOut? || a.Decrement?)
    ensures Balanced(Apply(s, a))
  {
    hide Balanced;
    Rebalance(s, Apply(s, a), a.w);
  }

  lemma {:induction false} DecideBalances(s: State, w: nat)
    requires Balanced(s) && Enabled(s, Decide(w))
    ensures Balanced(Apply(s, Decide(w)))
  {
    hide Balanced;
    Rebalance(s, Apply(s, Decide(w)), w);
  }

  lemma {:induction false} IdleBalances(s: State, a: Action)
    requires Balanced(s) && Enabled(s, a) && (a.EnterIdle? || a.LeaveIdle? || a.Exit?)
    ensures Balanced(Apply(s, a))
  {
    hide Balanced;
    Rebalance(s, Apply(s, a), a.w);
  }

  lemma {:induction false} TakingBalances(s: State, a: Action)
    requires Balanced(s) && Enabled(s, a) && (a.Start? || a.Discard? || a.StartCb?)
    ensures Balanced(Apply(s, a))
  {
    hide Balanced;
    Rebalance(s, Apply(s, a), a.w);
  }

  lemma {:induction false} PickBalances(s: State, w: nat, i: nat)
    requires Balanced(s) && Enabled(s, Pick(w, i))
    ensures Balanced(Apply(s, Pick(w, i)))
  {
    hide Balanced;
    if i < |s.queue| { RemoveCounts(s.queue, i); }
    Rebalance(s, Apply(s, Pick(w, i)), w);
  }

  lemma {:induction false} ExpiryBalances(s: State, a: Action)
    requires Balanced(s) && Enabled(s, a) && (a.Collect? || a.Deliver?)
    ensures Balanced(Apply(s, a))
  {
    hide Balanced;
    Rebalance(s, Apply(s, a), a.w);
  }

  lemma {:induction false} RepayBalances(s: State, w: nat)
    requires Balanced(s) && Enabled(s, Repay(w))
    ensures Balanced(Apply(s, Repay(w)))
  {
    hide Balanced;
    Rebalance(s, Apply(s, Repay(w)), w);
  }

  lemma {:induction false} FinishBalances(s: State, w: nat)
    requires Balanced(s) && Enabled(s, Finish(w))
    ensures Balanced(Apply(s, Finish(w)))
  {
    hide Balanced;
    Rebalance(s, Apply(s, Finish(w)), w);
  }

  lemma {:induction false} StillBalances(s: State, a: Action)
    requires Balanced(s) && Enabled(s, a) && Outside(a)
    ensures Balanced(Apply(s, a))
  {
    hide Held, ActiveWorkers, IdleWorkers;
  }

  lemma {:induction false} StepBalances(s: State, a: Action)
    requires Balanced(s) && Enabled(s, a)
    ensures Balanced(Apply(s, a))
  {
    hide Balanced, Apply, Enabled;
    if Outside(a) { StillBalances(s, a); }
    else if a.Pick? { PickBalances(s, a.w, a.i); }
    else if a.Collect? || a.Deliver? { ExpiryBalances(s, a); }
    else if a.Repay? { RepayBalances(s, a.w); }
    else if a.Finish? { FinishBalances(s, a.w); }
    else if a.Start? || a.Discard? || a.StartCb? { TakingBalances(s, a); }
    else if a.Decide? { DecideBalances(s, a.w); }
    else if a.Mark? || a.SwapOut? || a.Decrement? { PlainBalances(s, a); }
    else { IdleBalances(s, a); }
  }

  /** Over every run, with no condition on wake-ups. */
  lemma {:induction false} RunBalances(s: State, acts: seq<Action>)
    requires Balanced(s) && CanRun(s, acts)
    ensures Balanced(Run(s, acts))
    decreases |acts|
  {
    hide Balanced, Apply, Enabled;
    if acts != [] {
      StepBalances(s, acts[0]);
      RunBalances(Apply(s, acts[0]), acts[1..]);
    }
  }

  lemma {:induction false} FreshBalances(n: nat)
    ensures Balanced(Fresh(n))
  {
    ScanningCounts(Fresh(n).pcs);
  }

  lemma {:induction false} ScanningCounts(pcs: seq<PC>)
    requires forall w | 0 <= w < |pcs| :: pcs[w].Scan?
    ensures ActiveWorkers(pcs) == 0 && IdleWorkers(pcs) == 0 && forall t :: Held(pcs, t) == 0
  {
    if pcs != [] { ScanningCounts(pcs[1..]); }
  }
}
