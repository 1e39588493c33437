/** The life of one timer, from the arguments it was added with to the moment its callback is handed
    out, over every run. */
module TimerFires {
  import opened Options
  import opened Timers
  import opened TimerLaws
  import opened TimerRuns

  // The operation neither cancels nor moves timer `id`, and is no expiry that reaches `deadline`.
  predicate LetsBe(w: World, op: Op, id: Id, deadline: nat) {
    match op
    case CancelTimer(x) => x != id
    case RefreshTimer(x) => x != id
    case ResetTimer(x, _, _) => x != id
    case ListExpired(started) => started < deadline && !Rollover(w.s, started)
    case _ => true
  }

  ghost predicate AllLetBe(w: World, ops: seq<Op>, id: Id, deadline: nat)
    requires Ok(w.s) && Runs(w, ops)
    decreases |ops|
  {
    ops != [] ==> LetsBe(w, ops[0], id, deadline) && (StepKeeps(w, ops[0]); AllLetBe(Step(w, ops[0]), ops[1..], id, deadline))
  }

  // The timer is in the set, as `t`.
  predicate Stands(s: State, id: Id, t: Timer) { id in s.table && s.table[id] == t && id in s.order }

  lemma {:induction false} MovesOther(w: World, op: Op, id: Id, t: Timer)
    requires Ok(w.s) && Legal(w, op) && Stands(w.s, id, t) && (op.RefreshTimer? || op.ResetTimer?) && op.id != id
    ensures Stands(Step(w, op).s, id, t)
  {
    hide Wrap, Sorted, Refresh, Reset;
    if op.RefreshTimer? {
      RefreshMoves(w.s, op.id, w.clock);
    } else if op.ms != w.s.table[op.id].ms || op.fromNow {
      ResetMoves(w.s, op.id, op.ms, op.fromNow, w.clock);
    } else {
      ResetSame(w.s, op.id, w.clock);
    }
  }

  lemma {:induction false} ExpiryLeaves(w: World, started: nat, id: Id, t: Timer)
    requires Ok(w.s) && Stands(w.s, id, t) && started < t.next && !Rollover(w.s, started)
    ensures Stands(Step(w, ListExpired(started)).s, id, t) && id !in Expired(w.s, started)
  {
    hide Wrap, Sorted, Expire, Expired, Rollover;
    ExpiredIsExact(w.s, started);
    ExpireKeeps(w.s, started);
  }

  lemma {:induction false} StepLeaves(w: World, op: Op, id: Id, t: Timer)
    requires Ok(w.s) && Legal(w, op) && Stands(w.s, id, t) && LetsBe(w, op, id, t.next)
    ensures Stands(Step(w, op).s, id, t) && Times(Step(w, op), id) == Times(w, id)
  {
    hide Wrap, Sorted, Refresh, Reset, Add, Expire, Expired, Rollover, Times;
    StepHands(w, op, id);
    match op
    case AddTimer(x, created, ms, cb, recurring) => AddStores(w.s, x, created, ms, cb, recurring);
    case CancelTimer(x) => CancelKeeps(w.s, x);
    case RefreshTimer(_) => MovesOther(w, op, id, t);
    case ResetTimer(_, _, _) => MovesOther(w, op, id, t);
    case ListExpired(started) => ExpiryLeaves(w, started, id, t);
    case Tick(_) =>
    case GetNext =>
  }

  lemma {:induction false} RunLeaves(w: World, ops: seq<Op>, id: Id, t: Timer)
    requires Ok(w.s) && Runs(w, ops) && Stands(w.s, id, t) && AllLetBe(w, ops, id, t.next)
    ensures Ok(Run(w, ops).s) && Stands(Run(w, ops).s, id, t) && Times(Run(w, ops), id) == Times(w, id)
    decreases |ops|
  {
    hide Step, Sorted, Stands, LetsBe, Times;
    if ops != [] {
      StepKeeps(w, ops[0]);
      StepLeaves(w, ops[0], id, t);
      RunLeaves(Step(w, ops[0]), ops[1..], id, t);
    }
  }

  /** A timer that was added, and neither cancelled nor moved since, is handed out by the first expiry
      whose reading reaches created + ms, with the callback it was added with. Then it is out of the set
      for good if it was added as a one-shot, and due again an interval after the reading if it was
      added as recurring. */
  lemma {:induction false} FiresWhenDue(w: World, id: Id, created: nat, ms: nat, cb: Callback, recurring: bool, ops: seq<Op>, now: nat)
    requires Ok(w.s) && id !in w.s.table && Times(w, id) == 0 && created + ms < WORD && created + ms <= now && (recurring ==> now + ms < WORD)
    requires var w1 := Step(w, AddTimer(id, created, ms, cb, recurring));
             Ok(w1.s) && Runs(w1, ops) && AllLetBe(w1, ops, id, created + ms)
    ensures var w1 := Step(w, AddTimer(id, created, ms, cb, recurring));
            var w2 := Run(w1, ops);
            && Ok(w2.s) && id in w2.s.table && w2.s.table[id].cb == Some(cb) && Times(w2, id) == 0
            && id in Expired(w2.s, now)
            && var w3 := Step(w2, ListExpired(now));
               && Times(w3, id) == 1
               && id in w3.s.table
               && (recurring ==> id in w3.s.order && w3.s.table[id] == Timer(true, ms, now + ms, Some(cb)))
               && (!recurring ==> id !in w3.s.order && w3.s.table[id].cb.None?)
  {
    var w1 := Step(w, AddTimer(id, created, ms, cb, recurring));
    var t := Timer(recurring, ms, created + ms, Some(cb));
    AddedStands(w, id, created, ms, cb, recurring);
    hide Step, Run, Runs, AllLetBe, Stands, Times;
    RunLeaves(w1, ops, id, t);
    DueFires(Run(w1, ops), id, t, now);
  }

  lemma {:induction false} AddedStands(w: World, id: Id, created: nat, ms: nat, cb: Callback, recurring: bool)
    requires Ok(w.s) && id !in w.s.table && created + ms < WORD
    ensures var w1 := Step(w, AddTimer(id, created, ms, cb, recurring));
            Stands(w1.s, id, Timer(recurring, ms, created + ms, Some(cb))) && Times(w1, id) == Times(w, id)
  {
    AddStores(w.s, id, created, ms, cb, recurring);
    StepHands(w, AddTimer(id, created, ms, cb, recurring), id);
    hide Add;
  }

  lemma {:induction false} DueFires(w: World, id: Id, t: Timer, now: nat)
    requires Ok(w.s) && Stands(w.s, id, t) && t.next <= now && t.cb.Some? && (t.recurring ==> now + t.ms < WORD)
    ensures id in w.s.table && w.s.table[id] == t && id in Expired(w.s, now)
    ensures var w' := Step(w, ListExpired(now));
            && Times(w', id) == Times(w, id) + 1 && id in w'.s.table
            && (t.recurring ==> id in w'.s.order && w'.s.table[id] == t.(next := now + t.ms))
            && (!t.recurring ==> id !in w'.s.order && w'.s.table[id].cb.None?)
  {
    hide Wrap, Sorted, Expire, Expired, Rollover, Times;
    ExpiredIsExact(w.s, now);
    ExpireKeeps(w.s, now);
    StepHands(w, ListExpired(now), id);
    if t.recurring { WrapsNot(now + t.ms); }
  }

  /** And a one-shot is handed out that once only, whatever happens afterwards. */
  lemma {:induction false} FiresOnce(w: World, id: Id, created: nat, ms: nat, cb: Callback, ops: seq<Op>, now: nat, later: seq<Op>)
    requires Ok(w.s) && id !in w.s.table && Times(w, id) == 0 && created + ms < WORD && created + ms <= now
    requires var w1 := Step(w, AddTimer(id, created, ms, cb, false));
             Ok(w1.s) && Runs(w1, ops) && AllLetBe(w1, ops, id, created + ms)
             && Ok(Run(w1, ops).s) && Ok(Step(Run(w1, ops), ListExpired(now)).s)
             && Runs(Step(Run(w1, ops), ListExpired(now)), later)
    ensures var w3 := Step(Run(Step(w, AddTimer(id, created, ms, cb, false)), ops), ListExpired(now));
            Times(Run(w3, later), id) == 1
  {
    FiresWhenDue(w, id, created, ms, cb, false, ops, now);
    hide Step, Run, Runs, AllLetBe;
    DisarmedForGood(Step(Run(Step(w, AddTimer(id, created, ms, cb, false)), ops), ListExpired(now)), later, id);
  }

  /** A timer that was added as a one-shot is handed out at most once, in every run from its adding on. */
  lemma {:induction false} AddedOneShotAtMostOnce(w: World, id: Id, created: nat, ms: nat, cb: Callback, ops: seq<Op>)
    requires Ok(w.s) && Frugal(w) && id !in w.s.table
    requires var w1 := Step(w, AddTimer(id, created, ms, cb, false)); Ok(w1.s) && Runs(w1, ops)
    ensures Times(Run(Step(w, AddTimer(id, created, ms, cb, false)), ops), id) <= 1
  {
    var add := AddTimer(id, created, ms, cb, false);
    AddStores(w.s, id, created, ms, cb, false);
    StepFrugal(w, add);
    var w1 := Step(w, add);
    hide Step, Frugal, Times;
    OneShotAtMostOnce(w1, ops);
    KindStays(w1, ops, id);
  }

  lemma {:induction false} KindStays(w: World, ops: seq<Op>, id: Id)
    requires Ok(w.s) && Runs(w, ops) && id in w.s.table
    ensures id in Run(w, ops).s.table && Run(w, ops).s.table[id].recurring == w.s.table[id].recurring
    decreases |ops|
  {
    hide Step, Sorted;
    if ops != [] {
      StepKeeps(w, ops[0]);
      StepFacts(w, ops[0], id);
      KindStays(Step(w, ops[0]), ops[1..], id);
    }
  }
}
