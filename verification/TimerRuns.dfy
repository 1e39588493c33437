/** Runs of the timer set: any sequence of operations by any callers, with the clock as an input. */
module TimerRuns {
  import opened Options
  import opened Timers
  import opened TimerLaws

  // One critical section. Ticks move the clock. `created` and `started` are clock readings that
  // addTimer and listExpiredCb take before they take the lock.
  datatype Op =
    | Tick(t: nat)
    | AddTimer(id: Id, created: nat, ms: nat, cb: Callback, recurring: bool)
    | CancelTimer(id: Id)
    | RefreshTimer(id: Id)
    | ResetTimer(id: Id, ms: nat, fromNow: bool)
    | GetNext
    | ListExpired(started: nat)

  // `reported` is the deadline behind the latest answer of getNextTimer, None when it answered
  // that there is no timer; `handed` are the timers whose callbacks were handed out.
  datatype World = World(s: State, clock: nat, reported: Option<nat>, handed: seq<Id>)

  function Start(clock: nat): World {
    World(State(map[], [], false, clock), clock, None, [])
  }

  // A new timer has an address of its own; the others exist.
  predicate Legal(w: World, op: Op) {
    match op
    case AddTimer(id, _, _, _, _) => id !in w.s.table
    case CancelTimer(id) => id in w.s.table
    case RefreshTimer(id) => id in w.s.table
    case ResetTimer(id, _, _) => id in w.s.table
    case _ => true
  }

  function Front(s: State): Option<nat>
    requires Known(s.table, s.order)
  {
    if s.order == [] then None else Some(s.table[s.order[0]].next)
  }

  // The reported deadline is the least in the set.
  lemma {:induction false} FrontIsLeast(s: State, x: Id)
    requires Ok(s) && x in s.order
    ensures Front(s).Some? && Front(s).value <= s.table[x].next
  {
    var k :| 0 <= k < |s.order| && s.order[k] == x;
    assert k == 0 || Less(s.table, s.order[0], s.order[k]);
  }

  ghost function Step(w: World, op: Op): World
    requires Ok(w.s) && Legal(w, op)
  {
    match op
    case Tick(t) => w.(clock := t)
    case AddTimer(id, created, ms, cb, recurring) => w.(s := Add(w.s, id, created, ms, cb, recurring))
    case CancelTimer(id) => CancelKeeps(w.s, id); w.(s := Cancel(w.s, id))
    case RefreshTimer(id) => w.(s := Refresh(w.s, id, w.clock))
    case ResetTimer(id, ms, fromNow) => w.(s := Reset(w.s, id, ms, fromNow, w.clock))
    case GetNext => w.(s := w.s.(tickled := false), reported := Front(w.s))
    case ListExpired(started) => w.(s := Expire(w.s, started), handed := w.handed + Expired(w.s, started))
  }

  lemma {:induction false} StepKeeps(w: World, op: Op)
    requires Ok(w.s) && Legal(w, op)
    ensures Ok(Step(w, op).s)
  {
    hide Sorted, Wrap, Expire, Cancel, Refresh, Reset, Add;
    match op
    case Tick(_) =>
    case AddTimer(id, created, ms, cb, recurring) => AddKeeps(w.s, id, created, ms, cb, recurring);
    case CancelTimer(id) => CancelKeeps(w.s, id);
    case RefreshTimer(id) => RefreshKeeps(w.s, id, w.clock);
    case ResetTimer(id, ms, fromNow) => ResetKeeps(w.s, id, ms, fromNow, w.clock);
    case GetNext =>
    case ListExpired(started) => ExpireKeeps(w.s, started);
  }

  ghost predicate Runs(w: World, ops: seq<Op>)
    requires Ok(w.s)
    decreases |ops|
  {
    ops != [] ==> Legal(w, ops[0]) && (StepKeeps(w, ops[0]); Runs(Step(w, ops[0]), ops[1..]))
  }

  ghost function Run(w: World, ops: seq<Op>): (r: World)
    requires Ok(w.s) && Runs(w, ops)
    decreases |ops|
  {
    if ops == [] then w else StepKeeps(w, ops[0]); Run(Step(w, ops[0]), ops[1..])
  }

  /** Membership: after every run, the set is sorted and a timer has its callback exactly while it
      is in the set, so the iterator that cancel erases without checking is always a valid one. */
  lemma {:induction false} RunKeeps(w: World, ops: seq<Op>)
    requires Ok(w.s) && Runs(w, ops)
    ensures Ok(Run(w, ops).s)
    ensures forall id | id in Run(w, ops).s.table && Run(w, ops).s.table[id].cb.Some? ::
              var s := Run(w, ops).s; Find(s.table, s.order, id) < |s.order| && s.order[Find(s.table, s.order, id)] == id
    decreases |ops|
  {
    hide Step, Sorted, Find;
    if ops == [] {
      forall id | id in w.s.table { FindMeets(w.s.table, w.s.order, id); }
    } else {
      StepKeeps(w, ops[0]);
      RunKeeps(Step(w, ops[0]), ops[1..]);
    }
  }

  // ---- Handing out ----

  // Timers are never forgotten, keep their kind, and once disarmed stay disarmed.
  lemma {:induction false} StepFacts(w: World, op: Op, id: Id)
    requires Ok(w.s) && Legal(w, op) && id in w.s.table
    ensures var t, s' := w.s.table[id], Step(w, op).s;
            && id in s'.table && s'.table[id].recurring == t.recurring
            && (t.cb.None? ==> s'.table[id].cb.None?)
  {
    hide Sorted, Wrap, Expire, Find, Insert;
    match op
    case ListExpired(started) => ExpireKeeps(w.s, started);
    case CancelTimer(x) => CancelKeeps(w.s, x);
    case RefreshTimer(x) => RefreshKeeps(w.s, x, w.clock);
    case ResetTimer(x, ms, fromNow) => ResetKeeps(w.s, x, ms, fromNow, w.clock);
    case _ =>
  }

  lemma {:induction false} CountOfDistinct(q: seq<Id>, id: Id)
    requires forall i, j | 0 <= i < j < |q| :: q[i] != q[j]
    ensures multiset(q)[id] == if id in q then 1 else 0
  {
    if q != [] {
      CountOfDistinct(q[1..], id);
      assert q == [q[0]] + q[1..];
      assert multiset(q) == multiset([q[0]]) + multiset(q[1..]);
    }
  }

  function Times(w: World, id: Id): nat { multiset(w.handed)[id] }

  lemma {:induction false} StepHands(w: World, op: Op, id: Id)
    requires Ok(w.s) && Legal(w, op)
    ensures Times(Step(w, op), id)
         == Times(w, id) + if op.ListExpired? && id in Expired(w.s, op.started) then 1 else 0
  {
    hide Sorted, Wrap, Expire, Cancel, Refresh, Reset, Add;
    if op.ListExpired? {
      var gone := Expired(w.s, op.started);
      ExpiredSplit(w.s, op.started);
      CountOfDistinct(gone, id);
      assert multiset(w.handed + gone) == multiset(w.handed) + multiset(gone);
    }
  }

  // A one-shot timer is either in the set and not handed out yet, or was handed out at most once.
  ghost predicate Frugal(w: World) {
    && (forall id | id !in w.s.table :: Times(w, id) == 0)
    && (forall id | id in w.s.table && !w.s.table[id].recurring ::
          Times(w, id) + (if id in w.s.order then 1 else 0) <= 1)
  }

  lemma {:induction false} StepFrugal(w: World, op: Op)
    requires Ok(w.s) && Legal(w, op) && Frugal(w)
    ensures Frugal(Step(w, op))
  {
    hide Times;
    var w' := Step(w, op);
    StepKeeps(w, op);
    forall id ensures id !in w'.s.table ==> Times(w', id) == 0 {
      StepHands(w, op, id);
      if id in w.s.table { StepFacts(w, op, id); }
      if op.ListExpired? { ExpiredSplit(w.s, op.started); }
    }
    forall id | id in w'.s.table && !w'.s.table[id].recurring
      ensures Times(w', id) + (if id in w'.s.order then 1 else 0) <= 1
    {
      StepHands(w, op, id);
      OneShotStep(w, op, id);
    }
  }

  // In one step a one-shot timer enters the set only when it is created, and leaves it when it is
  // handed out.
  lemma {:induction false} OneShotStep(w: World, op: Op, id: Id)
    requires Ok(w.s) && Legal(w, op) && id in Step(w, op).s.table && !Step(w, op).s.table[id].recurring
    ensures id in w.s.table ==> !w.s.table[id].recurring && (id in Step(w, op).s.order ==> id in w.s.order)
    ensures op.ListExpired? && id in Expired(w.s, op.started) ==> id in w.s.order && id !in Step(w, op).s.order
  {
    hide Sorted, Wrap, Expire, Cancel, Refresh, Reset, Add;
    StepKeeps(w, op);
    if id in w.s.table { StepFacts(w, op, id); }
    if op.ListExpired? {
      ExpireKeeps(w.s, op.started);
      ExpiredSplit(w.s, op.started);
    }
  }

  /** In every run from the empty set, a one-shot timer is handed out at most once. */
  lemma {:induction false} OneShotAtMostOnce(w: World, ops: seq<Op>)
    requires Ok(w.s) && Frugal(w) && Runs(w, ops)
    ensures forall id | id in Run(w, ops).s.table && !Run(w, ops).s.table[id].recurring :: Times(Run(w, ops), id) <= 1
    decreases |ops|
  {
    hide Step, Sorted, Times;
    if ops != [] {
      StepKeeps(w, ops[0]);
      StepFrugal(w, ops[0]);
      OneShotAtMostOnce(Step(w, ops[0]), ops[1..]);
    }
  }

  lemma {:induction false} StartIsFrugal(clock: nat)
    ensures Ok(Start(clock).s) && Frugal(Start(clock))
  {
  }

  /** A timer that is disarmed, by cancel or as a one-shot that has fired, is never handed out again. */
  lemma {:induction false} DisarmedForGood(w: World, ops: seq<Op>, id: Id)
    requires Ok(w.s) && Runs(w, ops) && id in w.s.table && w.s.table[id].cb.None?
    ensures Times(Run(w, ops), id) == Times(w, id)
    ensures id in Run(w, ops).s.table && Run(w, ops).s.table[id].cb.None?
    decreases |ops|
  {
    hide Step, Sorted, Times;
    if ops != [] {
      StepKeeps(w, ops[0]);
      StepFacts(w, ops[0], id);
      StepHands(w, ops[0], id);
      if ops[0].ListExpired? { ExpiredSplit(w.s, ops[0].started); }
      DisarmedForGood(Step(w, ops[0]), ops[1..], id);
    }
  }

  lemma {:induction false} CancelDisarms(w: World, id: Id)
    requires Ok(w.s) && id in w.s.table
    ensures Step(w, CancelTimer(id)).s.table[id].cb.None?
  {
    CancelKeeps(w.s, id);
  }

  // ---- No lost wake-up ----

  predicate NotBefore(reported: Option<nat>, t: Timer) { reported.Some? && reported.value <= t.next }

  // Either the event loop is being woken, or no timer is due before the deadline it was told.
  ghost predicate Awake(w: World) {
    && Known(w.s.table, w.s.order)
    && (w.s.tickled || forall x | x in w.s.order :: NotBefore(w.reported, w.s.table[x]))
  }

  // What an operation must not do, under any clock: neither refresh nor the re-insertion of
  // recurring timers notifies, so neither may set a deadline before the reported one.
  ghost predicate Wakes(w: World, op: Op)
    requires Ok(w.s) && Legal(w, op)
  {
    w.s.tickled ||
    match op
    case RefreshTimer(id) => id in w.s.order ==> NotBefore(w.reported, w.s.table[id].(next := Wrap(w.clock + w.s.table[id].ms)))
    case ListExpired(started) =>
      forall x | x in w.s.order && x in Expired(w.s, started) && w.s.table[x].recurring ::
        NotBefore(w.reported, w.s.table[x].(next := Wrap(started + w.s.table[x].ms)))
    case _ => true
  }

  // addTimer(val, lock): a timer that is not the first is not earlier than the first.
  lemma {:induction false} NotifyWakes(s: State, id: Id, reported: Option<nat>)
    requires Ok(s) && id in s.order
    requires s.tickled || forall x | x in s.order && x != id :: NotBefore(reported, s.table[x])
    ensures Notify(s, id).tickled || forall x | x in s.order :: NotBefore(reported, s.table[x])
  {
    if !Notify(s, id).tickled {
      var k :| 0 <= k < |s.order| && s.order[k] == id;
      assert Less(s.table, s.order[0], s.order[k]);
      assert NotBefore(reported, s.table[s.order[0]]);
    }
  }

  lemma {:induction false} AddWakes(w: World, op: Op)
    requires op.AddTimer? && Ok(w.s) && Legal(w, op) && Awake(w)
    ensures Awake(Step(w, op))
  {
    hide Wrap, Sorted, Insert;
    StepKeeps(w, op);
    NotifyWakes(Step(w, op).s.(tickled := w.s.tickled), op.id, w.reported);
  }

  lemma {:induction false} RefreshWakes(w: World, op: Op)
    requires op.RefreshTimer? && Ok(w.s) && Legal(w, op) && Awake(w)
    ensures Awake(Step(w, op)) <==> Wakes(w, op)
  {
    hide Wrap, Sorted, Refresh;
    RefreshKeeps(w.s, op.id, w.clock);
    RefreshMoves(w.s, op.id, w.clock);
    var s', t := Step(w, op).s, w.s.table[op.id].(next := Wrap(w.clock + w.s.table[op.id].ms));
    if op.id in w.s.order { assert op.id in s'.order && s'.table[op.id] == t; }
  }

  lemma {:induction false} ResetWakes(w: World, op: Op)
    requires op.ResetTimer? && Ok(w.s) && Legal(w, op) && Awake(w)
    ensures Awake(Step(w, op))
  {
    hide Wrap, Sorted, Insert, Find, Erase, Requeue;
    var t := w.s.table[op.id];
    ResetKeeps(w.s, op.id, op.ms, op.fromNow, w.clock);
    if op.id in w.s.order && !(op.ms == t.ms && !op.fromNow) {
      var start := if op.fromNow then w.clock else Wrap(t.next - t.ms);
      var t' := t.(ms := op.ms, next := Wrap(start + op.ms));
      RequeueKeeps(w.s, op.id, t');
      RequeueShape(w.s, op.id, t');
      NotifyWakes(Requeue(w.s, op.id, t'), op.id, w.reported);
    }
  }

  lemma {:induction false} RequeueShape(s: State, id: Id, t: Timer)
    requires Known(s.table, s.order) && id in s.table && Find(s.table, s.order, id) < |s.order|
    ensures Requeue(s, id, t).table == s.table[id := t] && Requeue(s, id, t).tickled == s.tickled
  {
  }

  lemma {:induction false} ExpireWakes(w: World, op: Op)
    requires op.ListExpired? && Ok(w.s) && Legal(w, op) && Awake(w)
    ensures Awake(Step(w, op)) <==> Wakes(w, op)
  {
    hide Sorted, Wrap, Expire, Expired;
    ExpireKeeps(w.s, op.started);
    var s' := Step(w, op).s;
    forall x | x in w.s.order && x in Expired(w.s, op.started) && w.s.table[x].recurring
      ensures x in s'.order && s'.table[x] == w.s.table[x].(next := Wrap(op.started + w.s.table[x].ms))
    {
    }
  }

  lemma {:induction false} GetNextWakes(w: World)
    requires Ok(w.s)
    ensures Awake(Step(w, GetNext))
  {
    forall x | x in w.s.order ensures NotBefore(Front(w.s), w.s.table[x]) { FrontIsLeast(w.s, x); }
  }

  /** Whatever the clock does, an operation keeps the promise if and only if it is not a refresh, or an
      expiry with a recurring timer, that sets a deadline before the reported one while the flag is
      clear. */
  lemma {:induction false} WakesExactly(w: World, op: Op)
    requires Ok(w.s) && Legal(w, op) && Awake(w)
    ensures Awake(Step(w, op)) <==> Wakes(w, op)
  {
    hide Sorted, Wrap, Expire, Refresh, Reset, Add;
    match op
    case AddTimer(_, _, _, _, _) => AddWakes(w, op);
    case RefreshTimer(_) => RefreshWakes(w, op);
    case ResetTimer(_, _, _) => ResetWakes(w, op);
    case ListExpired(_) => ExpireWakes(w, op);
    case CancelTimer(id) => CancelKeeps(w.s, id);
    case GetNext => GetNextWakes(w);
    case Tick(_) =>
  }

  // The promise holds in every state of the run.
  ghost predicate AwakeThroughout(w: World, ops: seq<Op>)
    requires Ok(w.s) && Runs(w, ops)
    decreases |ops|
  {
    Awake(w) && (ops != [] ==> (StepKeeps(w, ops[0]); AwakeThroughout(Step(w, ops[0]), ops[1..])))
  }

  ghost predicate WakesThroughout(w: World, ops: seq<Op>)
    requires Ok(w.s) && Runs(w, ops)
    decreases |ops|
  {
    ops != [] ==> Wakes(w, ops[0]) && (StepKeeps(w, ops[0]); WakesThroughout(Step(w, ops[0]), ops[1..]))
  }

  /** The same over whole runs, under any clock. */
  lemma {:induction false} WakeUpsExactly(w: World, ops: seq<Op>)
    requires Ok(w.s) && Runs(w, ops) && Awake(w)
    ensures AwakeThroughout(w, ops) <==> WakesThroughout(w, ops)
    decreases |ops|
  {
    hide Sorted, Awake, Wakes, Step;
    if ops != [] {
      StepKeeps(w, ops[0]);
      WakesExactly(w, ops[0]);
      if Awake(Step(w, ops[0])) {
        WakeUpsExactly(Step(w, ops[0]), ops[1..]);
      } else {
        NotThroughout(Step(w, ops[0]), ops[1..]);
      }
    }
  }

  lemma {:induction false} NotThroughout(w: World, ops: seq<Op>)
    requires Ok(w.s) && Runs(w, ops) && !Awake(w)
    ensures !AwakeThroughout(w, ops)
  {
  }

  // A clock that does not run backwards, readings taken before the lock that are not more than an
  // hour older than the latest expiry's, and no deadline out of the 64-bit range.
  ghost predicate Steady(w: World, op: Op)
    requires Ok(w.s) && Legal(w, op)
  {
    match op
    case Tick(t) => w.clock <= t
    case AddTimer(_, created, ms, _, _) => created <= w.clock && created + ms < WORD
    case RefreshTimer(id) => w.clock + w.s.table[id].ms < WORD
    case ResetTimer(_, ms, _) => w.clock + ms < WORD
    case ListExpired(started) =>
      && started <= w.clock && !Rollover(w.s, started)
      && (forall x | x in w.s.order && x in Expired(w.s, started) && w.s.table[x].recurring :: started + w.s.table[x].ms < WORD)
    case _ => true
  }

  // Each deadline is an interval after a clock reading.
  ghost predicate Based(w: World) {
    && Known(w.s.table, w.s.order)
    && forall x | x in w.s.order :: 0 <= w.s.table[x].next - w.s.table[x].ms <= w.clock && w.s.table[x].next < WORD
  }

  // A steady operation meets the exact condition.
  lemma {:induction false} SteadyWakes(w: World, op: Op)
    requires Ok(w.s) && Legal(w, op) && Steady(w, op) && Based(w) && Awake(w)
    ensures Wakes(w, op)
  {
    hide Sorted, Wrap;
    if op.RefreshTimer? { WrapsNot(w.clock + w.s.table[op.id].ms); }
    if op.ListExpired? {
      DueIsExact(w.s, op.started);
      forall x | x in w.s.order && x in Expired(w.s, op.started) && w.s.table[x].recurring && !w.s.tickled
        ensures NotBefore(w.reported, w.s.table[x].(next := Wrap(op.started + w.s.table[x].ms)))
      {
        WrapsNot(op.started + w.s.table[x].ms);
      }
    }
  }

  lemma {:induction false} ResetBases(w: World, op: Op)
    requires op.ResetTimer? && Ok(w.s) && Legal(w, op) && Steady(w, op) && Based(w)
    ensures Based(Step(w, op))
  {
    hide Wrap, Sorted, Reset;
    var t := w.s.table[op.id];
    ResetKeeps(w.s, op.id, op.ms, op.fromNow, w.clock);
    if op.ms != t.ms || op.fromNow {
      ResetMoves(w.s, op.id, op.ms, op.fromNow, w.clock);
      if op.id in w.s.order {
        WrapsNot(t.next - t.ms);
        WrapsNot((if op.fromNow then w.clock else t.next - t.ms) + op.ms);
      }
    } else {
      ResetSame(w.s, op.id, w.clock);
    }
  }

  lemma {:induction false} ResetSame(s: State, id: Id, now: nat)
    requires Known(s.table, s.order) && id in s.table
    ensures Reset(s, id, s.table[id].ms, false, now) == s
  {
  }

  lemma {:induction false} RefreshBases(w: World, op: Op)
    requires op.RefreshTimer? && Ok(w.s) && Legal(w, op) && Steady(w, op) && Based(w)
    ensures Based(Step(w, op))
  {
    hide Wrap, Sorted, Refresh;
    RefreshKeeps(w.s, op.id, w.clock);
    RefreshMoves(w.s, op.id, w.clock);
    WrapsNot(w.clock + w.s.table[op.id].ms);
  }

  lemma {:induction false} ExpireBases(w: World, op: Op)
    requires op.ListExpired? && Ok(w.s) && Legal(w, op) && Steady(w, op) && Based(w)
    ensures Based(Step(w, op))
  {
    hide Sorted, Wrap, Expire, Expired;
    ExpireKeeps(w.s, op.started);
    var s' := Step(w, op).s;
    forall x | x in s'.order
      ensures x in w.s.order && 0 <= s'.table[x].next - s'.table[x].ms <= w.clock && s'.table[x].next < WORD
    {
      if x in w.s.order && x in Expired(w.s, op.started) { WrapsNot(op.started + w.s.table[x].ms); }
    }
  }

  lemma {:induction false} AddBases(w: World, op: Op)
    requires op.AddTimer? && Ok(w.s) && Legal(w, op) && Steady(w, op) && Based(w)
    ensures Based(Step(w, op))
  {
    hide Wrap, Sorted, Insert;
    WrapsNot(op.created + op.ms);
  }

  lemma {:induction false} StepBases(w: World, op: Op)
    requires Ok(w.s) && Legal(w, op) && Steady(w, op) && Based(w)
    ensures Based(Step(w, op))
  {
    hide Sorted, Wrap, Expire, Refresh, Reset, Add;
    match op
    case AddTimer(_, _, _, _, _) => AddBases(w, op);
    case RefreshTimer(_) => RefreshBases(w, op);
    case ResetTimer(_, _, _) => ResetBases(w, op);
    case ListExpired(_) => ExpireBases(w, op);
    case CancelTimer(id) => CancelKeeps(w.s, id);
    case GetNext =>
    case Tick(_) =>
  }

  ghost predicate SteadyRun(w: World, ops: seq<Op>)
    requires Ok(w.s) && Runs(w, ops)
    decreases |ops|
  {
    ops != [] ==> Steady(w, ops[0]) && (StepKeeps(w, ops[0]); SteadyRun(Step(w, ops[0]), ops[1..]))
  }

  /** No wake-up is lost: with a clock that does not run backwards, and no expiry whose reading, taken
      before it got the lock, is more than an hour older than that of an earlier expiry, after every
      run either the flag is set or no timer is due before the deadline that the latest getNextTimer
      answered with, although refresh and the re-insertion of recurring timers never notify. */
  lemma {:induction false} NoLostWakeUp(w: World, ops: seq<Op>)
    requires Ok(w.s) && Runs(w, ops) && Based(w) && Awake(w)
    requires SteadyRun(w, ops)
    ensures Awake(Run(w, ops)) && Based(Run(w, ops))
    decreases |ops|
  {
    hide Sorted, Based, Awake, Steady, Wakes, Step;
    if ops != [] {
      StepKeeps(w, ops[0]);
      SteadyWakes(w, ops[0]);
      WakesExactly(w, ops[0]);
      StepBases(w, ops[0]);
      NoLostWakeUp(Step(w, ops[0]), ops[1..]);
    }
  }

  lemma {:induction false} StartIsAwake(clock: nat)
    ensures Ok(Start(clock).s) && Based(Start(clock)) && Awake(Start(clock))
  {
  }

  // ---- Runs that lose a wake-up ----

  // One recurring timer, and the event loop told of its deadline.
  lemma {:induction false} OneTimerTold(c: nat, ms: nat)
    requires c + ms < WORD
    ensures var ops := [AddTimer(1, c, ms, 0, true), GetNext];
            var t := Timer(true, ms, c + ms, Some(0));
            && Ok(Start(c).s) && Runs(Start(c), ops)
            && Run(Start(c), ops) == World(State(map[1 := t], [1], false, c), c, Some(c + ms), [])
  {
    hide Wrap;
    var a, t := AddTimer(1, c, ms, 0, true), Timer(true, ms, c + ms, Some(0));
    WrapsNot(c + ms);
    var w1 := Step(Start(c), a);
    assert w1.s.order == [1] && w1.s.table == map[1 := t];
    StepKeeps(Start(c), a);
    assert [a, GetNext][1..] == [GetNext] && [GetNext][1..] == [];
    assert Run(w1, [GetNext]) == Step(w1, GetNext);
  }

  /** The clock going back by one millisecond: a refresh sets a deadline before the reported one and
      notifies nobody. */
  lemma {:induction false} RefreshLosesAWakeUp()
    ensures exists w: World, ops :: Ok(w.s) && w == Start(10) && Runs(w, ops) && !Awake(Run(w, ops))
  {
    var told := [AddTimer(1, 10, 5, 0, true), GetNext];
    OneTimerTold(10, 5);
    var w := Run(Start(10), told);
    var back := [Tick(9), RefreshTimer(1)];
    RefreshBack(w);
    RunsOn(Start(10), told, back);
  }

  lemma {:induction false} RefreshBack(w: World)
    requires w == World(State(map[1 := Timer(true, 5, 15, Some(0))], [1], false, 10), 10, Some(15), [])
    ensures var ops := [Tick(9), RefreshTimer(1)]; Ok(w.s) && Runs(w, ops) && !Awake(Run(w, ops))
  {
    var w1 := Step(w, Tick(9));
    assert 1 in w.s.order;
    var w2 := Step(w1, RefreshTimer(1));
    WakesExactly(w1, RefreshTimer(1));
    WrapsNot(14);
    assert !Wakes(w1, RefreshTimer(1));
    StepKeeps(w1, RefreshTimer(1));
    assert [Tick(9), RefreshTimer(1)][1..] == [RefreshTimer(1)] && [RefreshTimer(1)][1..] == [];
    hide Step, Awake;
    assert Run(w1, [RefreshTimer(1)]) == w2;
  }

  lemma {:induction false} RunsOn(w: World, ops: seq<Op>, more: seq<Op>)
    requires Ok(w.s) && Runs(w, ops) && Ok(Run(w, ops).s) && Runs(Run(w, ops), more)
    ensures Runs(w, ops + more) && Run(w, ops + more) == Run(Run(w, ops), more)
    decreases |ops|
  {
    hide Step, Sorted;
    if ops == [] {
      assert ops + more == more;
    } else {
      assert (ops + more)[1..] == ops[1..] + more;
      StepKeeps(w, ops[0]);
      RunsOn(Step(w, ops[0]), ops[1..], more);
    }
  }

  // An expiry that re-arms the one timer with a reading before its own start.
  lemma {:induction false} ExpiryBack(w: World, ms: nat, next: nat, started: nat)
    requires w.s.table == map[1 := Timer(true, ms, next, Some(0))] && w.s.order == [1] && !w.s.tickled
    requires w.reported == Some(next) && Rollover(w.s, started) && started + ms < next < WORD
    ensures Ok(w.s) && Awake(w) && Runs(w, [ListExpired(started)]) && !Awake(Run(w, [ListExpired(started)]))
  {
    assert 1 in w.s.order;
    WrapsNot(started + ms);
    assert Ok(w.s) && Awake(w);
    assert 1 in Expired(w.s, started) && !NotBefore(w.reported, w.s.table[1].(next := started + ms));
    hide Wrap, Expired;
    WakesExactly(w, ListExpired(started));
    StepKeeps(w, ListExpired(started));
    assert [ListExpired(started)][1..] == [];
    hide Step, Awake;
    assert Run(Step(w, ListExpired(started)), []) == Step(w, ListExpired(started));
  }

  /** The clock going back by more than an hour: every recurring timer is re-armed, earlier than
      reported. */
  lemma {:induction false} RolloverLosesAWakeUp()
    ensures exists w: World, ops :: Ok(w.s) && w == Start(10_000_000) && Runs(w, ops) && !Awake(Run(w, ops))
  {
    var told := [AddTimer(1, 10_000_000, 5, 0, true), GetNext];
    OneTimerTold(10_000_000, 5);
    var w := Run(Start(10_000_000), told);
    ExpiryBack(w, 5, 10_000_005, 0);
    RunsOn(Start(10_000_000), told, [ListExpired(0)]);
  }

  // The clock does not go back, and the reading is one that the clock has shown.
  predicate Shown(w: World, op: Op) {
    match op
    case Tick(t) => w.clock <= t
    case AddTimer(_, created, _, _, _) => created <= w.clock
    case ListExpired(started) => started <= w.clock
    case _ => true
  }

  ghost predicate Forward(w: World, ops: seq<Op>)
    requires Ok(w.s) && Runs(w, ops)
    decreases |ops|
  {
    ops != [] ==> Shown(w, ops[0]) && (StepKeeps(w, ops[0]); Forward(Step(w, ops[0]), ops[1..]))
  }

  lemma {:induction false} AndThen(w: World, ops: seq<Op>, op: Op)
    requires Ok(w.s) && Runs(w, ops) && Forward(w, ops) && Legal(Run(w, ops), op) && Shown(Run(w, ops), op)
    ensures Ok(Run(w, ops).s)
    ensures Runs(w, ops + [op]) && Forward(w, ops + [op]) && Run(w, ops + [op]) == Step(Run(w, ops), op)
    decreases |ops|
  {
    hide Step, Sorted, Shown, Legal;
    if ops == [] {
      StepKeeps(w, op);
      assert [] + [op] == [op] && [op][1..] == [];
    } else {
      assert (ops + [op])[1..] == ops[1..] + [op];
      StepKeeps(w, ops[0]);
      AndThen(Step(w, ops[0]), ops[1..], op);
    }
  }

  // Nothing is due: the expiry only remembers its reading.
  lemma {:induction false} QuietExpiry(w: World, t: Timer, t1: nat)
    requires w.s == State(map[1 := t], [1], w.s.tickled, w.s.previous) && t.cb.Some? && t.next > t1 && !Rollover(w.s, t1)
    ensures Ok(w.s) && Step(w, ListExpired(t1)) == w.(s := w.s.(previous := t1))
  {
    assert 1 in w.s.order;
    assert Expired(w.s, t1) == [];
    assert w.handed + [] == w.handed;
  }

  // The timer added at 1, an expiry that remembers 10,000,000, and the event loop told.
  const EARLY := [Tick(1), AddTimer(1, 1, 20_000_000, 0, true)]
  const LATE := EARLY + [Tick(10_000_000)] + [ListExpired(10_000_000)] + [GetNext]

  lemma {:induction false} EarlyRun()
    ensures var w, t := Start(0), Timer(true, 20_000_000, 20_000_001, Some(0));
            && Ok(w.s) && Runs(w, EARLY) && Forward(w, EARLY)
            && Run(w, EARLY) == World(State(map[1 := t], [1], true, 0), 1, None, [])
  {
    var w := Start(0);
    AndThen(w, [], Tick(1));
    assert [] + [Tick(1)] == [Tick(1)];
    AndThen(w, [Tick(1)], EARLY[1]);
    assert [Tick(1)] + [EARLY[1]] == EARLY;
    WrapsNot(20_000_001);
    hide Wrap, Runs, Forward, Run;
    assert Insert(map[1 := Timer(true, 20_000_000, 20_000_001, Some(0))], [], 1) == [1];
  }

  lemma {:induction false} LateRun()
    ensures var w, t := Start(0), Timer(true, 20_000_000, 20_000_001, Some(0));
            && Ok(w.s) && Runs(w, LATE) && Forward(w, LATE)
            && Run(w, LATE) == World(State(map[1 := t], [1], false, 10_000_000), 10_000_000, Some(20_000_001), [])
  {
    hide Runs, Forward, Run, Wrap, Expire, Expired;
    var w, t := Start(0), Timer(true, 20_000_000, 20_000_001, Some(0));
    EarlyRun();
    AndThen(w, EARLY, Tick(10_000_000));
    var w1 := Run(w, EARLY + [Tick(10_000_000)]);
    AndThen(w, EARLY + [Tick(10_000_000)], ListExpired(10_000_000));
    NoRollover(w1.s);
    QuietExpiry(w1, t, 10_000_000);
    AndThen(w, EARLY + [Tick(10_000_000)] + [ListExpired(10_000_000)], GetNext);
  }

  lemma {:induction false} NoRollover(s: State)
    requires s.previous == 0
    ensures !Rollover(s, 10_000_000)
  {
  }

  /** A clock that never goes back does not suffice: an expiry whose reading, taken before it got the
      lock, is more than an hour older than that of another expiry takes itself for a rollover. */
  lemma {:induction false} StaleReadingLosesAWakeUp()
    ensures exists w: World, ops :: Ok(w.s) && w == Start(0) && Runs(w, ops) && Forward(w, ops) && !Awake(Run(w, ops))
  {
    hide Runs, Forward, Run;
    LateRun();
    var w := Run(Start(0), LATE);
    ExpiryBack(w, 20_000_000, 20_000_001, 0);
    hide Awake, Step;
    AndThen(Start(0), LATE, ListExpired(0));
    OneStep(w, ListExpired(0));
  }

  lemma {:induction false} OneStep(w: World, op: Op)
    requires Ok(w.s) && Runs(w, [op])
    ensures Legal(w, op) && Run(w, [op]) == Step(w, op)
  {
    StepKeeps(w, op);
    hide Step;
    assert [op][1..] == [];
  }
}
