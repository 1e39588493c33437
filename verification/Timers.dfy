/** The timer set: timers ordered by deadline and then by address, with cancel, refresh, reset,
    expiry and re-insertion of recurring timers, and the flag that wakes the event loop. */
module Timers {
  import opened Options

  // A timer is known by its address, which also breaks ties in the order.
  type Id = nat
  type Callback = nat

  datatype Timer = Timer(recurring: bool, ms: nat, next: nat, cb: Option<Callback>)

  // The timer objects, std::set<Timer::ptr, Comparator> as its elements in order, and the flags.
  datatype State = State(table: map<Id, Timer>, order: seq<Id>, tickled: bool, previous: nat)

  const WORD := 0x1_0000_0000_0000_0000
  const HOUR := 60 * 60 * 1000

  function Wrap(x: int): (r: nat) { x % WORD }

  // ---- The ordered set ----

  predicate Known(table: map<Id, Timer>, order: seq<Id>) {
    forall i | 0 <= i < |order| :: order[i] in table
  }

  // Timer::Comparator, against a timer at `addr` that is due at `next`.
  predicate Before(table: map<Id, Timer>, id: Id, next: nat, addr: Id)
    requires id in table
  {
    table[id].next < next || (table[id].next == next && id < addr)
  }

  predicate Less(table: map<Id, Timer>, a: Id, b: Id)
    requires a in table && b in table
  {
    Before(table, a, table[b].next, b)
  }

  ghost predicate Sorted(table: map<Id, Timer>, order: seq<Id>)
    requires Known(table, order)
  {
    forall i, j | 0 <= i < j < |order| :: Less(table, order[i], order[j])
  }

  // std::set::lower_bound: the first element that does not come before the key.
  function LowerBound(table: map<Id, Timer>, order: seq<Id>, next: nat, addr: Id): (i: nat)
    requires Known(table, order)
    ensures i <= |order|
    ensures forall j | 0 <= j < i :: Before(table, order[j], next, addr)
    ensures i < |order| ==> !Before(table, order[i], next, addr)
  {
    if order == [] || !Before(table, order[0], next, addr) then 0
    else 1 + LowerBound(table, order[1..], next, addr)
  }

  // std::set::find: the lower bound, if the key does not come before it.
  function Find(table: map<Id, Timer>, order: seq<Id>, id: Id): (i: nat)
    requires Known(table, order) && id in table
    ensures i <= |order|
  {
    var i := LowerBound(table, order, table[id].next, id);
    if i < |order| && !Less(table, id, order[i]) then i else |order|
  }

  // std::set::erase at an iterator.
  function Erase(order: seq<Id>, i: nat): seq<Id>
    requires i < |order|
  {
    order[..i] + order[i + 1..]
  }

  // std::set::insert of an element that is not there.
  function Insert(table: map<Id, Timer>, order: seq<Id>, id: Id): (r: seq<Id>)
    requires Known(table, order) && id in table
    ensures |r| == |order| + 1 && Known(table, r)
    ensures forall x :: x in r <==> x in order || x == id
  {
    if order == [] || !Less(table, order[0], id) then [id] + order
    else [order[0]] + Insert(table, order[1..], id)
  }

  // In a sorted set, find meets exactly the element it looks for.
  lemma {:induction false} FindMeets(table: map<Id, Timer>, order: seq<Id>, id: Id)
    requires Known(table, order) && Sorted(table, order) && id in table
    ensures id in order ==> Find(table, order, id) < |order| && order[Find(table, order, id)] == id
    ensures id !in order ==> Find(table, order, id) == |order|
  {
    var i := LowerBound(table, order, table[id].next, id);
    if id in order {
      var k :| 0 <= k < |order| && order[k] == id;
      assert !(i < k);
    }
  }

  lemma {:induction false} EraseSorted(table: map<Id, Timer>, order: seq<Id>, i: nat)
    requires Known(table, order) && Sorted(table, order) && i < |order|
    ensures Known(table, Erase(order, i)) && Sorted(table, Erase(order, i))
    ensures forall x :: x in Erase(order, i) <==> x in order && x != order[i]
  {
    var r := Erase(order, i);
    forall x ensures x in r <==> x in order && x != order[i] {
      if x in order && x != order[i] {
        var k :| 0 <= k < |order| && order[k] == x;
        assert r[if k < i then k else k - 1] == x;
      }
      if x in r {
        var k :| 0 <= k < |r| && r[k] == x;
        var k' := if k < i then k else k + 1;
        assert order[k'] == x;
        assert Less(table, order[if k' < i then k' else i], order[if k' < i then i else k']);
      }
    }
  }

  lemma {:induction false} InsertSorted(table: map<Id, Timer>, order: seq<Id>, id: Id)
    requires Known(table, order) && Sorted(table, order) && id in table && id !in order
    ensures Sorted(table, Insert(table, order, id))
  {
    if order != [] && Less(table, order[0], id) {
      InsertSorted(table, order[1..], id);
      var r := Insert(table, order[1..], id);
      forall j | 0 <= j < |r| ensures Less(table, order[0], r[j]) {
        assert r[j] in r;
        if r[j] != id {
          var k :| 0 <= k < |order[1..]| && order[1..][k] == r[j];
          assert Less(table, order[0], order[k + 1]);
        }
      }
    }
  }

  // Changing a timer that is not in the set does not disturb the set.
  lemma {:induction false} OutsideChange(table: map<Id, Timer>, order: seq<Id>, id: Id, t: Timer)
    requires Known(table, order) && Sorted(table, order) && id !in order
    ensures Known(table[id := t], order) && Sorted(table[id := t], order)
  {
    assert forall i | 0 <= i < |order| :: order[i] != id;
  }

  // Changing a callback does not disturb the order.
  lemma {:induction false} CallbackChange(table: map<Id, Timer>, order: seq<Id>, id: Id, cb: Option<Callback>)
    requires Known(table, order) && Sorted(table, order) && id in table
    ensures Known(table[id := table[id].(cb := cb)], order) && Sorted(table[id := table[id].(cb := cb)], order)
  {
    var t' := table[id := table[id].(cb := cb)];
    forall i, j | 0 <= i < j < |order| ensures Less(t', order[i], order[j]) {
      assert Less(table, order[i], order[j]);
    }
  }

  // ---- The operations ----

  /** What holds between any two operations: the set is sorted, and a timer has its callback
      exactly while it is in the set. */
  ghost predicate Ok(s: State) {
    && Known(s.table, s.order) && Sorted(s.table, s.order)
    && (forall id | id in s.table :: s.table[id].cb.Some? <==> id in s.order)
  }

  // Timer::cancel. The iterator that find returns is erased without a check.
  function Cancel(s: State, id: Id): State
    requires Known(s.table, s.order) && id in s.table
    requires s.table[id].cb.Some? ==> Find(s.table, s.order, id) < |s.order|
  {
    if s.table[id].cb.None? then s
    else s.(table := s.table[id := s.table[id].(cb := None)], order := Erase(s.order, Find(s.table, s.order, id)))
  }

  // Takes a timer out of the set, changes it and puts it back.
  function Requeue(s: State, id: Id, t: Timer): State
    requires Known(s.table, s.order) && id in s.table && Find(s.table, s.order, id) < |s.order|
  {
    var table := s.table[id := t];
    s.(table := table, order := Insert(table, Erase(s.order, Find(s.table, s.order, id)), id))
  }

  // Whether refresh and reset find the timer armed.
  predicate Armed(s: State, id: Id)
    requires Known(s.table, s.order) && id in s.table
  {
    s.table[id].cb.Some? && Find(s.table, s.order, id) < |s.order|
  }

  // Timer::refresh: no notification.
  function Refresh(s: State, id: Id, now: nat): State
    requires Known(s.table, s.order) && id in s.table
  {
    if !Armed(s, id) then s
    else Requeue(s, id, s.table[id].(next := Wrap(now + s.table[id].ms)))
  }

  // TimerManager::addTimer(val, lock), after the insertion: notify when the timer is the first.
  function Notify(s: State, id: Id): State {
    s.(tickled := s.tickled || (s.order != [] && s.order[0] == id))
  }

  // Timer::reset.
  function Reset(s: State, id: Id, ms: nat, fromNow: bool, now: nat): State
    requires Known(s.table, s.order) && id in s.table
  {
    var t := s.table[id];
    if (ms == t.ms && !fromNow) || !Armed(s, id) then s
    else
      var start := if fromNow then now else Wrap(t.next - t.ms);
      Notify(Requeue(s, id, t.(ms := ms, next := Wrap(start + ms))), id)
  }

  // TimerManager::addTimer: the deadline was computed from `created` before the lock was taken.
  function Add(s: State, id: Id, created: nat, ms: nat, cb: Callback, recurring: bool): State
    requires Known(s.table, s.order) && id !in s.table
  {
    var table := s.table[id := Timer(recurring, ms, Wrap(created + ms), Some(cb))];
    Notify(s.(table := table, order := Insert(table, s.order, id)), id)
  }

  // detectClockRollover: the clock went back by more than an hour.
  predicate Rollover(s: State, now: nat) {
    now < s.previous && now < Wrap(s.previous - HOUR)
  }

  // How many timers, from the first on, are due at `now`.
  function Due(table: map<Id, Timer>, order: seq<Id>, now: nat): (n: nat)
    requires Known(table, order)
    ensures n <= |order|
    ensures forall i | 0 <= i < n :: table[order[i]].next <= now
    ensures n < |order| ==> table[order[n]].next > now
  {
    if order == [] || table[order[0]].next > now then 0 else 1 + Due(table, order[1..], now)
  }

  // One turn of the re-arming loop.
  function RearmOne(s: State, id: Id, now: nat): State
    requires Known(s.table, s.order) && id in s.table
  {
    var t := s.table[id];
    if t.recurring then
      var table := s.table[id := t.(next := Wrap(now + t.ms))];
      s.(table := table, order := Insert(table, s.order, id))
    else s.(table := s.table[id := t.(cb := None)])
  }

  // The loop over the expired timers: recurring ones are re-inserted, the others lose their callback.
  function Rearm(s: State, expired: seq<Id>, now: nat): (r: State)
    requires Known(s.table, s.order) && Known(s.table, expired)
    ensures Known(r.table, r.order) && r.table.Keys == s.table.Keys
    ensures r.tickled == s.tickled && r.previous == s.previous
    decreases |expired|
  {
    if expired == [] then s else Rearm(RearmOne(s, expired[0], now), expired[1..], now)
  }

  // The timers listExpiredCb hands out, in order.
  function Expired(s: State, now: nat): seq<Id>
    requires Known(s.table, s.order)
  {
    if Rollover(s, now) then s.order else s.order[..Due(s.table, s.order, now)]
  }

  // TimerManager::listExpiredCb.
  function Expire(s: State, now: nat): State
    requires Known(s.table, s.order)
  {
    if s.order == [] then s
    else Rearm(s.(order := s.order[|Expired(s, now)|..], previous := now), Expired(s, now), now)
  }

  // ---- Every operation keeps the set in order ----

  lemma {:induction false} CancelKeeps(s: State, id: Id)
    requires Ok(s) && id in s.table
    ensures s.table[id].cb.Some? ==> Find(s.table, s.order, id) < |s.order|
    ensures Ok(Cancel(s, id)) && id !in Cancel(s, id).order && Cancel(s, id).table[id].cb.None?
    ensures forall x :: x in Cancel(s, id).order <==> x in s.order && x != id
    ensures Cancel(s, id).table == s.table[id := s.table[id].(cb := None)] && Cancel(s, id).tickled == s.tickled
  {
    FindMeets(s.table, s.order, id);
    if s.table[id].cb.Some? {
      EraseSorted(s.table, s.order, Find(s.table, s.order, id));
      OutsideChange(s.table, Cancel(s, id).order, id, s.table[id].(cb := None));
    }
  }

  lemma {:induction false} RequeueKeeps(s: State, id: Id, t: Timer)
    requires Ok(s) && id in s.order && t.cb.Some?
    ensures Find(s.table, s.order, id) < |s.order| && Ok(Requeue(s, id, t))
    ensures forall x :: x in Requeue(s, id, t).order <==> x in s.order
  {
    FindMeets(s.table, s.order, id);
    var rest := Erase(s.order, Find(s.table, s.order, id));
    EraseSorted(s.table, s.order, Find(s.table, s.order, id));
    OutsideChange(s.table, rest, id, t);
    InsertSorted(s.table[id := t], rest, id);
  }

  lemma {:induction false} RefreshKeeps(s: State, id: Id, now: nat)
    requires Ok(s) && id in s.table
    ensures Ok(Refresh(s, id, now)) && (Armed(s, id) <==> id in s.order)
  {
    hide Wrap, Requeue, Find, Sorted;
    FindMeets(s.table, s.order, id);
    if id in s.order { RequeueKeeps(s, id, s.table[id].(next := Wrap(now + s.table[id].ms))); }
  }

  lemma {:induction false} ResetKeeps(s: State, id: Id, ms: nat, fromNow: bool, now: nat)
    requires Ok(s) && id in s.table
    ensures Ok(Reset(s, id, ms, fromNow, now)) && (Armed(s, id) <==> id in s.order)
  {
    hide Wrap, Requeue, Find, Sorted;
    FindMeets(s.table, s.order, id);
    if id in s.order {
      var t := s.table[id];
      var start := if fromNow then now else Wrap(t.next - t.ms);
      RequeueKeeps(s, id, t.(ms := ms, next := Wrap(start + ms)));
    }
  }

  lemma {:induction false} AddKeeps(s: State, id: Id, created: nat, ms: nat, cb: Callback, recurring: bool)
    requires Ok(s) && id !in s.table
    ensures Ok(Add(s, id, created, ms, cb, recurring))
  {
    var t := Timer(recurring, ms, Wrap(created + ms), Some(cb));
    OutsideChange(s.table, s.order, id, t);
    InsertSorted(s.table[id := t], s.order, id);
  }

  // What the re-arming loop keeps: the set is sorted, the timers still to be handled are distinct
  // and outside it, and every other timer has its callback exactly while it is in the set.
  ghost predicate Halfway(s: State, expired: seq<Id>) {
    && Known(s.table, s.order) && Sorted(s.table, s.order) && Known(s.table, expired)
    && (forall i, j | 0 <= i < j < |expired| :: expired[i] != expired[j])
    && (forall id | id in expired :: id !in s.order && s.table[id].cb.Some?)
    && (forall id | id in s.table && id !in expired :: s.table[id].cb.Some? <==> id in s.order)
  }

  lemma {:induction false} RearmOneKeeps(s: State, expired: seq<Id>, now: nat)
    requires expired != [] && Halfway(s, expired)
    ensures Halfway(RearmOne(s, expired[0], now), expired[1..])
  {
    var id := expired[0];
    var t := s.table[id];
    var s' := RearmOne(s, id, now);
    assert id in expired;
    OutsideChange(s.table, s.order, id, s'.table[id]);
    if t.recurring { InsertSorted(s'.table, s.order, id); }
    assert forall x :: x in expired <==> x == id || x in expired[1..];
  }

  // A turn of the loop leaves the timers still to be handled as they were.
  // The timers of the list are as they were in `was`.
  ghost predicate AsBefore(table: map<Id, Timer>, was: map<Id, Timer>, ids: seq<Id>) {
    forall j | 0 <= j < |ids| :: ids[j] in table && ids[j] in was && table[ids[j]] == was[ids[j]]
  }

  // The loop changes an expired timer only in its own turn.
  lemma {:induction false} RearmOneElsewhere(s: State, was: map<Id, Timer>, expired: seq<Id>, now: nat)
    requires expired != [] && Halfway(s, expired) && AsBefore(s.table, was, expired)
    ensures expired[0] in s.table && s.table[expired[0]].cb.Some? && expired[0] in was && s.table[expired[0]] == was[expired[0]]
    ensures AsBefore(RearmOne(s, expired[0], now).table, was, expired[1..])
  {
  }

  lemma {:induction false} HalfwayKnown(s: State, expired: seq<Id>)
    requires Halfway(s, expired)
    ensures Known(s.table, s.order) && Known(s.table, expired) && AsBefore(s.table, s.table, expired)
  {
  }

  lemma {:induction false} RearmNothing(s: State, now: nat)
    requires Known(s.table, s.order)
    ensures Rearm(s, [], now) == s
  {
  }

  lemma {:induction false} RearmStep(s: State, expired: seq<Id>, now: nat)
    requires expired != [] && Halfway(s, expired)
    ensures var r := RearmOne(s, expired[0], now);
            Halfway(r, expired[1..]) && Rearm(s, expired, now) == Rearm(r, expired[1..], now)
  {
    RearmOneKeeps(s, expired, now);
  }

  // What becomes of an expired timer.
  function Handled(t: Timer, now: nat): Timer {
    if t.recurring then t.(next := Wrap(now + t.ms)) else t.(cb := None)
  }

  // The loop keeps the set in order and touches the expired timers only.
  lemma {:induction false} RearmKeeps(s: State, expired: seq<Id>, now: nat)
    requires Halfway(s, expired)
    ensures var r := Rearm(s, expired, now);
            && Ok(r)
            && (forall x | x in s.table :: r.table[x] == if x in expired then Handled(s.table[x], now) else s.table[x])
            && (forall x | x in s.table :: x in r.order <==> x in s.order || (x in expired && s.table[x].recurring))
    decreases |expired|
  {
    hide Wrap, Sorted, Insert, Less;
    if expired != [] {
      RearmOneKeeps(s, expired, now);
      RearmKeeps(RearmOne(s, expired[0], now), expired[1..], now);
      assert forall x :: x in expired <==> x == expired[0] || x in expired[1..];
      assert expired[0] !in expired[1..];
    }
  }

  // No element of a sorted list is in both halves, or twice in one.
  lemma {:induction false} SplitApart(table: map<Id, Timer>, order: seq<Id>, n: nat)
    requires Known(table, order) && Sorted(table, order) && n <= |order|
    ensures Known(table, order[..n]) && Known(table, order[n..]) && Sorted(table, order[n..])
    ensures forall i, j | 0 <= i < j < n :: order[..n][i] != order[..n][j]
    ensures forall x :: x in order <==> x in order[..n] || x in order[n..]
    ensures forall x | x in order[..n] :: x !in order[n..]
  {
    var gone, left := order[..n], order[n..];
    forall i, j | 0 <= i < j < |left| ensures Less(table, left[i], left[j]) { assert Less(table, order[n + i], order[n + j]); }
    forall i, j | 0 <= i < j < |order| ensures order[i] != order[j] { assert Less(table, order[i], order[j]); }
    hide Less, Sorted;
    assert gone + left == order;
    forall x | x in gone ensures x !in left {
      var i :| 0 <= i < n && order[i] == x;
      assert forall j | 0 <= j < |left| :: left[j] == order[n + j];
    }
  }

  // The expired timers and the rest split the set.
  lemma {:induction false} ExpiredSplit(s: State, now: nat)
    requires Ok(s)
    ensures var n := |Expired(s, now)|;
            n <= |s.order| && Expired(s, now) == s.order[..n]
            && Halfway(s.(order := s.order[n..], previous := now), Expired(s, now))
  {
    var n := |Expired(s, now)|;
    hide Expired, Less, Sorted;
    SplitApart(s.table, s.order, n);
    hide Known;
    assert forall id | id in s.order[..n] :: id in s.order;
  }

  lemma {:induction false} ExpireKeeps(s: State, now: nat)
    requires Ok(s)
    ensures Ok(Expire(s, now)) && Expire(s, now).table.Keys == s.table.Keys && Expire(s, now).tickled == s.tickled
    ensures forall x | x in s.table :: Expire(s, now).table[x] == if x in Expired(s, now) then Handled(s.table[x], now) else s.table[x]
    ensures forall x | x in s.table ::
              x in Expire(s, now).order <==> x in s.order && (x in Expired(s, now) ==> s.table[x].recurring)
  {
    hide Wrap, Sorted, Rearm, Less, Halfway, Expired, Handled;
    if s.order == [] {
      NothingExpires(s, now);
    } else {
      ExpiredSplit(s, now);
      var n := |Expired(s, now)|;
      RearmKeeps(s.(order := s.order[n..], previous := now), Expired(s, now), now);
      SplitApart(s.table, s.order, n);
    }
  }

  lemma {:induction false} NothingExpires(s: State, now: nat)
    requires s.order == []
    ensures Expired(s, now) == []
  {
  }

  /** Expiry is exact. Without a rollover, the timers handed out are those due at `now` and no
      others; on a rollover, all of them. They come in nondecreasing order of deadline. Afterwards
      every timer in the set is later than `now`, except recurring ones with interval zero; after
      a rollover only recurring timers are left. */
  lemma {:induction false} ExpiryIsExact(s: State, now: nat)
    requires Ok(s)
    requires forall x | x in s.order && x in Expired(s, now) && s.table[x].recurring :: now + s.table[x].ms < WORD
    ensures var gone, after := Expired(s, now), Expire(s, now);
            && (forall x | x in s.order :: x in gone <==> Rollover(s, now) || s.table[x].next <= now)
            && (forall x | x in gone :: x in s.order)
            && (forall i, j | 0 <= i < j < |gone| :: s.table[gone[i]].next <= s.table[gone[j]].next)
            && (!Rollover(s, now) ==> forall x | x in after.order ::
                  after.table[x].next > now || (after.table[x].recurring && after.table[x].ms == 0 && x in gone))
            && (Rollover(s, now) ==> forall x | x in after.order :: after.table[x].recurring && after.table[x].next == now + after.table[x].ms)
  {
    hide Rearm, Expire, Expired, Sorted, Wrap, Less, Handled, Rollover;
    ExpiredIsExact(s, now);
    ExpiryOnFields(s, now);
  }

  /** What becomes of each timer: those not handed out are as they were; a recurring one that is handed
      out is due an interval after the reading; a one-shot is out of the set without its callback. The
      reading is remembered unless there is no timer. */
  lemma {:induction false} ExpiryOnFields(s: State, now: nat)
    requires Ok(s)
    requires forall x | x in s.order && x in Expired(s, now) && s.table[x].recurring :: now + s.table[x].ms < WORD
    ensures var gone, after := Expired(s, now), Expire(s, now);
            && after.table.Keys == s.table.Keys
            && (forall x | x in s.table && x !in gone :: after.table[x] == s.table[x])
            && (forall x | x in gone :: x in s.order && x in s.table)
            && (forall x | x in gone && s.table[x].recurring :: after.table[x] == s.table[x].(next := now + s.table[x].ms))
            && (forall x | x in gone && !s.table[x].recurring :: after.table[x] == s.table[x].(cb := None))
            && (forall x :: x in after.order <==> x in s.order && (x in gone ==> s.table[x].recurring))
            && after.previous == (if s.order == [] then s.previous else now) && after.tickled == s.tickled
  {
    hide Rearm, Expire, Expired, Sorted, Wrap, Less;
    ExpireKeeps(s, now);
    ExpiredSplit(s, now);
    ExpirePrevious(s, now);
    var gone, after := Expired(s, now), Expire(s, now);
    forall x | x in gone ensures x in s.order && x in s.table { assert x in s.order[..|gone|]; }
    forall x | x in gone && s.table[x].recurring ensures Wrap(now + s.table[x].ms) == now + s.table[x].ms {
      WrapsNot(now + s.table[x].ms);
    }
    KeysOnly(s);
    KeysOnly(after);
  }

  lemma {:induction false} KeysOnly(s: State)
    requires Known(s.table, s.order)
    ensures forall x | x in s.order :: x in s.table
  {
  }

  lemma {:induction false} WrapsNot(x: nat)
    requires x < WORD
    ensures Wrap(x) == x
  {
  }

  lemma {:induction false} ExpirePrevious(s: State, now: nat)
    requires Known(s.table, s.order) && Known(s.table, Expired(s, now)) && |Expired(s, now)| <= |s.order|
    requires Known(s.table, s.order[|Expired(s, now)|..])
    ensures Expire(s, now).previous == if s.order == [] then s.previous else now
  {
    hide Rearm, Expired;
  }

  // Which timers are handed out, and in which order.
  lemma {:induction false} ExpiredIsExact(s: State, now: nat)
    requires Ok(s)
    ensures var gone := Expired(s, now);
            && (forall x | x in s.order :: x in gone <==> Rollover(s, now) || s.table[x].next <= now)
            && (forall x | x in gone :: x in s.order)
            && (forall i, j | 0 <= i < j < |gone| :: s.table[gone[i]].next <= s.table[gone[j]].next)
  {
    hide Rearm, Wrap, Halfway;
    var gone := Expired(s, now);
    DueIsExact(s, now);
    forall i, j | 0 <= i < j < |gone| ensures s.table[gone[i]].next <= s.table[gone[j]].next {
      assert gone[i] == s.order[i] && gone[j] == s.order[j] && Less(s.table, s.order[i], s.order[j]);
    }
  }

  lemma {:induction false} DueIsExact(s: State, now: nat)
    requires Ok(s)
    ensures forall x | x in s.order :: x in s.order[..Due(s.table, s.order, now)] <==> s.table[x].next <= now
  {
    var n := Due(s.table, s.order, now);
    forall x | x in s.order ensures x in s.order[..n] <==> s.table[x].next <= now {
      var k :| 0 <= k < |s.order| && s.order[k] == x;
      if k < n {
        assert s.order[..n][k] == x;
      } else {
        assert k == n || Less(s.table, s.order[n], s.order[k]);
      }
    }
  }
}
