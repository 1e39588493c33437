/** Event registration: per file descriptor the read and write contexts, the kernel's interest
    list, the count of pending events, and the life of every registration. */
module Events {
  import opened Options

  datatype Event = READ | WRITE

  datatype Waiter = Fiber(f: nat) | Callback(cb: nat)

  // FdContext::EventContext.
  datatype Context = Context(scheduler: Option<nat>, fiber: Option<nat>, cb: Option<nat>)

  datatype FdContext = FdContext(read: Context, write: Context, events: set<Event>)

  type Slot = (nat, Event)

  // A consumed registration: its ticket, and the waiter put on the scheduler's queue, if any.
  datatype Spent = Spent(ticket: nat, woken: Option<Waiter>)

  // `fds` is total: a descriptor beyond the table has an empty context. `epoll` is the kernel's
  // interest list. Every registration is given a ticket: `issued` is the next one, `who` the
  // waiter of each, `live` the ticket behind each set bit, and `spent` the consumed ones in order.
  datatype State = State(
    fds: map<nat, FdContext>,
    pending: int,
    epoll: map<nat, set<Event>>,
    issued: nat,
    who: map<nat, Waiter>,
    live: map<Slot, nat>,
    spent: seq<Spent>)

  const EMPTY := Context(None, None, None)

  function Get(s: State, fd: nat): FdContext {
    if fd in s.fds then s.fds[fd] else FdContext(EMPTY, EMPTY, {})
  }

  function ContextOf(c: FdContext, ev: Event): Context { if ev == READ then c.read else c.write }

  function WithContext(c: FdContext, ev: Event, x: Context): FdContext {
    if ev == READ then c.(read := x) else c.(write := x)
  }

  // ---- epoll_ctl ----

  datatype Ctl = ADD | MOD | DEL

  // The kernel refuses ADD of a present descriptor and MOD or DEL of an absent one; `refuse`
  // stands for every other reason.
  predicate Accepts(epoll: map<nat, set<Event>>, op: Ctl, fd: nat, refuse: bool) {
    !refuse && (op == ADD <==> fd !in epoll)
  }

  function Update(epoll: map<nat, set<Event>>, op: Ctl, fd: nat, events: set<Event>): map<nat, set<Event>> {
    if op == DEL then epoll - {fd} else epoll[fd := events]
  }

  // ---- The operations ----

  // Ok: done. Refused: -1 or false, nothing changed. Aborted: an assertion failed.
  datatype Result = Ok(s: State) | Refused | Aborted

  // A context holds a registration when it has a scheduler and exactly one of fiber and callback.
  predicate Holds(c: Context) { c.scheduler.Some? && (c.fiber.Some? <==> c.cb.None?) }

  function WaiterOf(c: Context): Waiter
    requires Holds(c)
  {
    if c.cb.Some? then Callback(c.cb.value) else Fiber(c.fiber.value)
  }

  function Ticket(s: State, fd: nat, ev: Event): nat { if (fd, ev) in s.live then s.live[(fd, ev)] else 0 }

  // FdContext::triggerEvent and the decrement that follows it.
  function Trigger(s: State, fd: nat, ev: Event): Result {
    var c := Get(s, fd);
    var x := ContextOf(c, ev);
    if ev !in c.events || !Holds(x) then Aborted
    else
      var x' := if x.cb.Some? then x.(cb := None, scheduler := None) else x.(fiber := None, scheduler := None);
      Ok(s.(fds := s.fds[fd := WithContext(c, ev, x').(events := c.events - {ev})],
            pending := s.pending - 1,
            live := s.live - {(fd, ev)},
            spent := s.spent + [Spent(Ticket(s, fd, ev), Some(WaiterOf(x)))]))
  }

  function NewContext(sched: Option<nat>, w: Waiter): Context {
    Context(sched, if w.Fiber? then Some(w.f) else None, if w.Callback? then Some(w.cb) else None)
  }

  // IOManager::addEvent, on the calling thread's scheduler `sched`, None on a thread that has none:
  // the callback, or else the current fiber, is to be scheduled when the event comes.
  function Add(s: State, fd: nat, ev: Event, sched: Option<nat>, w: Waiter, refuse: bool): Result {
    var c := Get(s, fd);
    if ev in c.events then Aborted
    else
      var op := if c.events != {} then MOD else ADD;
      if !Accepts(s.epoll, op, fd, refuse) then Refused
      else if ContextOf(c, ev) != EMPTY then Aborted
      else
        Ok(s.(fds := s.fds[fd := WithContext(c, ev, NewContext(sched, w)).(events := c.events + {ev})],
              pending := s.pending + 1,
              epoll := Update(s.epoll, op, fd, c.events + {ev}),
              issued := s.issued + 1, who := s.who[s.issued := w], live := s.live[(fd, ev) := s.issued]))
  }

  // The shared start of delEvent and cancelEvent: the kernel's list loses the event.
  function Unlist(s: State, fd: nat, ev: Event, refuse: bool): Result {
    var c := Get(s, fd);
    if ev !in c.events then Refused
    else
      var left := c.events - {ev};
      var op := if left != {} then MOD else DEL;
      if !Accepts(s.epoll, op, fd, refuse) then Refused else Ok(s.(epoll := Update(s.epoll, op, fd, left)))
  }

  // IOManager::delEvent: the registration goes away and nobody is woken.
  function Del(s: State, fd: nat, ev: Event, refuse: bool): Result {
    match Unlist(s, fd, ev, refuse)
    case Ok(s') =>
      var c := Get(s, fd);
      Ok(s'.(fds := s.fds[fd := WithContext(c, ev, EMPTY).(events := c.events - {ev})],
             pending := s.pending - 1,
             live := s.live - {(fd, ev)},
             spent := s.spent + [Spent(Ticket(s, fd, ev), None)]))
    case r => r
  }

  // IOManager::cancelEvent: the registration is triggered.
  function Cancel(s: State, fd: nat, ev: Event, refuse: bool): Result {
    match Unlist(s, fd, ev, refuse)
    case Ok(s') => Trigger(s', fd, ev)
    case r => r
  }

  function TriggerIf(r: Result, b: bool, fd: nat, ev: Event): Result {
    if r.Ok? && b then Trigger(r.s, fd, ev) else r
  }

  // IOManager::cancelAll.
  function CancelAll(s: State, fd: nat, refuse: bool): Result {
    var c := Get(s, fd);
    if c.events == {} || !Accepts(s.epoll, DEL, fd, refuse) then Refused
    else
      var r := Ok(s.(epoll := Update(s.epoll, DEL, fd, {})));
      TriggerIf(TriggerIf(r, READ in c.events, fd, READ), WRITE in c.events, fd, WRITE)
  }

  // What epoll_wait reports for a descriptor.
  datatype Report = Report(in_: bool, out: bool, err: bool, hup: bool)

  // Errors and hang-ups count as both readable and writable.
  function RealEvents(r: Report): set<Event> {
    (if r.in_ || r.err || r.hup then {READ} else {}) + (if r.out || r.err || r.hup then {WRITE} else {})
  }

  // The body of the dispatch loop in IOManager::idle: every reported event is triggered.
  function Dispatch(s: State, fd: nat, r: Report, refuse: bool): Result {
    var c := Get(s, fd);
    var hit := RealEvents(r);
    if c.events * hit == {} then Refused
    else
      var left := c.events - hit;
      var op := if left != {} then MOD else DEL;
      if !Accepts(s.epoll, op, fd, refuse) then Refused
      else
        var s' := s.(epoll := Update(s.epoll, op, fd, left));
        TriggerIf(TriggerIf(Ok(s'), READ in hit, fd, READ), WRITE in hit, fd, WRITE)
  }

  // ---- The invariant ----

  /** An event bit is set exactly when its context holds a scheduler and exactly one of fiber and
      callback, and otherwise the context is empty. */
  predicate Registered(s: State, fd: nat, ev: Event) {
    var c := Get(s, fd);
    && (ev in c.events <==> (fd, ev) in s.live)
    && (if ev in c.events then Holds(ContextOf(c, ev)) else ContextOf(c, ev) == EMPTY)
    && ((fd, ev) in s.live ==>
          s.live[(fd, ev)] in s.who && Holds(ContextOf(c, ev)) && s.who[s.live[(fd, ev)]] == WaiterOf(ContextOf(c, ev)))
  }

  /** The kernel's interest list agrees with the registered events. */
  ghost predicate Listed(s: State) {
    forall fd: nat :: (fd in s.epoll <==> Get(s, fd).events != {}) && (fd in s.epoll ==> s.epoll[fd] == Get(s, fd).events)
  }

  predicate IsSpent(s: State, n: nat) { exists i | 0 <= i < |s.spent| :: s.spent[i].ticket == n }

  ghost predicate IsLive(s: State, n: nat) { exists a | a in s.live :: s.live[a] == n }

  /** Each registration ever made is behind exactly one set bit, or was consumed exactly once. */
  ghost predicate Numbered(s: State) {
    && (forall n: nat :: n < s.issued <==> n in s.who)
    && (forall n: nat | n < s.issued :: IsSpent(s, n) || IsLive(s, n))
    && (forall a | a in s.live :: s.live[a] < s.issued && !IsSpent(s, s.live[a]))
    && (forall a, b | a in s.live && b in s.live && s.live[a] == s.live[b] :: a == b)
  }

  /** No registration is consumed twice, and whoever is woken is the one who registered. */
  ghost predicate Spending(s: State) {
    && (forall i, j | 0 <= i < j < |s.spent| :: s.spent[i].ticket != s.spent[j].ticket)
    && (forall i | 0 <= i < |s.spent| ::
          s.spent[i].ticket in s.who && s.spent[i].woken in {None, Some(s.who[s.spent[i].ticket])})
  }

  ghost predicate Consistent(s: State) {
    && (forall fd, ev :: Registered(s, fd, ev))
    && s.pending == |s.live|
    && Numbered(s) && Spending(s)
  }

  ghost predicate Inv(s: State) { Consistent(s) && Listed(s) }

  // ---- What one operation keeps ----

  // Consuming the ticket behind a set bit, with or without waking its waiter.
  lemma SpendKeeps(s: State, s': State, fd: nat, ev: Event, w: Option<Waiter>)
    requires Numbered(s) && Spending(s) && (fd, ev) in s.live
    requires s'.issued == s.issued && s'.who == s.who && s'.live == s.live - {(fd, ev)}
    requires s'.spent == s.spent + [Spent(s.live[(fd, ev)], w)]
    requires w in {None, Some(s.who[s.live[(fd, ev)]])}
    ensures Numbered(s') && Spending(s')
  {
    var t := s.live[(fd, ev)];
    assert s'.spent[|s.spent|].ticket == t;
    forall n: nat | n < s.issued ensures IsSpent(s', n) || IsLive(s', n) {
      if IsSpent(s, n) {
        var i :| 0 <= i < |s.spent| && s.spent[i].ticket == n;
        assert s'.spent[i].ticket == n;
      } else {
        var a :| a in s.live && s.live[a] == n;
        assert a == (fd, ev) || (a in s'.live && s'.live[a] == n);
      }
    }
  }

  // A change of one slot leaves the others as they were.
  lemma OtherSlots(s: State, s': State, fd: nat, ev: Event, x: Context, events: set<Event>)
    requires forall f, e :: Registered(s, f, e)
    requires s'.fds == s.fds[fd := WithContext(Get(s, fd), ev, x).(events := events)]
    requires events - {ev} == Get(s, fd).events - {ev}
    requires forall a | a != (fd, ev) :: (a in s'.live <==> a in s.live) && (a in s.live ==> s'.live[a] == s.live[a])
    requires forall n | n in s.who :: n in s'.who && s'.who[n] == s.who[n]
    requires Registered(s', fd, ev)
    ensures forall f, e :: Registered(s', f, e)
    ensures forall f | f != fd :: Get(s', f) == Get(s, f)
  {
    forall f, e ensures Registered(s', f, e) {
      assert Registered(s, f, e);
      assert e != ev ==> (e in events <==> e in events - {ev});
      assert e != ev ==> (e in Get(s, fd).events <==> e in Get(s, fd).events - {ev});
    }
  }

  // A set bit is cleared and its ticket consumed.
  lemma ClearKeeps(s: State, s': State, fd: nat, ev: Event, w: Option<Waiter>)
    requires Consistent(s) && ev in Get(s, fd).events && Registered(s, fd, ev)
    requires s'.fds == s.fds[fd := WithContext(Get(s, fd), ev, EMPTY).(events := Get(s, fd).events - {ev})]
    requires s'.issued == s.issued && s'.who == s.who && s'.live == s.live - {(fd, ev)}
    requires s'.spent == s.spent + [Spent(Ticket(s, fd, ev), w)] && s'.pending == s.pending - 1
    requires w in {None, Some(WaiterOf(ContextOf(Get(s, fd), ev)))}
    ensures Consistent(s')
    ensures forall f | f != fd :: Get(s', f) == Get(s, f)
  {
    hide Numbered, Spending;
    assert Registered(s, fd, ev);
    SpendKeeps(s, s', fd, ev, w);
    OtherSlots(s, s', fd, ev, EMPTY, Get(s, fd).events - {ev});
    assert s.live.Keys == s'.live.Keys + {(fd, ev)};
  }

  // The consumption of the registration behind a slot, its waiter woken.
  function Woke(s: State, fd: nat, ev: Event): Spent {
    var t := Ticket(s, fd, ev);
    Spent(t, if t in s.who then Some(s.who[t]) else None)
  }

  function WokeIf(b: bool, s: State, fd: nat, ev: Event): seq<Spent> { if b then [Woke(s, fd, ev)] else [] }

  lemma TriggerKeeps(s: State, fd: nat, ev: Event)
    requires Consistent(s) && ev in Get(s, fd).events
    ensures Trigger(s, fd, ev).Ok?
    ensures Consistent(Trigger(s, fd, ev).s)
    ensures var s' := Trigger(s, fd, ev).s;
            && s'.epoll == s.epoll && Get(s', fd).events == Get(s, fd).events - {ev}
            && s'.spent == s.spent + [Woke(s, fd, ev)] && Woke(s, fd, ev).woken.Some?
            && (forall e | e != ev :: Woke(s', fd, e) == Woke(s, fd, e))
            && forall f | f != fd :: Get(s', f) == Get(s, f)
  {
    hide Numbered, Spending;
    assert Registered(s, fd, ev);
    ClearKeeps(s, Trigger(s, fd, ev).s, fd, ev, Some(WaiterOf(ContextOf(Get(s, fd), ev))));
  }

  // Under the invariant the kernel never refuses for its own reasons: ADD meets an absent
  // descriptor, MOD and DEL a present one.
  lemma UnlistKeeps(s: State, fd: nat, ev: Event, refuse: bool)
    requires Inv(s)
    ensures Unlist(s, fd, ev, refuse).Ok? <==> ev in Get(s, fd).events && !refuse
    ensures var r := Unlist(s, fd, ev, refuse);
            r.Ok? ==> Consistent(r.s) && Get(r.s, fd) == Get(s, fd) && r.s == s.(epoll := r.s.epoll)
  {
    hide Numbered, Spending;
    var r := Unlist(s, fd, ev, refuse);
    if r.Ok? { EpollIsApart(s, r.s); }
  }

  // Only `Listed` looks at the kernel's list.
  lemma EpollIsApart(s: State, s': State)
    requires Consistent(s) && s' == s.(epoll := s'.epoll)
    ensures Consistent(s')
    ensures forall fd :: Get(s', fd) == Get(s, fd)
  {
    assert Numbered(s') by {
      forall n: nat | n < s.issued ensures IsSpent(s', n) || IsLive(s', n) {
        assert IsSpent(s, n) == IsSpent(s', n) && IsLive(s, n) == IsLive(s', n);
      }
      forall a | a in s.live ensures !IsSpent(s', s.live[a]) { assert IsSpent(s, s.live[a]) == IsSpent(s', s.live[a]); }
    }
    forall f, e ensures Registered(s', f, e) { assert Registered(s, f, e); }
  }

  // The kernel's list after the registered events of `fd` changed to what it was told.
  lemma ListedAgain(s: State, s': State, fd: nat, op: Ctl)
    requires Listed(s) && s'.epoll == Update(s.epoll, op, fd, Get(s', fd).events)
    requires op == DEL <==> Get(s', fd).events == {}
    requires forall f | f != fd :: Get(s', f) == Get(s, f)
    ensures Listed(s')
  {
    forall f: nat
      ensures (f in s'.epoll <==> Get(s', f).events != {}) && (f in s'.epoll ==> s'.epoll[f] == Get(s', f).events)
    {
      assert f in s.epoll <==> Get(s, f).events != {};
    }
  }

  /** addEvent aborts exactly on an event already registered, is refused exactly when the kernel
      has a reason of its own, and otherwise keeps the invariant exactly when the calling thread
      has a scheduler. */
  lemma AddKeeps(s: State, fd: nat, ev: Event, sched: Option<nat>, w: Waiter, refuse: bool)
    requires Inv(s)
    ensures Add(s, fd, ev, sched, w, refuse).Aborted? <==> ev in Get(s, fd).events
    ensures Add(s, fd, ev, sched, w, refuse).Refused? <==> ev !in Get(s, fd).events && refuse
    ensures var r := Add(s, fd, ev, sched, w, refuse); r.Ok? ==> (Inv(r.s) <==> sched.Some?) && Woke(r.s, fd, ev) == Spent(s.issued, Some(w))
  {
    hide Numbered, Spending;
    assert Registered(s, fd, ev);
    assert fd in s.epoll <==> Get(s, fd).events != {};
    if ev !in Get(s, fd).events && !refuse {
      if sched.Some? { AddOk(s, fd, ev, sched, w); } else { AddLame(s, fd, ev, w); }
    }
  }

  lemma AddOk(s: State, fd: nat, ev: Event, sched: Option<nat>, w: Waiter)
    requires Consistent(s) && Listed(s) && sched.Some?
    requires Add(s, fd, ev, sched, w, false).Ok?
    ensures Inv(Add(s, fd, ev, sched, w, false).s)
  {
    hide Consistent, Listed;
    var s', c := Add(s, fd, ev, sched, w, false).s, Get(s, fd);
    assert Holds(NewContext(sched, w)) && WaiterOf(NewContext(sched, w)) == w;
    SetKeeps(s, s', fd, ev, NewContext(sched, w));
    ListedAgain(s, s', fd, if c.events != {} then MOD else ADD);
  }

  // Without a scheduler the bit is set and its context cannot be triggered.
  lemma AddLame(s: State, fd: nat, ev: Event, w: Waiter)
    requires Add(s, fd, ev, None, w, false).Ok?
    ensures !Inv(Add(s, fd, ev, None, w, false).s)
  {
    hide Numbered, Spending;
    assert !Registered(Add(s, fd, ev, None, w, false).s, fd, ev);
  }

  // A clear bit is set and a ticket issued.
  lemma SetKeeps(s: State, s': State, fd: nat, ev: Event, x: Context)
    requires Consistent(s) && ev !in Get(s, fd).events && Holds(x)
    requires s'.fds == s.fds[fd := WithContext(Get(s, fd), ev, x).(events := Get(s, fd).events + {ev})]
    requires s'.issued == s.issued + 1 && s'.who == s.who[s.issued := WaiterOf(x)]
    requires s'.live == s.live[(fd, ev) := s.issued] && s'.spent == s.spent && s'.pending == s.pending + 1
    ensures Consistent(s')
    ensures forall f | f != fd :: Get(s', f) == Get(s, f)
  {
    hide Numbered, Spending, Registered, Get, WithContext, Holds, WaiterOf;
    SetSlot(s, s', fd, ev, x);
    OneMore(s.live, (fd, ev), s.issued, Get(s, fd).events);
    IssueKeeps(s, s', fd, ev, WaiterOf(x));
    OtherSlots(s, s', fd, ev, x, Get(s, fd).events + {ev});
  }

  lemma OneMore(live: map<Slot, nat>, a: Slot, n: nat, events: set<Event>)
    requires a !in live
    ensures |live[a := n]| == |live| + 1
    ensures events + {a.1} - {a.1} == events - {a.1}
  {
    assert live[a := n].Keys == live.Keys + {a};
  }

  lemma SetSlot(s: State, s': State, fd: nat, ev: Event, x: Context)
    requires Registered(s, fd, ev) && ev !in Get(s, fd).events && Holds(x)
    requires s'.fds == s.fds[fd := WithContext(Get(s, fd), ev, x).(events := Get(s, fd).events + {ev})]
    requires s'.who == s.who[s.issued := WaiterOf(x)] && s'.live == s.live[(fd, ev) := s.issued]
    ensures Registered(s', fd, ev) && (fd, ev) !in s.live
  {
    assert Get(s', fd) == WithContext(Get(s, fd), ev, x).(events := Get(s, fd).events + {ev});
  }

  // A new ticket behind a bit that was clear.
  lemma IssueKeeps(s: State, s': State, fd: nat, ev: Event, w: Waiter)
    requires Numbered(s) && Spending(s) && (fd, ev) !in s.live
    requires s'.issued == s.issued + 1 && s'.who == s.who[s.issued := w]
    requires s'.live == s.live[(fd, ev) := s.issued] && s'.spent == s.spent
    ensures Numbered(s') && Spending(s') && s.issued !in s.who
  {
    forall n: nat | n < s'.issued ensures IsSpent(s', n) || IsLive(s', n) {
      if n == s.issued {
        assert s'.live[(fd, ev)] == n;
      } else {
        assert IsSpent(s, n) == IsSpent(s', n);
        if IsLive(s, n) {
          var a :| a in s.live && s.live[a] == n;
          assert s'.live[a] == n;
        }
      }
    }
    forall a | a in s'.live ensures s'.live[a] < s'.issued && !IsSpent(s', s'.live[a]) {
      assert a in s.live ==> IsSpent(s, s.live[a]) == IsSpent(s', s.live[a]);
    }
  }

  /** delEvent, cancelEvent: refused exactly when the event is not registered or the kernel has a
      reason of its own; otherwise the registration is consumed and the invariant kept. */
  lemma DelKeeps(s: State, fd: nat, ev: Event, refuse: bool)
    requires Inv(s)
    ensures Del(s, fd, ev, refuse).Ok? <==> ev in Get(s, fd).events && !refuse
    ensures !Del(s, fd, ev, refuse).Aborted?
    ensures var r := Del(s, fd, ev, refuse);
            r.Ok? ==> Inv(r.s) && r.s.spent == s.spent + [Spent(Ticket(s, fd, ev), None)]
  {
    hide Numbered, Spending;
    UnlistKeeps(s, fd, ev, refuse);
    var u := Unlist(s, fd, ev, refuse);
    if u.Ok? {
      assert Registered(s, fd, ev) && Registered(u.s, fd, ev);
      var s' := Del(s, fd, ev, refuse).s;
      ClearKeeps(u.s, s', fd, ev, None);
      ListedAgain(s, s', fd, if Get(s', fd).events != {} then MOD else DEL);
    }
  }

  lemma CancelKeeps(s: State, fd: nat, ev: Event, refuse: bool)
    requires Inv(s)
    ensures Cancel(s, fd, ev, refuse).Ok? <==> ev in Get(s, fd).events && !refuse
    ensures !Cancel(s, fd, ev, refuse).Aborted?
    ensures var r := Cancel(s, fd, ev, refuse);
            r.Ok? ==> Inv(r.s) && r.s.spent == s.spent + [Woke(s, fd, ev)] && Woke(s, fd, ev).woken.Some?
  {
    hide Numbered, Spending;
    UnlistKeeps(s, fd, ev, refuse);
    var u := Unlist(s, fd, ev, refuse);
    if u.Ok? {
      TriggerKeeps(u.s, fd, ev);
      var s' := Cancel(s, fd, ev, refuse).s;
      ListedAgain(s, s', fd, if Get(s', fd).events != {} then MOD else DEL);
    }
  }

  // Triggering a set of events one after the other.
  lemma TriggerBoth(s: State, fd: nat, evs: set<Event>)
    requires Consistent(s)
    ensures var r := TriggerIf(TriggerIf(Ok(s), READ in evs, fd, READ), WRITE in evs, fd, WRITE);
            && (r.Ok? <==> evs <= Get(s, fd).events) && !r.Refused?
            && (r.Ok? ==> Consistent(r.s) && r.s.epoll == s.epoll && Get(r.s, fd).events == Get(s, fd).events - evs
                          && r.s.spent == s.spent + WokeIf(READ in evs, s, fd, READ) + WokeIf(WRITE in evs, s, fd, WRITE)
                          && forall f | f != fd :: Get(r.s, f) == Get(s, f))
  {
    hide Consistent, Trigger;
    var c := Get(s, fd).events;
    Refusals(s, fd, READ);
    if READ in evs && READ in c { TriggerKeeps(s, fd, READ); }
    var r := TriggerIf(Ok(s), READ in evs, fd, READ);
    if r.Ok? {
      Refusals(r.s, fd, WRITE);
      if WRITE in evs && WRITE in c { TriggerKeeps(r.s, fd, WRITE); }
    }
    assert (forall e | e in evs :: e in c) <==> (READ in evs ==> READ in c) && (WRITE in evs ==> WRITE in c) by {
      assert forall e | e in evs :: e == READ || e == WRITE;
    }
    assert evs <= c ==> c - (if READ in evs then {READ} else {}) - (if WRITE in evs then {WRITE} else {}) == c - evs by {
      assert forall e | e in c :: e == READ || e == WRITE;
    }
  }

  lemma Refusals(s: State, fd: nat, ev: Event)
    ensures !Trigger(s, fd, ev).Refused?
    ensures ev !in Get(s, fd).events ==> Trigger(s, fd, ev).Aborted?
  {
  }

  /** cancelAll consumes every registration of the descriptor. */
  lemma CancelAllKeeps(s: State, fd: nat, refuse: bool)
    requires Inv(s)
    ensures CancelAll(s, fd, refuse).Ok? <==> Get(s, fd).events != {} && !refuse
    ensures !CancelAll(s, fd, refuse).Aborted?
    ensures var r, evs := CancelAll(s, fd, refuse), Get(s, fd).events;
            r.Ok? ==> Inv(r.s) && Get(r.s, fd).events == {}
                      && r.s.spent == s.spent + WokeIf(READ in evs, s, fd, READ) + WokeIf(WRITE in evs, s, fd, WRITE)
  {
    hide Consistent, Trigger, TriggerIf;
    var c := Get(s, fd);
    assert fd in s.epoll <==> c.events != {};
    if c.events != {} && !refuse {
      var s1 := s.(epoll := Update(s.epoll, DEL, fd, {}));
      EpollIsApart(s, s1);
      TriggerBoth(s1, fd, c.events);
      ListedAgain(s, CancelAll(s, fd, refuse).s, fd, DEL);
    }
  }

  /** Dispatch, whose reported events are not masked by the registered ones: it aborts exactly
      when something registered is reported together with something that is not. */
  lemma DispatchKeeps(s: State, fd: nat, r: Report, refuse: bool)
    requires Inv(s)
    ensures var hit, c := RealEvents(r), Get(s, fd);
            && (Dispatch(s, fd, r, refuse).Refused? <==> c.events * hit == {} || refuse)
            && (Dispatch(s, fd, r, refuse).Aborted? <==> c.events * hit != {} && !refuse && !(hit <= c.events))
    ensures var d := Dispatch(s, fd, r, refuse);
            d.Ok? ==> Inv(d.s) && Get(d.s, fd).events == Get(s, fd).events - RealEvents(r)
                      && d.s.spent == s.spent + WokeIf(READ in RealEvents(r), s, fd, READ) + WokeIf(WRITE in RealEvents(r), s, fd, WRITE)
  {
    hide Consistent, Trigger, TriggerIf, RealEvents;
    var hit, c := RealEvents(r), Get(s, fd);
    assert fd in s.epoll <==> c.events != {};
    if c.events * hit != {} && !refuse {
      var op := if c.events - hit != {} then MOD else DEL;
      var s1 := s.(epoll := Update(s.epoll, op, fd, c.events - hit));
      EpollIsApart(s, s1);
      TriggerBoth(s1, fd, hit);
      if Dispatch(s, fd, r, refuse).Ok? { ListedAgain(s, Dispatch(s, fd, r, refuse).s, fd, op); }
    }
  }

  // ---- Whole runs ----

  // The critical sections, in the order in which the descriptor's lock lets them through. Close is the
  // application closing the descriptor, upon which the kernel forgets it.
  datatype Op =
    | OpAdd(fd: nat, ev: Event, sched: Option<nat>, w: Waiter, refuse: bool)
    | OpDel(fd: nat, ev: Event, refuse: bool)
    | OpCancel(fd: nat, ev: Event, refuse: bool)
    | OpCancelAll(fd: nat, refuse: bool)
    | OpDispatch(fd: nat, r: Report, refuse: bool)
    | OpClose(fd: nat)

  function Close(s: State, fd: nat): State { s.(epoll := s.epoll - {fd}) }

  function Step(s: State, op: Op): Result {
    match op
    case OpAdd(fd, ev, sched, w, refuse) => Add(s, fd, ev, sched, w, refuse)
    case OpDel(fd, ev, refuse) => Del(s, fd, ev, refuse)
    case OpCancel(fd, ev, refuse) => Cancel(s, fd, ev, refuse)
    case OpCancelAll(fd, refuse) => CancelAll(s, fd, refuse)
    case OpDispatch(fd, r, refuse) => Dispatch(s, fd, r, refuse)
    case OpClose(fd) => Ok(Close(s, fd))
  }

  function After(s: State, op: Op): State {
    var r := Step(s, op);
    if r.Ok? then r.s else s
  }

  // What the callers owe: no event registered twice or from a thread without a scheduler, nothing
  // reported that is not registered, and no descriptor closed while it has events.
  predicate Allowed(s: State, op: Op) {
    match op
    case OpAdd(fd, ev, sched, _, refuse) => ev !in Get(s, fd).events && (sched.Some? || refuse)
    case OpDispatch(fd, r, refuse) => refuse || Get(s, fd).events * RealEvents(r) == {} || RealEvents(r) <= Get(s, fd).events
    case OpClose(fd) => Get(s, fd).events == {}
    case _ => true
  }

  predicate AllAllowed(s: State, ops: seq<Op>)
    decreases |ops|
  {
    ops == [] || (Allowed(s, ops[0]) && AllAllowed(After(s, ops[0]), ops[1..]))
  }

  function Run(s: State, ops: seq<Op>): State
    decreases |ops|
  {
    if ops == [] then s else Run(After(s, ops[0]), ops[1..])
  }

  lemma CloseKeeps(s: State, fd: nat)
    requires Inv(s)
    ensures Inv(Close(s, fd)) <==> Get(s, fd).events == {}
  {
    hide Consistent;
    var s' := Close(s, fd);
    EpollIsApart(s, s');
    assert fd in s.epoll <==> Get(s, fd).events != {};
    if Get(s, fd).events == {} {
      assert s' == s;
    } else {
      assert fd !in s'.epoll && Get(s', fd).events != {};
    }
  }

  /** What the callers owe is exactly what keeps the assertions from failing and the kernel's list
      in agreement. */
  lemma StepKeeps(s: State, op: Op)
    requires Inv(s)
    ensures Allowed(s, op) <==> !Step(s, op).Aborted? && Inv(After(s, op))
  {
    hide Inv, Add, Del, Cancel, CancelAll, Dispatch, Close;
    match op
    case OpAdd(fd, ev, sched, w, refuse) => AddKeeps(s, fd, ev, sched, w, refuse);
    case OpDel(fd, ev, refuse) => DelKeeps(s, fd, ev, refuse);
    case OpCancel(fd, ev, refuse) => CancelKeeps(s, fd, ev, refuse);
    case OpCancelAll(fd, refuse) => CancelAllKeeps(s, fd, refuse);
    case OpDispatch(fd, r, refuse) => DispatchKeeps(s, fd, r, refuse);
    case OpClose(fd) => CloseKeeps(s, fd);
  }

  lemma {:induction false} RunKeeps(s: State, ops: seq<Op>)
    requires Inv(s) && AllAllowed(s, ops)
    ensures Inv(Run(s, ops))
    decreases |ops|
  {
    hide Inv, Step, Allowed;
    if ops != [] {
      StepKeeps(s, ops[0]);
      RunKeeps(After(s, ops[0]), ops[1..]);
    }
  }

  const FRESH := State(map[], 0, map[], 0, map[], map[], [])

  lemma FreshIsOk()
    ensures Inv(FRESH)
  {
    assert forall fd, ev :: Registered(FRESH, fd, ev);
  }

  // The event bits that are set, over all descriptors.
  function SetBits(s: State): set<Slot> { set fd, ev | fd in s.fds && ev in s.fds[fd].events :: (fd, ev) }

  function Times(spent: seq<Spent>, n: nat): nat {
    if spent == [] then 0 else Times(spent[..|spent| - 1], n) + (if spent[|spent| - 1].ticket == n then 1 else 0)
  }

  lemma {:induction false} TimesOfDistinct(spent: seq<Spent>, n: nat)
    requires forall i, j | 0 <= i < j < |spent| :: spent[i].ticket != spent[j].ticket
    ensures Times(spent, n) == if exists i | 0 <= i < |spent| :: spent[i].ticket == n then 1 else 0
  {
    if spent != [] {
      var rest, last := spent[..|spent| - 1], |spent| - 1;
      TimesOfDistinct(rest, n);
      if i :| 0 <= i < |rest| && rest[i].ticket == n {
        assert spent[i].ticket == n && spent[last].ticket != n;
      } else if spent[last].ticket != n {
        assert forall i | 0 <= i < |spent| :: i == last || spent[i] == rest[i];
      }
    }
  }

  /** In every reachable state an event bit is set exactly when its context holds a scheduler and
      exactly one of fiber and callback; the pending count is the number of set bits; the kernel
      listens for exactly the set bits; and every registration ever made is either still behind
      one set bit or has been consumed exactly once, waking nobody but its own waiter. */
  lemma EventTokens(ops: seq<Op>, fd: nat, ev: Event, n: nat)
    requires AllAllowed(FRESH, ops)
    ensures var s := Run(FRESH, ops);
            && (ev in Get(s, fd).events <==> ContextOf(Get(s, fd), ev).scheduler.Some?)
            && (ev in Get(s, fd).events ==> Holds(ContextOf(Get(s, fd), ev)))
            && (ev !in Get(s, fd).events ==> ContextOf(Get(s, fd), ev) == EMPTY)
            && s.pending == |SetBits(s)|
            && (fd in s.epoll <==> Get(s, fd).events != {})
            && (fd in s.epoll ==> s.epoll[fd] == Get(s, fd).events)
            && (n < s.issued ==> Times(s.spent, n) + (if IsLive(s, n) then 1 else 0) == 1)
            && (forall i | 0 <= i < |s.spent| && s.spent[i].woken.Some? ::
                  s.spent[i].ticket in s.who && s.spent[i].woken.value == s.who[s.spent[i].ticket])
  {
    hide Run, AllAllowed;
    FreshIsOk();
    RunKeeps(FRESH, ops);
    var s := Run(FRESH, ops);
    assert Registered(s, fd, ev);
    PendingIsBits(s);
    if n < s.issued { TicketOnce(s, n); }
  }

  lemma PendingIsBits(s: State)
    requires Inv(s)
    ensures s.pending == |SetBits(s)|
    ensures s.pending == 0 <==> forall fd: nat :: Get(s, fd).events == {}
  {
    hide Numbered, Spending;
    forall a: Slot ensures a in s.live.Keys <==> a in SetBits(s) { assert Registered(s, a.0, a.1); }
    assert s.live.Keys == SetBits(s);
    if s.pending == 0 {
      forall fd: nat ensures Get(s, fd).events == {} {
        assert forall ev | ev in Get(s, fd).events :: (fd, ev) in SetBits(s);
      }
    } else {
      var a :| a in SetBits(s);
      assert a.1 in Get(s, a.0).events;
    }
  }

  lemma TicketOnce(s: State, n: nat)
    requires Numbered(s) && Spending(s) && n < s.issued
    ensures Times(s.spent, n) + (if IsLive(s, n) then 1 else 0) == 1
  {
    TimesOfDistinct(s.spent, n);
    assert IsSpent(s, n) || IsLive(s, n);
    if IsLive(s, n) {
      var a :| a in s.live && s.live[a] == n;
      assert !IsSpent(s, s.live[a]);
    }
  }

  // ---- What goes wrong when a caller's duty is dropped ----

  /** A hang-up on a descriptor waited on for reading only is reported as both events. */
  lemma HangUpAborts(fd: nat, f: nat, sched: nat)
    ensures var s := After(FRESH, OpAdd(fd, READ, Some(sched), Fiber(f), false));
            Inv(s) && Dispatch(s, fd, Report(false, false, false, true), false).Aborted?
  {
    FreshIsOk();
    hide Inv;
    AddKeeps(FRESH, fd, READ, Some(sched), Fiber(f), false);
    var s := After(FRESH, OpAdd(fd, READ, Some(sched), Fiber(f), false));
    DispatchKeeps(s, fd, Report(false, false, false, true), false);
    assert READ in Get(s, fd).events * RealEvents(Report(false, false, false, true));
    assert WRITE in RealEvents(Report(false, false, false, true)) && WRITE !in Get(s, fd).events;
  }

  /** A registration from a thread without a scheduler: when its event comes, the null scheduler is
      followed. */
  lemma NoSchedulerAborts(fd: nat, w: Waiter)
    ensures var op := OpAdd(fd, READ, None, w, false);
            && Inv(FRESH) && Step(FRESH, op).Ok? && !Allowed(FRESH, op)
            && Dispatch(After(FRESH, op), fd, Report(true, false, false, false), false).Aborted?
  {
    FreshIsOk();
    var s, r := After(FRESH, OpAdd(fd, READ, None, w, false)), Report(true, false, false, false);
    assert Get(s, fd).events == {READ} && READ in RealEvents(r) && READ in Get(s, fd).events * RealEvents(r);
    assert !Holds(ContextOf(Get(s, fd), READ));
  }

  /** A descriptor closed while it waits for reading: its number, reused, cannot wait for
      writing, because the kernel is asked to modify an entry it no longer has. */
  lemma ClosedTooEarly(fd: nat, f: nat, g: nat, sched: nat)
    ensures var s := Close(After(FRESH, OpAdd(fd, READ, Some(sched), Fiber(f), false)), fd);
            Add(s, fd, WRITE, Some(sched), Fiber(g), false).Refused?
  {
    assert Get(FRESH, fd).events == {};
    var s := After(FRESH, OpAdd(fd, READ, Some(sched), Fiber(f), false));
    assert READ in Get(s, fd).events;
  }
}
