/** What the event operations do, told on descriptors, reports and contexts alone. */
module EventLaws {
  import opened Options
  import opened Events

  // EPOLLIN, EPOLLOUT, and EPOLLERR or EPOLLHUP for both.
  predicate Readable(r: Report) { r.in_ || r.err || r.hup }

  predicate Writable(r: Report) { r.out || r.err || r.hup }

  // The callback of a context, or else its fiber.
  function Waits(x: Context): seq<Waiter> {
    if x.cb.Some? then [Callback(x.cb.value)] else if x.fiber.Some? then [Fiber(x.fiber.value)] else []
  }

  lemma RealEventsAre(r: Report)
    ensures READ in RealEvents(r) <==> r.in_ || r.err || r.hup
    ensures WRITE in RealEvents(r) <==> r.out || r.err || r.hup
  {
  }

  // The consumption of a live registration, by the context it stands for.
  lemma WokeByContext(s: State, fd: nat, ev: Event)
    requires Inv(s) && ev in Get(s, fd).events
    ensures Woke(s, fd, ev).woken.Some? && [Woke(s, fd, ev).woken.value] == Waits(ContextOf(Get(s, fd), ev))
  {
    hide Numbered, Spending;
    assert Registered(s, fd, ev);
  }

  lemma SetsMeet(a: set<Event>, b: set<Event>)
    ensures a * b != {} <==> (READ in a && READ in b) || (WRITE in a && WRITE in b)
    ensures b <= a <==> (READ in b ==> READ in a) && (WRITE in b ==> WRITE in a)
  {
    if READ in a && READ in b { assert READ in a * b; }
    if WRITE in a && WRITE in b { assert WRITE in a * b; }
    assert forall e | e in b :: e == READ || e == WRITE;
    if a * b != {} {
      var e :| e in a * b;
      assert e == READ || e == WRITE;
    }
  }

  /** Dispatch on the report itself: it is skipped exactly when no direction that is waited on is
      reported, it aborts exactly when one that is reported is not waited on and it is not skipped;
      otherwise the waiters of the reported directions, reader first, are consumed and woken, and the
      other direction is left as it was. */
  lemma DispatchOnReport(s: State, fd: nat, r: Report, refuse: bool)
    requires Inv(s)
    ensures var c, d := Get(s, fd), Dispatch(s, fd, r, refuse);
            && (d.Refused? <==> refuse || !((READ in c.events && Readable(r)) || (WRITE in c.events && Writable(r))))
            && (d.Aborted? <==> !d.Refused? && ((Readable(r) && READ !in c.events) || (Writable(r) && WRITE !in c.events)))
            && (d.Ok? ==> && (READ in Get(d.s, fd).events <==> READ in c.events && !Readable(r))
                          && (WRITE in Get(d.s, fd).events <==> WRITE in c.events && !Writable(r))
                          && d.s.spent == s.spent + WokeIf(Readable(r), s, fd, READ) + WokeIf(Writable(r), s, fd, WRITE))
  {
    hide Inv, Dispatch, RealEvents;
    DispatchKeeps(s, fd, r, refuse);
    RealEventsAre(r);
    SetsMeet(Get(s, fd).events, RealEvents(r));
  }

  // ---- Bits and contexts after an operation ----

  // The operation sets the bit of this slot, or clears it.
  predicate Sets(op: Op, fd: nat, ev: Event) { op.OpAdd? && op.fd == fd && op.ev == ev }

  predicate Clears(op: Op, fd: nat, ev: Event) {
    op.fd == fd && match op
    case OpDel(_, e, _) => e == ev
    case OpCancel(_, e, _) => e == ev
    case OpCancelAll(_, _) => true
    case OpDispatch(_, r, _) => if ev == READ then Readable(r) else Writable(r)
    case _ => false
  }

  lemma TriggerTouches(s: State, fd: nat, ev: Event, f: nat, e: Event)
    requires Trigger(s, fd, ev).Ok?
    ensures var s' := Trigger(s, fd, ev).s;
            && (e in Get(s', f).events <==> e in Get(s, f).events && (f, e) != (fd, ev))
            && ((f, e) != (fd, ev) ==> ContextOf(Get(s', f), e) == ContextOf(Get(s, f), e))
  {
  }

  lemma BothTouch(s: State, fd: nat, a: bool, b: bool, f: nat, e: Event)
    requires TriggerIf(TriggerIf(Ok(s), a, fd, READ), b, fd, WRITE).Ok?
    ensures var s', hit := TriggerIf(TriggerIf(Ok(s), a, fd, READ), b, fd, WRITE).s, f == fd && (if e == READ then a else b);
            && (e in Get(s', f).events <==> e in Get(s, f).events && !hit)
            && (!hit ==> ContextOf(Get(s', f), e) == ContextOf(Get(s, f), e))
  {
    hide Trigger, Get, ContextOf;
    var r := TriggerIf(Ok(s), a, fd, READ);
    if a { TriggerTouches(s, fd, READ, f, e); }
    if b { TriggerTouches(r.s, fd, WRITE, f, e); }
  }

  /** Every operation that succeeds sets and clears exactly the bits it is for, and leaves the contexts of
      all other slots alone. */
  lemma TouchesOnly(s: State, op: Op, fd: nat, ev: Event)
    requires Step(s, op).Ok?
    ensures var s' := After(s, op);
            && (ev in Get(s', fd).events <==> Sets(op, fd, ev) || (ev in Get(s, fd).events && !Clears(op, fd, ev)))
            && (!Sets(op, fd, ev) && !Clears(op, fd, ev) ==> ContextOf(Get(s', fd), ev) == ContextOf(Get(s, fd), ev))
            && (Clears(op, fd, ev) && op.OpDel? ==> ContextOf(Get(s', fd), ev) == EMPTY)
  {
    hide Trigger, TriggerIf, RealEvents;
    match op
    case OpAdd(_, _, _, _, _) =>
    case OpDel(_, _, _) =>
    case OpCancel(f, e, refuse) => TriggerTouches(Unlist(s, f, e, refuse).s, f, e, fd, ev);
    case OpCancelAll(f, refuse) =>
      var c := Get(s, f);
      BothTouch(s.(epoll := Update(s.epoll, DEL, f, {})), f, READ in c.events, WRITE in c.events, fd, ev);
    case OpDispatch(f, r, refuse) => DispatchTouches(s, f, r, refuse, fd, ev);
    case OpClose(_) =>
  }

  lemma DispatchTouches(s: State, f: nat, r: Report, refuse: bool, fd: nat, ev: Event)
    requires Dispatch(s, f, r, refuse).Ok?
    ensures var s', hit := Dispatch(s, f, r, refuse).s, f == fd && (if ev == READ then Readable(r) else Writable(r));
            && (ev in Get(s', fd).events <==> ev in Get(s, fd).events && !hit)
            && (!hit ==> ContextOf(Get(s', fd), ev) == ContextOf(Get(s, fd), ev))
  {
    hide Trigger, TriggerIf, RealEvents, ContextOf;
    RealEventsAre(r);
    var c, hit := Get(s, f), RealEvents(r);
    var left := c.events - hit;
    BothTouch(s.(epoll := Update(s.epoll, if left != {} then MOD else DEL, f, left)), f, READ in hit, WRITE in hit, fd, ev);
  }

  /** addEvent stores the thread's scheduler and the callback, or else the fiber. */
  lemma AddStores(s: State, fd: nat, ev: Event, sched: Option<nat>, w: Waiter, refuse: bool)
    requires Add(s, fd, ev, sched, w, refuse).Ok?
    ensures var x := ContextOf(Get(Add(s, fd, ev, sched, w, refuse).s, fd), ev); x.scheduler == sched && Waits(x) == [w]
  {
  }
}
