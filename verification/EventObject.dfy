/** The I/O manager as an object: the context table, the pending count and the kernel's interest
    list are updated in place; each method does to them what its function says. */
module EventObject {
  import opened Options
  import opened Events
  import opened EventLaws

  // 0 or true; -1 or false; an assertion failed.
  datatype Code = DONE | FAILED | ABORT

  class IOManager {
    var fds: map<nat, FdContext>
    var pending: int
    var epoll: map<nat, set<Event>>
    ghost var issued: nat
    ghost var who: map<nat, Waiter>
    ghost var live: map<Slot, nat>
    ghost var spent: seq<Spent>
    var queue: seq<Waiter>

    ghost function View(): State
      reads this
    {
      State(fds, pending, epoll, issued, who, live, spent)
    }

    // What triggering has put on the scheduler's queue.
    static ghost function Woken(spent: seq<Spent>): seq<Waiter> {
      if spent == [] then []
      else
        var last := spent[|spent| - 1];
        Woken(spent[..|spent| - 1]) + (if last.woken.Some? then [last.woken.value] else [])
    }

    static lemma WokenSnoc(spent: seq<Spent>, x: Spent)
      ensures Woken(spent + [x]) == Woken(spent) + (if x.woken.Some? then [x.woken.value] else [])
    {
      assert (spent + [x])[..|spent|] == spent;
    }

    ghost predicate Valid()
      reads this
    {
      Inv(View()) && queue == Woken(spent)
    }

    // A code agrees with the result of the function: the new state, or no change.
    twostate predicate Did(code: Code, r: Result)
      reads this
    {
      match r
      case Ok(s) => code == DONE && View() == s
      case Refused => code == FAILED && View() == old(View())
      case Aborted => code == ABORT
    }

    constructor ()
      ensures Valid() && View() == FRESH && queue == []
    {
      fds, pending, epoll, queue := map[], 0, map[], [];
      issued, who, live, spent := 0, map[], map[], [];
      new;
      FreshIsOk();
    }

    method Context(fd: nat) returns (c: FdContext)
      ensures c == Get(View(), fd)
    {
      c := if fd in fds then fds[fd] else FdContext(EMPTY, EMPTY, {});
    }

    // epoll_ctl: the kernel's answer.
    method EpollCtl(op: Ctl, fd: nat, events: set<Event>, refuse: bool) returns (ok: bool)
      modifies this`epoll
      ensures ok == Accepts(old(epoll), op, fd, refuse)
      ensures epoll == if ok then Update(old(epoll), op, fd, events) else old(epoll)
    {
      ok := !refuse && (op == ADD <==> fd !in epoll);
      if ok { epoll := if op == DEL then epoll - {fd} else epoll[fd := events]; }
    }

    method TriggerEvent(fd: nat, ev: Event) returns (code: Code)
      requires queue == Woken(spent)
      modifies this`fds, this`pending, this`live, this`spent, this`queue
      ensures Did(code, Trigger(old(View()), fd, ev)) && queue == Woken(spent)
      ensures code == DONE ==> queue == old(queue) + Waits(ContextOf(Get(old(View()), fd), ev))
    {
      hide Woken, Get, ContextOf, WithContext, Holds, WaiterOf, Ticket;
      var c := Context(fd);
      var x := ContextOf(c, ev);
      if ev !in c.events || !Holds(x) { return ABORT; }
      ghost var s := View();
      var w := WaiterOf(x);
      assert [w] == Waits(x) by { WaiterIs(x); }
      WokenSnoc(spent, Spent(Ticket(s, fd, ev), Some(w)));
      queue := queue + [w];
      x := if x.cb.Some? then x.(cb := None, scheduler := None) else x.(fiber := None, scheduler := None);
      fds := fds[fd := WithContext(c, ev, x).(events := c.events - {ev})];
      pending := pending - 1;
      spent := spent + [Spent(Ticket(s, fd, ev), Some(w))];
      live := live - {(fd, ev)};
      code := DONE;
    }

    static lemma WaiterIs(x: Context)
      requires Holds(x)
      ensures [WaiterOf(x)] == Waits(x)
    {
    }

    method AddEvent(fd: nat, ev: Event, sched: Option<nat>, w: Waiter, refuse: bool) returns (code: Code)
      requires Valid()
      modifies this
      ensures Did(code, Add(old(View()), fd, ev, sched, w, refuse))
      ensures queue == old(queue)
      ensures code == DONE ==> (Valid() <==> sched.Some?)
      ensures code == FAILED ==> Valid()
      ensures code == ABORT <==> ev in Get(old(View()), fd).events
    {
      hide Inv, Woken, Get, ContextOf, WithContext, NewContext, Update;
      AddKeeps(View(), fd, ev, sched, w, refuse);
      var c := Context(fd);
      if ev in c.events { return ABORT; }
      var op := if c.events != {} then MOD else ADD;
      var ok := EpollCtl(op, fd, c.events + {ev}, refuse);
      if !ok { return FAILED; }
      pending := pending + 1;
      if ContextOf(c, ev) != EMPTY { return ABORT; }
      fds := fds[fd := WithContext(c, ev, NewContext(sched, w)).(events := c.events + {ev})];
      who, live, issued := who[issued := w], live[(fd, ev) := issued], issued + 1;
      code := DONE;
    }

    method DelEvent(fd: nat, ev: Event, refuse: bool) returns (code: Code)
      requires Valid()
      modifies this
      ensures Valid() && Did(code, Del(old(View()), fd, ev, refuse)) && queue == old(queue)
      ensures code == DONE <==> ev in Get(old(View()), fd).events && !refuse
    {
      hide Inv, Woken, Get, ContextOf, WithContext, Ticket, Update;
      DelKeeps(View(), fd, ev, refuse);
      ghost var s := View();
      WokenSnoc(spent, Spent(Ticket(s, fd, ev), None));
      var c := Context(fd);
      if ev !in c.events { return FAILED; }
      var left := c.events - {ev};
      var ok := EpollCtl(if left != {} then MOD else DEL, fd, left, refuse);
      if !ok { return FAILED; }
      pending := pending - 1;
      fds := fds[fd := WithContext(c, ev, EMPTY).(events := left)];
      spent := spent + [Spent(Ticket(s, fd, ev), None)];
      live := live - {(fd, ev)};
      code := DONE;
    }

    method CancelEvent(fd: nat, ev: Event, refuse: bool) returns (code: Code)
      requires Valid()
      modifies this
      ensures Valid() && Did(code, Cancel(old(View()), fd, ev, refuse))
      ensures queue == old(queue) + if code == DONE then Waits(ContextOf(Get(old(View()), fd), ev)) else []
      ensures code == DONE <==> ev in Get(old(View()), fd).events && !refuse
    {
      hide Inv, Trigger, Woken, Get, Update;
      CancelKeeps(View(), fd, ev, refuse);
      var c := Context(fd);
      if ev !in c.events { return FAILED; }
      var left := c.events - {ev};
      var ok := EpollCtl(if left != {} then MOD else DEL, fd, left, refuse);
      if !ok { return FAILED; }
      assert View() == Unlist(old(View()), fd, ev, refuse).s;
      SameContexts(old(View()), View(), fd);
      code := TriggerEvent(fd, ev);
    }

    // The two triggers at the end of cancelAll and of the dispatch body.
    method TriggerTwo(fd: nat, evs: set<Event>) returns (code: Code)
      requires queue == Woken(spent)
      modifies this`fds, this`pending, this`live, this`spent, this`queue
      ensures Did(code, TriggerIf(TriggerIf(Ok(old(View())), READ in evs, fd, READ), WRITE in evs, fd, WRITE))
      ensures queue == Woken(spent)
      ensures var c := Get(old(View()), fd);
              code == DONE ==> queue == old(queue) + (if READ in evs then Waits(c.read) else []) + (if WRITE in evs then Waits(c.write) else [])
    {
      hide Trigger, Woken;
      code := DONE;
      if READ in evs {
        Refusals(View(), fd, READ);
        code := TriggerEvent(fd, READ);
        if code == ABORT { return; }
        TriggerTouches(old(View()), fd, READ, fd, WRITE);
      }
      if WRITE in evs {
        Refusals(View(), fd, WRITE);
        code := TriggerEvent(fd, WRITE);
      }
    }

    method CancelEvents(fd: nat, refuse: bool) returns (code: Code)
      requires Valid()
      modifies this
      ensures Valid() && Did(code, CancelAll(old(View()), fd, refuse))
      ensures var c := Get(old(View()), fd);
              code == DONE ==> queue == old(queue) + (if READ in c.events then Waits(c.read) else [])
                                                   + (if WRITE in c.events then Waits(c.write) else [])
      ensures code != DONE ==> queue == old(queue)
      ensures code == DONE <==> Get(old(View()), fd).events != {} && !refuse
    {
      hide Inv, Trigger, Woken, TriggerIf, Get, Update;
      CancelAllKeeps(View(), fd, refuse);
      var c := Context(fd);
      if c.events == {} { return FAILED; }
      var ok := EpollCtl(DEL, fd, {}, refuse);
      if !ok { return FAILED; }
      assert View() == old(View()).(epoll := Update(old(epoll), DEL, fd, {}));
      SameContexts(old(View()), View(), fd);
      code := TriggerTwo(fd, c.events);
    }

    static lemma SameContexts(s: State, s': State, fd: nat)
      requires s'.fds == s.fds
      ensures Get(s', fd) == Get(s, fd)
    {
    }

    static lemma RealEventsHit(r: Report)
      ensures READ in RealEvents(r) <==> Readable(r)
      ensures WRITE in RealEvents(r) <==> Writable(r)
    {
      RealEventsAre(r);
    }

    // The body of the dispatch loop.
    method DispatchOne(fd: nat, r: Report, refuse: bool) returns (code: Code)
      requires Valid()
      modifies this
      ensures Did(code, Dispatch(old(View()), fd, r, refuse))
      ensures code != ABORT ==> Valid()
      ensures code == ABORT <==> !Allowed(old(View()), OpDispatch(fd, r, refuse))
      ensures var c := Get(old(View()), fd);
              && (code == FAILED <==> refuse || !((READ in c.events && Readable(r)) || (WRITE in c.events && Writable(r))))
              && (code == DONE ==> && (READ in Get(View(), fd).events <==> READ in c.events && !Readable(r))
                                   && (WRITE in Get(View(), fd).events <==> WRITE in c.events && !Writable(r))
                                   && queue == old(queue) + (if Readable(r) then Waits(c.read) else [])
                                                          + (if Writable(r) then Waits(c.write) else []))
    {
      hide Inv, Trigger, Woken, TriggerIf, Get, Update, RealEvents, Waits, Readable, Writable;
      DispatchKeeps(View(), fd, r, refuse);
      DispatchOnReport(View(), fd, r, refuse);
      RealEventsHit(r);
      var c := Context(fd);
      var hit := RealEvents(r);
      if c.events * hit == {} { return FAILED; }
      var left := c.events - hit;
      var ok := EpollCtl(if left != {} then MOD else DEL, fd, left, refuse);
      if !ok { return FAILED; }
      assert View() == old(View()).(epoll := Update(old(epoll), if left != {} then MOD else DEL, fd, left));
      SameContexts(old(View()), View(), fd);
      code := TriggerTwo(fd, hit);
    }

    // The dispatch loop: the reports are handled in order, and the loop reaches its end exactly
    // when every report is, at its turn, within what is registered.
    method DispatchLoop(reports: seq<Op>) returns (code: Code)
      requires Valid() && forall i | 0 <= i < |reports| :: reports[i].OpDispatch?
      modifies this
      ensures code == DONE <==> AllAllowed(old(View()), reports)
      ensures code == DONE ==> Valid() && View() == Run(old(View()), reports)
    {
      hide Inv, Dispatch, Woken, Allowed;
      var i := 0;
      while i < |reports|
        invariant 0 <= i <= |reports| && Valid()
        invariant AllAllowed(old(View()), reports) <==> AllAllowed(View(), reports[i..])
        invariant Run(old(View()), reports) == Run(View(), reports[i..])
      {
        ghost var s := View();
        code := DispatchOne(reports[i].fd, reports[i].r, reports[i].refuse);
        assert reports[i..][1..] == reports[i + 1..];
        assert reports[i] == OpDispatch(reports[i].fd, reports[i].r, reports[i].refuse);
        if code == ABORT { return; }
        i := i + 1;
      }
      code := DONE;
    }
  }
}
