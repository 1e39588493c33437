/** The hooked functions as programs of their fibers: do_io, connect_with_timeout and the sleep
    functions, one step at a time and interleaved with everything else. Their steps follow the
    protocol that the scheduler's safety rests on. */
module HookPrograms {
  import opened Options
  import opened Scheduler
  import opened Exclusion
  import opened Hooks

  datatype Call = DoIo | ConnectCall | SleepCall

  // How far a fiber is in a hooked function; `timer` is its timeout, if it has one.
  datatype Prog =
    | Out                                        // outside the hooks
    | Trying(call: Call)                         // about to call the original function
    | Blocked(call: Call)                        // it would block: about to arm the timeout
    | Arming(call: Call, timer: Option<Token>)   // about to register the event
    | Failed(timer: Option<Token>)               // the registration was refused: about to cancel the timeout
    | Yielding(call: Call, timer: Option<Token>) // registered, about to yield
    | Asleep(call: Call, timer: Option<Token>)   // yielded
    | Woken(call: Call, timer: Option<Token>)    // entered again, about to cancel the timeout
    | Checking(call: Call)                       // about to look at the timeout's flag

  datatype Move =
    | Enter(w: nat, call: Call)                  // the fiber calls do_io or connect
    | Result(w: nat, blocks: bool)               // the original function returns
    | ArmTimeout(w: nat, tok: Token, cb: nat)    // addConditionTimer, its callback cancels the event
    | NoTimeout(w: nat)
    | AddEvent(w: nat, tok: Token, ok: bool)     // addEvent with the current fiber
    | GiveUp(w: nat)                             // the error branch after addEvent
    | SleepTimer(w: nat, tok: Token, cb: nat)    // addTimer, its callback schedules the fiber
    | YieldToHold(w: nat)
    | CancelTimeout(w: nat)
    | Check(w: nat, cancelled: bool)             // return, or retry
    | User(w: nat, a: Action)                    // anything else the fiber does outside the hooks
    | System(a: Action)                          // the workers, the kernel, the timers, other threads

  datatype Programs = Programs(h: World, prog: map<FiberId, Prog>)

  function ProgOf(p: Programs, f: FiberId): Prog { if f in p.prog then p.prog[f] else Out }

  // The worker is inside a fiber that is at program point `at`.
  predicate RunsAt(p: Programs, w: nat) { w < |p.h.s.pcs| && p.h.s.pcs[w].Running? }

  function Here(p: Programs, w: nat): Prog
    requires RunsAt(p, w)
  {
    ProgOf(p, p.h.s.pcs[w].f)
  }

  // Scheduling or registering something that wakes no fiber, or handing over a new fiber; the timers of
  // the sleep functions are not recurring.
  predicate Plain(h: World, a: Action) {
    match a
    case Schedule(t) => Target(t).Some? ==> Target(t).value in h.unborn
    case Register(_, t) => Target(t).None?
    case Collect(_, tok, again) => again && tok in h.s.waiters ==> Target(h.s.waiters[tok]).None?
    case _ => true
  }

  // What a fiber may do outside the hooks: yield READY, end, yield by hold, make, schedule and
  // register, cancel events and timers.
  predicate IsUser(h: World, w: nat, a: Action) {
    Plain(h, a) && match a
    case Mark(v, _) => v == w
    case SwapOut(v) => v == w
    case _ => Outside(a)
  }

  // The steps of the worker loop; a fiber that has set its state swaps out without more ado.
  predicate IsSystem(h: World, a: Action) {
    Plain(h, a) && match a
    case Mark(_, _) => false
    case SwapOut(w) => w < |h.s.pcs| && h.s.pcs[w].Marked?
    case _ => true
  }

  // Whether the program of the worker's fiber is at this move.
  predicate InTurn(p: Programs, m: Move) {
    match m
    case System(a) => IsSystem(p.h, a)
    case User(w, a) => RunsAt(p, w) && Here(p, w).Out? && IsUser(p.h, w, a)
    case Enter(w, call) => RunsAt(p, w) && Here(p, w).Out? && !call.SleepCall?
    case Result(w, _) => RunsAt(p, w) && Here(p, w).Trying?
    case ArmTimeout(w, tok, _) => RunsAt(p, w) && Here(p, w).Blocked? && tok.Timer?
    case NoTimeout(w) => RunsAt(p, w) && Here(p, w).Blocked?
    case AddEvent(w, tok, _) => RunsAt(p, w) && Here(p, w).Arming? && tok.Event?
    case GiveUp(w) => RunsAt(p, w) && Here(p, w).Failed?
    case SleepTimer(w, tok, _) => RunsAt(p, w) && Here(p, w).Out? && tok.Timer?
    case YieldToHold(w) => RunsAt(p, w) && Here(p, w).Yielding?
    case CancelTimeout(w) => RunsAt(p, w) && Here(p, w).Woken?
    case Check(w, _) => RunsAt(p, w) && Here(p, w).Checking?
  }

  // A timeout is cancelled if it is still registered.
  function DropIf(h: World, timer: Option<Token>): Option<Action> {
    if timer.Some? && timer.value in h.s.waiters then Some(Drop(timer.value)) else None
  }

  // What the move does to the scheduler.
  function ActionOf(p: Programs, m: Move): Option<Action>
    requires InTurn(p, m)
  {
    match m
    case System(a) => Some(a)
    case User(_, a) => Some(a)
    case ArmTimeout(_, tok, cb) => Some(Register(tok, CbTask(cb, None, -1)))
    case AddEvent(w, tok, ok) => if ok then Some(Register(tok, FiberTask(p.h.s.pcs[w].f, -1))) else None
    case GiveUp(w) => DropIf(p.h, Here(p, w).timer)
    case SleepTimer(w, tok, cb) => Some(Register(tok, CbTask(cb, Some(p.h.s.pcs[w].f), -1)))
    case YieldToHold(w) => Some(SwapOut(w))
    case CancelTimeout(w) => DropIf(p.h, Here(p, w).timer)
    case _ => None
  }

  // Where the program goes.
  function Turn(p: Programs, m: Move): Prog
    requires InTurn(p, m) && !m.System? && !m.User?
  {
    var at := Here(p, m.w);
    match m
    case Enter(_, call) => Trying(call)
    case Result(_, blocks) => if blocks then Blocked(at.call) else Out
    case ArmTimeout(_, tok, _) => Arming(at.call, Some(tok))
    case NoTimeout(_) => Arming(at.call, None)
    case AddEvent(_, _, ok) => if ok then Yielding(at.call, at.timer) else Failed(at.timer)
    case GiveUp(_) => Out
    case SleepTimer(_, _, _) => Yielding(SleepCall, None)
    case YieldToHold(_) => Asleep(at.call, at.timer)
    case CancelTimeout(_) => Checking(at.call)
    case Check(_, cancelled) => if at.call.DoIo? && !cancelled then Trying(DoIo) else Out
  }

  // Entering a fiber goes on where it yielded; a callback starts outside the hooks.
  function Entered(prog: Prog): Prog { if prog.Asleep? then Woken(prog.call, prog.timer) else prog }

  ghost function NextProg(p: Programs, m: Move): map<FiberId, Prog>
    requires InTurn(p, m) && (ActionOf(p, m).Some? ==> Enabled(p.h.s, ActionOf(p, m).value))
  {
    match m
    case System(a) =>
      if a.Start? then var f := p.h.s.pcs[a.w].task.f; p.prog[f := Entered(ProgOf(p, f))]
      else if a.StartCb? then p.prog[Apply(p.h.s, a).pcs[a.w].f := Out]
      else p.prog
    case User(_, _) => p.prog
    case _ => p.prog[p.h.s.pcs[m.w].f := Turn(p, m)]
  }

  predicate Legal(p: Programs, m: Move) {
    InTurn(p, m) && (ActionOf(p, m).Some? ==> Enabled(p.h.s, ActionOf(p, m).value))
  }

  ghost function Step(p: Programs, m: Move): Programs
    requires Legal(p, m)
  {
    Programs(if ActionOf(p, m).Some? then Next(p.h, ActionOf(p, m).value) else p.h, NextProg(p, m))
  }

  predicate Armed(prog: Prog) { prog.Yielding? || prog.Asleep? }

  /** A fiber has a wake-up of its own registered exactly from the registration until it is entered
      again. */
  ghost predicate Linked(p: Programs) { forall f :: f in p.h.armed <==> Armed(ProgOf(p, f)) }

  ghost predicate RunsIn(s: State, f: FiberId) { exists w :: 0 <= w < |s.pcs| && s.pcs[w].Running? && s.pcs[w].f == f }

  // A fiber that is about to yield is running.
  ghost predicate Awake(p: Programs) { forall f | ProgOf(p, f).Yielding? :: RunsIn(p.h.s, f) }

  ghost predicate Good(p: Programs) { Orderly(p.h) && Linked(p) && Awake(p) }

  /** Every step of do_io, connect_with_timeout, the sleep functions and the rest of the fiber keeps
      to the protocol. */
  lemma {:induction false} MovesFollow(p: Programs, m: Move)
    requires Good(p) && Legal(p, m) && ActionOf(p, m).Some?
    ensures Follows(p.h, ActionOf(p, m).value)
  {
    if !m.System? {
      var w := m.w;
      assert Local(p.h.s.fibers, p.h.s.pcs[w], p.h.s.cbFiber[w], p.h.s.idle[w]);
      assert Served(p.h.s.pcs[w]) == Some(p.h.s.pcs[w].f);
      assert InHands(p.h.s, p.h.s.pcs[w].f);
    }
    hide Orderly;
  }

  /** Conversely, whatever the protocol allows is a move: the workers, the kernel, the timers and other
      threads are free, a fiber outside the hooks may yield or end at any time, and the wake-ups it may
      register for itself are those of addEvent in a call and of the sleep functions; all are for any
      worker, as is the callback of a timeout. */
  lemma {:induction false} ProtocolIsMoves(p: Programs, a: Action)
    requires Enabled(p.h.s, a) && Follows(p.h, a)
    ensures !a.Mark? && !(a.SwapOut? && p.h.s.pcs[a.w].Running?) && !(a.Register? && Target(a.task).Some?) ==>
              Legal(p, System(a)) && ActionOf(p, System(a)) == Some(a)
    ensures a.Mark? || a.SwapOut? ==> p.h.s.pcs[a.w].Running? && Here(p, a.w).Out? ==>
              Legal(p, User(a.w, a)) && ActionOf(p, User(a.w, a)) == Some(a)
    ensures forall w: nat | a.Register? && RunsAt(p, w) && a.task == FiberTask(p.h.s.pcs[w].f, -1) && a.tok.Event? && Here(p, w).Arming? ::
              Legal(p, AddEvent(w, a.tok, true)) && ActionOf(p, AddEvent(w, a.tok, true)) == Some(a)
    ensures forall w: nat | a.Register? && RunsAt(p, w) && a.task.CbTask? && a.task.thread == -1 && a.task.wakes == Some(p.h.s.pcs[w].f)
                       && a.tok.Timer? && Here(p, w).Out? ::
              Legal(p, SleepTimer(w, a.tok, a.task.cb)) && ActionOf(p, SleepTimer(w, a.tok, a.task.cb)) == Some(a)
    ensures forall w: nat | a.Register? && RunsAt(p, w) && a.task.CbTask? && a.task.thread == -1 && a.task.wakes == None
                            && a.tok.Timer? && Here(p, w).Blocked? ::
              Legal(p, ArmTimeout(w, a.tok, a.task.cb)) && ActionOf(p, ArmTimeout(w, a.tok, a.task.cb)) == Some(a)
  {
    hide MayPick, Apply, InHands;
  }

  // ---- The programs stay in step with the protocol ----

  // A fiber that is entered was not running.
  lemma {:induction false} EnteredWasOut(s: State, w: nat)
    requires Inv(s) && Enabled(s, Start(w))
    ensures !RunsIn(s, s.pcs[w].task.f)
  {
    assert Local(s.fibers, s.pcs[w], s.cbFiber[w], s.idle[w]);
    forall v | 0 <= v < |s.pcs| ensures !(s.pcs[v].Running? && s.pcs[v].f == s.pcs[w].task.f) {
      assert Local(s.fibers, s.pcs[v], s.cbFiber[v], s.idle[v]);
    }
  }

  lemma {:induction false} SystemLinks(p: Programs, a: Action)
    requires Good(p) && Legal(p, System(a))
    ensures Linked(Step(p, System(a)))
  {
    if a.Start? { EnteredWasOut(p.h.s, a.w); }
    hide Orderly, RunsIn;
    if a.Start? {
      var f := p.h.s.pcs[a.w].task.f;
      assert !ProgOf(p, f).Yielding?;
    }
  }

  lemma {:induction false} FiberLinks(p: Programs, m: Move)
    requires Good(p) && Legal(p, m) && !m.System?
    ensures Linked(Step(p, m))
  {
    hide Orderly, Awake;
  }

  // A running fiber runs on unless the step is its own yield or end.
  lemma {:induction false} RunsOn(s: State, a: Action, v: nat)
    requires Enabled(s, a) && v < |s.pcs| && s.pcs[v].Running? && !Ends(Some(a), v)
    ensures var s' := Apply(s, a); v < |s'.pcs| && s'.pcs[v].Running? && s'.pcs[v].f == s.pcs[v].f
  {
    hide Apply, MayPick;
    PcsMove(s, a);
  }

  // The step is the end or the yield of the fiber on worker `v`.
  predicate Ends(a: Option<Action>, v: nat) { a.Some? && (a.value.Mark? || a.value.SwapOut?) && a.value.w == v }

  lemma {:induction false} StaysAwake(p: Programs, m: Move, f: FiberId)
    requires Good(p) && Legal(p, m) && ProgOf(Step(p, m), f).Yielding?
    ensures RunsIn(Step(p, m).h.s, f)
  {
    YieldingRan(p, m, f);
    hide Good, Apply, Enabled, ActionOf, NextProg, InTurn, Turn, ProgOf;
    var v :| 0 <= v < |p.h.s.pcs| && p.h.s.pcs[v].Running? && p.h.s.pcs[v].f == f && !Ends(ActionOf(p, m), v);
    if ActionOf(p, m).Some? {
      RunsOn(p.h.s, ActionOf(p, m).value, v);
      NextRuns(p.h, ActionOf(p, m).value);
    }
  }

  lemma {:induction false} NextRuns(h: World, a: Action)
    requires Enabled(h.s, a)
    ensures Next(h, a).s == Apply(h.s, a)
  {
    hide Apply, Enabled;
  }

  lemma {:induction false} YieldingRan(p: Programs, m: Move, f: FiberId)
    requires Good(p) && Legal(p, m) && ProgOf(Step(p, m), f).Yielding?
    ensures exists v :: 0 <= v < |p.h.s.pcs| && p.h.s.pcs[v].Running? && p.h.s.pcs[v].f == f && !Ends(ActionOf(p, m), v)
  {
    hide Orderly, Linked;
    if ProgOf(p, f).Yielding? {
      var v :| 0 <= v < |p.h.s.pcs| && p.h.s.pcs[v].Running? && p.h.s.pcs[v].f == f;
    } else {
      assert !m.System? && !m.User? && p.h.s.pcs[m.w].f == f;
    }
  }

  lemma {:induction false} MoveStaysGood(p: Programs, m: Move)
    requires Good(p) && Legal(p, m)
    ensures Good(Step(p, m))
  {
    if m.System? { SystemLinks(p, m.a); } else { FiberLinks(p, m); }
    forall f | ProgOf(Step(p, m), f).Yielding? ensures RunsIn(Step(p, m).h.s, f) { StaysAwake(p, m, f); }
    hide Linked, Orderly, RunsIn, Legal, Enabled;
    if ActionOf(p, m).Some? {
      MovesFollow(p, m);
      FollowingStaysOrderly(p.h, ActionOf(p, m).value);
    }
  }

  ghost predicate CanMove(p: Programs, ms: seq<Move>)
    decreases |ms|
  {
    ms != [] ==> Legal(p, ms[0]) && CanMove(Step(p, ms[0]), ms[1..])
  }

  ghost function After(p: Programs, ms: seq<Move>): Programs
    requires CanMove(p, ms)
    decreases |ms|
  {
    if ms == [] then p else After(Step(p, ms[0]), ms[1..])
  }

  /** In every interleaving of fibers that wait through do_io, connect_with_timeout and the sleep
      functions, on any number of workers, no fiber has two outstanding wake-ups, none is executed
      twice at once and none of the assertions of swapIn, reset, the yields and addEvent on fiber
      states fails. */
  lemma {:induction false} ProgramsAreSafe(p: Programs, ms: seq<Move>)
    requires Good(p) && CanMove(p, ms)
    ensures var s := After(p, ms).h.s; AtMostOneWakeUp(s) && Safe(s)
    decreases |ms|
  {
    if ms == [] {
      InvIsSafe(p.h.s);
    } else {
      hide Good, Safe, AtMostOneWakeUp, Step, Legal;
      MoveStaysGood(p, ms[0]);
      ProgramsAreSafe(Step(p, ms[0]), ms[1..]);
    }
  }

  lemma {:induction false} FreshIsGood(n: nat)
    ensures Good(Programs(World(Fresh(n), {}, {}), map[]))
  {
    hide Orderly;
    FreshIsOrderly(n);
  }

  // ---- What a call does besides waiting ----

  function TimeoutOf(prog: Prog): Option<Token> {
    if prog.Arming? || prog.Failed? || prog.Yielding? || prog.Asleep? || prog.Woken? then prog.timer else None
  }

  /** A call lets go of its timeout only when that is no longer registered: cancelled, or expired. */
  lemma {:induction false} TimeoutIsCancelled(p: Programs, m: Move)
    requires Legal(p, m) && !m.System? && !m.User? && TimeoutOf(Here(p, m.w)).Some?
    ensures var tok, p' := TimeoutOf(Here(p, m.w)).value, Step(p, m);
            TimeoutOf(ProgOf(p', p.h.s.pcs[m.w].f)) == Some(tok) || tok !in p'.h.s.waiters
  {
    hide MayPick;
  }

  /** A call returns exactly when the original function has not blocked, the event could not be
      registered, or it was woken and was no do_io or has timed out; a do_io that was woken in time tries
      again, and a blocked call goes on to register. */
  lemma {:induction false} CallsReturn(p: Programs, m: Move)
    requires Legal(p, m) && !m.System? && !m.User?
    ensures var to := ProgOf(Step(p, m), p.h.s.pcs[m.w].f);
            && (to.Out? <==> (m.Result? && !m.blocks) || m.GiveUp? || (m.Check? && (m.cancelled || !Here(p, m.w).call.DoIo?)))
            && (to.Trying? <==> m.Enter? || (m.Check? && !m.cancelled && Here(p, m.w).call.DoIo?))
            && (to.Blocked? <==> m.Result? && m.blocks)
            && (to.Failed? <==> m.AddEvent? && !m.ok)
            && (to.Asleep? <==> m.YieldToHold?)
  {
    hide MayPick, Apply;
  }
}
