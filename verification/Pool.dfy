/** HttpConnectionPool: idle and lent connections, the total, and callers whose calls overlap. */
module Pool {
  import opened Options

  // Who has a connection: the list, a user, a releasing caller; or nobody, once ReleasePtr deletes it.
  datatype Holder = Pool | User | Caller(i: nat) | Nobody

  // A connection: when it was made, requests finished on it, how often it was lent, and who has it.
  datatype Conn = Conn(created: nat, request: nat, lends: nat, holder: Holder)

  // Where a caller stands. Rest: outside. Swept: getConnection has left its first critical section
  // with `dead` connections to subtract. Deciding: it found nothing idle. Connecting: the limit let
  // it through. Dropping: ReleasePtr has deleted its connection and is about to decrement.
  // Returning: it is about to push the connection back.
  datatype Phase =
    | Rest | Swept(dead: nat, got: Option<nat>) | Deciding | Connecting | Dropping | Returning(id: nat)

  datatype Limits = Limits(maxSize: nat, maxAlive: nat, maxRequest: nat)

  // `conns` remembers every connection ever made; `idle` is m_conns; `lent` are those held by
  // users; connection numbers below `next` are taken.
  datatype State = State(
    lim: Limits, total: nat, idle: seq<nat>, lent: set<nat>, phases: seq<Phase>, conns: map<nat, Conn>, next: nat)

  const WORD: nat := 0x1_0000_0000   // m_total is a 32-bit counter

  // ---- The steps ----

  predicate Expired(lim: Limits, c: Conn, now: nat) { c.created + lim.maxAlive <= now }

  predicate Usable(s: State, id: nat, up: set<nat>, now: nat) {
    id in s.conns && id in up && !Expired(s.lim, s.conns[id], now)
  }

  // The number of leading idle connections that are disconnected or too old.
  function DeadPrefix(s: State, idle: seq<nat>, up: set<nat>, now: nat): (n: nat)
    ensures n <= |idle|
    ensures forall i | 0 <= i < n :: !Usable(s, idle[i], up, now)
    ensures n < |idle| ==> Usable(s, idle[n], up, now)
  {
    if idle == [] || Usable(s, idle[0], up, now) then 0 else 1 + DeadPrefix(s, idle[1..], up, now)
  }

  /** A connection can be lent exactly when its socket is connected and it is younger than its time to
      live. */
  lemma UsableMeans(s: State, id: nat, up: set<nat>, now: nat)
    ensures Usable(s, id, up, now) <==> id in s.conns && id in up && s.conns[id].created + s.lim.maxAlive > now
  {
  }

  function At(s: State, i: nat, p: Phase): State
    requires i < |s.phases|
  {
    s.(phases := s.phases[i := p])
  }

  // `up` are the connections whose sockets are connected, `now` the clock.
  datatype Action =
    | Sweep(i: nat, up: set<nat>, now: nat)
    | Settle(i: nat)
    | Check(i: nat)
    | Connect(i: nat, ok: bool, now: nat)
    | Release(i: nat, id: nat, up: set<nat>, now: nat)
    | Drop(i: nat)
    | Push(i: nat)

  predicate Enabled(s: State, a: Action) {
    a.i < |s.phases| &&
    match a
    case Sweep(i, _, _) => s.phases[i].Rest?
    case Settle(i) => s.phases[i].Swept?
    case Check(i) => s.phases[i].Deciding?
    case Connect(i, _, _) => s.phases[i].Connecting?
    case Release(i, id, _, _) => s.phases[i].Rest? && id in s.lent && id in s.conns
    case Drop(i) => s.phases[i].Dropping?
    case Push(i) => s.phases[i].Returning?
  }

  // The first critical section of getConnection: pop until a usable connection is found.
  function DoSweep(s: State, i: nat, up: set<nat>, now: nat): State
    requires i < |s.phases|
  {
    var n := DeadPrefix(s, s.idle, up, now);
    if n == |s.idle| then At(s, i, Swept(n, None)).(idle := [])
    else
      var id := s.idle[n];
      At(s, i, Swept(n, Some(id))).(
        idle := s.idle[n + 1..], lent := s.lent + {id},
        conns := s.conns[id := s.conns[id].(lends := s.conns[id].lends + 1, holder := User)])
  }

  // A new connection, or a failure to make one.
  function DoConnect(s: State, i: nat, ok: bool, now: nat): State
    requires i < |s.phases|
  {
    if !ok then At(s, i, Rest)
    else At(s, i, Rest).(
      total := (s.total + 1) % WORD, lent := s.lent + {s.next},
      conns := s.conns[s.next := Conn(now, 0, 1, User)], next := s.next + 1)
  }

  // The first half of ReleasePtr: one more request, and the fate of the connection.
  function DoRelease(s: State, i: nat, id: nat, up: set<nat>, now: nat): State
    requires i < |s.phases| && id in s.conns
  {
    var c := s.conns[id].(request := s.conns[id].request + 1);
    var gone := id !in up || Expired(s.lim, c, now) || c.request >= s.lim.maxRequest;
    At(s, i, if gone then Dropping else Returning(id)).(
      lent := s.lent - {id}, conns := s.conns[id := c.(holder := if gone then Nobody else Caller(i))])
  }

  // The second critical section of ReleasePtr.
  function DoPush(s: State, i: nat, id: nat): State
    requires i < |s.phases|
  {
    At(s, i, Rest).(idle := s.idle + [id],
                    conns := if id in s.conns then s.conns[id := s.conns[id].(holder := Pool)] else s.conns)
  }

  /** The sweep, on the connections themselves: it lends the first idle connection that is up and young
      enough, takes the ones before it out to be subtracted, and all of them when there is none. */
  lemma SweepMeans(s: State, i: nat, up: set<nat>, now: nat)
    requires i < |s.phases|
    ensures var s' := DoSweep(s, i, up, now);
            && |s'.phases| == |s.phases| && s'.phases[i].Swept? && s'.phases[i].dead <= |s.idle|
            && var n, p := s'.phases[i].dead, s'.phases[i];
               && (forall k | 0 <= k < n ::
                     !(s.idle[k] in s.conns && s.idle[k] in up && s.conns[s.idle[k]].created + s.lim.maxAlive > now))
               && (n < |s.idle| ==> && s.idle[n] in s.conns && s.idle[n] in up && s.conns[s.idle[n]].created + s.lim.maxAlive > now
                                    && p.got == Some(s.idle[n]) && s'.idle == s.idle[n + 1..] && s'.lent == s.lent + {s.idle[n]})
               && (n == |s.idle| ==> p.got == None && s'.idle == [] && s'.lent == s.lent)
               && s'.total == s.total
  {
    var n := DeadPrefix(s, s.idle, up, now);
    forall k | 0 <= k < n ensures !Usable(s, s.idle[k], up, now) {}
    hide DeadPrefix;
  }

  /** The release, on the connection itself: it is to be put back exactly when it is up, young enough and
      has requests left, and dropped otherwise; either way one more request is counted. */
  lemma ReleaseMeans(s: State, i: nat, id: nat, up: set<nat>, now: nat)
    requires i < |s.phases| && id in s.conns
    ensures var s', c := DoRelease(s, i, id, up, now), s.conns[id];
            && |s'.phases| == |s.phases| && s'.lent == s.lent - {id} && s'.idle == s.idle && s'.total == s.total
            && s'.phases[i] == (if id in up && c.created + s.lim.maxAlive > now && c.request + 1 < s.lim.maxRequest
                                then Returning(id) else Dropping)
            && s'.conns[id].request == c.request + 1 && s'.conns[id].created == c.created
  {
  }

  function Apply(s: State, a: Action): State
    requires Enabled(s, a)
  {
    match a
    case Sweep(i, up, now) => DoSweep(s, i, up, now)
    case Settle(i) =>
      var p := s.phases[i];
      At(s, i, if p.got.Some? then Rest else Deciding).(total := (s.total - p.dead) % WORD)
    case Check(i) => At(s, i, if s.total >= s.lim.maxSize then Rest else Connecting)
    case Connect(i, ok, now) => DoConnect(s, i, ok, now)
    case Release(i, id, up, now) => DoRelease(s, i, id, up, now)
    case Drop(i) => At(s, i, Rest).(total := (s.total - 1) % WORD)
    case Push(i) => DoPush(s, i, s.phases[i].id)
  }

  predicate CanRun(s: State, actions: seq<Action>)
    decreases |actions|
  {
    actions == [] || (Enabled(s, actions[0]) && CanRun(Apply(s, actions[0]), actions[1..]))
  }

  function Run(s: State, actions: seq<Action>): State
    requires CanRun(s, actions)
    decreases |actions|
  {
    if actions == [] then s else Run(Apply(s, actions[0]), actions[1..])
  }

  function Fresh(lim: Limits, callers: nat): State {
    State(lim, 0, [], {}, seq(callers, _ => Rest), map[], 0)
  }

  // ---- Accounting ----

  // Connections a caller has taken out of the lists and not yet subtracted or put back.
  function Owed(p: Phase): nat {
    match p
    case Swept(dead, _) => dead
    case Dropping => 1
    case Returning(_) => 1
    case _ => 0
  }

  function InFlight(ps: seq<Phase>): nat {
    if ps == [] then 0 else Owed(ps[0]) + InFlight(ps[1..])
  }

  // Callers that passed the limit and have not yet counted their connection.
  function Admitted(ps: seq<Phase>): nat {
    if ps == [] then 0 else (if ps[0].Connecting? then 1 else 0) + Admitted(ps[1..])
  }

  lemma {:induction false} PhaseMoves(ps: seq<Phase>, i: nat, p: Phase)
    requires i < |ps|
    ensures InFlight(ps[i := p]) == InFlight(ps) - Owed(ps[i]) + Owed(p)
    ensures InFlight(ps) >= Owed(ps[i])
    ensures Admitted(ps[i := p]) ==
            Admitted(ps) - (if ps[i].Connecting? then 1 else 0) + (if p.Connecting? then 1 else 0)
    ensures Admitted(ps) + (if ps[i].Connecting? then 0 else 1) <= |ps|
  {
    AdmittedBound(ps[1..]);
    if i > 0 {
      PhaseMoves(ps[1..], i - 1, p);
      assert ps[i := p][1..] == ps[1..][i - 1 := p];
    } else {
      assert ps[i := p][1..] == ps[1..];
    }
  }

  lemma {:induction false} AdmittedBound(ps: seq<Phase>)
    ensures Admitted(ps) <= |ps|
  {
    if ps != [] { AdmittedBound(ps[1..]); }
  }

  /** Every connection that exists: idle, lent, or in the hands of a caller. */
  function Existing(s: State): nat { |s.idle| + |s.lent| + InFlight(s.phases) }

  predicate Held(s: State, id: nat, h: Holder) { id in s.conns && s.conns[id].holder == h }

  /** No connection is in two places. */
  ghost predicate Placed(s: State) {
    && (forall i | 0 <= i < |s.idle| :: Held(s, s.idle[i], Pool))
    && (forall i, j | 0 <= i < j < |s.idle| :: s.idle[i] != s.idle[j])
    && (forall id | id in s.lent :: Held(s, id, User))
    && (forall i | 0 <= i < |s.phases| && s.phases[i].Returning? :: Held(s, s.phases[i].id, Caller(i)))
    && (forall id | id in s.conns :: id < s.next)
  }

  /** A connection has been lent once more than it has been given back exactly while a user has it;
      one that may be lent again has requests left. */
  predicate FairConn(c: Conn, maxRequest: nat) {
    && c.lends <= (if maxRequest > 1 then maxRequest else 1)
    && (c.holder.User? ==> c.lends == c.request + 1)
    && (c.holder.Pool? || c.holder.Caller? ==> c.lends == c.request && c.request < maxRequest)
  }

  ghost predicate Fair(s: State) {
    forall id | id in s.conns :: FairConn(s.conns[id], s.lim.maxRequest)
  }

  ghost predicate Counted(s: State) { s.total == Existing(s) % WORD }

  ghost predicate Inv(s: State) { Placed(s) && Fair(s) && Counted(s) }

  // ---- What every step keeps ----

  lemma WrapSubtract(x: nat, k: nat)
    requires k <= x
    ensures (x % WORD - k) % WORD == (x - k) % WORD
  {
    var q, r := x / WORD, (x - k) / WORD;
    assert x % WORD - k == (x - k) % WORD + (r - q) * WORD;
    WrapShift((x - k) % WORD, r - q);
  }

  lemma {:induction false} WrapShift(y: nat, n: int)
    requires y < WORD
    ensures (y + n * WORD) % WORD == y
  {
  }

  // What a step takes off the number of connections, and what it adds.
  function Gone(s: State, a: Action): nat
    requires Enabled(s, a)
  {
    if a.Settle? then s.phases[a.i].dead else if a.Drop? then 1 else 0
  }

  function Made(a: Action): nat { if a.Connect? && a.ok then 1 else 0 }

  // The number of connections changes only where the counter does.
  lemma ExistingMoves(s: State, a: Action)
    requires Enabled(s, a) && Placed(s)
    ensures Gone(s, a) <= Existing(s) && Existing(Apply(s, a)) == Existing(s) - Gone(s, a) + Made(a)
  {
    hide InFlight, Admitted, Placed, Apply;
    match a
    case Sweep(_, _, _) => SweepExisting(s, a);
    case Connect(_, _, _) => ConnectExisting(s, a);
    case Release(_, _, _, _) => ReleaseExisting(s, a);
    case _ => PlainExisting(s, a);
  }

  lemma SweepExisting(s: State, a: Action)
    requires a.Sweep? && Enabled(s, a) && Placed(s)
    ensures Existing(Apply(s, a)) == Existing(s)
  {
    hide InFlight, Admitted, DoSweep, Placed;
    SweepMoves(s, a.i, a.up, a.now);
    PhaseMoves(s.phases, a.i, DoSweep(s, a.i, a.up, a.now).phases[a.i]);
  }

  lemma ConnectExisting(s: State, a: Action)
    requires a.Connect? && Enabled(s, a) && Placed(s)
    ensures Existing(Apply(s, a)) == Existing(s) + Made(a)
  {
    hide InFlight, Admitted, Placed;
    LentMoves(s, s.next);
    PhaseMoves(s.phases, a.i, Rest);
  }

  lemma ReleaseExisting(s: State, a: Action)
    requires a.Release? && Enabled(s, a) && Placed(s)
    ensures Existing(Apply(s, a)) == Existing(s)
  {
    hide InFlight, Admitted, Placed;
    LentMoves(s, a.id);
    PhaseMoves(s.phases, a.i, Apply(s, a).phases[a.i]);
  }

  lemma PlainExisting(s: State, a: Action)
    requires (a.Settle? || a.Check? || a.Drop? || a.Push?) && Enabled(s, a)
    ensures Gone(s, a) <= Existing(s) && Existing(Apply(s, a)) == Existing(s) - Gone(s, a)
  {
    hide InFlight, Admitted;
    PhaseMoves(s.phases, a.i, Apply(s, a).phases[a.i]);
  }

  lemma SweepMoves(s: State, i: nat, up: set<nat>, now: nat)
    requires i < |s.phases| && s.phases[i].Rest? && Placed(s)
    ensures var s' := DoSweep(s, i, up, now);
            && |s'.phases| == |s.phases| && s'.phases[i].Swept? && s'.phases == s.phases[i := s'.phases[i]]
            && |s.idle| + |s.lent| == |s'.idle| + |s'.lent| + s'.phases[i].dead
  {
    var n := DeadPrefix(s, s.idle, up, now);
    if n < |s.idle| { assert Held(s, s.idle[n], Pool); }
  }

  lemma LentMoves(s: State, id: nat)
    requires Placed(s)
    ensures id in s.lent ==> |s.lent - {id}| == |s.lent| - 1
    ensures id !in s.lent ==> |s.lent + {id}| == |s.lent| + 1
    ensures id == s.next ==> id !in s.lent
  {
    assert s.next in s.lent ==> Held(s, s.next, User);
  }

  /** The counter is the number of connections, however the callers interleave. */
  lemma CountedKeeps(s: State, a: Action)
    requires Enabled(s, a) && Placed(s) && Counted(s)
    ensures Counted(Apply(s, a))
  {
    hide Existing, Placed, Apply, Gone;
    ExistingMoves(s, a);
    TotalMoves(s, a);
    WrapSubtract(Existing(s), Gone(s, a));
  }

  lemma TotalMoves(s: State, a: Action)
    requires Enabled(s, a) && s.total < WORD
    ensures Apply(s, a).total == (s.total - Gone(s, a) + Made(a)) % WORD
  {
  }

  lemma SweepPlaces(s: State, i: nat, up: set<nat>, now: nat)
    requires Placed(s) && i < |s.phases|
    ensures Placed(DoSweep(s, i, up, now))
  {
    var n, s' := DeadPrefix(s, s.idle, up, now), DoSweep(s, i, up, now);
    forall k | 0 <= k < |s'.idle| ensures Held(s', s'.idle[k], Pool) {
      assert s'.idle[k] == s.idle[n + 1 + k] && Held(s, s.idle[n + 1 + k], Pool);
    }
  }

  lemma PlacedKeeps(s: State, a: Action)
    requires Enabled(s, a) && Placed(s)
    ensures Placed(Apply(s, a))
  {
    hide DoSweep;
    if a.Sweep? { SweepPlaces(s, a.i, a.up, a.now); }
  }

  lemma FairKeeps(s: State, a: Action)
    requires Enabled(s, a) && Placed(s) && Fair(s)
    ensures Fair(Apply(s, a)) && Apply(s, a).lim == s.lim && |Apply(s, a).phases| == |s.phases|
  {
    assert a.Push? ==> Held(s, s.phases[a.i].id, Caller(a.i));
    assert a.Release? ==> Held(s, a.id, User);
  }

  /** Over every run, with any number of callers whose calls overlap in any way: the counter is the
      number of connections modulo its width, what is subtracted from it is always there to
      subtract, and no connection is lent more than max(1, maxRequest) times. */
  lemma {:induction false} RunKeeps(s: State, actions: seq<Action>)
    requires Inv(s) && CanRun(s, actions)
    ensures Inv(Run(s, actions)) && Run(s, actions).lim == s.lim
    ensures var s' := Run(s, actions);
            forall a | Enabled(s', a) :: Gone(s', a) <= Existing(s')
    decreases |actions|
  {
    hide Placed, Fair, Counted, Apply, Existing, Enabled;
    if actions == [] {
      forall a | Enabled(s, a) ensures Gone(s, a) <= Existing(s) { ExistingMoves(s, a); }
    } else {
      var a := actions[0];
      PlacedKeeps(s, a);
      FairKeeps(s, a);
      CountedKeeps(s, a);
      RunKeeps(Apply(s, a), actions[1..]);
    }
  }

  lemma FreshIsOk(lim: Limits, callers: nat)
    ensures Inv(Fresh(lim, callers)) && Existing(Fresh(lim, callers)) == 0
    ensures Admitted(Fresh(lim, callers).phases) == 0
  {
    AllRest(callers);
  }

  lemma {:induction false} AllRest(n: nat)
    ensures InFlight(seq(n, _ => Rest)) == 0 && Admitted(seq(n, _ => Rest)) == 0
  {
    if n > 0 {
      AllRest(n - 1);
      assert seq(n, _ => Rest)[1..] == seq(n - 1, _ => Rest);
    }
  }

  /** The 32-bit counter, over every interleaving from an empty pool. */
  lemma CounterWraps(lim: Limits, callers: nat, actions: seq<Action>)
    requires CanRun(Fresh(lim, callers), actions)
    ensures var s := Run(Fresh(lim, callers), actions); s.total == (|s.idle| + |s.lent| + InFlight(s.phases)) % 0x1_0000_0000
  {
    hide Run, CanRun, Fresh;
    FreshIsOk(lim, callers);
    RunKeeps(Fresh(lim, callers), actions);
  }

  lemma NoneLentTooOften(lim: Limits, callers: nat, actions: seq<Action>, id: nat)
    requires CanRun(Fresh(lim, callers), actions)
    ensures var s := Run(Fresh(lim, callers), actions);
            id in s.conns ==> s.conns[id].lends <= if lim.maxRequest > 1 then lim.maxRequest else 1
  {
    hide Run, CanRun, Fresh;
    FreshIsOk(lim, callers);
    RunKeeps(Fresh(lim, callers), actions);
    FreshLimits(lim, callers);
  }

  lemma FreshLimits(lim: Limits, callers: nat)
    ensures Fresh(lim, callers).lim == lim && |Fresh(lim, callers).phases| == callers
  {
  }

  // ---- The limit ----

  // Before each check, fewer than `width` callers stand between their own check and increment.
  predicate Narrow(s: State, actions: seq<Action>, width: nat)
    requires CanRun(s, actions)
    decreases |actions|
  {
    actions == [] ||
    ((actions[0].Check? ==> Admitted(s.phases) < width) && Narrow(Apply(s, actions[0]), actions[1..], width))
  }

  predicate Within(s: State, width: nat) { Existing(s) + Admitted(s.phases) < s.lim.maxSize + width }

  lemma AdmittedMoves(s: State, a: Action)
    requires Enabled(s, a)
    ensures Admitted(Apply(s, a).phases) == Admitted(s.phases)
            + (if a.Check? && s.total < s.lim.maxSize then 1 else 0) - (if a.Connect? then 1 else 0)
    ensures a.Check? ==> Admitted(s.phases) < |s.phases|
  {
    hide Admitted, InFlight;
    PhaseMoves(s.phases, a.i, Apply(s, a).phases[a.i]);
  }

  lemma WithinKeeps(s: State, a: Action, width: nat)
    requires Inv(s) && Enabled(s, a) && Within(s, width) && s.lim.maxSize + width <= WORD
    requires a.Check? ==> Admitted(s.phases) < width
    ensures Within(Apply(s, a), width)
  {
    ExistingMoves(s, a);
    AdmittedMoves(s, a);
    FairKeeps(s, a);
    hide Placed, Fair, Apply, Existing, Admitted;
    assert Existing(s) < WORD;
  }

  /** At most `width` callers at a time between the check and the increment: the pool exceeds its
      limit by less than `width`, and the counter is exact. Calls that do not overlap have width 1. */
  lemma {:induction false} Limit(s: State, actions: seq<Action>, width: nat)
    requires Inv(s) && CanRun(s, actions) && Within(s, width) && s.lim.maxSize + width <= WORD
    requires Narrow(s, actions, width)
    ensures var s' := Run(s, actions);
            s'.total == Existing(s') < s.lim.maxSize + width
    decreases |actions|
  {
    hide Placed, Fair, Apply, Existing, Enabled, Admitted;
    if actions != [] {
      var a := actions[0];
      WithinKeeps(s, a, width);
      PlacedKeeps(s, a);
      FairKeeps(s, a);
      CountedKeeps(s, a);
      Limit(Apply(s, a), actions[1..], width);
    }
  }

  /** With n callers the width never exceeds n, whatever the interleaving. */
  lemma {:induction false} AlwaysNarrow(s: State, actions: seq<Action>)
    requires Placed(s) && Fair(s) && CanRun(s, actions)
    ensures Narrow(s, actions, |s.phases|)
    decreases |actions|
  {
    hide Placed, Fair, Apply, Enabled, Admitted;
    if actions != [] {
      AdmittedMoves(s, actions[0]);
      PlacedKeeps(s, actions[0]);
      FairKeeps(s, actions[0]);
      AlwaysNarrow(Apply(s, actions[0]), actions[1..]);
    }
  }

  lemma LimitOfOverlapping(lim: Limits, callers: nat, actions: seq<Action>)
    requires 0 < callers && lim.maxSize + callers <= WORD && CanRun(Fresh(lim, callers), actions)
    ensures var s := Run(Fresh(lim, callers), actions); s.total == Existing(s) < lim.maxSize + callers
  {
    hide CanRun, Run, Narrow, Fresh;
    FreshIsOk(lim, callers);
    FreshLimits(lim, callers);
    AlwaysNarrow(Fresh(lim, callers), actions);
    Limit(Fresh(lim, callers), actions, callers);
  }

  lemma LimitOfSeparate(lim: Limits, callers: nat, actions: seq<Action>)
    requires lim.maxSize < WORD && CanRun(Fresh(lim, callers), actions) && Narrow(Fresh(lim, callers), actions, 1)
    ensures var s := Run(Fresh(lim, callers), actions); s.total == |s.idle| + |s.lent| + InFlight(s.phases) <= lim.maxSize
  {
    hide CanRun, Run, Narrow, Fresh;
    FreshIsOk(lim, callers);
    FreshLimits(lim, callers);
    Limit(Fresh(lim, callers), actions, 1);
  }

  lemma RunNothing(s: State)
    ensures CanRun(s, []) && Run(s, []) == s
  {
  }

  lemma RunCons(s: State, a: Action, rest: seq<Action>)
    requires Enabled(s, a) && CanRun(Apply(s, a), rest)
    ensures CanRun(s, [a] + rest) && Run(s, [a] + rest) == Run(Apply(s, a), rest)
  {
    hide Enabled, Apply;
    assert ([a] + rest)[1..] == rest;
  }

  /** Two callers that both find one place left both take it. */
  lemma TwoCallersExceed(s: State, i: nat, j: nat, now: nat)
    requires i < |s.phases| && j < |s.phases| && i != j && s.phases[i].Deciding? && s.phases[j].Deciding?
    requires 0 < s.lim.maxSize < WORD - 1 && s.total == s.lim.maxSize - 1
    ensures var run := [Check(i), Check(j), Connect(i, true, now), Connect(j, true, now)];
            CanRun(s, run) && Run(s, run).total == s.lim.maxSize + 1
  {
    hide CanRun, Run;
    var c, d := Connect(i, true, now), Connect(j, true, now);
    var s1 := Apply(s, Check(i));
    var s2 := Apply(s1, Check(j));
    var s3 := Apply(s2, c);
    var s4 := Apply(s3, d);
    RunNothing(s4);
    RunCons(s3, d, []);
    assert [d] + [] == [d];
    RunCons(s2, c, [d]);
    assert [c] + [d] == [c, d];
    RunCons(s1, Check(j), [c, d]);
    assert [Check(j)] + [c, d] == [Check(j), c, d];
    RunCons(s, Check(i), [Check(j), c, d]);
    assert [Check(i)] + [Check(j), c, d] == [Check(i), Check(j), c, d];
  }

  // ---- Calls that run from start to end ----

  // getConnection by the only caller: its steps in order. `made` is when a new connection is made.
  function Get(s: State, up: set<nat>, now: nat, ok: bool, made: nat): State
    requires s.phases == [Rest]
  {
    var s1 := Apply(s, Sweep(0, up, now));
    var s2 := Apply(s1, Settle(0));
    if s2.phases[0].Rest? then s2
    else
      var s3 := Apply(s2, Check(0));
      if s3.phases[0].Rest? then s3 else Apply(s3, Connect(0, ok, made))
  }

  // ReleasePtr by the only caller.
  function GiveBack(s: State, id: nat, up: set<nat>, now: nat): State
    requires s.phases == [Rest] && id in s.lent && id in s.conns
  {
    var s1 := Apply(s, Release(0, id, up, now));
    if s1.phases[0].Dropping? then Apply(s1, Drop(0)) else Apply(s1, Push(0))
  }

  ghost predicate Whole(s: State) {
    Inv(s) && s.phases == [Rest] && Within(s, 1) && s.lim.maxSize < WORD
  }

  // One step of a call that does not overlap another.
  lemma StepWhole(s: State, a: Action)
    requires Inv(s) && Enabled(s, a) && Within(s, 1) && s.lim.maxSize < WORD && |s.phases| == 1
    ensures var s' := Apply(s, a); Inv(s') && Within(s', 1) && s'.lim == s.lim && |s'.phases| == 1
  {
    hide Placed, Fair, Apply, Existing, Enabled, Admitted;
    assert a.i == 0 by { OnlyCaller(s, a); }
    AdmittedMoves(s, a);
    WithinKeeps(s, a, 1);
    PlacedKeeps(s, a);
    FairKeeps(s, a);
    CountedKeeps(s, a);
  }

  lemma OnlyCaller(s: State, a: Action)
    requires Enabled(s, a) && |s.phases| == 1
    ensures a.i == 0
  {
  }

  lemma GetKeeps(s: State, up: set<nat>, now: nat, ok: bool, made: nat)
    requires Whole(s)
    ensures Whole(Get(s, up, now, ok, made))
  {
    hide Inv, Within;
    StepWhole(s, Sweep(0, up, now));
    var s1 := Apply(s, Sweep(0, up, now));
    StepWhole(s1, Settle(0));
    var s2 := Apply(s1, Settle(0));
    if !s2.phases[0].Rest? {
      StepWhole(s2, Check(0));
      var s3 := Apply(s2, Check(0));
      if !s3.phases[0].Rest? { StepWhole(s3, Connect(0, ok, made)); }
    }
  }

  lemma GiveBackKeeps(s: State, id: nat, up: set<nat>, now: nat)
    requires Whole(s) && id in s.lent && id in s.conns
    ensures Whole(GiveBack(s, id, up, now))
  {
    hide Inv, Within;
    StepWhole(s, Release(0, id, up, now));
    var s1 := Apply(s, Release(0, id, up, now));
    if s1.phases[0].Dropping? { StepWhole(s1, Drop(0)); } else { StepWhole(s1, Push(0)); }
  }

  class HttpConnectionPool {
    const lim: Limits
    var total: nat
    var idle: seq<nat>
    var lent: set<nat>
    var conns: map<nat, Conn>
    var next: nat

    ghost function View(): State
      reads this
    {
      State(lim, total, idle, lent, [Rest], conns, next)
    }

    ghost predicate Valid()
      reads this
    {
      Whole(View())
    }

    constructor (lim: Limits)
      requires lim.maxSize < WORD
      ensures Valid() && View() == Fresh(lim, 1)
    {
      this.lim := lim;
      total, idle, lent, conns, next := 0, [], {}, map[], 0;
      new;
      FreshIsOk(lim, 1);
      assert View() == Fresh(lim, 1);
    }

    // The loop of getConnection: pop until a usable connection is found.
    method PopUsable(up: set<nat>, now: nat) returns (dead: nat, ptr: Option<nat>)
      modifies this`idle
      ensures var n, was := DeadPrefix(old(View()), old(idle), up, now), old(idle);
              && dead == n
              && (if n < |was| then ptr == Some(was[n]) && idle == was[n + 1..] else ptr == None && idle == [])
      ensures dead <= |old(idle)| && forall k | 0 <= k < dead ::
                !(old(idle)[k] in conns && old(idle)[k] in up && conns[old(idle)[k]].created + lim.maxAlive > now)
      ensures ptr.Some? ==> ptr.value in conns && ptr.value in up && conns[ptr.value].created + lim.maxAlive > now
      ensures ptr.None? ==> dead == |old(idle)|
    {
      ghost var s := View();
      forall k | 0 <= k < |idle| { UsableMeans(s, idle[k], up, now); }
      dead, ptr := 0, None;
      while idle != []
        invariant dead <= |s.idle| && idle == s.idle[dead..] && ptr == None
        invariant dead + DeadPrefix(s, s.idle[dead..], up, now) == DeadPrefix(s, s.idle, up, now)
        decreases |idle|
      {
        var id := idle[0];
        idle := idle[1..];
        if id in conns && id in up && !Expired(lim, conns[id], now) {
          ptr := Some(id);
          break;
        }
        dead := dead + 1;
      }
    }

    // The first idle connection that is up and young enough is lent, the ones before it are gone; when
    // there is none, a new one is lent exactly if the limit and the network allow it.
    method GetConnection(up: set<nat>, now: nat, ok: bool, made: nat) returns (r: Option<nat>, dead: nat)
      requires Valid()
      modifies this
      ensures Valid() && View() == Get(old(View()), up, now, ok, made)
      ensures r.Some? ==> lent == old(lent) + {r.value} && r.value !in old(lent)
      ensures r.None? ==> lent == old(lent)
      ensures total == |idle| + |lent| <= lim.maxSize
      ensures dead <= |old(idle)| && forall k | 0 <= k < dead ::
                !(old(idle)[k] in old(conns) && old(idle)[k] in up && old(conns)[old(idle)[k]].created + lim.maxAlive > now)
      ensures dead < |old(idle)| ==>
                && r == Some(old(idle)[dead]) && idle == old(idle)[dead + 1..] && total == old(total) - dead
                && r.value in old(conns) && r.value in up && old(conns)[r.value].created + lim.maxAlive > now
      ensures dead == |old(idle)| ==> idle == [] && (r.Some? <==> ok && old(total) - dead < lim.maxSize)
      ensures dead == |old(idle)| && r.Some? ==>
                && r.value == old(next) && total == old(total) - dead + 1 && r.value in conns
                && conns[r.value].created == made && conns[r.value].request == 0
    {
      hide Whole, Get, DeadPrefix, Usable;
      GetSound(View(), up, now, ok, made);
      var ptr;
      dead, ptr := PopUsable(up, now);
      Small(total - dead);
      total := (total - dead) % WORD;
      if ptr.Some? {
        Lend(ptr.value);
        r := ptr;
      } else {
        r := Create(ok, made);
      }
    }

    // An idle connection goes to a user.
    method Lend(id: nat)
      requires id in conns
      modifies this`lent, this`conns
      ensures lent == old(lent) + {id}
      ensures conns == old(conns)[id := old(conns)[id].(lends := old(conns)[id].lends + 1, holder := User)]
    {
      lent := lent + {id};
      conns := conns[id := conns[id].(lends := conns[id].lends + 1, holder := User)];
    }

    // A new connection goes to a user, if the limit and the network allow it.
    method Create(ok: bool, made: nat) returns (r: Option<nat>)
      requires total < WORD && lim.maxSize < WORD
      modifies this`lent, this`conns, this`next, this`total
      ensures r.Some? <==> old(total) < lim.maxSize && ok
      ensures r.None? ==> unchanged(this)
      ensures r.Some? ==> r == Some(old(next)) && next == old(next) + 1 && lent == old(lent) + {old(next)}
                          && total == old(total) + 1 && conns == old(conns)[old(next) := Conn(made, 0, 1, User)]
    {
      if total >= lim.maxSize || !ok { return None; }
      Small(total + 1);
      r := Some(next);
      lent, conns, next := lent + {next}, conns[next := Conn(made, 0, 1, User)], next + 1;
      total := (total + 1) % WORD;
    }

    method ReleasePtr(id: nat, up: set<nat>, now: nat)
      requires Valid() && id in lent && id in conns
      modifies this
      ensures Valid() && View() == GiveBack(old(View()), id, up, now)
      ensures lent == old(lent) - {id} && total == |idle| + |lent| <= lim.maxSize
      ensures total == old(total) - (if id in idle then 0 else 1)
      ensures var c := old(conns)[id];
              && idle == old(idle) + (if id in up && c.created + lim.maxAlive > now && c.request + 1 < lim.maxRequest then [id] else [])
              && id in conns && conns[id].request == c.request + 1 && conns[id].created == c.created
    {
      hide Whole, GiveBack;
      ghost var s := View();
      GiveBackForm(s, id, up, now);
      GiveBackKeeps(s, id, up, now);
      SoundTotal(GiveBack(s, id, up, now));
      SoundTotal(s);
      NotIdle(s, id);
      var c := conns[id].(request := conns[id].request + 1);
      lent := lent - {id};
      if id !in up || Expired(lim, c, now) || c.request >= lim.maxRequest {
        conns := conns[id := c.(holder := Nobody)];
        total := (total - 1) % WORD;
        return;
      }
      idle := idle + [id];
      conns := conns[id := c.(holder := Pool)];
    }
  }

  // What the steps of a whole call come to.
  lemma GetForm(s: State, up: set<nat>, now: nat, ok: bool, made: nat)
    requires s.phases == [Rest]
    ensures var n := DeadPrefix(s, s.idle, up, now);
            var t := (s.total - n) % WORD;
            Get(s, up, now, ok, made) ==
            if n < |s.idle| then
              var id := s.idle[n];
              s.(total := t, idle := s.idle[n + 1..], lent := s.lent + {id},
                 conns := s.conns[id := s.conns[id].(lends := s.conns[id].lends + 1, holder := User)])
            else if t >= s.lim.maxSize || !ok then s.(total := t, idle := [])
            else s.(total := (t + 1) % WORD, idle := [], lent := s.lent + {s.next},
                    conns := s.conns[s.next := Conn(made, 0, 1, User)], next := s.next + 1)
    ensures var n := DeadPrefix(s, s.idle, up, now); n <= |s.idle| && (n < |s.idle| ==> s.idle[n] in s.conns)
  {
  }

  // What getConnection leaves when nothing else runs; the counter does not wrap.
  lemma GetSound(s: State, up: set<nat>, now: nat, ok: bool, made: nat)
    requires Whole(s)
    ensures var n, s' := DeadPrefix(s, s.idle, up, now), Get(s, up, now, ok, made);
            && Whole(s') && s'.total == |s'.idle| + |s'.lent| <= s.lim.maxSize < WORD
            && n <= |s.idle| <= s.total < WORD && s.next !in s.lent
            && (if n < |s.idle| then
                  var id := s.idle[n];
                  && id in s.conns && id !in s.lent
                  && s' == s.(total := s.total - n, idle := s.idle[n + 1..], lent := s.lent + {id},
                              conns := s.conns[id := s.conns[id].(lends := s.conns[id].lends + 1, holder := User)])
                else if s.total - n >= s.lim.maxSize || !ok then s' == s.(total := s.total - n, idle := [])
                else s' == s.(total := s.total - n + 1, idle := [], lent := s.lent + {s.next},
                              conns := s.conns[s.next := Conn(made, 0, 1, User)], next := s.next + 1))
  {
    hide Get, DeadPrefix;
    GetForm(s, up, now, ok, made);
    GetKeeps(s, up, now, ok, made);
    var n := DeadPrefix(s, s.idle, up, now);
    NewlyLent(s, n);
    hide Whole;
    SoundTotal(s);
    SoundTotal(Get(s, up, now, ok, made));
    Small(s.total - n);
    if n == |s.idle| && s.total - n < s.lim.maxSize { Small(s.total - n + 1); }
  }

  lemma GiveBackForm(s: State, id: nat, up: set<nat>, now: nat)
    requires s.phases == [Rest] && id in s.lent && id in s.conns
    ensures var c := s.conns[id].(request := s.conns[id].request + 1);
            GiveBack(s, id, up, now) ==
            if id !in up || Expired(s.lim, c, now) || c.request >= s.lim.maxRequest then
              s.(total := (s.total - 1) % WORD, lent := s.lent - {id}, conns := s.conns[id := c.(holder := Nobody)])
            else s.(idle := s.idle + [id], lent := s.lent - {id}, conns := s.conns[id := c.(holder := Pool)])
  {
    var s1 := Apply(s, Release(0, id, up, now));
    if s1.phases[0].Returning? {
      var c := s.conns[id].(request := s.conns[id].request + 1);
      assert s1.conns[id := s1.conns[id].(holder := Pool)] == s.conns[id := c.(holder := Pool)];
    }
  }

  lemma SoundTotal(s: State)
    requires Whole(s)
    ensures s.total == |s.idle| + |s.lent| <= s.lim.maxSize && s.total < WORD
  {
    assert InFlight([Rest]) == 0 && Admitted([Rest]) == 0;
  }

  lemma Small(x: int)
    requires 0 <= x < WORD
    ensures x % WORD == x
  {
  }

  lemma NewlyLent(s: State, n: nat)
    requires Whole(s)
    ensures n < |s.idle| ==> s.idle[n] !in s.lent
    ensures s.next !in s.lent
  {
    assert n < |s.idle| ==> Held(s, s.idle[n], Pool);
    assert s.next in s.lent ==> Held(s, s.next, User);
  }

  lemma NotIdle(s: State, id: nat)
    requires Whole(s) && id in s.lent
    ensures id !in s.idle
  {
    assert Held(s, id, User);
    assert forall i | 0 <= i < |s.idle| :: Held(s, s.idle[i], Pool);
  }
}
