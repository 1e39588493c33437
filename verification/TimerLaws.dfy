/** What one timer operation undoes of another, and what it leaves alone. */
module TimerLaws {
  import opened Options
  import opened Timers

  // A sorted set is determined by its elements.
  lemma {:induction false} SortedUnique(table: map<Id, Timer>, a: seq<Id>, b: seq<Id>)
    requires Known(table, a) && Sorted(table, a) && Known(table, b) && Sorted(table, b)
    requires forall x :: x in a <==> x in b
    ensures a == b
  {
    EmptyTogether(a, b);
    if a != [] {
      FirstIsLeast(table, a, b);
      FirstIsLeast(table, b, a);
      assert a[0] == b[0];
      TailOf(table, a);
      TailOf(table, b);
      SortedUnique(table, a[1..], b[1..]);
    }
  }

  lemma {:induction false} EmptyTogether(a: seq<Id>, b: seq<Id>)
    requires forall x :: x in a <==> x in b
    ensures a == [] <==> b == []
  {
    if a != [] { assert a[0] in b; }
    if b != [] { assert b[0] in a; }
  }

  lemma {:induction false} FirstIsLeast(table: map<Id, Timer>, a: seq<Id>, b: seq<Id>)
    requires Known(table, a) && Sorted(table, a) && Known(table, b) && a != [] && b != [] && b[0] in a
    ensures a[0] == b[0] || Less(table, a[0], b[0])
  {
    var k :| 0 <= k < |a| && a[k] == b[0];
  }

  lemma {:induction false} TailOf(table: map<Id, Timer>, a: seq<Id>)
    requires Known(table, a) && Sorted(table, a) && a != []
    ensures Known(table, a[1..]) && Sorted(table, a[1..])
    ensures forall x :: x in a[1..] <==> x in a && x != a[0]
  {
    assert a == [a[0]] + a[1..];
    forall i, j | 0 <= i < j < |a[1..]| ensures Less(table, a[1..][i], a[1..][j]) { assert Less(table, a[i + 1], a[j + 1]); }
    forall i | 0 <= i < |a[1..]| ensures a[1..][i] != a[0] { assert Less(table, a[0], a[i + 1]); }
  }

  // Two sets with the same elements, sorted by tables that agree on them.
  lemma {:induction false} SameOrder(t: map<Id, Timer>, a: seq<Id>, t': map<Id, Timer>, b: seq<Id>)
    requires Known(t, a) && Sorted(t, a) && Known(t', b) && Sorted(t', b)
    requires (forall x :: x in a <==> x in b) && forall x | x in a :: x in t' && t'[x].next == t[x].next
    ensures a == b
  {
    forall i | 0 <= i < |a| ensures a[i] in t' { assert a[i] in a; }
    forall i, j | 0 <= i < j < |a| ensures Less(t', a[i], a[j]) { assert Less(t, a[i], a[j]) && a[i] in a && a[j] in a; }
    SortedUnique(t', a, b);
  }

  /** cancel undoes addTimer: the set is what it was, and no other timer was touched. */
  lemma {:induction false} CancelUndoesAdd(s: State, id: Id, created: nat, ms: nat, cb: Callback, recurring: bool)
    requires Ok(s) && id !in s.table
    ensures var added := Add(s, id, created, ms, cb, recurring);
            && Ok(added) && id in added.order && Find(added.table, added.order, id) < |added.order|
            && Cancel(added, id).order == s.order
            && forall x | x in s.table :: x in Cancel(added, id).table && Cancel(added, id).table[x] == s.table[x]
  {
    hide Wrap, Sorted, Find, Insert, Less;
    var added := Add(s, id, created, ms, cb, recurring);
    AddKeeps(s, id, created, ms, cb, recurring);
    CancelKeeps(added, id);
    var back := Cancel(added, id);
    assert id !in s.order by { assert forall i | 0 <= i < |s.order| :: s.order[i] in s.table; }
    SameOrder(s.table, s.order, back.table, back.order);
  }

  /** refresh moves one deadline and nothing else: the set keeps its elements. */
  lemma {:induction false} RefreshMoves(s: State, id: Id, now: nat)
    requires Ok(s) && id in s.table
    ensures var r := Refresh(s, id, now);
            && (forall x :: x in r.order <==> x in s.order) && r.tickled == s.tickled
            && r.table == if id in s.order then s.table[id := s.table[id].(next := Wrap(now + s.table[id].ms))] else s.table
  {
    hide Wrap, Sorted, Find, Less;
    FindMeets(s.table, s.order, id);
    if id in s.order { RequeueKeeps(s, id, s.table[id].(next := Wrap(now + s.table[id].ms))); }
  }

  lemma {:induction false} ResetMoves(s: State, id: Id, ms: nat, fromNow: bool, now: nat)
    requires Ok(s) && id in s.table && (ms != s.table[id].ms || fromNow)
    ensures var r, t := Reset(s, id, ms, fromNow, now), s.table[id];
            && (forall x :: x in r.order <==> x in s.order)
            && r.table == if id !in s.order then s.table
                          else s.table[id := t.(ms := ms, next := Wrap((if fromNow then now else Wrap(t.next - t.ms)) + ms))]
  {
    hide Wrap, Sorted, Find, Less, Requeue;
    FindMeets(s.table, s.order, id);
    if id in s.order {
      var t := s.table[id];
      var t' := t.(ms := ms, next := Wrap((if fromNow then now else Wrap(t.next - t.ms)) + ms));
      RequeueKeeps(s, id, t');
      RequeueTable(s, id, t');
    }
  }

  lemma {:induction false} RequeueTable(s: State, id: Id, t: Timer)
    requires Known(s.table, s.order) && id in s.table && Find(s.table, s.order, id) < |s.order|
    ensures Requeue(s, id, t).table == s.table[id := t] && Requeue(s, id, t).tickled == s.tickled
  {
  }

  lemma {:induction false} WrapBack(next: nat, a: nat, b: nat)
    requires next < WORD
    ensures Wrap(Wrap(Wrap(Wrap(next - a) + b) - b) + a) == next
  {
    var x := Wrap(next - a);
    assert Wrap(Wrap(x + b) - b) == x;
  }

  /** Without restarting the interval, a reset to another interval is undone by a reset to the first
      one: same deadlines, same order. */
  lemma {:induction false} ResetUndoesReset(s: State, id: Id, ms: nat, now: nat, later: nat)
    requires Ok(s) && id in s.table && s.table[id].next < WORD
    ensures var mid := Reset(s, id, ms, false, now);
            && Ok(mid) && id in mid.table
            && var back := Reset(mid, id, s.table[id].ms, false, later);
               back.table == s.table && back.order == s.order
  {
    if ms != s.table[id].ms && id in s.order {
      ResetBack(s, id, ms, now, later);
    } else {
      ResetStill(s, id, ms, now, later);
    }
  }

  lemma {:induction false} ResetBack(s: State, id: Id, ms: nat, now: nat, later: nat)
    requires Ok(s) && id in s.table && s.table[id].next < WORD && ms != s.table[id].ms && id in s.order
    ensures var mid := Reset(s, id, ms, false, now);
            && Ok(mid) && id in mid.table
            && var back := Reset(mid, id, s.table[id].ms, false, later);
               back.table == s.table && back.order == s.order
  {
    hide Reset, Wrap, Sorted, Less;
    var t, mid := s.table[id], Reset(s, id, ms, false, now);
    ResetKeeps(s, id, ms, false, now);
    ResetMoves(s, id, ms, false, now);
    ResetKeeps(mid, id, t.ms, false, later);
    ResetMoves(mid, id, t.ms, false, later);
    WrapBack(t.next, t.ms, ms);
    var back := Reset(mid, id, t.ms, false, later);
    assert back.table == s.table;
    SameOrder(s.table, s.order, back.table, back.order);
  }

  // The cases in which the first reset does nothing.
  lemma {:induction false} ResetStill(s: State, id: Id, ms: nat, now: nat, later: nat)
    requires Ok(s) && id in s.table && (ms == s.table[id].ms || id !in s.order)
    ensures Reset(s, id, ms, false, now) == s && Reset(s, id, s.table[id].ms, false, later) == s
  {
    hide Wrap, Sorted, Find, Less;
    FindMeets(s.table, s.order, id);
  }

  // ---- The operations on the fields ----

  /** The set is in order of deadline, and of address where deadlines are equal. */
  lemma {:induction false} SetOrder(s: State, i: nat, j: nat)
    requires Ok(s) && i < j < |s.order|
    ensures var a, b := s.order[i], s.order[j];
            a in s.table && b in s.table
            && (s.table[a].next < s.table[b].next || (s.table[a].next == s.table[b].next && a < b))
  {
    assert Less(s.table, s.order[i], s.order[j]);
  }

  /** addTimer stores the given kind, interval and callback with the deadline created + ms in 64 bits,
      and touches no other timer. */
  lemma {:induction false} AddStores(s: State, id: Id, created: nat, ms: nat, cb: Callback, recurring: bool)
    requires Ok(s) && id !in s.table
    ensures var a := Add(s, id, created, ms, cb, recurring);
            && a.table.Keys == s.table.Keys + {id} && (forall x | x in s.table :: a.table[x] == s.table[x])
            && a.table[id].recurring == recurring && a.table[id].ms == ms && a.table[id].cb == Some(cb)
            && a.table[id].next == (created + ms) % 0x1_0000_0000_0000_0000
            && (created + ms < 0x1_0000_0000_0000_0000 ==> a.table[id].next == created + ms)
            && (forall x :: x in a.order <==> x in s.order || x == id) && a.previous == s.previous
  {
    hide Insert;
  }

  // A timer that comes before all others is the first.
  lemma {:induction false} FirstExactly(s: State, id: Id)
    requires Ok(s) && id in s.order
    ensures s.order[0] == id <==> forall x | x in s.order && x != id ::
              s.table[id].next < s.table[x].next || (s.table[id].next == s.table[x].next && id < x)
  {
    if s.order[0] == id {
      forall x | x in s.order && x != id
        ensures s.table[id].next < s.table[x].next || (s.table[id].next == s.table[x].next && id < x)
      {
        var k :| 0 <= k < |s.order| && s.order[k] == x;
        SetOrder(s, 0, k);
      }
    } else {
      var k :| 0 <= k < |s.order| && s.order[k] == id;
      SetOrder(s, 0, k);
      assert s.order[0] in s.order;
    }
  }

  /** addTimer raises the flag exactly when the new timer comes before every other one. */
  lemma {:induction false} AddNotifies(s: State, id: Id, created: nat, ms: nat, cb: Callback, recurring: bool)
    requires Ok(s) && id !in s.table
    ensures var a := Add(s, id, created, ms, cb, recurring);
            a.tickled <==> s.tickled || forall x | x in s.order ::
              a.table[id].next < s.table[x].next || (a.table[id].next == s.table[x].next && id < x)
  {
    hide Wrap, Sorted, Insert;
    var a := Add(s, id, created, ms, cb, recurring);
    AddKeeps(s, id, created, ms, cb, recurring);
    AddStores(s, id, created, ms, cb, recurring);
    assert id !in s.order by { assert forall i | 0 <= i < |s.order| :: s.order[i] in s.table; }
    FirstExactly(a, id);
  }

  /** So does a reset that changes anything, with the timer's new deadline. */
  lemma {:induction false} ResetNotifies(s: State, id: Id, ms: nat, fromNow: bool, now: nat)
    requires Ok(s) && id in s.order && (ms != s.table[id].ms || fromNow)
    ensures id in s.table && var r := Reset(s, id, ms, fromNow, now);
            r.tickled <==> s.tickled || forall x | x in s.order && x != id ::
              r.table[id].next < s.table[x].next || (r.table[id].next == s.table[x].next && id < x)
  {
    assert id in s.table by { assert forall i | 0 <= i < |s.order| :: s.order[i] in s.table; }
    hide Wrap, Sorted, Find, Less, Requeue, Ok;
    var t := s.table[id];
    ResetIsRequeue(s, id, ms, fromNow, now);
    var t' := t.(ms := ms, next := Wrap((if fromNow then now else Wrap(t.next - t.ms)) + ms));
    RequeueKeeps(s, id, t');
    RequeueTable(s, id, t');
    FirstExactly(Requeue(s, id, t'), id);
  }

  lemma {:induction false} ResetIsRequeue(s: State, id: Id, ms: nat, fromNow: bool, now: nat)
    requires Ok(s) && id in s.order && id in s.table && (ms != s.table[id].ms || fromNow)
    ensures Find(s.table, s.order, id) < |s.order|
    ensures var t := s.table[id];
            var t' := t.(ms := ms, next := Wrap((if fromNow then now else Wrap(t.next - t.ms)) + ms));
            Reset(s, id, ms, fromNow, now) == Notify(Requeue(s, id, t'), id)
  {
    FindMeets(s.table, s.order, id);
    hide Wrap, Find, Requeue;
  }

  // ---- Clock rollover ----

  /** A reading counts as a rollover exactly when it is earlier than the previous one and either more
      than an hour earlier, or the previous one is itself within the first hour of the clock, where the
      unsigned difference wraps. */
  lemma {:induction false} RolloverExactly(s: State, now: nat)
    requires s.previous < 0x1_0000_0000_0000_0000
    ensures Rollover(s, now) <==> now < s.previous && (s.previous < 3_600_000 || now < s.previous - 3_600_000)
  {
    if s.previous >= 3_600_000 {
      WrapsNot(s.previous - 3_600_000);
    } else {
      assert Wrap(s.previous - 3_600_000) == s.previous - 3_600_000 + 0x1_0000_0000_0000_0000;
    }
  }

  /** A reading that is at most an hour behind the previous one hands out nothing before its deadline,
      once the clock has shown an hour. */
  lemma {:induction false} TrustedReading(s: State, now: nat, x: Id)
    requires Ok(s) && 3_600_000 <= s.previous < 0x1_0000_0000_0000_0000 && now >= s.previous - 3_600_000
    requires x in Expired(s, now)
    ensures x in s.table && s.table[x].next <= now
  {
    RolloverExactly(s, now);
    ExpiredIsExact(s, now);
    assert x in s.order;
    assert forall i | 0 <= i < |s.order| :: s.order[i] in s.table;
  }

  /** In the first hour of the clock a step back of one millisecond hands out a timer early. */
  lemma {:induction false} EarlyClockRollsOver()
    ensures var s := State(map[1 := Timer(false, 50, 60, Some(0))], [1], false, 10);
            Ok(s) && Expired(s, 9) == [1] && s.table[1].next > 9
  {
    var s := State(map[1 := Timer(false, 50, 60, Some(0))], [1], false, 10);
    assert 1 in s.order;
    RolloverExactly(s, 9);
  }
}
