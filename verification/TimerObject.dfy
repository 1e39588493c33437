/** The timer manager as an object: its methods change the fields step by step and are proved
    against the functions of module Timers. */
module TimerObject {
  import opened Options
  import opened Timers
  import opened TimerLaws
  import opened TimerRuns

  class TimerManager {
    var table: map<Id, Timer>
    var timers: seq<Id>
    var tickled: bool
    var previousTime: nat

    function View(): State
      reads this
    {
      State(table, timers, tickled, previousTime)
    }

    constructor (now: nat)
      ensures View() == State(map[], [], false, now) && Ok(View())
    {
      table, timers, tickled, previousTime := map[], [], false, now;
    }

    method CancelTimer(id: Id) returns (done: bool)
      requires Ok(View()) && id in table
      modifies this
      ensures View() == Cancel(old(View()), id) && Ok(View())
      ensures done == old(table[id].cb.Some?)
    {
      CancelKeeps(View(), id);
      FindMeets(table, timers, id);
      if table[id].cb.None? { return false; }
      CallbackChange(table, timers, id, None);
      table := table[id := table[id].(cb := None)];
      FindMeets(table, timers, id);
      var it := Find(table, timers, id);
      assert it == Find(old(table), timers, id) by { Distinct(old(table), timers, it, Find(old(table), timers, id)); }
      timers := Erase(timers, it);
      return true;
    }

    lemma {:induction false} Distinct(tbl: map<Id, Timer>, order: seq<Id>, i: nat, j: nat)
      requires Known(tbl, order) && Sorted(tbl, order) && i < |order| && j < |order| && order[i] == order[j]
      ensures i == j
    {
    }

    method RefreshTimer(id: Id, now: nat) returns (done: bool)
      requires Ok(View()) && id in table
      modifies this
      ensures View() == Refresh(old(View()), id, now) && Ok(View())
      ensures done == (id in old(timers))
    {
      hide Wrap, Sorted, LowerBound, Insert;
      RefreshKeeps(View(), id, now);
      if table[id].cb.None? { return false; }
      var it := Find(table, timers, id);
      if it == |timers| { return false; }
      timers := Erase(timers, it);
      EraseSorted(old(table), old(timers), it);
      table := table[id := table[id].(next := Wrap(now + table[id].ms))];
      timers := Insert(table, timers, id);
      return true;
    }

    // addTimer(val, lock): insert, and ask for a wake-up when the timer is the first.
    method Insertion(id: Id) returns (notify: bool)
      requires Known(table, timers) && id in table
      modifies this`timers, this`tickled
      ensures View() == Notify(old(View()).(order := Insert(table, old(timers), id)), id)
      ensures notify <==> tickled && !old(tickled)
    {
      timers := Insert(table, timers, id);
      notify := timers[0] == id && !tickled;
      if notify { tickled := true; }
    }

    method ResetTimer(id: Id, ms: nat, fromNow: bool, now: nat) returns (done: bool)
      requires Ok(View()) && id in table
      modifies this
      ensures View() == Reset(old(View()), id, ms, fromNow, now) && Ok(View())
      ensures done == (id in old(timers) || (ms == old(table[id].ms) && !fromNow))
    {
      hide Wrap, Sorted, LowerBound, Insert;
      ResetKeeps(View(), id, ms, fromNow, now);
      if ms == table[id].ms && !fromNow { return true; }
      if table[id].cb.None? { return false; }
      var it := Find(table, timers, id);
      if it == |timers| { return false; }
      timers := Erase(timers, it);
      EraseSorted(old(table), old(timers), it);
      var start := if fromNow then now else Wrap(table[id].next - table[id].ms);
      table := table[id := table[id].(ms := ms, next := Wrap(start + ms))];
      var _ := Insertion(id);
      return true;
    }

    method AddTimer(id: Id, created: nat, ms: nat, cb: Callback, recurring: bool) returns (notify: bool)
      requires Ok(View()) && id !in table
      modifies this
      ensures View() == Add(old(View()), id, created, ms, cb, recurring) && Ok(View())
      ensures table.Keys == old(table.Keys) + {id} && forall x | x in old(table) :: table[x] == old(table)[x]
      ensures table[id] == Timer(recurring, ms, (created + ms) % 0x1_0000_0000_0000_0000, Some(cb))
      ensures forall x :: x in timers <==> x in old(timers) || x == id
      ensures notify <==> tickled && !old(tickled)
      ensures notify <==> !old(tickled) && forall x | x in old(timers) && x in table ::
                table[id].next < table[x].next || (table[id].next == table[x].next && id < x)
    {
      hide Wrap, Sorted, Insert;
      AddStores(View(), id, created, ms, cb, recurring);
      AddNotifies(View(), id, created, ms, cb, recurring);
      AddKeeps(View(), id, created, ms, cb, recurring);
      table := table[id := Timer(recurring, ms, Wrap(created + ms), Some(cb))];
      notify := Insertion(id);
    }

    // No wait when some timer is due; else the wait ends exactly at the least deadline in the set,
    // the one that counts as reported; all ones when there is no timer.
    method GetNextTimer(now: nat) returns (delay: nat)
      requires Ok(View())
      modifies this`tickled
      ensures View() == old(View()).(tickled := false)
      ensures delay == 0 <==> exists x | x in timers :: x in table && table[x].next <= now
      ensures timers == [] ==> delay == WORD - 1
      ensures timers != [] && delay != 0 ==> Front(View()) == Some(now + delay)
      ensures timers != [] && delay != 0 ==> forall x | x in timers :: x in table && now + delay <= table[x].next
    {
      tickled := false;
      if timers == [] { return WORD - 1; }
      forall x | x in timers ensures x in table && table[timers[0]].next <= table[x].next { FrontIsLeast(View(), x); }
      assert timers[0] in timers;
      var next := table[timers[0]].next;
      return if now >= next then 0 else next - now;
    }

    // Where the expired timers end: the lower bound of a probe timer due at `now`, whose address
    // is anything, and then past the timers due exactly at `now`.
    method ExpiredEnd(now: nat, probe: Id) returns (it: nat)
      requires Ok(View())
      ensures it == Due(table, timers, now)
    {
      it := LowerBound(table, timers, now, probe);
      while it != |timers| && table[timers[it]].next == now
        invariant it <= |timers| && forall i | 0 <= i < it :: table[timers[i]].next <= now
        invariant it < |timers| ==> table[timers[it]].next >= now
        decreases |timers| - it
      {
        assert it + 1 < |timers| ==> Less(table, timers[it], timers[it + 1]);
        it := it + 1;
      }
      assert it <= Due(table, timers, now);
    }

    // How many timers expire: all of them when the clock has gone back by more than an hour.
    method ExpiredCount(now: nat, probe: Id) returns (it: nat)
      requires Ok(View())
      modifies this`previousTime
      ensures View() == old(View()).(previous := now)
      ensures it == |Expired(old(View()), now)|
    {
      hide Sorted, Wrap;
      var rollover := now < previousTime && now < Wrap(previousTime - HOUR);
      if rollover { it := |timers|; } else { it := ExpiredEnd(now, probe); }
      previousTime := now;
    }

    method ListExpiredCb(now: nat, probe: Id) returns (cbs: seq<Callback>, ghost gone: seq<Id>)
      requires Ok(View())
      modifies this
      ensures View() == Expire(old(View()), now) && Ok(View())
      ensures gone == (if old(timers) == [] then [] else Expired(old(View()), now)) && |cbs| == |gone|
      ensures forall i | 0 <= i < |gone| :: gone[i] in old(table) && Some(cbs[i]) == old(table)[gone[i]].cb
    {
      hide Sorted, Rearm, Halfway, Expired;
      cbs, gone := [], [];
      ExpireKeeps(View(), now);
      ExpiredSplit(View(), now);
      if timers == [] { return; }
      var it := ExpiredCount(now, probe);
      var expired := timers[..it];
      gone := expired;
      timers := timers[it..];
      cbs := RearmLoop(expired, now);
    }

    // One turn of the loop over the expired timers.
    method RearmTimer(id: Id, now: nat)
      requires Known(table, timers) && id in table
      modifies this`table, this`timers
      ensures View() == RearmOne(old(View()), id, now)
    {
      hide Wrap;
      if table[id].recurring {
        table := table[id := table[id].(next := Wrap(now + table[id].ms))];
        timers := Insert(table, timers, id);
      } else {
        table := table[id := table[id].(cb := None)];
      }
    }

    // The loop over the expired timers.
    method RearmLoop(expired: seq<Id>, now: nat) returns (cbs: seq<Callback>)
      requires Halfway(View(), expired)
      modifies this`table, this`timers
      ensures View() == Rearm(old(View()), expired, now)
      ensures |cbs| == |expired| && forall i | 0 <= i < |expired| :: expired[i] in old(table) && Some(cbs[i]) == old(table)[expired[i]].cb
    {
      hide Sorted, Wrap, RearmOne, Rearm, Less, Insert, Known, AsBefore, Halfway;
      HalfwayKnown(View(), expired);
      assert expired[0..] == expired;
      cbs := [];
      ghost var was := table;
      for i := 0 to |expired|
        invariant Halfway(View(), expired[i..]) && Known(table, timers) && Known(table, expired[i..])
        invariant Rearm(View(), expired[i..], now) == Rearm(old(View()), expired, now)
        invariant AsBefore(table, was, expired[i..])
        invariant |cbs| == i && forall j | 0 <= j < i :: expired[j] in was && Some(cbs[j]) == was[expired[j]].cb
      {
        var id := expired[i];
        assert expired[i..][0] == id && expired[i..][1..] == expired[i + 1..];
        RearmOneElsewhere(View(), was, expired[i..], now);
        RearmStep(View(), expired[i..], now);
        cbs := cbs + [table[id].cb.value];
        RearmTimer(id, now);
        HalfwayKnown(View(), expired[i + 1..]);
      }
      RearmNothing(View(), now);
      assert expired[|expired|..] == [];
    }
  }
}
