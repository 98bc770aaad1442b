// kpr's timer thread (src/kpr/TimerThread.cpp): registered timers count the
// elapsed time reported by each check and fire when it reaches their interval.
//
// Counters stay below the range of int, and timer ids do not wrap. Every method
// runs under m_mutex. Registering gives ever larger ids, so the ordered map of
// timers is the sequence of them in registration order.
module TimerThread {
  import opened Lists
  import opened Wrappers

  datatype Timer = Timer(id: nat, elapse: nat, outTime: int, persistent: bool)

  /** The timer once the elapsed time is added, before it may fire. */
  function Advance(t: Timer, e: nat): Timer {
    t.(outTime := t.outTime + e)
  }

  predicate Due(t: Timer) {
    t.outTime >= t.elapse
  }

  /** What one check makes of a timer: a one-shot timer that fires is gone. */
  function CheckOne(t: Timer, e: nat): Option<Timer> {
    var a := Advance(t, e);
    if !Due(a) then Some(a) else if t.persistent then Some(a.(outTime := 0)) else None
  }

  function Kept(t: Timer, e: nat): seq<Timer> {
    match CheckOne(t, e) case Some(u) => [u] case None => []
  }

  function Firing(t: Timer, e: nat): seq<Timer> {
    if Due(Advance(t, e)) then [Advance(t, e)] else []
  }

  function Checked(ts: seq<Timer>, e: nat): seq<Timer> {
    if ts == [] then [] else Kept(ts[0], e) + Checked(ts[1..], e)
  }

  function Fired(ts: seq<Timer>, e: nat): seq<Timer> {
    if ts == [] then [] else Firing(ts[0], e) + Fired(ts[1..], e)
  }

  predicate Listed(ts: seq<Timer>, id: nat) {
    ts != [] && (ts[0].id == id || Listed(ts[1..], id))
  }

  lemma {:induction false} ListedMeans(ts: seq<Timer>, id: nat)
    ensures Listed(ts, id) <==> exists t :: t in ts && t.id == id
  {
    if ts != [] {
      ListedMeans(ts[1..], id);
      assert forall t :: t in ts <==> t == ts[0] || t in ts[1..];
    }
  }

  /** The timer is in the list of timers to fire. */
  predicate Fires(ts: seq<Timer>, e: nat, id: nat) {
    Listed(Fired(ts, e), id)
  }

  ghost predicate Ascending(ts: seq<Timer>) {
    forall i, j :: 0 <= i < j < |ts| ==> ts[i].id < ts[j].id
  }

  /** The timer with this id, if it is registered. */
  function Lookup(ts: seq<Timer>, id: nat): Option<Timer> {
    if ts == [] then None
    else if ts[0].id == id then Some(ts[0])
    else Lookup(ts[1..], id)
  }

  lemma {:induction false} LookupMeans(ts: seq<Timer>, id: nat)
    ensures match Lookup(ts, id)
      case Some(t) => t in ts && t.id == id
      case None => forall t :: t in ts ==> t.id != id
  {
    if ts != [] && ts[0].id != id {
      LookupMeans(ts[1..], id);
    }
  }

  /** The list without that timer, order kept. */
  function Without(ts: seq<Timer>, id: nat): seq<Timer> {
    if ts == [] then [] else if ts[0].id == id then ts[1..] else [ts[0]] + Without(ts[1..], id)
  }

  function Restarted(t: Timer): Timer {
    t.(outTime := if t.persistent then t.elapse else 0)
  }

  /** The list with that timer's counter set. */
  function Resetting(ts: seq<Timer>, id: nat): (r: seq<Timer>)
    ensures |r| == |ts|
    ensures forall i :: 0 <= i < |ts| ==> r[i] == if ts[i].id == id then Restarted(ts[i]) else ts[i]
  {
    if ts == [] then []
    else [if ts[0].id == id then Restarted(ts[0]) else ts[0]] + Resetting(ts[1..], id)
  }

  // ----- the calls, on the map and the counter of ids -----

  datatype Registry = Registry(timers: seq<Timer>, lastId: nat)

  datatype Event =
    | Register(initialDelay: nat, elapse: nat, persistent: bool)
    | UnRegister(id: nat)
    | Reset(id: nat)
    | Check(time: nat)

  ghost predicate ValidRegistry(r: Registry) {
    Ascending(r.timers) && forall t :: t in r.timers ==> t.id <= r.lastId
  }

  function After(r: Registry, ev: Event): Registry {
    match ev
    case Register(delay, elapse, persistent) =>
      Registry(r.timers + [Timer(r.lastId + 1, elapse, 0 - delay, persistent)], r.lastId + 1)
    case UnRegister(id) => r.(timers := Without(r.timers, id))
    case Reset(id) => r.(timers := Resetting(r.timers, id))
    case Check(time) => r.(timers := Checked(r.timers, time))
  }

  /** The position of the first timer with this id, the length if there is none. */
  ghost predicate IndexOf(ts: seq<Timer>, id: nat, k: nat) {
    k <= |ts| && (k < |ts| ==> ts[k].id == id) && forall i :: 0 <= i < k ==> ts[i].id != id
  }

  lemma LookupAt(ts: seq<Timer>, id: nat, k: nat)
    requires IndexOf(ts, id, k)
    ensures k < |ts| <==> Lookup(ts, id).Some?
  {
    LookupMeans(ts, id);
    assert k < |ts| ==> ts[k] in ts;
  }

  lemma {:induction false} WithoutAt(ts: seq<Timer>, id: nat, k: nat)
    requires IndexOf(ts, id, k)
    ensures Without(ts, id) == if k < |ts| then ts[..k] + ts[k + 1..] else ts
  {
    if k > 0 {
      WithoutAt(ts[1..], id, k - 1);
      if k < |ts| {
        assert ts[1..][..k - 1] == ts[1..k] && ts[1..][k..] == ts[k + 1..] && ts[..k] == [ts[0]] + ts[1..k];
        Regroup([ts[0]], ts[1..k], ts[k + 1..]);
      } else {
        assert ts == [ts[0]] + ts[1..];
      }
    } else if ts != [] {
      DropEmpty(ts[1..]);
    }
  }

  lemma {:induction false} WithoutKeeps(ts: seq<Timer>, id: nat)
    requires Ascending(ts)
    ensures Ascending(Without(ts, id))
    ensures forall t :: t in Without(ts, id) <==> t in ts && t.id != id
  {
    if ts != [] {
      var rest := ts[1..];
      assert forall t :: t in rest ==> t.id > ts[0].id;
      assert forall t :: t in ts <==> t == ts[0] || t in rest;
      if ts[0].id != id {
        WithoutKeeps(rest, id);
        PrependAscends(ts[0], Without(rest, id));
      }
    }
  }

  lemma PrependAscends(t: Timer, ts: seq<Timer>)
    requires Ascending(ts) && forall u :: u in ts ==> u.id > t.id
    ensures Ascending([t] + ts)
  {
    assert forall i :: 0 <= i < |ts| ==> ts[i] in ts;
  }

  lemma {:induction false} CheckedHasOldIds(ts: seq<Timer>, e: nat)
    ensures forall t :: t in Checked(ts, e) ==> exists u :: u in ts && u.id == t.id
  {
    if ts != [] {
      CheckedHasOldIds(ts[1..], e);
      forall t | t in Checked(ts, e) ensures exists u :: u in ts && u.id == t.id {
        if t in Checked(ts[1..], e) {
          var u :| u in ts[1..] && u.id == t.id;
          assert u in ts;
        } else {
          assert t in Kept(ts[0], e) && ts[0] in ts;
        }
      }
    }
  }

  lemma {:induction false} CheckedAscends(ts: seq<Timer>, e: nat)
    requires Ascending(ts)
    ensures Ascending(Checked(ts, e))
    ensures forall t :: t in Checked(ts, e) ==> exists u :: u in ts && u.id == t.id
  {
    CheckedHasOldIds(ts, e);
    if ts != [] {
      var rest := Checked(ts[1..], e);
      CheckedAscends(ts[1..], e);
      forall t | t in rest ensures t.id > ts[0].id {
        var u :| u in ts[1..] && u.id == t.id;
      }
      if Kept(ts[0], e) == [] {
        DropEmpty(rest);
      } else {
        PrependAscends(Kept(ts[0], e)[0], rest);
      }
    }
  }

  /** What the list of timers to fire says of one of them: it is a registered timer with the
      time passed added, and its interval is over. */
  ghost predicate IsFiring(ts: seq<Timer>, e: nat, u: Timer) {
    exists t :: t in ts && u == Advance(t, e) && u.outTime >= u.elapse
  }

  lemma {:induction false} FiredAreDue(ts: seq<Timer>, e: nat)
    ensures forall u :: u in Fired(ts, e) ==> IsFiring(ts, e, u)
  {
    if ts != [] {
      FiredAreDue(ts[1..], e);
      forall u | u in Fired(ts, e) ensures IsFiring(ts, e, u) {
        if u in Fired(ts[1..], e) {
          var t :| t in ts[1..] && u == Advance(t, e) && u.outTime >= u.elapse;
          assert t in ts;
        } else {
          assert u in Firing(ts[0], e) && ts[0] in ts;
        }
      }
    }
  }

  /** A check lists a timer at most once, in the order of the ids, and as it then is. */
  lemma {:induction false} FiredAscends(ts: seq<Timer>, e: nat)
    requires Ascending(ts)
    ensures Ascending(Fired(ts, e))
    ensures forall u :: u in Fired(ts, e) ==> IsFiring(ts, e, u)
  {
    FiredAreDue(ts, e);
    if ts != [] {
      var rest := Fired(ts[1..], e);
      FiredAscends(ts[1..], e);
      forall u | u in rest ensures u.id > ts[0].id {
        var t :| t in ts[1..] && u == Advance(t, e);
      }
      if Firing(ts[0], e) == [] {
        DropEmpty(rest);
      } else {
        PrependAscends(Firing(ts[0], e)[0], rest);
      }
    }
  }

  lemma ResettingAscends(ts: seq<Timer>, id: nat)
    requires Ascending(ts)
    ensures Ascending(Resetting(ts, id))
  {
  }

  lemma ResettingAt(ts: seq<Timer>, id: nat, k: nat)
    requires Ascending(ts) && IndexOf(ts, id, k)
    ensures Resetting(ts, id) == if k < |ts| then ts[k := Restarted(ts[k])] else ts
  {
  }

  lemma AfterKeepsValid(r: Registry, ev: Event)
    requires ValidRegistry(r)
    ensures ValidRegistry(After(r, ev)) && After(r, ev).lastId >= r.lastId
  {
    match ev
    case Register(_, _, _) =>
    case UnRegister(id) => WithoutKeeps(r.timers, id);
    case Reset(id) =>
      ResettingAscends(r.timers, id);
      assert forall i :: 0 <= i < |r.timers| ==> r.timers[i] in r.timers;
    case Check(time) => CheckedAscends(r.timers, time);
  }

  lemma VisitStep(done: seq<Timer>, fired: seq<Timer>, rest: seq<Timer>, e: nat)
    requires rest != []
    ensures done + Checked(rest, e) == (done + Kept(rest[0], e)) + Checked(rest[1..], e)
    ensures fired + Fired(rest, e) == (fired + Firing(rest[0], e)) + Fired(rest[1..], e)
  {
    Regroup(done, Kept(rest[0], e), Checked(rest[1..], e));
    Regroup(fired, Firing(rest[0], e), Fired(rest[1..], e));
  }

  lemma VisitCases(done: seq<Timer>, fired: seq<Timer>, u: Timer, e: nat)
    ensures var t := Advance(u, e);
      && fired + Firing(u, e) == (if Due(t) then fired + [t] else fired)
      && done + Kept(u, e) ==
           if !Due(t) then done + [t] else if t.persistent then done + [t.(outTime := 0)] else done
  {
    assert done + [] == done && fired + [] == fired;
  }

  lemma SpliceAt(done: seq<Timer>, rest: seq<Timer>)
    requires rest != []
    ensures var i := |done|;
      && (done + rest)[i] == rest[0]
      && (done + rest)[..i] + (done + rest)[i + 1..] == done + rest[1..]
      && forall t :: (done + rest)[i := t] == done + [t] + rest[1..]
  {
  }

  class TimerThread {
    var timers: seq<Timer>
    var nextTimerID: nat

    ghost predicate Valid()
      reads this
    {
      ValidRegistry(Now())
    }

    function Now(): Registry
      reads this
    {
      Registry(timers, nextTimerID)
    }

    constructor (lastId: nat)
      ensures Valid() && timers == []
    {
      timers := [];
      nextTimerID := lastId;
    }

    method RegisterTimer(initialDelay: nat, elapse: nat, persistent: bool) returns (id: nat)
      requires Valid()
      modifies this
      ensures Valid() && Lookup(old(timers), id).None? && id == old(nextTimerID) + 1
      ensures Now() == After(old(Now()), Register(initialDelay, elapse, persistent))
      ensures timers == old(timers) + [Timer(id, elapse, 0 - initialDelay, persistent)]
    {
      LookupMeans(timers, nextTimerID + 1);
      nextTimerID := nextTimerID + 1;
      id := nextTimerID;
      timers := timers + [Timer(id, elapse, 0 - initialDelay, persistent)];
    }

    /** The position of a timer in the map. */
    method Find(id: nat) returns (i: nat)
      requires Valid()
      ensures IndexOf(timers, id, i) && (i < |timers| <==> Lookup(timers, id).Some?)
    {
      i := 0;
      while i < |timers| && timers[i].id != id
        invariant i <= |timers|
        invariant forall j :: 0 <= j < i ==> timers[j].id != id
      {
        i := i + 1;
      }
      LookupAt(timers, id, i);
    }

    method UnRegisterTimer(id: nat) returns (result: bool)
      requires Valid()
      modifies this`timers
      ensures Valid() && (result <==> Lookup(old(timers), id).Some?)
      ensures Now() == After(old(Now()), UnRegister(id))
      ensures forall t :: t in timers <==> t in old(timers) && t.id != id
    {
      var i := Find(id);
      result := i < |timers|;
      WithoutAt(timers, id, i);
      WithoutKeeps(timers, id);
      if result {
        timers := timers[..i] + timers[i + 1..];
      }
    }

    method ResetTimer(id: nat) returns (result: bool)
      requires Valid()
      modifies this`timers
      ensures Valid() && (result <==> Lookup(old(timers), id).Some?) && |timers| == old(|timers|)
      ensures Now() == After(old(Now()), Reset(id))
      ensures forall i :: 0 <= i < |timers| ==>
        var was := old(timers)[i];
        timers[i] == if was.id == id then Restarted(was) else was
    {
      var i := Find(id);
      result := i < |timers|;
      ResettingAt(timers, id, i);
      AfterKeepsValid(Now(), Reset(id));
      if result {
        timers := timers[i := timers[i].(outTime := if timers[i].persistent then timers[i].elapse else 0)];
      }
      assert timers == Resetting(old(timers), id);
    }

    method CheckTimeOut(elapse: nat) returns (result: bool, timerList: seq<Timer>)
      requires Valid()
      modifies this`timers
      ensures Valid()
      ensures Now() == After(old(Now()), Check(elapse)) && timerList == Fired(old(timers), elapse)
      ensures result <==> old(timers) != []
    {
      result, timerList := false, [];
      CheckedAscends(timers, elapse);
      if timers != [] {
        timerList := Visit(elapse);
        result := true;
      }
    }

    /** The loop of CheckTimeOut over the map, erasing one-shot timers as they fire. */
    method Visit(elapse: nat) returns (timerList: seq<Timer>)
      modifies this`timers
      ensures timers == Checked(old(timers), elapse) && timerList == Fired(old(timers), elapse)
    {
      timerList := [];
      var i := 0;
      ghost var done, rest := [], timers;
      while i < |timers|
        invariant i == |done| && timers == done + rest
        invariant done + Checked(rest, elapse) == Checked(old(timers), elapse)
        invariant timerList + Fired(rest, elapse) == Fired(old(timers), elapse)
        decreases |timers| - i
      {
        VisitStep(done, timerList, rest, elapse);
        VisitCases(done, timerList, rest[0], elapse);
        SpliceAt(done, rest);
        ghost var fired := timerList + Firing(rest[0], elapse);
        var t := timers[i].(outTime := timers[i].outTime + elapse);
        if t.outTime >= t.elapse {
          timerList := timerList + [t];
          if t.persistent {
            timers := timers[i := t.(outTime := 0)];
            i := i + 1;
          } else {
            timers := timers[..i] + timers[i + 1..];
          }
        } else {
          timers := timers[i := t];
          i := i + 1;
        }
        assert timerList == fired;
        done, rest := done + Kept(rest[0], elapse), rest[1..];
        assert timers == done + rest;
      }
    }
  }

  lemma LookupFirst(t: Timer, rest: seq<Timer>, id: nat)
    ensures Lookup([t] + rest, id) == if t.id == id then Some(t) else Lookup(rest, id)
  {
    assert ([t] + rest)[1..] == rest;
  }

  lemma NoSmallerId(ts: seq<Timer>, id: nat)
    requires ts != [] && Ascending(ts) && ts[0].id == id
    ensures Lookup(ts[1..], id).None?
  {
    LookupMeans(ts[1..], id);
  }

  lemma {:induction false} CheckedLookup(ts: seq<Timer>, e: nat, id: nat)
    requires Ascending(ts)
    ensures Lookup(Checked(ts, e), id) ==
      match Lookup(ts, id) case None => None case Some(t) => CheckOne(t, e)
  {
    if ts != [] {
      CheckedLookup(ts[1..], e, id);
      if ts[0].id == id {
        NoSmallerId(ts, id);
      }
      if Kept(ts[0], e) == [] {
        DropEmpty(Checked(ts[1..], e));
      } else {
        LookupFirst(Kept(ts[0], e)[0], Checked(ts[1..], e), id);
      }
    }
  }

  lemma FiresFirst(ts: seq<Timer>, e: nat, id: nat)
    requires ts != []
    ensures Fires(ts, e, id) <==> (ts[0].id == id && Due(Advance(ts[0], e))) || Fires(ts[1..], e, id)
  {
    var rest := Fired(ts[1..], e);
    if Due(Advance(ts[0], e)) {
      assert Fired(ts, e)[1..] == rest;
    } else {
      DropEmpty(rest);
    }
  }

  lemma {:induction false} FiresIffDue(ts: seq<Timer>, e: nat, id: nat)
    requires Ascending(ts)
    ensures Fires(ts, e, id) <==> Lookup(ts, id).Some? && Due(Advance(Lookup(ts, id).value, e))
  {
    if ts != [] {
      FiresFirst(ts, e, id);
      FiresIffDue(ts[1..], e, id);
      if ts[0].id == id {
        NoSmallerId(ts, id);
      }
    }
  }

  /** A check treats every timer on its own: what becomes of one, and whether it is in the
      list of timers to fire, does not depend on the others. */
  lemma CheckIsPerTimer(ts: seq<Timer>, e: nat, id: nat)
    requires Ascending(ts)
    ensures Lookup(Checked(ts, e), id) ==
      match Lookup(ts, id) case None => None case Some(t) => CheckOne(t, e)
    ensures Fires(ts, e, id) <==> Lookup(ts, id).Some? && Due(Advance(Lookup(ts, id).value, e))
  {
    CheckedLookup(ts, e, id);
    FiresIffDue(ts, e, id);
  }

  // ----- the firings of one timer over any sequence of checks -----

  /** The timer while it is registered, the time since registration and the times of its
      firings so far. */
  datatype Life = Life(timer: Option<Timer>, clock: nat, fires: seq<nat>)

  function Noted(fires: seq<nat>, now: nat, fired: bool): seq<nat> {
    if fired then fires + [now] else fires
  }

  function LifeStep(l: Life, e: nat): Life {
    var clock := l.clock + e;
    match l.timer
    case None => Life(None, clock, l.fires)
    case Some(t) => Life(CheckOne(t, e), clock, Noted(l.fires, clock, Due(Advance(t, e))))
  }

  function LifeAfter(l: Life, steps: seq<nat>): Life {
    if steps == [] then l
    else LifeStep(LifeAfter(l, steps[..|steps| - 1]), steps[|steps| - 1])
  }

  function Born(initialDelay: nat, t: Timer): Life {
    Life(Some(t.(outTime := 0 - initialDelay)), 0, [])
  }

  ghost predicate LifeInv(l: Life, initialDelay: nat, t: Timer) {
    && (l.timer.Some? ==>
          && l.timer.value == t.(outTime := l.timer.value.outTime)
          && (l.fires == [] ==> l.timer.value.outTime == l.clock - initialDelay)
          && (l.fires != [] ==> l.timer.value.outTime == l.clock - l.fires[|l.fires| - 1])
          && (!t.persistent ==> l.fires == []))
    && (t.persistent ==> l.timer.Some?)
    && (l.timer.None? ==> |l.fires| == 1)
    && (l.fires != [] ==> l.fires[0] >= initialDelay + t.elapse && l.fires[|l.fires| - 1] <= l.clock)
    && (forall i :: 0 < i < |l.fires| ==> l.fires[i] - l.fires[i - 1] >= t.elapse)
  }

  lemma {:induction false} LifeInvHolds(initialDelay: nat, t: Timer, steps: seq<nat>)
    ensures LifeInv(LifeAfter(Born(initialDelay, t), steps), initialDelay, t)
  {
    if steps != [] {
      LifeInvHolds(initialDelay, t, steps[..|steps| - 1]);
    }
  }

  function Sum(steps: seq<nat>): nat {
    if steps == [] then 0 else Sum(steps[..|steps| - 1]) + steps[|steps| - 1]
  }

  lemma {:induction false} ClockIsSum(l: Life, steps: seq<nat>)
    ensures LifeAfter(l, steps).clock == l.clock + Sum(steps)
  {
    if steps != [] {
      ClockIsSum(l, steps[..|steps| - 1]);
    }
  }

  lemma {:induction false} SpacedFires(fires: seq<nat>, first: int, gap: nat)
    requires fires != [] && fires[0] >= first + gap
    requires forall i :: 0 < i < |fires| ==> fires[i] - fires[i - 1] >= gap
    ensures fires[|fires| - 1] >= first + |fires| * gap
  {
    var n := |fires| - 1;
    if n > 0 {
      SpacedFires(fires[..n], first, gap);
      assert fires[n] - fires[n - 1] >= gap;
      assert (n + 1) * gap == n * gap + gap;
    }
  }

  /** n firings take at least the initial delay and n intervals of elapsed time, and a
      one-shot timer fires at most once and is then no longer registered. */
  lemma FiringsTakeTime(initialDelay: nat, t: Timer, steps: seq<nat>)
    ensures var l := LifeAfter(Born(initialDelay, t), steps);
      && (l.fires != [] ==> Sum(steps) >= initialDelay + |l.fires| * t.elapse)
      && (!t.persistent ==> |l.fires| <= 1 && (l.fires != [] <==> l.timer == None))
      && (t.persistent ==> l.timer.Some?)
  {
    var l := LifeAfter(Born(initialDelay, t), steps);
    LifeInvHolds(initialDelay, t, steps);
    ClockIsSum(Born(initialDelay, t), steps);
    if l.fires != [] {
      SpacedFires(l.fires, initialDelay, t.elapse);
    }
  }

  /** The counter after the last check is short of the interval. */
  ghost predicate Short(l: Life, t: Timer) {
    l.timer.Some? ==> l.timer.value.outTime < t.elapse || l.timer.value.outTime == 0
  }

  /** When no check reports more than d, no firing is later than its interval plus d. */
  lemma {:induction false} FiringsAreTimely(initialDelay: nat, t: Timer, steps: seq<nat>, d: nat)
    requires forall i :: 0 <= i < |steps| ==> steps[i] <= d
    ensures var l := LifeAfter(Born(initialDelay, t), steps);
      && Short(l, t)
      && (l.fires != [] ==> l.fires[0] <= initialDelay + t.elapse + d)
      && (forall i :: 0 < i < |l.fires| ==> l.fires[i] - l.fires[i - 1] <= t.elapse + d)
  {
    if steps != [] {
      var n := |steps| - 1;
      FiringsAreTimely(initialDelay, t, steps[..n], d);
      LifeInvHolds(initialDelay, t, steps[..n]);
      assert steps[n] <= d;
    }
  }

  // ----- that timer in the thread, while other timers come and go -----

  function AfterAll(r: Registry, events: seq<Event>): Registry {
    if events == [] then r else After(AfterAll(r, events[..|events| - 1]), events[|events| - 1])
  }

  /** The times reported by the checks. */
  function Times(events: seq<Event>): seq<nat> {
    if events == [] then []
    else
      var front, last := events[..|events| - 1], events[|events| - 1];
      if last.Check? then Times(front) + [last.time] else Times(front)
  }

  /** When the timer was in the list of timers to fire, counted from the start. */
  ghost function FireTimes(r: Registry, events: seq<Event>, id: nat): seq<nat> {
    if events == [] then []
    else
      var front, last := events[..|events| - 1], events[|events| - 1];
      var before := FireTimes(r, front, id);
      if last.Check? then Noted(before, Sum(Times(events)), Fires(AfterAll(r, front).timers, last.time, id))
      else before
  }

  ghost predicate LeavesAlone(ev: Event, id: nat) {
    ev != UnRegister(id) && ev != Reset(id)
  }

  lemma {:induction false} LookupAppend(ts: seq<Timer>, u: Timer, id: nat)
    requires u.id != id
    ensures Lookup(ts + [u], id) == Lookup(ts, id)
  {
    if ts != [] {
      assert (ts + [u])[1..] == ts[1..] + [u];
      LookupAppend(ts[1..], u, id);
    }
  }

  lemma {:induction false} LookupWithout(ts: seq<Timer>, other: nat, id: nat)
    requires other != id
    ensures Lookup(Without(ts, other), id) == Lookup(ts, id)
  {
    if ts != [] && ts[0].id != other {
      assert ([ts[0]] + Without(ts[1..], other))[1..] == Without(ts[1..], other);
      LookupWithout(ts[1..], other, id);
    }
  }

  lemma {:induction false} LookupResetting(ts: seq<Timer>, other: nat, id: nat)
    requires other != id
    ensures Lookup(Resetting(ts, other), id) == Lookup(ts, id)
  {
    if ts != [] {
      assert Resetting(ts, other)[1..] == Resetting(ts[1..], other);
      LookupResetting(ts[1..], other, id);
    }
  }

  lemma OtherCallsLeaveAlone(r: Registry, ev: Event, id: nat)
    requires id <= r.lastId && LeavesAlone(ev, id) && !ev.Check?
    ensures Lookup(After(r, ev).timers, id) == Lookup(r.timers, id)
  {
    match ev
    case Register(delay, elapse, persistent) =>
      LookupAppend(r.timers, Timer(r.lastId + 1, elapse, 0 - delay, persistent), id);
    case UnRegister(other) => LookupWithout(r.timers, other, id);
    case Reset(other) => LookupResetting(r.timers, other, id);
  }

  lemma {:induction false} EventsKeepValid(r: Registry, events: seq<Event>)
    requires ValidRegistry(r)
    ensures ValidRegistry(AfterAll(r, events)) && AfterAll(r, events).lastId >= r.lastId
  {
    if events != [] {
      var n := |events| - 1;
      EventsKeepValid(r, events[..n]);
      AfterKeepsValid(AfterAll(r, events[..n]), events[n]);
    }
  }

  lemma LifeNotes(l: Life, time: nat, fired: bool)
    requires fired <==> l.timer.Some? && Due(Advance(l.timer.value, time))
    ensures LifeStep(l, time).fires == Noted(l.fires, l.clock + time, fired)
  {
  }

  lemma CheckFollows(ts: seq<Timer>, time: nat, id: nat, l: Life)
    requires Ascending(ts) && Lookup(ts, id) == l.timer
    ensures Lookup(Checked(ts, time), id) == LifeStep(l, time).timer
    ensures LifeStep(l, time).fires == Noted(l.fires, l.clock + time, Fires(ts, time, id))
  {
    CheckIsPerTimer(ts, time, id);
    LifeNotes(l, time, Fires(ts, time, id));
  }

  lemma LifeGoesOn(l: Life, steps: seq<nat>, e: nat)
    ensures LifeAfter(l, steps + [e]) == LifeStep(LifeAfter(l, steps), e)
  {
    assert (steps + [e])[..|steps|] == steps;
  }

  lemma SumGoesOn(steps: seq<nat>, e: nat)
    ensures Sum(steps + [e]) == Sum(steps) + e
  {
    assert (steps + [e])[..|steps|] == steps;
  }

  /** The timer left, its firing times and the time passed are those of the life. */
  ghost predicate Follows(r: Registry, events: seq<Event>, id: nat, l: Life) {
    && Lookup(AfterAll(r, events).timers, id) == l.timer
    && FireTimes(r, events, id) == l.fires
    && Sum(Times(events)) == l.clock
  }

  lemma OneMoreCheck(r: Registry, front: seq<Event>, time: nat, id: nat)
    ensures var events := front + [Check(time)];
      && AfterAll(r, events).timers == Checked(AfterAll(r, front).timers, time)
      && Times(events) == Times(front) + [time]
      && FireTimes(r, events, id) ==
           Noted(FireTimes(r, front, id), Sum(Times(events)), Fires(AfterAll(r, front).timers, time, id))
  {
    assert (front + [Check(time)])[..|front|] == front;
  }

  lemma OneMoreOther(r: Registry, front: seq<Event>, last: Event, id: nat)
    requires !last.Check?
    ensures var events := front + [last];
      && AfterAll(r, events) == After(AfterAll(r, front), last)
      && Times(events) == Times(front) && FireTimes(r, events, id) == FireTimes(r, front, id)
  {
    assert (front + [last])[..|front|] == front;
  }

  lemma CheckedTimer(r: Registry, front: seq<Event>, time: nat, id: nat, l: Life)
    requires Ascending(AfterAll(r, front).timers) && Follows(r, front, id, l)
    ensures Lookup(AfterAll(r, front + [Check(time)]).timers, id) == LifeStep(l, time).timer
  {
    OneMoreCheck(r, front, time, id);
    CheckFollows(AfterAll(r, front).timers, time, id, l);
  }

  lemma CheckedClock(r: Registry, front: seq<Event>, time: nat, id: nat, l: Life)
    requires Follows(r, front, id, l)
    ensures Sum(Times(front + [Check(time)])) == l.clock + time
  {
    OneMoreCheck(r, front, time, id);
    SumGoesOn(Times(front), time);
  }

  lemma CheckedFires(r: Registry, front: seq<Event>, time: nat, id: nat, l: Life)
    requires Ascending(AfterAll(r, front).timers) && Follows(r, front, id, l)
    ensures FireTimes(r, front + [Check(time)], id) == LifeStep(l, time).fires
  {
    OneMoreCheck(r, front, time, id);
    CheckedClock(r, front, time, id, l);
    CheckFollows(AfterAll(r, front).timers, time, id, l);
  }

  lemma CheckKeepsFollowing(r: Registry, front: seq<Event>, time: nat, id: nat, l: Life)
    requires Ascending(AfterAll(r, front).timers) && Follows(r, front, id, l)
    ensures Follows(r, front + [Check(time)], id, LifeStep(l, time))
  {
    CheckedTimer(r, front, time, id, l);
    CheckedFires(r, front, time, id, l);
    CheckedClock(r, front, time, id, l);
  }

  lemma OtherKeepsFollowing(r: Registry, front: seq<Event>, last: Event, id: nat, l: Life)
    requires id <= AfterAll(r, front).lastId && LeavesAlone(last, id) && !last.Check? && Follows(r, front, id, l)
    ensures Follows(r, front + [last], id, l)
  {
    OneMoreOther(r, front, last, id);
    OtherCallsLeaveAlone(AfterAll(r, front), last, id);
  }

  lemma EventKeepsFollowing(r: Registry, front: seq<Event>, last: Event, id: nat, l: Life)
    requires ValidRegistry(AfterAll(r, front)) && id <= AfterAll(r, front).lastId && LeavesAlone(last, id)
    requires Follows(r, front, id, LifeAfter(l, Times(front)))
    ensures Follows(r, front + [last], id, LifeAfter(l, Times(front + [last])))
  {
    if last.Check? {
      OneMoreCheck(r, front, last.time, id);
      CheckKeepsFollowing(r, front, last.time, id, LifeAfter(l, Times(front)));
      LifeGoesOn(l, Times(front), last.time);
    } else {
      OneMoreOther(r, front, last, id);
      OtherKeepsFollowing(r, front, last, id, LifeAfter(l, Times(front)));
    }
  }

  /** What the thread makes of a timer, whatever timers are registered, removed, reset and
      fired beside it, is the life that the checks alone give it. */
  lemma {:induction false} TimerFollowsItsLife(r: Registry, events: seq<Event>, id: nat, l: Life)
    requires ValidRegistry(r) && id <= r.lastId && l == Life(Lookup(r.timers, id), 0, [])
    requires forall i :: 0 <= i < |events| ==> LeavesAlone(events[i], id)
    ensures Follows(r, events, id, LifeAfter(l, Times(events)))
  {
    if events != [] {
      var n := |events| - 1;
      var front, last := events[..n], events[n];
      TimerFollowsItsLife(r, front, id, l);
      EventsKeepValid(r, front);
      assert events == front + [last] && LeavesAlone(last, id);
      EventKeepsFollowing(r, front, last, id, l);
    }
  }

  /** The firing times of a timer, and the timer that is left of it, `total` after its
      registration when no check reported more than d. */
  ghost predicate Timely(fires: seq<nat>, left: Option<Timer>, total: nat,
                         initialDelay: nat, elapse: nat, persistent: bool, d: nat) {
    && (fires != [] ==> total >= initialDelay + |fires| * elapse && fires[0] <= initialDelay + elapse + d)
    && (forall i :: 0 < i < |fires| ==> elapse <= fires[i] - fires[i - 1] <= elapse + d)
    && (persistent ==> left.Some?)
    && (!persistent ==> |fires| <= 1 && (fires != [] <==> left.None?))
  }

  lemma LifeIsTimely(initialDelay: nat, t: Timer, steps: seq<nat>, d: nat)
    requires forall i :: 0 <= i < |steps| ==> steps[i] <= d
    ensures var l := LifeAfter(Born(initialDelay, t), steps);
      Timely(l.fires, l.timer, Sum(steps), initialDelay, t.elapse, t.persistent, d)
  {
    LifeInvHolds(initialDelay, t, steps);
    FiringsTakeTime(initialDelay, t, steps);
    FiringsAreTimely(initialDelay, t, steps, d);
  }

  lemma {:induction false} LookupLast(ts: seq<Timer>, u: Timer)
    requires forall t :: t in ts ==> t.id != u.id
    ensures Lookup(ts + [u], u.id) == Some(u)
  {
    if ts != [] {
      assert ts[0] in ts && (ts + [u])[1..] == ts[1..] + [u];
      LookupLast(ts[1..], u);
    }
  }

  /** A timer just registered, in any run of the thread in which nobody removes or resets it:
      n firings take at least the initial delay and n intervals, a one-shot timer fires at
      most once and is then gone, and no firing is later than its interval plus the longest
      check. */
  lemma FiringsInTheThread(r: Registry, initialDelay: nat, elapse: nat, persistent: bool, events: seq<Event>, d: nat)
    requires ValidRegistry(r)
    requires forall i :: 0 <= i < |events| ==> LeavesAlone(events[i], r.lastId + 1)
    requires forall i :: 0 <= i < |Times(events)| ==> Times(events)[i] <= d
    ensures var id := r.lastId + 1;
      var start := After(r, Register(initialDelay, elapse, persistent));
      Timely(FireTimes(start, events, id), Lookup(AfterAll(start, events).timers, id), Sum(Times(events)),
             initialDelay, elapse, persistent, d)
  {
    var id := r.lastId + 1;
    var t := Timer(id, elapse, 0 - initialDelay, persistent);
    var start := After(r, Register(initialDelay, elapse, persistent));
    AfterKeepsValid(r, Register(initialDelay, elapse, persistent));
    LookupLast(r.timers, t);
    TimerFollowsItsLife(start, events, id, Born(initialDelay, t));
    LifeIsTimely(initialDelay, t, Times(events), d);
  }

  // ----- after ResetTimer -----

  lemma {:induction false} LookupReset(ts: seq<Timer>, id: nat)
    requires Lookup(ts, id).Some?
    ensures Lookup(Resetting(ts, id), id) == Some(Restarted(Lookup(ts, id).value))
  {
    if ts[0].id != id {
      assert Resetting(ts, id)[1..] == Resetting(ts[1..], id);
      LookupReset(ts[1..], id);
    }
  }

  /** The time of the first check at which at least `elapse` has passed. */
  ghost predicate FirstReach(steps: seq<nat>, elapse: nat, time: nat) {
    exists k :: 0 < k <= |steps| && Sum(steps[..k]) == time >= elapse && (k == 1 || Sum(steps[..k - 1]) < elapse)
  }

  lemma ReachGoesOn(steps: seq<nat>, e: nat, elapse: nat, time: nat)
    requires FirstReach(steps, elapse, time)
    ensures FirstReach(steps + [e], elapse, time)
  {
    var k :| 0 < k <= |steps| && Sum(steps[..k]) == time >= elapse && (k == 1 || Sum(steps[..k - 1]) < elapse);
    assert (steps + [e])[..k] == steps[..k] && (steps + [e])[..k - 1] == steps[..k - 1];
  }

  lemma ReachedNow(steps: seq<nat>, e: nat, elapse: nat)
    requires Sum(steps) + e >= elapse && (steps == [] || Sum(steps) < elapse)
    ensures FirstReach(steps + [e], elapse, Sum(steps) + e)
  {
    var more := steps + [e];
    assert more[..|more|] == more && more[..|more| - 1] == steps;
    SumGoesOn(steps, e);
  }

  ghost predicate OneShotFrom(t: Timer, steps: seq<nat>, l: Life) {
    if steps == [] || Sum(steps) < t.elapse then l.fires == [] && l.timer == Some(t.(outTime := Sum(steps)))
    else l.timer == None && |l.fires| == 1 && FirstReach(steps, t.elapse, l.fires[0])
  }

  lemma {:induction false} OneShotLife(t: Timer, steps: seq<nat>)
    requires !t.persistent && t.outTime == 0
    ensures OneShotFrom(t, steps, LifeAfter(Life(Some(t), 0, []), steps))
  {
    if steps != [] {
      var front, e := steps[..|steps| - 1], steps[|steps| - 1];
      var l := LifeAfter(Life(Some(t), 0, []), front);
      OneShotLife(t, front);
      ClockIsSum(Life(Some(t), 0, []), front);
      assert steps == front + [e];
      if l.timer.None? {
        ReachGoesOn(front, e, t.elapse, l.fires[0]);
      } else if Sum(steps) >= t.elapse {
        ReachedNow(front, e, t.elapse);
      }
    }
  }

  ghost predicate PersistentFrom(t: Timer, steps: seq<nat>, l: Life) {
    && l.timer.Some? && l.timer.value == t.(outTime := l.timer.value.outTime)
    && (if steps == [] then l.fires == [] && l.timer == Some(t)
        else
          && l.fires != [] && l.fires[0] == steps[0]
          && l.timer.value.outTime == l.clock - l.fires[|l.fires| - 1])
    && forall i :: 0 < i < |l.fires| ==> l.fires[i] - l.fires[i - 1] >= t.elapse
  }

  lemma {:induction false} PersistentLife(t: Timer, steps: seq<nat>)
    requires t.persistent && t.outTime == t.elapse
    ensures PersistentFrom(t, steps, LifeAfter(Life(Some(t), 0, []), steps))
  {
    if steps != [] {
      PersistentLife(t, steps[..|steps| - 1]);
      assert |steps| > 1 ==> steps[..|steps| - 1][0] == steps[0];
    }
  }

  /** The firing times of a timer since it was reset: a persistent one fires at the next check,
      however little time has passed, and then at least its interval apart; a one-shot timer
      fires at the first check at which its whole interval has passed again, and is then gone. */
  ghost predicate AfterReset(t: Timer, fires: seq<nat>, left: Option<Timer>, steps: seq<nat>) {
    if t.persistent then
      && left.Some? && (steps == [] ==> fires == []) && (steps != [] ==> fires != [] && fires[0] == steps[0])
      && forall i :: 0 < i < |fires| ==> fires[i] - fires[i - 1] >= t.elapse
    else if steps == [] || Sum(steps) < t.elapse then fires == [] && left.Some?
    else left.None? && |fires| == 1 && FirstReach(steps, t.elapse, fires[0])
  }

  lemma ResetLife(t: Timer, steps: seq<nat>)
    ensures var l := LifeAfter(Life(Some(Restarted(t)), 0, []), steps);
      AfterReset(t, l.fires, l.timer, steps)
  {
    if t.persistent {
      PersistentLife(Restarted(t), steps);
    } else {
      OneShotLife(Restarted(t), steps);
    }
  }

  /** So in any run of the thread after the reset in which nobody removes or resets it again. */
  lemma ResetInTheThread(r: Registry, id: nat, events: seq<Event>)
    requires ValidRegistry(r) && id <= r.lastId && Lookup(r.timers, id).Some?
    requires forall i :: 0 <= i < |events| ==> LeavesAlone(events[i], id)
    ensures var start := After(r, Reset(id));
      AfterReset(Lookup(r.timers, id).value, FireTimes(start, events, id), Lookup(AfterAll(start, events).timers, id),
                 Times(events))
  {
    var t := Lookup(r.timers, id).value;
    AfterKeepsValid(r, Reset(id));
    LookupReset(r.timers, id);
    TimerFollowsItsLife(After(r, Reset(id)), events, id, Life(Some(Restarted(t)), 0, []));
    ResetLife(t, Times(events));
  }
}
