// kpr's monitor (src/kpr/Monitor.cpp): notifications made while the monitor is
// held are only counted, and are passed to the condition when the monitor is
// released or waited on. Every method body runs while the caller owns the
// recursive mutex, so a run is a sequence of method executions.
module Monitor {
  import opened Wrappers

  type Tid = nat

  datatype Call = Call(caller: Tid, all: bool)   // Notify, or NotifyAll

  datatype Signal = One | Broadcast              // what m_condition is told

  datatype Event =
    | Lock(t: Tid)
    | Unlock(t: Tid)
    | Notify(t: Tid)
    | NotifyAll(t: Tid)
    | Wait(t: Tid)      // up to and including the release of the mutex
    | Resume(t: Tid)    // from the reacquired mutex to the return of Wait

  /** The promise, without the counter: calls are collected per section of ownership and
      turned into signals when the section ends. `waiters` maps a waiting thread to the
      nesting depth it gave up, and `closed` lists the finished sections. */
  datatype Ledger = Ledger(
    owner: Option<Tid>,
    count: nat,
    waiters: map<Tid, nat>,
    section: seq<Call>,
    closed: seq<seq<Call>>,
    passed: seq<Signal>)

  const EMPTY := Ledger(None, 0, map[], [], [], [])

  function Ones(n: nat): (r: seq<Signal>)
    ensures |r| == n && forall i :: 0 <= i < n ==> r[i] == One
  {
    if n == 0 then [] else Ones(n - 1) + [One]
  }

  predicate AnyAll(calls: seq<Call>) {
    exists i :: 0 <= i < |calls| && calls[i].all
  }

  /** One broadcast if any NotifyAll occurred, else one signal per Notify. */
  function Deliveries(calls: seq<Call>): seq<Signal> {
    if AnyAll(calls) then [Broadcast] else Ones(|calls|)
  }

  function AllDeliveries(sections: seq<seq<Call>>): seq<Signal> {
    if sections == [] then []
    else AllDeliveries(sections[..|sections| - 1]) + Deliveries(sections[|sections| - 1])
  }

  ghost predicate Allowed(m: Ledger, e: Event) {
    match e
    case Lock(t) => m.owner in {None, Some(t)} && t !in m.waiters
    case Resume(t) => m.owner == None && t in m.waiters
    case _ => m.owner == Some(e.t)
  }

  function Close(m: Ledger): Ledger {
    m.(section := [], closed := m.closed + [m.section], passed := m.passed + Deliveries(m.section))
  }

  function Apply(m: Ledger, e: Event): Ledger
    requires Allowed(m, e)
  {
    match e
    case Lock(t) =>
      if m.owner == None then m.(owner := Some(t), count := 1, section := []) else m.(count := m.count + 1)
    case Unlock(_) =>
      if m.count == 1 then Close(m).(owner := None, count := 0)
      else m.(count := if m.count > 0 then m.count - 1 else 0)
    case Notify(t) => m.(section := m.section + [Call(t, false)])
    case NotifyAll(t) => m.(section := m.section + [Call(t, true)])
    case Wait(t) => Close(m).(owner := None, count := 0, waiters := m.waiters[t := m.count])
    case Resume(t) =>
      m.(owner := Some(t), count := m.waiters[t], waiters := m.waiters - {t}, section := [])
  }

  /** What m_notifyCount holds after these calls. */
  function Pending(calls: seq<Call>): int {
    if AnyAll(calls) then -1 else |calls|
  }

  lemma PendingAppend(calls: seq<Call>, c: Call)
    ensures Pending(calls + [c]) ==
      if c.all || Pending(calls) == -1 then -1 else Pending(calls) + 1
  {
    var more := calls + [c];
    assert more[|calls|] == c;
    if AnyAll(calls) {
      var i :| 0 <= i < |calls| && calls[i].all;
      assert more[i].all;
    }
  }

  /** The condition object, as the record of what it was told. */
  class Condition {
    var told: seq<Signal>

    constructor ()
      ensures told == []
    {
      told := [];
    }

    method Signal()
      modifies this
      ensures told == old(told) + [One]
    {
      told := told + [One];
    }

    method SignalAll()
      modifies this
      ensures told == old(told) + [Broadcast]
    {
      told := told + [Broadcast];
    }
  }

  class Monitor {
    var owner: Option<Tid>      // m_mutex: who holds it and how deep
    var count: nat
    var notifyCount: int        // m_notifyCount
    const condition: Condition  // m_condition
    ghost var ledger: Ledger

    ghost predicate Valid()
      reads this, condition
    {
      && owner == ledger.owner && count == ledger.count
      && condition.told == ledger.passed
      && (owner.Some? <==> count > 0)
      && (owner.Some? ==> notifyCount == Pending(ledger.section))
      && (forall t :: t in ledger.waiters ==> ledger.waiters[t] > 0)
    }

    constructor ()
      ensures Valid() && ledger == EMPTY && notifyCount == 0 && fresh(condition)
    {
      owner, count, notifyCount := None, 0, 0;
      condition := new Condition();
      ledger := EMPTY;
    }

    /** The private notify: passes the counted notifications on. */
    method Flush(nnotify: int)
      requires nnotify >= -1
      modifies condition
      ensures condition.told == old(condition.told) + (if nnotify == -1 then [Broadcast] else Ones(nnotify))
    {
      if nnotify != 0 {
        if nnotify == -1 {
          condition.SignalAll();
          return;
        } else {
          var left := nnotify;
          while left > 0
            invariant 0 <= left <= nnotify
            invariant condition.told == old(condition.told) + Ones(nnotify - left)
          {
            condition.Signal();
            left := left - 1;
          }
        }
      }
    }

    method DoLock(t: Tid)
      requires Valid() && Allowed(ledger, Lock(t))
      modifies this
      ensures Valid() && ledger == Apply(old(ledger), Lock(t))
    {
      var first := count == 0;
      owner, count := Some(t), count + 1;
      if first {
        notifyCount := 0;
      }
      ledger := Apply(ledger, Lock(t));
    }

    method DoUnlock(t: Tid)
      requires Valid() && Allowed(ledger, Unlock(t))
      modifies this, condition
      ensures Valid() && ledger == Apply(old(ledger), Unlock(t))
    {
      if count == 1 {
        Flush(notifyCount);
      }
      count := count - 1;
      if count == 0 {
        owner := None;
      }
      ledger := Apply(ledger, Unlock(t));
    }

    method DoNotify(t: Tid)
      requires Valid() && Allowed(ledger, Notify(t))
      modifies this
      ensures Valid() && ledger == Apply(old(ledger), Notify(t))
    {
      PendingAppend(ledger.section, Call(t, false));
      if notifyCount != -1 {
        notifyCount := notifyCount + 1;
      }
      ledger := Apply(ledger, Notify(t));
    }

    method DoNotifyAll(t: Tid)
      requires Valid() && Allowed(ledger, NotifyAll(t))
      modifies this
      ensures Valid() && ledger == Apply(old(ledger), NotifyAll(t))
    {
      PendingAppend(ledger.section, Call(t, true));
      notifyCount := -1;
      ledger := Apply(ledger, NotifyAll(t));
    }

    /** Wait until the condition releases the mutex; returns the depth it saved. */
    method BeginWait(t: Tid) returns (saved: nat)
      requires Valid() && Allowed(ledger, Wait(t))
      modifies this, condition
      ensures Valid() && ledger == Apply(old(ledger), Wait(t))
      ensures ledger.waiters[t] == saved
    {
      Flush(notifyCount);
      saved := count;
      owner, count := None, 0;
      ledger := Apply(ledger, Wait(t));
    }

    /** The rest of Wait, once the condition has given the mutex back. */
    method EndWait(t: Tid, saved: nat)
      requires Valid() && Allowed(ledger, Resume(t)) && ledger.waiters[t] == saved
      modifies this
      ensures Valid() && ledger == Apply(old(ledger), Resume(t))
    {
      owner, count := Some(t), saved;
      notifyCount := 0;
      ledger := Apply(ledger, Resume(t));
    }
  }

  // ----- what the ledger, and so every run of the methods, guarantees -----

  ghost predicate AllowedAll(m: Ledger, events: seq<Event>)
    decreases |events|
  {
    if events == [] then true
    else Allowed(m, events[0]) && AllowedAll(Apply(m, events[0]), events[1..])
  }

  function ApplyAll(m: Ledger, events: seq<Event>): Ledger
    requires AllowedAll(m, events)
    decreases |events|
  {
    if events == [] then m else ApplyAll(Apply(m, events[0]), events[1..])
  }

  ghost predicate LedgerInv(m: Ledger) {
    && m.passed == AllDeliveries(m.closed)
    && (m.owner.None? ==> m.section == [])
    && (m.owner.Some? ==> forall i :: 0 <= i < |m.section| ==> m.section[i].caller == m.owner.value)
    && (forall k :: 0 <= k < |m.closed| ==> OneCaller(m.closed[k]))
  }

  /** All calls of a section come from one thread. */
  predicate OneCaller(calls: seq<Call>) {
    forall i, j :: 0 <= i < |calls| && 0 <= j < |calls| ==> calls[i].caller == calls[j].caller
  }

  lemma CloseDelivers(closed: seq<seq<Call>>, section: seq<Call>)
    ensures AllDeliveries(closed + [section]) == AllDeliveries(closed) + Deliveries(section)
  {
    assert (closed + [section])[..|closed|] == closed;
  }

  lemma CloseKeepsCallers(m: Ledger, k: nat)
    requires LedgerInv(m) && k < |Close(m).closed|
    ensures OneCaller(Close(m).closed[k])
  {
    if k < |m.closed| {
      assert Close(m).closed[k] == m.closed[k];
    } else {
      assert Close(m).closed[k] == m.section;
    }
  }

  lemma CloseKeepsLedger(m: Ledger)
    requires LedgerInv(m)
    ensures Close(m).passed == AllDeliveries(Close(m).closed)
    ensures forall k :: 0 <= k < |Close(m).closed| ==> OneCaller(Close(m).closed[k])
  {
    CloseDelivers(m.closed, m.section);
    forall k | 0 <= k < |Close(m).closed| ensures OneCaller(Close(m).closed[k]) {
      CloseKeepsCallers(m, k);
    }
  }

  lemma ApplyKeepsLedger(m: Ledger, e: Event)
    requires LedgerInv(m) && Allowed(m, e)
    ensures LedgerInv(Apply(m, e))
  {
    var m' := Apply(m, e);
    if e.Wait? || (e.Unlock? && m.count == 1) {
      CloseKeepsLedger(m);
      assert m'.closed == Close(m).closed;
    } else {
      assert m'.closed == m.closed && m'.passed == m.passed;
    }
  }

  /** Over every run: the condition was told exactly what each finished section asked for,
      in order, and no section mixes the calls of two threads or inherits any. */
  lemma {:induction false} EveryRunDelivers(m: Ledger, events: seq<Event>)
    requires LedgerInv(m) && AllowedAll(m, events)
    ensures var end := ApplyAll(m, events);
      && end.passed == AllDeliveries(end.closed)
      && (end.owner.None? ==> end.section == [])
      && (forall k :: 0 <= k < |end.closed| ==> OneCaller(end.closed[k]))
      && m.closed <= end.closed && m.passed <= end.passed
    decreases |events|
  {
    if events != [] {
      ApplyKeepsLedger(m, events[0]);
      EveryRunDelivers(Apply(m, events[0]), events[1..]);
    }
  }

  /** The event that ends a section, a release or a wait, adds exactly one broadcast if the
      section had a NotifyAll and otherwise one signal per Notify. */
  lemma SectionIsDelivered(m: Ledger, e: Event)
    requires Allowed(m, e) && (e.Wait? || (e.Unlock? && m.count == 1))
    ensures var m' := Apply(m, e);
      && m'.owner == None && m'.section == []
      && (if AnyAll(m.section) then m'.passed == m.passed + [Broadcast]
          else
            && |m'.passed| == |m.passed| + |m.section| && m.passed <= m'.passed
            && forall i :: |m.passed| <= i < |m'.passed| ==> m'.passed[i] == One)
  {
  }
}
