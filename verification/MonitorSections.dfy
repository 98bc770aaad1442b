// What the monitor passes to its condition, told by the list of method calls alone:
// how deep a thread holds the monitor is counted from its Lock and Unlock calls, and
// what a section asked for from the Notify and NotifyAll calls made in it.
module MonitorSections {
  import opened Wrappers
  import opened Monitor

  /** The Lock calls of t less its Unlock calls. */
  function Depth(events: seq<Event>, t: Tid): int {
    if events == [] then 0
    else
      (if events[0] == Lock(t) then 1 else if events[0] == Unlock(t) then -1 else 0) + Depth(events[1..], t)
  }

  function NotifyCalls(events: seq<Event>): nat {
    if events == [] then 0 else (if events[0].Notify? then 1 else 0) + NotifyCalls(events[1..])
  }

  predicate AnyNotifyAll(events: seq<Event>) {
    exists i :: 0 <= i < |events| && events[i].NotifyAll?
  }

  lemma {:induction false} DepthAppend(a: seq<Event>, b: seq<Event>, t: Tid)
    ensures Depth(a + b, t) == Depth(a, t) + Depth(b, t)
  {
    if a == [] {
      assert a + b == b;
    } else {
      assert (a + b)[1..] == a[1..] + b;
      DepthAppend(a[1..], b, t);
    }
  }

  lemma {:induction false} ApplyAppend(m: Ledger, a: seq<Event>, b: seq<Event>)
    ensures AllowedAll(m, a + b) <==> AllowedAll(m, a) && AllowedAll(ApplyAll(m, a), b)
    ensures AllowedAll(m, a + b) ==> ApplyAll(m, a + b) == ApplyAll(ApplyAll(m, a), b)
    decreases |a|
  {
    if a == [] {
      assert a + b == b;
    } else {
      assert (a + b)[0] == a[0] && (a + b)[1..] == a[1..] + b;
      if Allowed(m, a[0]) {
        ApplyAppend(Apply(m, a[0]), a[1..], b);
      }
    }
  }

  // ----- the depth that the ledger has for a thread -----

  /** Its nesting depth, or the one a wait has suspended. */
  function HeldBy(m: Ledger, t: Tid): nat {
    if m.owner == Some(t) then m.count else if t in m.waiters then m.waiters[t] else 0
  }

  ghost predicate DepthsFit(m: Ledger) {
    && (m.owner.Some? <==> m.count > 0)
    && (m.owner.Some? ==> m.owner.value !in m.waiters)
    && (forall t :: t in m.waiters ==> m.waiters[t] > 0)
  }

  lemma ApplyCountsDepth(m: Ledger, e: Event, t: Tid)
    requires DepthsFit(m) && Allowed(m, e)
    ensures DepthsFit(Apply(m, e))
    ensures HeldBy(Apply(m, e), t) == HeldBy(m, t) + Depth([e], t)
  {
    assert [e][1..] == [];
  }

  lemma {:induction false} DepthIsCounted(m: Ledger, events: seq<Event>, t: Tid)
    requires DepthsFit(m) && AllowedAll(m, events)
    ensures DepthsFit(ApplyAll(m, events))
    ensures HeldBy(ApplyAll(m, events), t) == HeldBy(m, t) + Depth(events, t)
    decreases |events|
  {
    if events != [] {
      ApplyCountsDepth(m, events[0], t);
      DepthIsCounted(Apply(m, events[0]), events[1..], t);
      assert [events[0]][1..] == [];
    }
  }

  // ----- one section -----

  /** No wait ends the section, and no Unlock undoes its first Lock. */
  ghost predicate StaysIn(depth: int, events: seq<Event>, t: Tid)
    decreases |events|
  {
    if events == [] then true
    else
      var after := depth + Depth(events[..1], t);
      events[0] != Wait(t) && after > 0 && StaysIn(after, events[1..], t)
  }

  lemma InsideStep(m: Ledger, e: Event, t: Tid)
    requires m.owner == Some(t) && m.count > 0 && Allowed(m, e) && e != Wait(t) && m.count + Depth([e], t) > 0
    ensures var m' := Apply(m, e);
      && m'.owner == Some(t) && m'.count == m.count + Depth([e], t) && m'.passed == m.passed
      && m'.section ==
           if e.Notify? then m.section + [Call(t, false)]
           else if e.NotifyAll? then m.section + [Call(t, true)] else m.section
  {
    assert [e][1..] == [];
  }

  lemma AnyAllAppend(calls: seq<Call>, c: Call)
    ensures AnyAll(calls + [c]) <==> AnyAll(calls) || c.all
  {
    assert (calls + [c])[|calls|] == c;
    assert forall i :: 0 <= i < |calls| ==> (calls + [c])[i] == calls[i];
  }

  lemma AnyNotifyAllFirst(events: seq<Event>)
    requires events != []
    ensures AnyNotifyAll(events) <==> events[0].NotifyAll? || AnyNotifyAll(events[1..])
  {
    assert forall i :: 0 <= i < |events| - 1 ==> events[1..][i] == events[i + 1];
    if AnyNotifyAll(events) && !events[0].NotifyAll? {
      var i :| 0 <= i < |events| && events[i].NotifyAll?;
      assert events[1..][i - 1].NotifyAll?;
    }
  }

  /** What the calls made so far amount to. */
  ghost predicate Collected(section: seq<Call>, before: seq<Call>, events: seq<Event>) {
    && (AnyAll(section) <==> AnyAll(before) || AnyNotifyAll(events))
    && (!AnyAll(section) ==> |section| == |before| + NotifyCalls(events))
  }

  lemma {:induction false} InsideCollects(m: Ledger, events: seq<Event>, t: Tid)
    requires m.owner == Some(t) && m.count > 0 && AllowedAll(m, events) && StaysIn(m.count, events, t)
    ensures var m' := ApplyAll(m, events);
      && m'.owner == Some(t) && m'.count == m.count + Depth(events, t) && m'.count > 0
      && m'.passed == m.passed && Collected(m'.section, m.section, events)
    decreases |events|
  {
    if events != [] {
      var e, next := events[0], Apply(m, events[0]);
      assert events[..1] == [e] && [e][1..] == [];
      InsideStep(m, e, t);
      InsideCollects(next, events[1..], t);
      AnyNotifyAllFirst(events);
      AnyAllAppend(m.section, Call(t, false));
      AnyAllAppend(m.section, Call(t, true));
    }
  }

  function Asked(events: seq<Event>): seq<Signal> {
    if AnyNotifyAll(events) then [Broadcast] else Ones(NotifyCalls(events))
  }

  /** The first call of a section: an outermost Lock, or the return from a wait. */
  ghost predicate Opens(before: seq<Event>, e: Event, t: Tid) {
    e == Resume(t) || (e == Lock(t) && Depth(before, t) == 0)
  }

  /** The last call of a section: a wait, or the Unlock that undoes its first Lock. */
  ghost predicate Closes(before: seq<Event>, e: Event, t: Tid) {
    e == Wait(t) || (e == Unlock(t) && Depth(before, t) == 1)
  }

  lemma OpenState(m: Ledger, e: Event, t: Tid)
    requires DepthsFit(m) && Allowed(m, e) && (e == Resume(t) || (e == Lock(t) && HeldBy(m, t) == 0))
    ensures var m' := Apply(m, e);
      && m'.owner == Some(t) && m'.count > 0 && m'.count == HeldBy(m', t)
      && m'.section == [] && m'.passed == m.passed
  {
  }

  lemma CloseState(m: Ledger, e: Event, t: Tid)
    requires m.owner == Some(t) && (e == Wait(t) || (e == Unlock(t) && m.count == 1))
    ensures Allowed(m, e) && Apply(m, e).passed == m.passed + Deliveries(m.section)
  {
  }

  /** Over every run of the monitor's methods from its construction: what a thread does between
      an outermost Lock, or its return from a wait, and the Unlock or wait that ends the section,
      with any nested Lock and Unlock calls in it, makes the condition be told one broadcast if
      there was a NotifyAll in between, and otherwise one signal for each Notify. */
  lemma SectionDelivers(before: seq<Event>, first: Event, inside: seq<Event>, last: Event, t: Tid)
    requires AllowedAll(EMPTY, before + ([first] + (inside + [last])))
    requires Opens(before, first, t) && StaysIn(Depth(before + [first], t), inside, t)
    requires Closes(before + [first] + inside, last, t)
    ensures AllowedAll(EMPTY, before)
    ensures ApplyAll(EMPTY, before + ([first] + (inside + [last]))).passed == ApplyAll(EMPTY, before).passed + Asked(inside)
  {
    var rest := inside + [last];
    ApplyAppend(EMPTY, before, [first] + rest);
    var m0 := ApplyAll(EMPTY, before);
    ApplyAppend(m0, [first], rest);
    assert [first][1..] == [];
    var m1 := Apply(m0, first);
    ApplyAppend(m1, inside, [last]);
    assert [last][1..] == [];
    DepthIsCounted(EMPTY, before, t);
    OpenState(m0, first, t);
    DepthAppend(before, [first], t);
    ApplyCountsDepth(m0, first, t);
    InsideCollects(m1, inside, t);
    DepthAppend(before + [first], inside, t);
    var m2 := ApplyAll(m1, inside);
    CloseState(m2, last, t);
    assert Deliveries(m2.section) == Asked(inside);
  }

  /** And nothing else makes the condition be told anything. */
  lemma NothingElseDelivers(before: seq<Event>, e: Event)
    requires AllowedAll(EMPTY, before + [e]) && !Closes(before, e, e.t)
    ensures AllowedAll(EMPTY, before)
    ensures ApplyAll(EMPTY, before + [e]).passed == ApplyAll(EMPTY, before).passed
  {
    ApplyAppend(EMPTY, before, [e]);
    DepthIsCounted(EMPTY, before, e.t);
    assert [e][1..] == [];
  }
}
