// What a call on the queue returns, told by the program counters along the run and
// by the state in which the call loaded the cell's sequence number; and what a call
// does that is left to run alone.
module MpmcTrace {
  import opened Wrappers
  import opened MpmcQueue
  import Runs

  lemma StepAt<T(!new)>(run: seq<State<T>>, i: nat)
    requires IsRun(run) && 0 < i < |run|
    ensures Next(run[i - 1], run[i])
  {
    Runs.StepAt((s: State<T>) => Init(s), (s: State<T>, s': State<T>) => Next(s, s'), run, i);
  }

  lemma NotAtFirst<T(!new)>(run: seq<State<T>>, i: nat, t: Tid)
    requires IsRun(run) && i < |run| && t in run[i].pcs && run[i].pcs[t] != Idle
    ensures i > 0
  {
  }

  // ----- enqueue -----

  /** With step l, t loaded the sequence it still goes by at i. */
  ghost predicate EnqueueLoaded<T(!new)>(run: seq<State<T>>, l: nat, i: nat, t: Tid) {
    && l < i < |run| && CanIndex(run[l])
    && t in run[i].pcs && run[i].pcs[t].EnqSeen?
    && var pc := run[i].pcs[t];
       && t in run[l].pcs && run[l].pcs[t] == EnqAt(pc.item, pc.pos)
       && pc.seen == run[l].cells[Slot(|run[l].cells|, pc.pos)].sequence
       && forall k :: l < k <= i ==> t in run[k].pcs && run[k].pcs[t] == pc
  }

  lemma EnqueueLoads<T(!new)>(s: State<T>, s': State<T>, t: Tid)
    requires Next(s, s') && t in s'.pcs && s'.pcs[t].EnqSeen?
    ensures t in s.pcs
    ensures s.pcs[t] != s'.pcs[t] ==>
      && CanIndex(s) && s.pcs[t] == EnqAt(s'.pcs[t].item, s'.pcs[t].pos)
      && s'.pcs[t].seen == s.cells[Slot(|s.cells|, s'.pcs[t].pos)].sequence
  {
    var u :| StepOf(s, u, s');
  }

  lemma {:induction false} LoadOfEnqueue<T(!new)>(run: seq<State<T>>, i: nat, t: Tid) returns (l: nat)
    requires IsRun(run) && i < |run| && t in run[i].pcs && run[i].pcs[t].EnqSeen?
    ensures EnqueueLoaded(run, l, i, t)
  {
    NotAtFirst(run, i, t);
    StepAt(run, i);
    EnqueueLoads(run[i - 1], run[i], t);
    if run[i - 1].pcs[t] == run[i].pcs[t] {
      l := LoadOfEnqueue(run, i - 1, t);
    } else {
      l := i - 1;
    }
  }

  lemma EnqueueDecides<T(!new)>(s: State<T>, s': State<T>, t: Tid)
    requires Next(s, s') && t in s.pcs && s.pcs[t].EnqSeen? && (t in s'.pcs ==> s'.pcs[t] != s.pcs[t])
    ensures t in s'.pcs
    ensures var pc, pc' := s.pcs[t], s'.pcs[t];
      && (pc.seen < pc.pos ==> pc' == Idle)
      && (pc.seen > pc.pos ==> pc' == EnqStart(pc.item))
      && (pc.seen == pc.pos ==> pc' == EnqFill(pc.item, pc.pos) || pc' == EnqAt(pc.item, s.enqPos))
  {
    var u :| StepOf(s, u, s');
  }

  /** What enqueue answers. It returns false exactly when, in the state in which it loaded the
      cell's sequence, the ticket one buffer before its own was not completely dequeued; it
      starts again exactly when its ticket had been published by another call; and otherwise it
      claims the ticket or, if another call was faster, tries the next one. */
  lemma EnqueueReturns<T(!new)>(run: seq<State<T>>, i: nat, t: Tid) returns (l: nat)
    requires IsRun(run) && 0 < i < |run| && t in run[i - 1].pcs && run[i - 1].pcs[t].EnqSeen?
    requires t in run[i].pcs ==> run[i].pcs[t] != run[i - 1].pcs[t]
    ensures EnqueueLoaded(run, l, i - 1, t) && t in run[i].pcs
    ensures var pc, pc', s := run[i - 1].pcs[t], run[i].pcs[t], run[l];
      && (pc' == Idle <==> pc.pos >= |s.cells| && pc.pos - |s.cells| !in s.taken)
      && (pc' == EnqStart(pc.item) <==> pc.pos in s.published)
      && (pc' != Idle && pc' != EnqStart(pc.item) ==>
            pc' == EnqFill(pc.item, pc.pos) || pc' == EnqAt(pc.item, run[i - 1].enqPos))
  {
    l := LoadOfEnqueue(run, i - 1, t);
    StepAt(run, i);
    EnqueueDecides(run[i - 1], run[i], t);
    EnqueueSeesFull(run, l, t);
    PublishedMeans(run, l, run[i - 1].pcs[t].pos);
  }

  lemma PublishedMeans<T(!new)>(run: seq<State<T>>, i: nat, k: nat)
    requires IsRun(run) && i < |run|
    ensures var s := run[i];
      CanIndex(s) && (k in s.published <==> s.cells[Slot(|s.cells|, k)].sequence > k)
  {
    InvHolds(run, i);
  }

  // ----- dequeue -----

  ghost predicate DequeueLoaded<T(!new)>(run: seq<State<T>>, l: nat, i: nat, t: Tid) {
    && l < i < |run| && CanIndex(run[l])
    && t in run[i].pcs && run[i].pcs[t].DeqSeen?
    && var pc := run[i].pcs[t];
       && t in run[l].pcs && run[l].pcs[t] == DeqAt(pc.pos)
       && pc.seen == run[l].cells[Slot(|run[l].cells|, pc.pos)].sequence
       && forall k :: l < k <= i ==> t in run[k].pcs && run[k].pcs[t] == pc
  }

  lemma DequeueLoads<T(!new)>(s: State<T>, s': State<T>, t: Tid)
    requires Next(s, s') && t in s'.pcs && s'.pcs[t].DeqSeen?
    ensures t in s.pcs
    ensures s.pcs[t] != s'.pcs[t] ==>
      && CanIndex(s) && s.pcs[t] == DeqAt(s'.pcs[t].pos)
      && s'.pcs[t].seen == s.cells[Slot(|s.cells|, s'.pcs[t].pos)].sequence
  {
    var u :| StepOf(s, u, s');
  }

  lemma {:induction false} LoadOfDequeue<T(!new)>(run: seq<State<T>>, i: nat, t: Tid) returns (l: nat)
    requires IsRun(run) && i < |run| && t in run[i].pcs && run[i].pcs[t].DeqSeen?
    ensures DequeueLoaded(run, l, i, t)
  {
    NotAtFirst(run, i, t);
    StepAt(run, i);
    DequeueLoads(run[i - 1], run[i], t);
    if run[i - 1].pcs[t] == run[i].pcs[t] {
      l := LoadOfDequeue(run, i - 1, t);
    } else {
      l := i - 1;
    }
  }

  lemma DequeueDecides<T(!new)>(s: State<T>, s': State<T>, t: Tid)
    requires Next(s, s') && t in s.pcs && s.pcs[t].DeqSeen? && (t in s'.pcs ==> s'.pcs[t] != s.pcs[t])
    ensures t in s'.pcs
    ensures var pc, pc' := s.pcs[t], s'.pcs[t];
      && (pc.seen < pc.pos + 1 ==> pc' == Idle)
      && (pc.seen > pc.pos + 1 ==> pc' == DeqStart)
      && (pc.seen == pc.pos + 1 ==> pc' == DeqTake(pc.pos) || pc' == DeqAt(s.deqPos))
  {
    var u :| StepOf(s, u, s');
  }

  /** What dequeue answers. It returns false exactly when, in the state in which it loaded the
      cell's sequence, its ticket was the head and not published; it starts again exactly when
      its ticket had been completely dequeued by another call; and otherwise it claims the
      ticket or, if another call was faster, tries the next one. */
  lemma DequeueReturns<T(!new)>(run: seq<State<T>>, i: nat, t: Tid) returns (l: nat)
    requires IsRun(run) && 0 < i < |run| && t in run[i - 1].pcs && run[i - 1].pcs[t].DeqSeen?
    requires t in run[i].pcs ==> run[i].pcs[t] != run[i - 1].pcs[t]
    ensures DequeueLoaded(run, l, i - 1, t) && t in run[i].pcs
    ensures var pc, pc', s := run[i - 1].pcs[t], run[i].pcs[t], run[l];
      && (pc' == Idle <==> pc.pos == s.deqPos && pc.pos !in s.published)
      && (pc' == DeqStart <==> pc.pos in s.taken)
      && (pc' != Idle && pc' != DeqStart ==> pc' == DeqTake(pc.pos) || pc' == DeqAt(run[i - 1].deqPos))
  {
    l := LoadOfDequeue(run, i - 1, t);
    StepAt(run, i);
    DequeueDecides(run[i - 1], run[i], t);
    DequeueSeesEmpty(run, l, t);
    DequeueSeesTaken(run, l, run[i - 1].pcs[t].pos);
  }

  lemma DequeueSeesTaken<T(!new)>(run: seq<State<T>>, i: nat, k: nat)
    requires IsRun(run) && i < |run|
    ensures var s := run[i];
      CanIndex(s) && (k in s.taken <==> s.cells[Slot(|s.cells|, k)].sequence > k + 1)
  {
    InvHolds(run, i);
    assert CellInv(run[i], Slot(|run[i].cells|, k));
  }

  // ----- a call that runs alone -----

  ghost predicate OthersStay<T(!new)>(s: State<T>, s': State<T>, t: Tid) {
    forall u :: u in s.pcs && u != t ==> u in s'.pcs && s'.pcs[u] == s.pcs[u]
  }

  /** A continuation of the run in which only t takes steps. */
  ghost predicate AloneFrom<T(!new)>(run: seq<State<T>>, longer: seq<State<T>>, t: Tid) {
    IsRun(run) && IsRun(longer) && run <= longer && OthersStay(run[|run| - 1], longer[|longer| - 1], t)
  }

  lemma GoOn<T(!new)>(run: seq<State<T>>, t: Tid, s': State<T>) returns (longer: seq<State<T>>)
    requires IsRun(run) && StepOf(run[|run| - 1], t, s')
    ensures longer == run + [s'] && AloneFrom(run, longer, t) && longer[|longer| - 1] == s'
  {
    longer := run + [s'];
    Runs.Extend((s: State<T>) => Init(s), (s: State<T>, s': State<T>) => Next(s, s'), run, s');
  }

  lemma LocalGoesOn<T(!new)>(run: seq<State<T>>, t: Tid, pc: Pc<T>) returns (longer: seq<State<T>>)
    requires IsRun(run) && t in run[|run| - 1].pcs
    requires CanIndex(run[|run| - 1]) && LocalMove(run[|run| - 1], t, pc)
    ensures AloneFrom(run, longer, t) && |longer| == |run| + 1
    ensures var s := run[|run| - 1]; longer[|longer| - 1] == s.(pcs := s.pcs[t := pc])
  {
    var s := run[|run| - 1];
    assert Local(s, t, s.(pcs := s.pcs[t := pc]));
    longer := GoOn(run, t, s.(pcs := s.pcs[t := pc]));
  }

  lemma CanIndexAt<T(!new)>(run: seq<State<T>>)
    requires IsRun(run)
    ensures CanIndex(run[|run| - 1])
  {
    InvHolds(run, |run| - 1);
  }

  /** Loads the position and the sequence of its cell. */
  lemma EnqueueReadsAlone<T(!new)>(run: seq<State<T>>, t: Tid) returns (longer: seq<State<T>>)
    requires IsRun(run) && t in run[|run| - 1].pcs && run[|run| - 1].pcs[t].EnqStart?
    ensures AloneFrom(run, longer, t) && |longer| == |run| + 2 && CanIndex(run[|run| - 1])
    ensures var s := run[|run| - 1];
      longer[|longer| - 1] ==
        s.(pcs := s.pcs[t := EnqSeen(s.pcs[t].item, s.enqPos, s.cells[Slot(|s.cells|, s.enqPos)].sequence)])
  {
    var s := run[|run| - 1];
    var item := s.pcs[t].item;
    CanIndexAt(run);
    longer := LocalGoesOn(run, t, EnqAt(item, s.enqPos));
    CanIndexAt(longer);
    longer := LocalGoesOn(longer, t, EnqSeen(item, s.enqPos, s.cells[Slot(|s.cells|, s.enqPos)].sequence));
    assert s.pcs[t := EnqAt(item, s.enqPos)][t := longer[|longer| - 1].pcs[t]] == s.pcs[t := longer[|longer| - 1].pcs[t]];
  }

  /** With the ticket claimed, the data is written and the ticket published. */
  lemma PublishesAlone<T(!new)>(run: seq<State<T>>, t: Tid) returns (longer: seq<State<T>>)
    requires IsRun(run) && t in run[|run| - 1].pcs && run[|run| - 1].pcs[t].EnqFill?
    ensures AloneFrom(run, longer, t) && |longer| == |run| + 2
    ensures var s, s' := run[|run| - 1], longer[|longer| - 1];
      && t in s'.pcs && s'.pcs[t] == Idle && s'.stored == s.stored
      && s'.published == s.published + {s.pcs[t].pos}
  {
    var s := run[|run| - 1];
    var item, pos := s.pcs[t].item, s.pcs[t].pos;
    CanIndexAt(run);
    var i := Slot(|s.cells|, pos);
    var filled := s.(cells := s.cells[i := s.cells[i].(data := Some(item))], pcs := s.pcs[t := EnqPublish(pos)]);
    assert Fill(s, t, filled);
    longer := GoOn(run, t, filled);
    CanIndexAt(longer);
    var done := filled.(cells := filled.cells[i := filled.cells[i].(sequence := pos + 1)],
                        published := filled.published + {pos},
                        pcs := filled.pcs[t := Idle]);
    assert Publish(filled, t, done);
    longer := GoOn(longer, t, done);
  }

  ghost predicate IsFull<T(!new)>(s: State<T>) {
    s.enqPos >= |s.cells| && s.enqPos - |s.cells| !in s.taken
  }

  lemma SequenceAtTail<T(!new)>(run: seq<State<T>>)
    requires IsRun(run)
    ensures var s := run[|run| - 1];
      && CanIndex(s)
      && var seen := s.cells[Slot(|s.cells|, s.enqPos)].sequence;
         if IsFull(s) then seen < s.enqPos else seen == s.enqPos
  {
    InvHolds(run, |run| - 1);
    var s := run[|run| - 1];
    var n, pos := |s.cells|, s.enqPos;
    assert CellInv(s, Slot(n, pos));
    if pos >= n {
      assert Slot(n, pos - n + n) == Slot(n, pos - n);
    } else {
      assert Slot(n, pos) == pos;
    }
  }

  /** An enqueue that is left to run alone is over after at most five steps: it returns false
      and changes nothing if the queue is full, and otherwise its item is stored behind the
      others and published. */
  lemma EnqueueAlone<T(!new)>(run: seq<State<T>>, t: Tid) returns (longer: seq<State<T>>)
    requires IsRun(run) && t in run[|run| - 1].pcs && run[|run| - 1].pcs[t].EnqStart?
    ensures AloneFrom(run, longer, t) && |longer| <= |run| + 5
    ensures var s, s' := run[|run| - 1], longer[|longer| - 1];
      && t in s'.pcs && s'.pcs[t] == Idle
      && (if IsFull(s) then s'.stored == s.stored && s'.published == s.published
          else s'.stored == s.stored + [s.pcs[t].item] && s'.published == s.published + {s.enqPos})
  {
    var s := run[|run| - 1];
    SequenceAtTail(run);
    longer := EnqueueReadsAlone(run, t);
    var seen := longer[|longer| - 1];
    CanIndexAt(longer);
    if IsFull(s) {
      longer := LocalGoesOn(longer, t, Idle);
    } else {
      var claimed := seen.(enqPos := s.enqPos + 1, stored := s.stored + [s.pcs[t].item],
                           pcs := seen.pcs[t := EnqFill(s.pcs[t].item, s.enqPos)]);
      assert ClaimEnqueue(seen, t, claimed);
      longer := GoOn(longer, t, claimed);
      longer := PublishesAlone(longer, t);
    }
  }

  lemma DequeueReadsAlone<T(!new)>(run: seq<State<T>>, t: Tid) returns (longer: seq<State<T>>)
    requires IsRun(run) && t in run[|run| - 1].pcs && run[|run| - 1].pcs[t].DeqStart?
    ensures AloneFrom(run, longer, t) && |longer| == |run| + 2 && CanIndex(run[|run| - 1])
    ensures var s := run[|run| - 1];
      longer[|longer| - 1] ==
        s.(pcs := s.pcs[t := DeqSeen(s.deqPos, s.cells[Slot(|s.cells|, s.deqPos)].sequence)])
  {
    var s := run[|run| - 1];
    CanIndexAt(run);
    longer := LocalGoesOn(run, t, DeqAt(s.deqPos));
    CanIndexAt(longer);
    longer := LocalGoesOn(longer, t, DeqSeen(s.deqPos, s.cells[Slot(|s.cells|, s.deqPos)].sequence));
    assert s.pcs[t := DeqAt(s.deqPos)][t := longer[|longer| - 1].pcs[t]] == s.pcs[t := longer[|longer| - 1].pcs[t]];
  }

  /** With the ticket claimed, the data is moved out and the cell given to the next round. */
  lemma TakesAlone<T(!new)>(run: seq<State<T>>, t: Tid) returns (longer: seq<State<T>>)
    requires IsRun(run) && t in run[|run| - 1].pcs && run[|run| - 1].pcs[t].DeqTake?
    ensures AloneFrom(run, longer, t) && |longer| == |run| + 2
    ensures var s, s' := run[|run| - 1], longer[|longer| - 1];
      && t in s'.pcs && s'.pcs[t] == Idle && s.pcs[t].pos < |s.stored|
      && s'.taken == s.taken[s.pcs[t].pos := Some(s.stored[s.pcs[t].pos])]
  {
    var s := run[|run| - 1];
    var pos := s.pcs[t].pos;
    InvHolds(run, |run| - 1);
    assert ThreadInv(s, s.pcs[t]);
    var i := Slot(|s.cells|, pos);
    var emptied := s.(cells := s.cells[i := s.cells[i].(data := None)],
                      pcs := s.pcs[t := DeqRelease(pos, s.cells[i].data)]);
    assert Take(s, t, emptied);
    longer := GoOn(run, t, emptied);
    CanIndexAt(longer);
    var done := emptied.(cells := emptied.cells[i := emptied.cells[i].(sequence := pos + |emptied.cells|)],
                         taken := emptied.taken[pos := s.cells[i].data],
                         pcs := emptied.pcs[t := Idle]);
    assert Release(emptied, t, done);
    longer := GoOn(longer, t, done);
  }

  lemma SequenceAtHead<T(!new)>(run: seq<State<T>>)
    requires IsRun(run)
    ensures var s := run[|run| - 1];
      && CanIndex(s)
      && var seen := s.cells[Slot(|s.cells|, s.deqPos)].sequence;
         if s.deqPos in s.published then seen == s.deqPos + 1 else seen < s.deqPos + 1
  {
    InvHolds(run, |run| - 1);
    var s := run[|run| - 1];
    assert CellInv(s, Slot(|s.cells|, s.deqPos));
  }

  /** A dequeue that is left to run alone is over after at most five steps: it returns false
      and delivers nothing if the head ticket is not published, and otherwise it delivers the
      item stored under that ticket. */
  lemma DequeueAlone<T(!new)>(run: seq<State<T>>, t: Tid) returns (longer: seq<State<T>>)
    requires IsRun(run) && t in run[|run| - 1].pcs && run[|run| - 1].pcs[t].DeqStart?
    ensures AloneFrom(run, longer, t) && |longer| <= |run| + 5
    ensures var s, s' := run[|run| - 1], longer[|longer| - 1];
      && t in s'.pcs && s'.pcs[t] == Idle
      && (if s.deqPos !in s.published then s'.taken == s.taken && s'.deqPos == s.deqPos
          else s.deqPos < |s.stored| && s'.taken == s.taken[s.deqPos := Some(s.stored[s.deqPos])])
  {
    var s := run[|run| - 1];
    SequenceAtHead(run);
    longer := DequeueReadsAlone(run, t);
    var seen := longer[|longer| - 1];
    CanIndexAt(longer);
    if s.deqPos !in s.published {
      longer := LocalGoesOn(longer, t, Idle);
    } else {
      var claimed := seen.(deqPos := s.deqPos + 1, pcs := seen.pcs[t := DeqTake(s.deqPos)]);
      assert ClaimDequeue(seen, t, claimed);
      longer := GoOn(longer, t, claimed);
      longer := TakesAlone(longer, t);
    }
  }
}
