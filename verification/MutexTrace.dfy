// The recursive mutex told by the program counters along the run alone: a thread's
// Lock and tryLock calls that came back with the mutex are counted, less its Unlock
// calls, and the mutex is judged by that count.
module MutexTrace {
  import opened Wrappers
  import opened RecursiveMutex

  /** The step with which a Lock, or a tryLock that obtained the mutex, comes back. */
  ghost predicate Enters(s: State, s': State, t: Tid) {
    && t in s.pcs && t in s'.pcs && s'.pcs[t] == Ready
    && ((s.pcs[t].LockLeave? && !s.pcs[t].resume && s.pcs[t].obtained) || s.pcs[t] == TryLeave(true))
  }

  /** The step with which an Unlock comes back. */
  ghost predicate Leaves(s: State, s': State, t: Tid) {
    t in s.pcs && t in s'.pcs && s'.pcs[t] == Ready && s.pcs[t] == UnlockLeave
  }

  /** The Lock and tryLock calls of t that obtained the mutex, less its Unlock calls. */
  ghost function Locked(run: seq<State>, t: Tid, i: nat): int
    requires i < |run|
  {
    if i == 0 then 0
    else
      Locked(run, t, i - 1) + (if Enters(run[i - 1], run[i], t) then 1 else 0)
      - (if Leaves(run[i - 1], run[i], t) then 1 else 0)
  }

  /** What a call that has taken effect and not come back yet makes of that count. */
  function Pending(pc: Pc): int {
    match pc
    case LockTake(_, resume) => if resume then 0 else 1
    case LockLeave(_, resume, obtained) => if !resume && obtained then 1 else 0
    case TryTake => 1
    case TryLeave(obtained) => if obtained then 1 else 0
    case UnlockFree => -1
    case UnlockLeave => -1
    case _ => 0
  }

  ghost predicate Counts(s: State, s': State, t: Tid)
    requires t in s.pcs && t in s.depth
  {
    && t in s'.pcs && t in s'.depth
    && s'.depth[t] - Pending(s'.pcs[t]) ==
         s.depth[t] - Pending(s.pcs[t]) + (if Enters(s, s', t) then 1 else 0) - (if Leaves(s, s', t) then 1 else 0)
  }

  lemma LockCounts(s: State, t: Tid, s': State)
    requires t in s.pcs && t in s.depth && ThreadInv(s, t) && LockStep(s, t, s')
    ensures Counts(s, s', t)
  {
  }

  lemma TryCounts(s: State, t: Tid, s': State)
    requires t in s.pcs && t in s.depth && TryStep(s, t, s')
    ensures Counts(s, s', t)
  {
  }

  lemma UnlockCounts(s: State, t: Tid, s': State)
    requires t in s.pcs && t in s.depth && UnlockStep(s, t, s')
    ensures Counts(s, s', t)
  {
  }

  lemma OtherCounts(s: State, t: Tid, s': State)
    requires t in s.pcs && t in s.depth && (Call(s, t, s') || WaitStep(s, t, s') || OwnerStep(s, t, s'))
    ensures Counts(s, s', t)
  {
  }

  lemma StepCounts(s: State, s': State, t: Tid)
    requires Inv(s) && Next(s, s') && t in s.pcs
    ensures Counts(s, s', t)
  {
    var u :| StepOf(s, u, s');
    assert ThreadInv(s, u);
    if u != t {
      StepIsProper(s, u, s');
    } else if LockStep(s, t, s') {
      LockCounts(s, t, s');
    } else if TryStep(s, t, s') {
      TryCounts(s, t, s');
    } else if UnlockStep(s, t, s') {
      UnlockCounts(s, t, s');
    } else {
      OtherCounts(s, t, s');
    }
  }

  lemma {:induction false} PcsStay(run: seq<State>, i: nat)
    requires IsRun(run) && i < |run|
    ensures run[i].pcs.Keys == run[i].depth.Keys == run[0].pcs.Keys
  {
    if i > 0 {
      PcsStay(run, i - 1);
      InvHolds(run, i - 1);
      RunStep(run, i);
      KeysStay(run[i - 1], run[i]);
    }
  }

  lemma KeysStay(s: State, s': State)
    requires Inv(s) && Next(s, s')
    ensures s'.pcs.Keys == s'.depth.Keys == s.pcs.Keys
  {
    var u :| StepOf(s, u, s');
    assert ThreadInv(s, u);
    StepIsProper(s, u, s');
  }

  /** The history variable `depth` is that count, up to the call in progress. */
  lemma {:induction false} DepthIsCounted(run: seq<State>, i: nat, t: Tid)
    requires IsRun(run) && i < |run| && t in run[i].pcs
    ensures t in run[i].depth && run[i].depth[t] == Locked(run, t, i) + Pending(run[i].pcs[t])
  {
    PcsStay(run, i);
    if i > 0 {
      PcsStay(run, i - 1);
      DepthIsCounted(run, i - 1, t);
      InvHolds(run, i - 1);
      RunStep(run, i);
      StepCounts(run[i - 1], run[i], t);
    }
  }

  /** Between Lock and the Unlock that undoes it, and not suspended by a condition wait. */
  ghost predicate Inside(run: seq<State>, i: nat, t: Tid)
    requires i < |run|
  {
    && t in run[i].pcs && !Suspended(run[i].pcs[t])
    && Locked(run, t, i) > (if run[i].pcs[t].UnlockFree? || run[i].pcs[t].UnlockLeave? then 1 else 0)
  }

  lemma InsideIsOwner(run: seq<State>, i: nat, t: Tid)
    requires IsRun(run) && i < |run| && Inside(run, i, t)
    ensures run[i].owner == Some(t) && run[i].count == Locked(run, t, i) + Pending(run[i].pcs[t])
    ensures !run[i].pcs[t].LockTake? ==> run[i].mutex == Some(t)
  {
    InvHolds(run, i);
    DepthIsCounted(run, i, t);
    assert ThreadInv(run[i], t);
  }

  /** Mutual exclusion by the calls that came back: no two threads are between a Lock and the
      Unlock that undoes it, at any nesting, and for a thread that is and is outside every call
      m_count is the number of its Lock calls not yet undone. */
  lemma SectionsExclude(run: seq<State>, i: nat, t: Tid, u: Tid)
    requires IsRun(run) && i < |run| && Inside(run, i, t)
    ensures Inside(run, i, u) ==> t == u
    ensures run[i].pcs[t] == Ready ==>
      run[i].owner == run[i].mutex == Some(t) && run[i].count == Locked(run, t, i)
  {
    InsideIsOwner(run, i, t);
    if Inside(run, i, u) {
      InsideIsOwner(run, i, u);
    }
  }

  // ----- what the calls decide -----

  /** The mutex counts as the thread's own: its count, with the call in progress, is positive
      and no condition wait has given it up. */
  ghost predicate Owns(run: seq<State>, i: nat, t: Tid)
    requires i < |run|
  {
    t in run[i].pcs && !Suspended(run[i].pcs[t]) && Locked(run, t, i) + Pending(run[i].pcs[t]) > 0
  }

  lemma OwnsIffOwner(run: seq<State>, i: nat, t: Tid)
    requires IsRun(run) && i < |run|
    ensures Owns(run, i, t) <==> run[i].owner == Some(t)
  {
    InvHolds(run, i);
    if t in run[i].pcs {
      DepthIsCounted(run, i, t);
      assert ThreadInv(run[i], t);
    }
  }

  lemma OneThreadMoves(s: State, u: Tid, s': State, t: Tid)
    requires Inv(s) && StepOf(s, u, s') && t in s.pcs && t in s'.pcs && s'.pcs[t] != s.pcs[t]
    ensures u == t
  {
    assert ThreadInv(s, u);
    StepIsProper(s, u, s');
  }

  lemma TryTestOutcome(s: State, s': State, t: Tid)
    requires Inv(s) && Next(s, s') && t in s.pcs && s.pcs[t] == TryTest && t in s'.pcs && s'.pcs[t] != TryTest
    ensures s'.pcs[t] == if s.count == 0 then TryTake else TryLeave(s.owner == Some(t))
  {
    var u :| StepOf(s, u, s');
    OneThreadMoves(s, u, s', t);
    assert TryStep(s, t, s');
  }

  lemma LockTestOutcome(s: State, s': State, t: Tid)
    requires Inv(s) && Next(s, s') && t in s.pcs && s.pcs[t].LockTest? && t in s'.pcs && s'.pcs[t] != s.pcs[t]
    ensures var c, r := s.pcs[t].count, s.pcs[t].resume;
      s'.pcs[t] == if s.count == 0 then LockTake(c, r) else LockLeave(c, r, s.owner == Some(t))
  {
    var u :| StepOf(s, u, s');
    OneThreadMoves(s, u, s', t);
    assert LockStep(s, t, s');
  }

  /** The mutex is nobody's, or the thread named is the only one whose own it is. */
  lemma OwnerIsTheOne(run: seq<State>, i: nat)
    requires IsRun(run) && i < |run|
    ensures forall u: Tid :: Owns(run, i, u) <==> run[i].owner == Some(u)
    ensures run[i].count == 0 <==> forall u: Tid :: !Owns(run, i, u)
  {
    InvHolds(run, i);
    forall u: Tid ensures Owns(run, i, u) <==> run[i].owner == Some(u) {
      OwnsIffOwner(run, i, u);
    }
    if run[i].owner.Some? {
      assert Owns(run, i, run[i].owner.value);
    }
  }

  /** What tryLock answers: it fails exactly when the mutex is another thread's own, enters once
      more when it is the caller's, and takes the mutex when it is nobody's. */
  lemma TryLockIsRight(run: seq<State>, i: nat, t: Tid)
    requires IsRun(run) && i + 1 < |run| && t in run[i].pcs && t in run[i + 1].pcs
    requires run[i].pcs[t] == TryTest && run[i + 1].pcs[t] != TryTest
    ensures run[i + 1].pcs[t] == TryLeave(false) <==> exists u: Tid :: u != t && Owns(run, i, u)
    ensures run[i + 1].pcs[t] == TryLeave(true) <==> Owns(run, i, t)
    ensures run[i + 1].pcs[t] == TryTake <==> forall u: Tid :: !Owns(run, i, u)
  {
    InvHolds(run, i);
    RunStep(run, i + 1);
    TryTestOutcome(run[i], run[i + 1], t);
    OwnerIsTheOne(run, i);
  }

  /** The same for Lock, which waits where tryLock fails. */
  lemma LockIsRight(run: seq<State>, i: nat, t: Tid)
    requires IsRun(run) && i + 1 < |run| && t in run[i].pcs && t in run[i + 1].pcs
    requires run[i].pcs[t].LockTest? && run[i + 1].pcs[t] != run[i].pcs[t]
    ensures var c, r := run[i].pcs[t].count, run[i].pcs[t].resume; var pc' := run[i + 1].pcs[t];
      && (pc' == LockLeave(c, r, false) <==> exists u: Tid :: u != t && Owns(run, i, u))
      && (pc' == LockLeave(c, r, true) <==> Owns(run, i, t))
      && (pc' == LockTake(c, r) <==> forall u: Tid :: !Owns(run, i, u))
  {
    InvHolds(run, i);
    RunStep(run, i + 1);
    LockTestOutcome(run[i], run[i + 1], t);
    OwnerIsTheOne(run, i);
  }

  lemma UnlockOutcome(s: State, s': State, t: Tid)
    requires Inv(s) && Next(s, s') && t in s.pcs && s.pcs[t] == UnlockTest && t in s'.pcs && s'.pcs[t] != UnlockTest
    ensures s'.pcs[t] == if s.count == 1 then UnlockFree else UnlockLeave
  {
    var u :| StepOf(s, u, s');
    OneThreadMoves(s, u, s', t);
    assert UnlockStep(s, t, s');
  }

  /** Unlock gives the mutex up exactly when it undoes the last Lock. */
  lemma UnlockIsRight(run: seq<State>, i: nat, t: Tid)
    requires IsRun(run) && i + 1 < |run| && t in run[i].pcs && t in run[i + 1].pcs
    requires run[i].pcs[t] == UnlockTest && run[i + 1].pcs[t] != UnlockTest
    ensures run[i + 1].pcs[t] == if Locked(run, t, i) == 1 then UnlockFree else UnlockLeave
  {
    InvHolds(run, i);
    DepthIsCounted(run, i, t);
    assert ThreadInv(run[i], t);
    RunStep(run, i + 1);
    UnlockOutcome(run[i], run[i + 1], t);
  }

  lemma ResetOutcome(s: State, s': State, t: Tid)
    requires Inv(s) && Next(s, s') && t in s.pcs && s.pcs[t] == WaitReset && t in s'.pcs && s'.pcs[t] != WaitReset
    ensures s'.pcs[t] == WaitLeave(s.count)
  {
    var u :| StepOf(s, u, s');
    OneThreadMoves(s, u, s', t);
    assert WaitStep(s, t, s');
  }

  /** A condition wait saves exactly the Lock calls not yet undone. */
  lemma WaitSavesAll(run: seq<State>, i: nat, t: Tid)
    requires IsRun(run) && i + 1 < |run| && t in run[i].pcs && t in run[i + 1].pcs
    requires run[i].pcs[t] == WaitReset && run[i + 1].pcs[t] != WaitReset
    ensures Locked(run, t, i) > 0 && run[i + 1].pcs[t] == WaitLeave(Locked(run, t, i))
  {
    InvHolds(run, i);
    DepthIsCounted(run, i, t);
    assert ThreadInv(run[i], t);
    RunStep(run, i + 1);
    ResetOutcome(run[i], run[i + 1], t);
  }
}
