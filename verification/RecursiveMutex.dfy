// kpr's recursive mutex and its hand-over to a POSIX condition variable
// (src/kpr/Mutex.cpp, src/kpr/Condition.cpp) as a transition system over any
// number of threads: m_count and m_owner are guarded by the inner mutex
// m_internal, and m_mutex is the lock that other threads block on.
//
// One transition is one operation on m_internal, m_mutex or the condition, or
// the code run between two of them while m_internal is held.
module RecursiveMutex {
  import opened Wrappers
  import Runs

  type Tid = nat

  /** `saved` is the depth a condition wait gave up and `resume` marks the lock call
      that takes it back; a plain Lock has count 1 and no resume. */
  datatype Pc =
    | Ready
    | LockEnter(count: nat, resume: bool)  // about to lock m_internal
    | LockTest(count: nat, resume: bool)
    | LockTake(count: nat, resume: bool)   // counted as owner, about to lock m_mutex
    | LockLeave(count: nat, resume: bool, obtained: bool)
    | LockBlock(count: nat, resume: bool)  // about to wait for m_mutex
    | LockPass(count: nat, resume: bool)   // got m_mutex only to give it back
    | TryEnter
    | TryTest
    | TryTake
    | TryLeave(obtained: bool)
    | UnlockEnter
    | UnlockTest
    | UnlockFree                           // m_count reached zero, about to unlock m_mutex
    | UnlockLeave
    | WaitEnter                            // reset4Condvar: about to lock m_internal
    | WaitReset
    | WaitLeave(saved: nat)
    | WaitBlock(saved: nat)                // about to call pthread_cond_wait
    | Waiting(saved: nat)
    | WaitUnlock(saved: nat)               // woken with m_mutex, about to unlock it
    | OwnerEnter
    | OwnerRead
    | OwnerLeave(result: Option<Tid>)

  /** `depth` is history: how many Lock calls of a thread are not yet undone by Unlock,
      whether or not a condition wait has suspended them. */
  datatype State = State(
    internal: Option<Tid>,
    mutex: Option<Tid>,
    count: nat,
    owner: Option<Tid>,
    pcs: map<Tid, Pc>,
    depth: map<Tid, nat>)

  ghost predicate Init(s: State) {
    && s.internal == None && s.mutex == None && s.count == 0 && s.owner == None
    && s.depth.Keys == s.pcs.Keys
    && (forall t :: t in s.pcs ==> s.pcs[t] == Ready && s.depth[t] == 0)
  }

  function At(s: State, t: Tid, pc: Pc): State {
    s.(pcs := s.pcs[t := pc])
  }

  function Deepen(s: State, t: Tid): State
    requires t in s.depth
  {
    s.(depth := s.depth[t := s.depth[t] + 1])
  }

  /** Calls. Unlock and Wait are for the thread that holds the mutex. */
  ghost predicate Call(s: State, t: Tid, s': State)
    requires t in s.pcs && t in s.depth
  {
    && s.pcs[t] == Ready
    && (|| s' == At(s, t, LockEnter(1, false))
        || s' == At(s, t, TryEnter)
        || s' == At(s, t, OwnerEnter)
        || (s.depth[t] > 0 && (s' == At(s, t, UnlockEnter) || s' == At(s, t, WaitEnter))))
  }

  ghost predicate LockStep(s: State, t: Tid, s': State)
    requires t in s.pcs && t in s.depth
  {
    match s.pcs[t]
    case LockEnter(c, r) =>
      s.internal == None && s' == At(s, t, LockTest(c, r)).(internal := Some(t))
    case LockTest(c, r) =>
      if s.count == 0 then
        var taken := At(s, t, LockTake(c, r)).(count := c, owner := Some(t));
        s' == if r then taken else Deepen(taken, t)
      else if s.owner == Some(t) then
        s' == Deepen(At(s, t, LockLeave(c, r, true)), t).(count := s.count + c)
      else
        s' == At(s, t, LockLeave(c, r, false))
    case LockTake(c, r) =>
      s.mutex == None && s' == At(s, t, LockLeave(c, r, true)).(mutex := Some(t))
    case LockLeave(c, r, obtained) =>
      s' == At(s, t, if obtained then Ready else LockBlock(c, r)).(internal := None)
    case LockBlock(c, r) =>
      s.mutex == None && s' == At(s, t, LockPass(c, r)).(mutex := Some(t))
    case LockPass(c, r) => s' == At(s, t, LockEnter(c, r)).(mutex := None)
    case _ => false
  }

  ghost predicate TryStep(s: State, t: Tid, s': State)
    requires t in s.pcs && t in s.depth
  {
    match s.pcs[t]
    case TryEnter => s.internal == None && s' == At(s, t, TryTest).(internal := Some(t))
    case TryTest =>
      if s.count == 0 then
        s' == Deepen(At(s, t, TryTake), t).(count := 1, owner := Some(t))
      else if s.owner == Some(t) then
        s' == Deepen(At(s, t, TryLeave(true)), t).(count := s.count + 1)
      else
        s' == At(s, t, TryLeave(false))
    case TryTake => s.mutex == None && s' == At(s, t, TryLeave(true)).(mutex := Some(t))
    case TryLeave(_) => s' == At(s, t, Ready).(internal := None)
    case _ => false
  }

  ghost predicate UnlockStep(s: State, t: Tid, s': State)
    requires t in s.pcs && t in s.depth
  {
    match s.pcs[t]
    case UnlockEnter => s.internal == None && s' == At(s, t, UnlockTest).(internal := Some(t))
    case UnlockTest =>
      && s.count > 0 && s.depth[t] > 0
      && var less := s.(count := s.count - 1, depth := s.depth[t := s.depth[t] - 1]);
         s' == if less.count == 0 then At(less, t, UnlockFree).(owner := None) else At(less, t, UnlockLeave)
    case UnlockFree => s' == At(s, t, UnlockLeave).(mutex := None)
    case UnlockLeave => s' == At(s, t, Ready).(internal := None)
    case _ => false
  }

  /** A waiter may be woken at any time, by a signal or spuriously; it then has m_mutex. */
  ghost predicate WaitStep(s: State, t: Tid, s': State)
    requires t in s.pcs
  {
    match s.pcs[t]
    case WaitEnter => s.internal == None && s' == At(s, t, WaitReset).(internal := Some(t))
    case WaitReset => s' == At(s, t, WaitLeave(s.count)).(count := 0, owner := None)
    case WaitLeave(saved) => s' == At(s, t, WaitBlock(saved)).(internal := None)
    case WaitBlock(saved) => s' == At(s, t, Waiting(saved)).(mutex := None)
    case Waiting(saved) => s.mutex == None && s' == At(s, t, WaitUnlock(saved)).(mutex := Some(t))
    case WaitUnlock(saved) => s' == At(s, t, LockEnter(saved, true)).(mutex := None)
    case _ => false
  }

  ghost predicate OwnerStep(s: State, t: Tid, s': State)
    requires t in s.pcs
  {
    match s.pcs[t]
    case OwnerEnter => s.internal == None && s' == At(s, t, OwnerRead).(internal := Some(t))
    case OwnerRead => s' == At(s, t, OwnerLeave(if s.count > 0 then s.owner else None))
    case OwnerLeave(_) => s' == At(s, t, Ready).(internal := None)
    case _ => false
  }

  ghost predicate StepOf(s: State, t: Tid, s': State) {
    && t in s.pcs && t in s.depth
    && (|| Call(s, t, s') || LockStep(s, t, s') || TryStep(s, t, s')
        || UnlockStep(s, t, s') || WaitStep(s, t, s') || OwnerStep(s, t, s'))
  }

  ghost predicate Next(s: State, s': State) {
    exists t :: StepOf(s, t, s')
  }

  // ----- the inductive invariant -----

  predicate HasInternal(pc: Pc) {
    || pc.LockTest? || pc.LockTake? || pc.LockLeave? || pc.TryTest? || pc.TryTake? || pc.TryLeave?
    || pc.UnlockTest? || pc.UnlockFree? || pc.UnlockLeave? || pc.WaitReset? || pc.WaitLeave?
    || pc.OwnerRead? || pc.OwnerLeave?
  }

  /** Inside a condition wait or the lock call that ends it, and not yet owner again. */
  predicate Suspended(pc: Pc) {
    || pc.WaitLeave? || pc.WaitBlock? || pc.Waiting? || pc.WaitUnlock?
    || ((pc.LockEnter? || pc.LockTest? || pc.LockBlock? || pc.LockPass?) && pc.resume)
    || (pc.LockLeave? && pc.resume && !pc.obtained)
  }

  /** A thread here with this depth counts as owner: it has locked and is not suspended. */
  predicate Active(pc: Pc, depth: nat) {
    depth > 0 && !Suspended(pc)
  }

  /** Holds m_mutex without being owner; each of these gives it back on its own. */
  predicate Passing(pc: Pc) {
    pc.LockPass? || pc.UnlockFree? || pc.WaitLeave? || pc.WaitBlock? || pc.WaitUnlock?
  }

  predicate HoldsMutex(pc: Pc, depth: nat) {
    Passing(pc) || (Active(pc, depth) && !pc.LockTake? && !pc.TryTake?)
  }

  predicate DepthInv(pc: Pc, depth: nat) {
    match pc
    case LockEnter(c, r) => c > 0 && (if r then depth == c else c == 1)
    case LockTest(c, r) => c > 0 && (if r then depth == c else c == 1)
    case LockTake(c, r) => c > 0 && (if r then depth == c else c == 1 && depth == 1)
    case LockLeave(c, r, obtained) =>
      && c > 0 && (r ==> depth == c) && (!r ==> c == 1)
      && (!r && obtained ==> depth > 0) && (!r && !obtained ==> depth == 0)
    case LockBlock(c, r) => c > 0 && (if r then depth == c else c == 1 && depth == 0)
    case LockPass(c, r) => c > 0 && (if r then depth == c else c == 1 && depth == 0)
    case TryTake => depth == 1
    case TryLeave(obtained) => obtained <==> depth > 0
    case UnlockEnter => depth > 0
    case UnlockTest => depth > 0
    case UnlockFree => depth == 0
    case WaitEnter => depth > 0
    case WaitReset => depth > 0
    case WaitLeave(n) => depth == n > 0
    case WaitBlock(n) => depth == n > 0
    case Waiting(n) => depth == n > 0
    case WaitUnlock(n) => depth == n > 0
    case _ => true
  }

  ghost predicate ThreadInv(s: State, t: Tid)
    requires t in s.pcs && t in s.depth
  {
    var pc, d := s.pcs[t], s.depth[t];
    && DepthInv(pc, d)
    && (s.internal == Some(t) <==> HasInternal(pc))
    && (s.owner == Some(t) <==> Active(pc, d))
    && (s.mutex == Some(t) <==> HoldsMutex(pc, d))
    && (s.owner == Some(t) ==> s.count == d)
    && (pc.OwnerLeave? ==> (pc.result == Some(t) <==> d > 0))
  }

  ghost predicate GlobalInv(s: State) {
    && s.depth.Keys == s.pcs.Keys
    && (s.internal.Some? ==> s.internal.value in s.pcs)
    && (s.mutex.Some? ==> s.mutex.value in s.pcs)
    && (s.owner.Some? ==> s.owner.value in s.pcs)
    && (s.count == 0 <==> s.owner == None)
  }

  ghost predicate Inv(s: State) {
    GlobalInv(s) && forall t :: t in s.pcs ==> ThreadInv(s, t)
  }

  /** A lock word stays, or goes from nobody to t, or from t to nobody. */
  predicate OnlyBy(t: Tid, before: Option<Tid>, after: Option<Tid>) {
    || after == before
    || (before == None && after == Some(t))
    || (before == Some(t) && after == None)
  }

  /** What a step of t keeps for itself and leaves alone for the others. */
  ghost predicate Proper(s: State, t: Tid, s': State) {
    && t in s'.pcs && t in s'.depth
    && s'.pcs == s.pcs[t := s'.pcs[t]] && s'.depth == s.depth[t := s'.depth[t]]
    && OnlyBy(t, s.internal, s'.internal) && OnlyBy(t, s.mutex, s'.mutex) && OnlyBy(t, s.owner, s'.owner)
    && (s'.count != s.count ==> s.owner in {None, Some(t)})
    && (s'.count == 0 <==> s'.owner == None)
    && ThreadInv(s', t)
  }

  lemma ProperKeepsInv(s: State, t: Tid, s': State)
    requires Inv(s) && t in s.pcs && Proper(s, t, s')
    ensures Inv(s')
  {
    forall u | u in s'.pcs && u != t ensures ThreadInv(s', u) {
      assert ThreadInv(s, u);
    }
  }

  lemma CallIsProper(s: State, t: Tid, s': State)
    requires GlobalInv(s) && t in s.pcs && ThreadInv(s, t) && Call(s, t, s')
    ensures Proper(s, t, s')
  {
    CallEnters(s, t, s');
    EntryIsProper(s, t, s'.pcs[t]);
  }

  lemma CallEnters(s: State, t: Tid, s': State)
    requires t in s.pcs && t in s.depth && Call(s, t, s')
    ensures t in s'.pcs && s' == At(s, t, s'.pcs[t])
    ensures var pc := s'.pcs[t];
      && DepthInv(pc, s.depth[t]) && !HasInternal(pc) && !Suspended(pc) && !Passing(pc)
      && !pc.LockTake? && !pc.TryTake? && !pc.OwnerLeave?
  {
  }

  lemma EntryIsProper(s: State, t: Tid, pc: Pc)
    requires GlobalInv(s) && t in s.pcs && ThreadInv(s, t) && s.pcs[t] == Ready
    requires DepthInv(pc, s.depth[t]) && !HasInternal(pc) && !Suspended(pc) && !Passing(pc)
    requires !pc.LockTake? && !pc.TryTake? && !pc.OwnerLeave?
    ensures Proper(s, t, At(s, t, pc))
  {
  }

  lemma LockTestIsProper(s: State, t: Tid, s': State)
    requires GlobalInv(s) && t in s.pcs && ThreadInv(s, t) && s.pcs[t].LockTest? && LockStep(s, t, s')
    ensures Proper(s, t, s')
  {
  }

  lemma LockIsProper(s: State, t: Tid, s': State)
    requires GlobalInv(s) && t in s.pcs && ThreadInv(s, t) && !s.pcs[t].LockTest? && LockStep(s, t, s')
    ensures Proper(s, t, s')
  {
    if s.pcs[t].LockEnter? || s.pcs[t].LockLeave? {
      LockInternalIsProper(s, t, s');
    } else {
      LockMutexIsProper(s, t, s');
    }
  }

  lemma LockInternalIsProper(s: State, t: Tid, s': State)
    requires GlobalInv(s) && t in s.pcs && ThreadInv(s, t) && LockStep(s, t, s')
    requires s.pcs[t].LockEnter? || s.pcs[t].LockLeave?
    ensures Proper(s, t, s')
  {
  }

  lemma LockMutexIsProper(s: State, t: Tid, s': State)
    requires GlobalInv(s) && t in s.pcs && ThreadInv(s, t) && LockStep(s, t, s')
    requires s.pcs[t].LockTake? || s.pcs[t].LockBlock? || s.pcs[t].LockPass?
    ensures Proper(s, t, s')
  {
  }

  lemma TryIsProper(s: State, t: Tid, s': State)
    requires GlobalInv(s) && t in s.pcs && ThreadInv(s, t) && TryStep(s, t, s')
    ensures Proper(s, t, s')
  {
    if s.pcs[t].TryTest? {
      TryTestIsProper(s, t, s');
    } else {
      TryMoveIsProper(s, t, s');
    }
  }

  lemma TryTestIsProper(s: State, t: Tid, s': State)
    requires GlobalInv(s) && t in s.pcs && ThreadInv(s, t) && s.pcs[t].TryTest? && TryStep(s, t, s')
    ensures Proper(s, t, s')
  {
  }

  lemma TryMoveIsProper(s: State, t: Tid, s': State)
    requires GlobalInv(s) && t in s.pcs && ThreadInv(s, t) && !s.pcs[t].TryTest? && TryStep(s, t, s')
    ensures Proper(s, t, s')
  {
  }

  lemma UnlockIsProper(s: State, t: Tid, s': State)
    requires GlobalInv(s) && t in s.pcs && ThreadInv(s, t) && UnlockStep(s, t, s')
    ensures Proper(s, t, s')
  {
  }

  lemma WaitIsProper(s: State, t: Tid, s': State)
    requires GlobalInv(s) && t in s.pcs && ThreadInv(s, t) && WaitStep(s, t, s')
    ensures Proper(s, t, s')
  {
    if s.pcs[t].WaitEnter? || s.pcs[t].WaitReset? || s.pcs[t].WaitLeave? {
      ReleaseIsProper(s, t, s');
    } else {
      WakeIsProper(s, t, s');
    }
  }

  lemma ReleaseIsProper(s: State, t: Tid, s': State)
    requires GlobalInv(s) && t in s.pcs && ThreadInv(s, t) && WaitStep(s, t, s')
    requires s.pcs[t].WaitEnter? || s.pcs[t].WaitReset? || s.pcs[t].WaitLeave?
    ensures Proper(s, t, s')
  {
  }

  lemma WakeIsProper(s: State, t: Tid, s': State)
    requires GlobalInv(s) && t in s.pcs && ThreadInv(s, t) && WaitStep(s, t, s')
    requires s.pcs[t].WaitBlock? || s.pcs[t].Waiting? || s.pcs[t].WaitUnlock?
    ensures Proper(s, t, s')
  {
  }

  lemma OwnerIsProper(s: State, t: Tid, s': State)
    requires GlobalInv(s) && t in s.pcs && ThreadInv(s, t) && OwnerStep(s, t, s')
    ensures Proper(s, t, s')
  {
  }

  lemma StepIsProper(s: State, t: Tid, s': State)
    requires GlobalInv(s) && StepOf(s, t, s') && ThreadInv(s, t)
    ensures Proper(s, t, s')
  {
    if Call(s, t, s') {
      CallIsProper(s, t, s');
    } else if LockStep(s, t, s') {
      if s.pcs[t].LockTest? {
        LockTestIsProper(s, t, s');
      } else {
        LockIsProper(s, t, s');
      }
    } else if TryStep(s, t, s') {
      TryIsProper(s, t, s');
    } else if UnlockStep(s, t, s') {
      UnlockIsProper(s, t, s');
    } else if WaitStep(s, t, s') {
      WaitIsProper(s, t, s');
    } else {
      OwnerIsProper(s, t, s');
    }
  }

  lemma NextKeepsInv(s: State, s': State)
    requires Inv(s) && Next(s, s')
    ensures Inv(s')
  {
    var t :| StepOf(s, t, s');
    StepIsProper(s, t, s');
    ProperKeepsInv(s, t, s');
  }

  // ----- main results, for every run with any number of threads -----

  ghost predicate IsRun(run: seq<State>) {
    Runs.IsRun((s: State) => Init(s), (s: State, s': State) => Next(s, s'), run)
  }

  lemma InvHolds(run: seq<State>, i: nat)
    requires IsRun(run) && i < |run|
    ensures Inv(run[i])
  {
    forall s | Init(s) ensures Inv(s) {
    }
    forall s, s' | Inv(s) && Next(s, s') ensures Inv(s') {
      NextKeepsInv(s, s');
    }
    Runs.InvariantHolds((s: State) => Init(s), (s: State, s': State) => Next(s, s'), (s: State) => Inv(s), run, i);
  }

  lemma RunStep(run: seq<State>, i: nat)
    requires IsRun(run) && 0 < i < |run|
    ensures Next(run[i - 1], run[i])
  {
    Runs.StepAt((s: State) => Init(s), (s: State, s': State) => Next(s, s'), run, i);
  }

  /** Outside every call and with Lock calls to undo: running the protected code. */
  ghost predicate InSection(s: State, t: Tid) {
    t in s.pcs && t in s.depth && s.pcs[t] == Ready && s.depth[t] > 0
  }

  /** Mutual exclusion through nesting and waits; inside, the counters are exact. */
  lemma MutualExclusion(run: seq<State>, i: nat, t: Tid, u: Tid)
    requires IsRun(run) && i < |run| && InSection(run[i], t)
    ensures run[i].owner == run[i].mutex == Some(t) && run[i].count == run[i].depth[t]
    ensures InSection(run[i], u) ==> u == t
  {
    InvHolds(run, i);
    assert ThreadInv(run[i], t);
    if InSection(run[i], u) {
      assert ThreadInv(run[i], u);
    }
  }

  /** Inside a condition wait, from its start until the lock call that ends it returns. */
  predicate InWait(pc: Pc) {
    || pc.WaitEnter? || pc.WaitReset? || pc.WaitLeave? || pc.WaitBlock? || pc.Waiting? || pc.WaitUnlock?
    || ((pc.LockEnter? || pc.LockTest? || pc.LockTake? || pc.LockLeave? || pc.LockBlock? || pc.LockPass?) && pc.resume)
  }

  lemma StepWithinWait(s: State, s': State, t: Tid)
    requires Inv(s) && Next(s, s') && t in s.pcs && InWait(s.pcs[t])
    ensures t in s'.pcs && t in s'.depth && s'.depth[t] == s.depth[t]
    ensures InWait(s'.pcs[t]) || s'.pcs[t] == Ready
  {
    var u :| StepOf(s, u, s');
    assert ThreadInv(s, t) && ThreadInv(s, u);
    StepIsProper(s, u, s');
    if u == t {
      StepOfWaiter(s, t, s');
    }
  }

  lemma StepOfWaiter(s: State, t: Tid, s': State)
    requires GlobalInv(s) && StepOf(s, t, s') && ThreadInv(s, t) && InWait(s.pcs[t])
    ensures s'.depth[t] == s.depth[t]
    ensures InWait(s'.pcs[t]) || s'.pcs[t] == Ready
  {
    assert LockStep(s, t, s') || WaitStep(s, t, s');
  }

  /** A thread that waited on the condition returns as owner with exactly the depth it
      gave up, whatever the other threads did meanwhile. */
  lemma {:induction false} WaitRegainsDepth(run: seq<State>, i: nat, j: nat, t: Tid)
    requires IsRun(run) && i <= j < |run|
    requires t in run[i].pcs && InWait(run[i].pcs[t])
    requires forall k :: i <= k < j ==> t in run[k].pcs && InWait(run[k].pcs[t])
    ensures t in run[i].depth && t in run[j].depth && t in run[j].pcs
    ensures run[j].depth[t] == run[i].depth[t] > 0
    ensures InWait(run[j].pcs[t]) || run[j].pcs[t] == Ready
    ensures run[j].pcs[t] == Ready ==>
      run[j].owner == run[j].mutex == Some(t) && run[j].count == run[i].depth[t]
    decreases j
  {
    InvHolds(run, j);
    if i == j {
      WaiterHasDepth(run[j], t);
    } else {
      WaitRegainsDepth(run, i, j - 1, t);
      InvHolds(run, j - 1);
      RunStep(run, j);
      StepWithinWait(run[j - 1], run[j], t);
      if run[j].pcs[t] == Ready {
        SectionIsOwned(run[j], t);
      }
    }
  }

  lemma SectionIsOwned(s: State, t: Tid)
    requires Inv(s) && InSection(s, t)
    ensures s.owner == s.mutex == Some(t) && s.count == s.depth[t]
  {
    assert ThreadInv(s, t);
  }

  lemma WaiterHasDepth(s: State, t: Tid)
    requires Inv(s) && t in s.pcs && InWait(s.pcs[t])
    ensures t in s.depth && s.depth[t] > 0
  {
    assert ThreadInv(s, t);
  }

  /** The lock order is never circular: whoever blocks on m_mutex while it has m_internal
      waits for a thread that gives m_mutex back in its next step without m_internal. */
  lemma InternalHolderIsServed(run: seq<State>, i: nat, t: Tid) returns (h: Tid, s': State)
    requires IsRun(run) && i < |run| && t in run[i].pcs
    requires run[i].pcs[t].LockTake? || run[i].pcs[t].TryTake?
    requires run[i].mutex.Some?
    ensures run[i].internal == Some(t) && run[i].mutex == Some(h) && h != t
    ensures h in run[i].pcs && !HasInternal(run[i].pcs[h])
    ensures StepOf(run[i], h, s') && s'.mutex == None && s'.internal == run[i].internal
  {
    InvHolds(run, i);
    var s := run[i];
    h := s.mutex.value;
    assert ThreadInv(s, t) && ThreadInv(s, h);
    s' := PassOn(s, h);
  }

  ghost function PassOn(s: State, h: Tid): (s': State)
    requires Inv(s) && h in s.pcs && s.mutex == Some(h) && Passing(s.pcs[h]) && !HasInternal(s.pcs[h])
    ensures StepOf(s, h, s') && s'.mutex == None && s'.internal == s.internal
  {
    match s.pcs[h]
    case LockPass(c, r) => At(s, h, LockEnter(c, r)).(mutex := None)
    case WaitBlock(n) => At(s, h, Waiting(n)).(mutex := None)
    case WaitUnlock(n) => At(s, h, LockEnter(n, true)).(mutex := None)
    case _ => assert false; s
  }

  /** A thread that is between two steps of a call and not asleep on the condition. */
  ghost predicate InCall(s: State, t: Tid) {
    t in s.pcs && s.pcs[t] != Ready && !s.pcs[t].Waiting?
  }

  ghost predicate CanStep(s: State, t: Tid) {
    InCall(s, t) && exists s' :: StepOf(s, t, s')
  }

  /** No deadlock: while some call is unfinished, either a call can go on or m_mutex is
      held by a thread that is running protected code. */
  lemma NoDeadlock(run: seq<State>, i: nat, t: Tid)
    requires IsRun(run) && i < |run| && InCall(run[i], t)
    ensures (exists u :: CanStep(run[i], u)) || (exists h :: run[i].mutex == Some(h) && InSection(run[i], h))
  {
    InvHolds(run, i);
    var s := run[i];
    if s.internal.Some? {
      var h := s.internal.value;
      assert ThreadInv(s, h);
      if (s.pcs[h].LockTake? || s.pcs[h].TryTake?) && s.mutex.Some? {
        var g, s' := InternalHolderIsServed(run, i, h);
        assert CanStep(s, g);
      } else {
        InternalHolderSteps(s, h);
      }
    } else {
      assert ThreadInv(s, t);
      if s.mutex.Some? && s.pcs[t].LockBlock? {
        var g := s.mutex.value;
        assert ThreadInv(s, g);
        if s.pcs[g] != Ready {
          FreeInternalSteps(s, g);
        }
      } else {
        FreeInternalSteps(s, t);
      }
    }
  }

  lemma InternalHolderSteps(s: State, h: Tid)
    requires Inv(s) && h in s.pcs && HasInternal(s.pcs[h])
    requires s.pcs[h].LockTake? || s.pcs[h].TryTake? ==> s.mutex == None
    ensures CanStep(s, h)
  {
    assert ThreadInv(s, h);
    if s.pcs[h].LockTest? || s.pcs[h].LockTake? || s.pcs[h].LockLeave? {
      LockHolderSteps(s, h);
    } else if s.pcs[h].TryTest? || s.pcs[h].TryTake? || s.pcs[h].TryLeave? {
      TryHolderSteps(s, h);
    } else {
      OtherHolderSteps(s, h);
    }
  }

  lemma LockHolderSteps(s: State, h: Tid)
    requires h in s.pcs && h in s.depth && (s.pcs[h].LockTest? || s.pcs[h].LockTake? || s.pcs[h].LockLeave?)
    requires s.pcs[h].LockTake? ==> s.mutex == None
    ensures CanStep(s, h)
  {
    var s' :=
      match s.pcs[h]
      case LockTest(c, r) =>
        if s.count == 0 then
          var taken := At(s, h, LockTake(c, r)).(count := c, owner := Some(h));
          if r then taken else Deepen(taken, h)
        else if s.owner == Some(h) then Deepen(At(s, h, LockLeave(c, r, true)), h).(count := s.count + c)
        else At(s, h, LockLeave(c, r, false))
      case LockTake(c, r) => At(s, h, LockLeave(c, r, true)).(mutex := Some(h))
      case LockLeave(c, r, obtained) => At(s, h, if obtained then Ready else LockBlock(c, r)).(internal := None);
    assert LockStep(s, h, s') && StepOf(s, h, s');
  }

  lemma TryHolderSteps(s: State, h: Tid)
    requires h in s.pcs && h in s.depth && (s.pcs[h].TryTest? || s.pcs[h].TryTake? || s.pcs[h].TryLeave?)
    requires s.pcs[h].TryTake? ==> s.mutex == None
    ensures CanStep(s, h)
  {
    var s' :=
      match s.pcs[h]
      case TryTest =>
        if s.count == 0 then Deepen(At(s, h, TryTake), h).(count := 1, owner := Some(h))
        else if s.owner == Some(h) then Deepen(At(s, h, TryLeave(true)), h).(count := s.count + 1)
        else At(s, h, TryLeave(false))
      case TryTake => At(s, h, TryLeave(true)).(mutex := Some(h))
      case TryLeave(_) => At(s, h, Ready).(internal := None);
    assert TryStep(s, h, s') && StepOf(s, h, s');
  }

  lemma OtherHolderSteps(s: State, h: Tid)
    requires GlobalInv(s) && h in s.pcs && ThreadInv(s, h) && HasInternal(s.pcs[h])
    requires !s.pcs[h].LockTest? && !s.pcs[h].LockTake? && !s.pcs[h].LockLeave?
    requires !s.pcs[h].TryTest? && !s.pcs[h].TryTake? && !s.pcs[h].TryLeave?
    ensures CanStep(s, h)
  {
    var s' :=
      match s.pcs[h]
      case UnlockTest =>
        var less := s.(count := s.count - 1, depth := s.depth[h := s.depth[h] - 1]);
        if less.count == 0 then At(less, h, UnlockFree).(owner := None) else At(less, h, UnlockLeave)
      case UnlockFree => At(s, h, UnlockLeave).(mutex := None)
      case WaitReset => At(s, h, WaitLeave(s.count)).(count := 0, owner := None)
      case WaitLeave(saved) => At(s, h, WaitBlock(saved)).(internal := None)
      case OwnerRead => At(s, h, OwnerLeave(if s.count > 0 then s.owner else None))
      case _ => At(s, h, Ready).(internal := None);
    assert StepOf(s, h, s');
  }

  lemma FreeInternalSteps(s: State, t: Tid)
    requires Inv(s) && InCall(s, t) && s.internal == None
    requires s.pcs[t].LockBlock? ==> s.mutex == None
    ensures CanStep(s, t)
  {
    assert ThreadInv(s, t);
    var entered := s.(internal := Some(t));
    var s' :=
      match s.pcs[t]
      case LockEnter(c, r) => At(entered, t, LockTest(c, r))
      case LockBlock(c, r) => At(s, t, LockPass(c, r)).(mutex := Some(t))
      case LockPass(c, r) => At(s, t, LockEnter(c, r)).(mutex := None)
      case TryEnter => At(entered, t, TryTest)
      case UnlockEnter => At(entered, t, UnlockTest)
      case WaitEnter => At(entered, t, WaitReset)
      case WaitBlock(n) => At(s, t, Waiting(n)).(mutex := None)
      case WaitUnlock(n) => At(s, t, LockEnter(n, true)).(mutex := None)
      case _ => At(entered, t, OwnerRead);
    assert StepOf(s, t, s');
  }

  /** GetOwner names the caller exactly when the caller holds the mutex. */
  lemma GetOwnerIsExact(run: seq<State>, i: nat, t: Tid)
    requires IsRun(run) && i < |run| && t in run[i].pcs && run[i].pcs[t].OwnerLeave?
    ensures t in run[i].depth
    ensures run[i].pcs[t].result == Some(t) <==> run[i].depth[t] > 0
  {
    InvHolds(run, i);
    assert ThreadInv(run[i], t);
  }
}
