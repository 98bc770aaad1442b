// The condition variable that kpr builds from two semaphores, a mutex and three
// counters (src/kpr/Condition.cpp, class CondImpl), with untimed waits, as a
// transition system over any number of threads.
//
// One transition is one semaphore or mutex operation, or the code a thread runs
// between two of them on counters nobody else may touch meanwhile.
module CondImpl {
  import opened Wrappers
  import Runs

  type Tid = nat

  datatype Pc =
    | Out
    | NotifyGate(broadcast: bool)    // about to take the gate
    | NotifyLock(broadcast: bool)    // has the gate, about to lock m_internal
    | NotifyDecide(broadcast: bool)  // has both
    | NotifyUnlock                   // decided to wake, about to unlock m_internal
    | NotifyToken                    // about to release m_queue
    | NotifyReopen                   // nobody to wake, about to release the gate
    | NotifyLeave                    // about to unlock m_internal
    | PreGate
    | PreCount
    | PreRelease
    | Queued                         // PreWait is complete; waits on m_queue
    | Woken                          // took the token, about to lock m_internal
    | PostDecide
    | PostUnlock(last: bool)
    | PostPass(last: bool)           // about to release the gate or pass the token on
    | PostLeave                      // found m_toUnblock == 0

  /** History of one wave of wake-ups: its kind, the threads that had completed PreWait
      when the notifier took the gate, and those released so far. */
  datatype Wave = Wave(broadcast: bool, targets: set<Tid>, released: set<Tid>)

  /** History: who has the gate. In a wave nobody does, and the single token is
      carried by one thread or lies in m_queue. */
  datatype Phase =
    | Open
    | Held(holder: Tid, waitingAtGate: set<Tid>)
    | Waking(wave: Wave, carrier: Option<Tid>)

  datatype State = State(
    gate: nat,
    queue: nat,
    internal: Option<Tid>,
    blocked: int,
    unblocked: int,
    toUnblock: int,
    pcs: map<Tid, Pc>,
    waiting: set<Tid>,   // history: counted in m_blocked and not yet in m_unblocked
    phase: Phase,
    waves: seq<Wave>)    // history: finished waves

  ghost predicate Init(s: State) {
    && s.gate == 1 && s.queue == 0 && s.internal == None
    && s.blocked == s.unblocked == s.toUnblock == 0
    && (forall t :: t in s.pcs ==> s.pcs[t] == Out)
    && s.waiting == {} && s.phase == Open && s.waves == []
  }

  function At(s: State, t: Tid, pc: Pc): State {
    s.(pcs := s.pcs[t := pc])
  }

  /** m_blocked once the threads already unblocked are taken off. */
  function Settled(s: State): int {
    if s.unblocked != 0 then s.blocked - s.unblocked else s.blocked
  }

  ghost predicate NotifyStep(s: State, t: Tid, s': State)
    requires t in s.pcs
  {
    match s.pcs[t]
    case NotifyGate(b) =>
      s.gate > 0 && s' == At(s, t, NotifyLock(b)).(gate := s.gate - 1, phase := Held(t, s.waiting))
    case NotifyLock(b) =>
      s.internal == None && s' == At(s, t, NotifyDecide(b)).(internal := Some(t))
    case NotifyDecide(b) =>
      var left := Settled(s);
      var settled := s.(blocked := left, unblocked := 0);
      if left > 0 then
        && s.phase.Held?
        && s' == At(settled, t, NotifyUnlock).(
                   toUnblock := if b then left else 1,
                   phase := Waking(Wave(b, s.phase.waitingAtGate, {}), Some(t)))
      else
        s' == At(settled, t, NotifyReopen)
    case NotifyUnlock => s' == At(s, t, NotifyToken).(internal := None)
    case NotifyToken =>
      s.phase.Waking? && s' == At(s, t, Out).(queue := s.queue + 1, phase := s.phase.(carrier := None))
    case NotifyReopen => s' == At(s, t, NotifyLeave).(gate := s.gate + 1, phase := Open)
    case NotifyLeave => s' == At(s, t, Out).(internal := None)
    case _ => false
  }

  ghost predicate PreWaitStep(s: State, t: Tid, s': State)
    requires t in s.pcs
  {
    match s.pcs[t]
    case PreGate =>
      s.gate > 0 && s' == At(s, t, PreCount).(gate := s.gate - 1, phase := Held(t, s.waiting))
    case PreCount =>
      s' == At(s, t, PreRelease).(blocked := s.blocked + 1, waiting := s.waiting + {t})
    case PreRelease => s' == At(s, t, Queued).(gate := s.gate + 1, phase := Open)
    case _ => false
  }

  ghost predicate WaitStep(s: State, t: Tid, s': State)
    requires t in s.pcs
  {
    match s.pcs[t]
    case Queued =>
      && s.queue > 0 && s.phase.Waking?
      && s' == At(s, t, Woken).(queue := s.queue - 1, phase := s.phase.(carrier := Some(t)))
    case Woken =>
      s.internal == None && s' == At(s, t, PostDecide).(internal := Some(t))
    case PostDecide =>
      var counted := s.(unblocked := s.unblocked + 1, waiting := s.waiting - {t});
      if s.toUnblock != 0 then
        && s.phase.Waking?
        && var wave := s.phase.wave;
           s' == At(counted, t, PostUnlock(s.toUnblock - 1 == 0)).(
                   toUnblock := s.toUnblock - 1,
                   phase := s.phase.(wave := wave.(released := wave.released + {t})))
      else
        s' == At(counted, t, PostLeave)
    case PostUnlock(last) => s' == At(s, t, PostPass(last)).(internal := None)
    case PostPass(last) =>
      && s.phase.Waking?
      && (if last then
            s' == At(s, t, Out).(gate := s.gate + 1, phase := Open, waves := s.waves + [s.phase.wave])
          else
            s' == At(s, t, Out).(queue := s.queue + 1, phase := s.phase.(carrier := None)))
    case PostLeave => s' == At(s, t, Out).(internal := None)
    case _ => false
  }

  ghost predicate StepOf(s: State, t: Tid, s': State) {
    && t in s.pcs
    && (|| (s.pcs[t] == Out && (s' == At(s, t, PreGate) || exists b :: s' == At(s, t, NotifyGate(b))))
        || NotifyStep(s, t, s')
        || PreWaitStep(s, t, s')
        || WaitStep(s, t, s'))
  }

  ghost predicate Next(s: State, s': State) {
    exists t :: StepOf(s, t, s')
  }

  // ----- the inductive invariant -----

  predicate HasInternal(pc: Pc) {
    || pc.NotifyDecide? || pc.NotifyUnlock? || pc.NotifyReopen? || pc.NotifyLeave?
    || pc.PostDecide? || pc.PostUnlock? || pc.PostLeave?
  }

  predicate HasGate(pc: Pc) {
    pc.NotifyLock? || pc.NotifyDecide? || pc.NotifyReopen? || pc.PreCount? || pc.PreRelease?
  }

  predicate HasToken(pc: Pc) {
    pc.NotifyUnlock? || pc.NotifyToken? || pc.Woken? || pc.PostDecide? || pc.PostUnlock? || pc.PostPass?
  }

  predicate Counted(pc: Pc) {
    pc.PreRelease? || pc.Queued? || pc.Woken? || pc.PostDecide?
  }

  function Quota(w: Wave): nat {
    if w.broadcast then |w.targets| else 1
  }

  /** A finished wave released everybody it should and nobody else. */
  ghost predicate Complete(w: Wave) {
    && w.targets != {} && w.released <= w.targets
    && (if w.broadcast then w.released == w.targets else exists t :: w.released == {t})
  }

  ghost predicate PhaseInv(s: State) {
    match s.phase
    case Open =>
      && s.gate == 1 && s.queue == 0 && s.toUnblock == 0
      && (forall t :: t in s.pcs ==> !HasGate(s.pcs[t]) && !HasToken(s.pcs[t]))
    case Held(h, before) =>
      && s.gate == 0 && s.queue == 0 && s.toUnblock == 0
      && h in s.pcs && HasGate(s.pcs[h])
      && (forall t :: t in s.pcs ==> (HasGate(s.pcs[t]) ==> t == h) && !HasToken(s.pcs[t]))
      && (!s.pcs[h].PreRelease? ==> s.waiting == before)
      && (s.pcs[h].NotifyReopen? ==> s.waiting == {})
    case Waking(w, carrier) =>
      && s.gate == 0 && s.queue == (if carrier.None? then 1 else 0)
      && (carrier.Some? ==> carrier.value in s.pcs && HasToken(s.pcs[carrier.value]))
      && (forall t :: t in s.pcs ==> !HasGate(s.pcs[t]) && (HasToken(s.pcs[t]) ==> carrier == Some(t)))
      && w.targets != {} && w.released <= w.targets && s.waiting == w.targets - w.released
      && s.toUnblock == Quota(w) - |w.released|
      && (if carrier.Some? && (s.pcs[carrier.value].PostUnlock? || s.pcs[carrier.value].PostPass?)
          then s.toUnblock >= 0 && (s.pcs[carrier.value].last <==> s.toUnblock == 0)
          else s.toUnblock > 0)
  }

  ghost predicate InternalInv(s: State) {
    && (forall t :: t in s.pcs ==> (s.internal == Some(t) <==> HasInternal(s.pcs[t])))
    && (s.internal.Some? ==> s.internal.value in s.pcs)
  }

  ghost predicate CountInv(s: State) {
    && (forall t :: t in s.waiting <==> t in s.pcs && Counted(s.pcs[t]))
    && s.blocked - s.unblocked == |s.waiting|
  }

  ghost predicate Inv(s: State) {
    && InternalInv(s) && CountInv(s) && PhaseInv(s)
    && (forall t :: t in s.pcs ==> !s.pcs[t].PostLeave?)
    && (forall i :: 0 <= i < |s.waves| ==> Complete(s.waves[i]))
  }

  lemma OneCounterMoves(s: State, t: Tid, s': State)
    requires StepOf(s, t, s')
    ensures s'.pcs == s.pcs[t := s'.pcs[t]]
  {
  }

  lemma InternalMoves(s: State, t: Tid, s': State)
    requires StepOf(s, t, s')
    ensures s'.internal == if HasInternal(s'.pcs[t]) == HasInternal(s.pcs[t]) then s.internal
                           else if HasInternal(s'.pcs[t]) then Some(t) else None
    ensures HasInternal(s'.pcs[t]) ==> HasInternal(s.pcs[t]) || s.internal == None
  {
  }

  lemma InternalKept(s: State, t: Tid, s': State)
    requires InternalInv(s) && StepOf(s, t, s')
    ensures InternalInv(s')
  {
    OneCounterMoves(s, t, s');
    InternalMoves(s, t, s');
  }

  lemma CountKept(s: State, t: Tid, s': State)
    requires CountInv(s) && StepOf(s, t, s')
    requires s'.waiting == s.waiting && s'.blocked - s'.unblocked == s.blocked - s.unblocked
    requires Counted(s.pcs[t]) <==> Counted(s'.pcs[t])
    ensures CountInv(s')
  {
    OneCounterMoves(s, t, s');
  }

  lemma PreCountCounts(s: State, t: Tid, s': State)
    requires CountInv(s) && t in s.pcs && s.pcs[t].PreCount? && PreWaitStep(s, t, s')
    ensures CountInv(s')
  {
    assert t !in s.waiting;
  }

  lemma PostDecideUncounts(s: State, t: Tid, s': State)
    requires CountInv(s) && t in s.pcs && s.pcs[t].PostDecide? && WaitStep(s, t, s')
    ensures CountInv(s')
  {
    assert t in s.waiting;
  }

  lemma FullSubset<T>(a: set<T>, b: set<T>)
    requires a <= b && |a| == |b|
    ensures a == b
  {
    assert b == a + (b - a);
  }

  lemma Singleton<T>(a: set<T>)
    requires |a| == 1
    ensures exists t :: a == {t}
  {
    var t :| t in a;
    FullSubset({t}, a);
  }

  lemma LastReleaseCompletes(w: Wave)
    requires w.targets != {} && w.released <= w.targets && |w.released| == Quota(w)
    ensures Complete(w)
  {
    if w.broadcast {
      FullSubset(w.released, w.targets);
    } else {
      Singleton(w.released);
    }
  }

  /** The history that some steps mention is there whenever the code gets to them. */
  lemma GuardsHold(s: State, t: Tid)
    requires PhaseInv(s) && CountInv(s) && t in s.pcs
    ensures s.pcs[t].NotifyDecide? ==> s.phase.Held? && Settled(s) == |s.waiting|
    ensures HasToken(s.pcs[t]) ==> s.phase.Waking?
    ensures s.pcs[t].Queued? && s.queue > 0 ==> s.phase.Waking?
  {
  }

  lemma DecideKeepsPhase(s: State, t: Tid, s': State)
    requires Inv(s) && t in s.pcs && s.pcs[t].NotifyDecide? && NotifyStep(s, t, s')
    ensures PhaseInv(s')
  {
    assert s.phase.Held? && s.phase.holder == t;
    assert s.waiting == s.phase.waitingAtGate;
    assert Settled(s) == |s.waiting|;
  }

  lemma NotifyKeepsPhase(s: State, t: Tid, s': State)
    requires Inv(s) && t in s.pcs && !s.pcs[t].NotifyDecide? && NotifyStep(s, t, s')
    ensures PhaseInv(s')
  {
    if s.pcs[t].NotifyUnlock? || s.pcs[t].NotifyToken? {
      NotifyTokenKeepsPhase(s, t, s');
    } else {
      NotifyGateKeepsPhase(s, t, s');
    }
  }

  lemma NotifyTokenKeepsPhase(s: State, t: Tid, s': State)
    requires Inv(s) && t in s.pcs && (s.pcs[t].NotifyUnlock? || s.pcs[t].NotifyToken?) && NotifyStep(s, t, s')
    ensures PhaseInv(s')
  {
  }

  lemma NotifyGateKeepsPhase(s: State, t: Tid, s': State)
    requires Inv(s) && t in s.pcs && !s.pcs[t].NotifyDecide? && NotifyStep(s, t, s')
    requires !s.pcs[t].NotifyUnlock? && !s.pcs[t].NotifyToken?
    ensures PhaseInv(s')
  {
    if s.pcs[t].NotifyGate? || s.pcs[t].NotifyReopen? {
      GateMoveKeepsPhase(s, t, s');
    } else {
      LockMoveKeepsPhase(s, t, s');
    }
  }

  lemma GateMoveKeepsPhase(s: State, t: Tid, s': State)
    requires PhaseInv(s) && CountInv(s) && t in s.pcs && NotifyStep(s, t, s')
    requires s.pcs[t].NotifyGate? || s.pcs[t].NotifyReopen?
    ensures PhaseInv(s')
  {
    assert s'.pcs == s.pcs[t := s'.pcs[t]];
  }

  lemma LockMoveKeepsPhase(s: State, t: Tid, s': State)
    requires PhaseInv(s) && t in s.pcs && NotifyStep(s, t, s')
    requires s.pcs[t].NotifyLock? || s.pcs[t].NotifyLeave?
    ensures PhaseInv(s')
  {
    assert s'.pcs == s.pcs[t := s'.pcs[t]];
  }

  lemma EnterKeepsPhase(s: State, t: Tid, s': State, pc: Pc)
    requires Inv(s) && t in s.pcs && s.pcs[t] == Out && s' == At(s, t, pc)
    requires pc.PreGate? || pc.NotifyGate?
    ensures PhaseInv(s')
  {
  }

  lemma PreWaitKeepsPhase(s: State, t: Tid, s': State)
    requires Inv(s) && t in s.pcs && PreWaitStep(s, t, s')
    ensures PhaseInv(s')
  {
  }

  lemma WaitKeepsPhase(s: State, t: Tid, s': State)
    requires Inv(s) && t in s.pcs && WaitStep(s, t, s')
    ensures PhaseInv(s')
  {
    if s.pcs[t].PostDecide? {
      PostDecideKeepsPhase(s, t, s');
    } else {
      OtherWaitKeepsPhase(s, t, s');
    }
  }

  lemma PostDecideKeepsPhase(s: State, t: Tid, s': State)
    requires PhaseInv(s) && CountInv(s) && t in s.pcs && s.pcs[t].PostDecide? && WaitStep(s, t, s')
    ensures PhaseInv(s')
  {
    GuardsHold(s, t);
    var w := s.phase.wave;
    assert t in s.waiting && t !in w.released && s.phase.carrier == Some(t);
    assert s'.waiting == w.targets - (w.released + {t});
    assert |w.released + {t}| == |w.released| + 1;
  }

  lemma OtherWaitKeepsPhase(s: State, t: Tid, s': State)
    requires Inv(s) && t in s.pcs && !s.pcs[t].PostDecide? && WaitStep(s, t, s')
    ensures PhaseInv(s')
  {
    if s.pcs[t].PostPass? {
      PassKeepsPhase(s, t, s');
    } else {
      TokenMoveKeepsPhase(s, t, s');
    }
  }

  lemma PassKeepsPhase(s: State, t: Tid, s': State)
    requires PhaseInv(s) && t in s.pcs && s.pcs[t].PostPass? && WaitStep(s, t, s')
    ensures PhaseInv(s')
  {
    assert s'.pcs == s.pcs[t := Out] && s.phase.carrier == Some(t);
  }

  lemma TokenMoveKeepsPhase(s: State, t: Tid, s': State)
    requires Inv(s) && t in s.pcs && !s.pcs[t].PostDecide? && !s.pcs[t].PostPass? && WaitStep(s, t, s')
    ensures PhaseInv(s')
  {
    assert s'.pcs == s.pcs[t := s'.pcs[t]];
  }

  lemma WavesKept(s: State, t: Tid, s': State)
    requires Inv(s) && StepOf(s, t, s')
    ensures forall t :: t in s'.pcs ==> !s'.pcs[t].PostLeave?
    ensures forall i :: 0 <= i < |s'.waves| ==> Complete(s'.waves[i])
  {
    NobodyLeaves(s, t, s');
    if s.pcs[t] == PostPass(true) {
      LastPassKeepsWaves(s, t, s');
    } else {
      OthersKeepWaves(s, t, s');
    }
  }

  lemma NobodyLeaves(s: State, t: Tid, s': State)
    requires Inv(s) && StepOf(s, t, s')
    ensures forall t :: t in s'.pcs ==> !s'.pcs[t].PostLeave?
  {
    if s.pcs[t].PostDecide? {
      DeciderDoesNotLeave(s, t, s');
    } else {
      NoOtherLeaves(s, t, s');
    }
    OneCounterMoves(s, t, s');
  }

  lemma NoOtherLeaves(s: State, t: Tid, s': State)
    requires StepOf(s, t, s') && !s.pcs[t].PostDecide?
    ensures !s'.pcs[t].PostLeave?
  {
  }

  lemma DeciderDoesNotLeave(s: State, t: Tid, s': State)
    requires Inv(s) && StepOf(s, t, s') && s.pcs[t].PostDecide?
    ensures s'.pcs[t].PostUnlock?
  {
    assert s.phase.Waking? && s.toUnblock > 0;
  }

  lemma OthersKeepWaves(s: State, t: Tid, s': State)
    requires Inv(s) && StepOf(s, t, s') && s.pcs[t] != PostPass(true)
    ensures s'.waves == s.waves
  {
  }

  lemma LastPassKeepsWaves(s: State, t: Tid, s': State)
    requires Inv(s) && StepOf(s, t, s') && s.pcs[t] == PostPass(true)
    ensures forall i :: 0 <= i < |s'.waves| ==> Complete(s'.waves[i])
  {
    LastReleaseCompletes(s.phase.wave);
  }

  lemma NotifyKeepsCount(s: State, t: Tid, s': State)
    requires CountInv(s) && t in s.pcs && NotifyStep(s, t, s')
    ensures CountInv(s')
  {
    CountKept(s, t, s');
  }

  lemma NotifyKeepsInv(s: State, t: Tid, s': State)
    requires Inv(s) && t in s.pcs && NotifyStep(s, t, s')
    ensures Inv(s')
  {
    InternalKept(s, t, s');
    NotifyKeepsCount(s, t, s');
    WavesKept(s, t, s');
    if s.pcs[t].NotifyDecide? {
      DecideKeepsPhase(s, t, s');
    } else {
      NotifyKeepsPhase(s, t, s');
    }
  }

  lemma PreWaitKeepsInv(s: State, t: Tid, s': State)
    requires Inv(s) && t in s.pcs && PreWaitStep(s, t, s')
    ensures Inv(s')
  {
    InternalKept(s, t, s');
    if s.pcs[t].PreCount? {
      PreCountCounts(s, t, s');
    } else {
      CountKept(s, t, s');
    }
    WavesKept(s, t, s');
    PreWaitKeepsPhase(s, t, s');
  }

  lemma WaitKeepsCount(s: State, t: Tid, s': State)
    requires CountInv(s) && t in s.pcs && WaitStep(s, t, s')
    ensures CountInv(s')
  {
    if s.pcs[t].PostDecide? {
      PostDecideUncounts(s, t, s');
    } else {
      CountKept(s, t, s');
    }
  }

  lemma WaitKeepsInv(s: State, t: Tid, s': State)
    requires Inv(s) && t in s.pcs && WaitStep(s, t, s')
    ensures Inv(s')
  {
    InternalKept(s, t, s');
    WaitKeepsCount(s, t, s');
    WavesKept(s, t, s');
    WaitKeepsPhase(s, t, s');
  }

  lemma EnterKeepsInv(s: State, t: Tid, s': State)
    requires Inv(s) && t in s.pcs && s.pcs[t] == Out
    requires s' == At(s, t, PreGate) || exists b :: s' == At(s, t, NotifyGate(b))
    ensures Inv(s')
  {
    InternalKept(s, t, s');
    CountKept(s, t, s');
    WavesKept(s, t, s');
    EnterKeepsPhase(s, t, s', s'.pcs[t]);
  }

  lemma NextKeepsInv(s: State, s': State)
    requires Inv(s) && Next(s, s')
    ensures Inv(s')
  {
    var t :| StepOf(s, t, s');
    if NotifyStep(s, t, s') {
      NotifyKeepsInv(s, t, s');
    } else if PreWaitStep(s, t, s') {
      PreWaitKeepsInv(s, t, s');
    } else if WaitStep(s, t, s') {
      WaitKeepsInv(s, t, s');
    } else {
      EnterKeepsInv(s, t, s');
    }
  }

  // ----- main results, for every run with any number of threads -----

  ghost predicate IsRun(run: seq<State>) {
    Runs.IsRun((s: State) => Init(s), (s: State, s': State) => Next(s, s'), run)
  }

  lemma InvHolds(run: seq<State>, i: nat)
    requires IsRun(run) && i < |run|
    ensures Inv(run[i])
  {
    forall s | Init(s) ensures Inv(s) {
    }
    forall s, s' | Inv(s) && Next(s, s') ensures Inv(s') {
      NextKeepsInv(s, s');
    }
    Runs.InvariantHolds((s: State) => Init(s), (s: State, s': State) => Next(s, s'), (s: State) => Inv(s), run, i);
  }

  lemma StepHolds(run: seq<State>, rel: (State, State) -> bool, i: nat)
    requires IsRun(run) && 0 < i < |run|
    requires forall s, s' :: Inv(s) && Inv(s') && Next(s, s') ==> rel(s, s')
    ensures rel(run[i - 1], run[i])
  {
    forall s | Init(s) ensures Inv(s) {
    }
    forall s, s' | Inv(s) && Next(s, s') ensures Inv(s') {
      NextKeepsInv(s, s');
    }
    Runs.StepGuarantees((s: State) => Init(s), (s: State, s': State) => Next(s, s'), (s: State) => Inv(s), rel, run, i);
  }

  lemma RunStep(run: seq<State>, i: nat)
    requires IsRun(run) && 0 < i < |run|
    ensures Next(run[i - 1], run[i])
  {
    Runs.StepAt((s: State) => Init(s), (s: State, s': State) => Next(s, s'), run, i);
  }

  /** Every finished wave released exactly its targets after NotifyAll, exactly one of
      them after Notify, and never a thread outside them. */
  lemma WavesAreExact(run: seq<State>, i: nat, j: nat)
    requires IsRun(run) && i < |run| && j < |run[i].waves|
    ensures var w := run[i].waves[j];
      && w.targets != {}
      && w.released <= w.targets
      && (w.broadcast ==> w.released == w.targets)
      && (!w.broadcast ==> |w.released| == 1)
  {
    InvHolds(run, i);
    assert Complete(run[i].waves[j]);
  }

  /** A notifier that can take the gate finds every counted thread past PreWait, and the
      set it records is exactly those threads. */
  lemma GateSeesCompletedPreWaits(run: seq<State>, i: nat, t: Tid, s': State)
    requires IsRun(run) && i < |run| && t in run[i].pcs && run[i].pcs[t].NotifyGate?
    requires NotifyStep(run[i], t, s')
    ensures s'.phase.Held?
    ensures forall u :: u in s'.phase.waitingAtGate <==> u in run[i].pcs && run[i].pcs[u].Queued?
  {
    InvHolds(run, i);
  }

  /** The notifier starts a wave on exactly that set, or, when it is empty, goes on to
      reopen the gate having changed nothing a waiter could see. */
  lemma DecisionUsesGateSnapshot(run: seq<State>, i: nat, t: Tid, s': State)
    requires IsRun(run) && i < |run| && t in run[i].pcs && run[i].pcs[t].NotifyDecide?
    requires NotifyStep(run[i], t, s')
    ensures var s := run[i];
      && s.phase.Held? && s.phase.holder == t
      && (if s.phase.waitingAtGate != {} then
            && s'.phase == Waking(Wave(s.pcs[t].broadcast, s.phase.waitingAtGate, {}), Some(t))
            && s'.toUnblock == (if s.pcs[t].broadcast then |s.phase.waitingAtGate| else 1)
          else
            && s'.pcs[t] == NotifyReopen && s'.phase == s.phase
            && s'.toUnblock == 0 && s'.queue == 0)
  {
    InvHolds(run, i);
    var s := run[i];
    assert s.waiting == s.phase.waitingAtGate;
    assert Settled(s) == |s.waiting|;
  }

  /** Nobody enters PreWait's counted section while a wave is on, so a wake-up cannot be
      stolen: whoever is released was a target and had not been released yet. */
  lemma ReleasedWasTarget(run: seq<State>, i: nat, t: Tid)
    requires IsRun(run) && i < |run| && t in run[i].pcs
    requires run[i].pcs[t].Woken? || run[i].pcs[t].PostDecide?
    ensures run[i].phase.Waking? && run[i].toUnblock > 0
    ensures t in run[i].phase.wave.targets && t !in run[i].phase.wave.released
  {
    InvHolds(run, i);
    assert t in run[i].waiting;
  }

  /** The wave goes on with the gate shut and loses no release, or it ends: the gate
      opens, no token is left behind and the finished wave is recorded. */
  ghost predicate WaveGoesOnOrEnds(s: State, s': State)
    requires s.phase.Waking?
  {
    if s'.phase.Waking? then
      && s'.gate == 0 && s'.waves == s.waves
      && s'.phase.wave.targets == s.phase.wave.targets
      && s'.phase.wave.broadcast == s.phase.wave.broadcast
      && s.phase.wave.released <= s'.phase.wave.released
    else
      && s'.phase == Open && s'.gate == 1 && s'.queue == 0 && s'.toUnblock == 0
      && s'.waves == s.waves + [s.phase.wave]
  }

  /** While a wave is on the gate stays shut, until the one step that ends the wave. */
  lemma GateReopenedOncePerWave(run: seq<State>, i: nat)
    requires IsRun(run) && 0 < i < |run| && run[i - 1].phase.Waking?
    ensures WaveGoesOnOrEnds(run[i - 1], run[i])
  {
    RunStep(run, i);
    PhaseHolds(run, i - 1);
    PhaseHolds(run, i);
    StepWithinWave(run[i - 1], run[i]);
  }

  lemma PhaseHolds(run: seq<State>, i: nat)
    requires IsRun(run) && i < |run|
    ensures PhaseInv(run[i])
  {
    InvHolds(run, i);
  }

  lemma StepWithinWave(s: State, s': State)
    requires PhaseInv(s) && PhaseInv(s') && Next(s, s') && s.phase.Waking?
    ensures WaveGoesOnOrEnds(s, s')
  {
    var t :| StepOf(s, t, s');
    assert s.gate == 0 && !HasGate(s.pcs[t]);
    if s.pcs[t] == Out {
      assert s' == At(s, t, s'.pcs[t]);
    } else if NotifyStep(s, t, s') {
      NotifyWithinWave(s, t, s');
    } else {
      WaitWithinWave(s, t, s');
    }
  }

  lemma NotifyWithinWave(s: State, t: Tid, s': State)
    requires PhaseInv(s) && t in s.pcs && NotifyStep(s, t, s') && s.phase.Waking?
    ensures WaveGoesOnOrEnds(s, s')
  {
    assert s.gate == 0 && !HasGate(s.pcs[t]);
  }

  lemma WaitWithinWave(s: State, t: Tid, s': State)
    requires PhaseInv(s) && t in s.pcs && WaitStep(s, t, s') && s.phase.Waking?
    ensures WaveGoesOnOrEnds(s, s')
  {
    assert s.gate == 0 && s.queue <= 1;
  }

  // ----- the history in the guards never holds a step back -----

  /** What the code waits for: a semaphore above zero, or the mutex m_internal. */
  predicate CodeCanStep(s: State, t: Tid)
    requires t in s.pcs
  {
    match s.pcs[t]
    case NotifyGate(_) => s.gate > 0
    case PreGate => s.gate > 0
    case NotifyLock(_) => s.internal == None
    case Woken => s.internal == None
    case Queued => s.queue > 0
    case _ => true
  }

  ghost function NotifySuccessor(s: State, t: Tid): (s': State)
    requires PhaseInv(s) && CountInv(s) && t in s.pcs && CodeCanStep(s, t)
    requires s.pcs[t].NotifyGate? || s.pcs[t].NotifyLock? || s.pcs[t].NotifyDecide? || s.pcs[t].NotifyUnlock?
             || s.pcs[t].NotifyToken? || s.pcs[t].NotifyReopen? || s.pcs[t].NotifyLeave?
    ensures NotifyStep(s, t, s')
  {
    GuardsHold(s, t);
    match s.pcs[t]
    case NotifyGate(b) => At(s, t, NotifyLock(b)).(gate := s.gate - 1, phase := Held(t, s.waiting))
    case NotifyLock(b) => At(s, t, NotifyDecide(b)).(internal := Some(t))
    case NotifyDecide(b) =>
      var left := Settled(s);
      var settled := s.(blocked := left, unblocked := 0);
      if left > 0 then
        At(settled, t, NotifyUnlock).(toUnblock := if b then left else 1,
                                      phase := Waking(Wave(b, s.phase.waitingAtGate, {}), Some(t)))
      else At(settled, t, NotifyReopen)
    case NotifyUnlock => At(s, t, NotifyToken).(internal := None)
    case NotifyToken => At(s, t, Out).(queue := s.queue + 1, phase := s.phase.(carrier := None))
    case NotifyReopen => At(s, t, NotifyLeave).(gate := s.gate + 1, phase := Open)
    case NotifyLeave => At(s, t, Out).(internal := None)
  }

  ghost function WaitSuccessor(s: State, t: Tid): (s': State)
    requires PhaseInv(s) && CountInv(s) && t in s.pcs && CodeCanStep(s, t)
    requires s.pcs[t].Queued? || s.pcs[t].Woken? || s.pcs[t].PostDecide? || s.pcs[t].PostUnlock? || s.pcs[t].PostPass?
             || s.pcs[t].PostLeave?
    ensures WaitStep(s, t, s')
  {
    GuardsHold(s, t);
    match s.pcs[t]
    case Queued => At(s, t, Woken).(queue := s.queue - 1, phase := s.phase.(carrier := Some(t)))
    case Woken => At(s, t, PostDecide).(internal := Some(t))
    case PostDecide =>
      var counted := s.(unblocked := s.unblocked + 1, waiting := s.waiting - {t});
      if s.toUnblock != 0 then
        var w := s.phase.wave;
        At(counted, t, PostUnlock(s.toUnblock - 1 == 0)).(
          toUnblock := s.toUnblock - 1, phase := s.phase.(wave := w.(released := w.released + {t})))
      else At(counted, t, PostLeave)
    case PostUnlock(last) => At(s, t, PostPass(last)).(internal := None)
    case PostPass(last) =>
      if last then At(s, t, Out).(gate := s.gate + 1, phase := Open, waves := s.waves + [s.phase.wave])
      else At(s, t, Out).(queue := s.queue + 1, phase := s.phase.(carrier := None))
    case PostLeave => At(s, t, Out).(internal := None)
  }

  ghost function Successor(s: State, t: Tid): (s': State)
    requires PhaseInv(s) && CountInv(s) && t in s.pcs && CodeCanStep(s, t)
    ensures StepOf(s, t, s')
  {
    match s.pcs[t]
    case Out => At(s, t, PreGate)
    case PreGate => At(s, t, PreCount).(gate := s.gate - 1, phase := Held(t, s.waiting))
    case PreCount => At(s, t, PreRelease).(blocked := s.blocked + 1, waiting := s.waiting + {t})
    case PreRelease => At(s, t, Queued).(gate := s.gate + 1, phase := Open)
    case Queued => WaitSuccessor(s, t)
    case Woken => WaitSuccessor(s, t)
    case PostDecide => WaitSuccessor(s, t)
    case PostUnlock(_) => WaitSuccessor(s, t)
    case PostPass(_) => WaitSuccessor(s, t)
    case PostLeave => WaitSuccessor(s, t)
    case _ => NotifySuccessor(s, t)
  }

  /** In every reachable state a thread can step exactly when the semaphore or the mutex it
      is about to take lets it: what the steps say of the history blocks nothing. */
  lemma HistoryBlocksNothing(run: seq<State>, i: nat, t: Tid)
    requires IsRun(run) && i < |run| && t in run[i].pcs
    ensures CodeCanStep(run[i], t) <==> exists s' :: StepOf(run[i], t, s')
  {
    InvHolds(run, i);
    if CodeCanStep(run[i], t) {
      var s' := Successor(run[i], t);
    } else {
      BlockedByTheCode(run[i], t);
    }
  }

  lemma BlockedByTheCode(s: State, t: Tid)
    requires t in s.pcs && !CodeCanStep(s, t)
    ensures forall s' :: !StepOf(s, t, s')
  {
  }

  /** A wave never stalls: some thread can always take a step that is not a new call. */
  lemma WaveCanContinue(run: seq<State>, i: nat) returns (t: Tid, s': State)
    requires IsRun(run) && i < |run| && run[i].phase.Waking?
    ensures t in run[i].pcs && run[i].pcs[t] != Out && StepOf(run[i], t, s')
  {
    InvHolds(run, i);
    var s := run[i];
    match s.phase.carrier
    case None =>
      QueueHasWaiter(s);
      t :| t in s.pcs && s.pcs[t].Queued?;
      s' := At(s, t, Woken).(queue := s.queue - 1, phase := s.phase.(carrier := Some(t)));
    case Some(u) =>
      if s.pcs[u].Woken? && s.internal.Some? {
        t := s.internal.value;
        s' := At(s, t, Out).(internal := None);
      } else {
        t := u;
        s' := Successor(s, t);
      }
  }

  lemma QueueHasWaiter(s: State)
    requires Inv(s) && s.phase.Waking? && s.phase.carrier.None?
    ensures exists t :: t in s.pcs && s.pcs[t].Queued?
  {
    var w := s.phase.wave;
    assert w.targets == w.released + s.waiting;
    assert s.waiting != {};
    var t :| t in s.waiting;
  }

  // ----- a wave ends after boundedly many steps -----

  /** How far the token has come between two releases. */
  function Distance(pc: Pc): nat {
    match pc
    case NotifyUnlock => 6
    case PostUnlock(_) => 6
    case NotifyToken => 5
    case PostPass(_) => 5
    case Woken => 3
    case PostDecide => 2
    case _ => 0
  }

  /** The steps a wave can still take: six for each release to come, those left until the
      next one, and one for a notifier that still has m_internal from before. */
  function Remaining(s: State): int
    requires s.phase.Waking?
  {
    6 * s.toUnblock
    + (match s.phase.carrier
       case None => 4
       case Some(t) => if t in s.pcs then Distance(s.pcs[t]) else 0)
    + (if s.internal.Some? && s.internal.value in s.pcs && s.pcs[s.internal.value] == NotifyLeave then 1 else 0)
  }

  /** A step of a thread that is inside Notify, PreWait or Wait. */
  ghost predicate InCallStep(s: State, s': State) {
    exists t :: t in s.pcs && s.pcs[t] != Out && StepOf(s, t, s')
  }

  lemma CarrierSteps(s: State, t: Tid, s': State)
    requires InternalInv(s) && PhaseInv(s) && PhaseInv(s') && s.phase.Waking? && s'.phase.Waking?
    requires s.phase.carrier == Some(t) && StepOf(s, t, s')
    ensures Remaining(s') < Remaining(s)
  {
    assert s.pcs[t] != Out && !HasGate(s.pcs[t]);
    assert NotifyStep(s, t, s') || WaitStep(s, t, s');
  }

  lemma OtherSteps(s: State, t: Tid, s': State)
    requires InternalInv(s) && PhaseInv(s) && PhaseInv(s') && s.phase.Waking? && s'.phase.Waking?
    requires s.phase.carrier != Some(t) && StepOf(s, t, s') && s.pcs[t] != PostLeave
    ensures if s.pcs[t] == Out then Remaining(s') == Remaining(s) else Remaining(s') < Remaining(s)
  {
    assert s.gate == 0 && !HasGate(s.pcs[t]) && !HasToken(s.pcs[t]);
    assert s.pcs[t] == Out || s.pcs[t] == NotifyLeave || s.pcs[t] == Queued;
  }

  /** A new call costs the wave nothing, every other step brings it nearer its end. */
  lemma StepShortensWave(s: State, s': State)
    requires Inv(s) && Inv(s') && Next(s, s') && s.phase.Waking? && s'.phase.Waking?
    ensures Remaining(s') <= Remaining(s)
    ensures InCallStep(s, s') ==> Remaining(s') < Remaining(s)
  {
    forall t | StepOf(s, t, s')
      ensures Remaining(s') <= Remaining(s) && (s.pcs[t] != Out ==> Remaining(s') < Remaining(s))
    {
      if s.phase.carrier == Some(t) {
        CarrierSteps(s, t, s');
      } else {
        OtherSteps(s, t, s');
      }
    }
  }

  ghost function InCallSteps(run: seq<State>, i: nat, j: nat): nat
    requires i <= j < |run|
    decreases j
  {
    if i == j then 0
    else InCallSteps(run, i, j - 1) + (if InCallStep(run[j - 1], run[j]) then 1 else 0)
  }

  lemma RemainingBounds(s: State)
    requires Inv(s) && s.phase.Waking?
    ensures 0 <= Remaining(s) <= 6 * |s.phase.wave.targets| + 7
  {
    var w := s.phase.wave;
    NonEmpty(w.targets);
    assert s.toUnblock <= Quota(w) <= |w.targets|;
  }

  lemma NonEmpty<T>(a: set<T>)
    requires a != {}
    ensures |a| >= 1
  {
    var t :| t in a;
    assert a == {t} + (a - {t});
  }

  ghost predicate Shortens(s: State, s': State)
    requires s.phase.Waking? && s'.phase.Waking?
  {
    Remaining(s') + (if InCallStep(s, s') then 1 else 0) <= Remaining(s)
  }

  lemma StepShortens(s: State, s': State)
    requires Inv(s) && Inv(s') && Next(s, s') && s.phase.Waking? && s'.phase.Waking?
    ensures Shortens(s, s')
  {
    StepShortensWave(s, s');
  }

  lemma RunShortens(run: seq<State>, j: nat)
    requires IsRun(run) && 0 < j < |run| && run[j - 1].phase.Waking? && run[j].phase.Waking?
    ensures Shortens(run[j - 1], run[j])
  {
    forall s: State, s': State | Inv(s) && Inv(s') && Next(s, s') && s.phase.Waking? && s'.phase.Waking?
      ensures Shortens(s, s')
    {
      StepShortens(s, s');
    }
    StepHolds(run, (s: State, s': State) => s.phase.Waking? && s'.phase.Waking? ==> Shortens(s, s'), j);
  }

  lemma UseUp(run: seq<State>, i: nat, j: nat)
    requires i < j < |run| && run[i].phase.Waking? && run[j - 1].phase.Waking? && run[j].phase.Waking?
    requires InCallSteps(run, i, j - 1) + Remaining(run[j - 1]) <= Remaining(run[i])
    requires Shortens(run[j - 1], run[j])
    ensures InCallSteps(run, i, j) + Remaining(run[j]) <= Remaining(run[i])
  {
  }

  /** Steps that each shorten the wave use up what remains of it. */
  lemma {:induction false} WaveUsesItsSteps(run: seq<State>, i: nat, j: nat)
    requires i <= j < |run| && forall k :: i <= k <= j ==> run[k].phase.Waking?
    requires forall k :: i < k <= j ==> Shortens(run[k - 1], run[k])
    ensures InCallSteps(run, i, j) + Remaining(run[j]) <= Remaining(run[i])
    decreases j
  {
    if i < j {
      WaveUsesItsSteps(run, i, j - 1);
      UseUp(run, i, j);
    }
  }

  lemma WaveShortens(run: seq<State>, i: nat, j: nat)
    requires IsRun(run) && i <= j < |run| && forall k :: i <= k <= j ==> run[k].phase.Waking?
    ensures forall k :: i < k <= j ==> Shortens(run[k - 1], run[k])
  {
    forall k | i < k <= j ensures Shortens(run[k - 1], run[k]) {
      RunShortens(run, k);
    }
  }

  lemma RemainingInRun(run: seq<State>, i: nat)
    requires IsRun(run) && i < |run| && run[i].phase.Waking?
    ensures 0 <= Remaining(run[i]) <= 6 * |run[i].phase.wave.targets| + 7
  {
    InvHolds(run, i);
    RemainingBounds(run[i]);
  }

  /** Every wave ends: in any stretch of a run that lies within it, the threads inside a call
      take at most six steps for each of its targets and seven more; and as long as it is on
      one of them can take the next. */
  lemma WavesAreBounded(run: seq<State>, i: nat, j: nat) returns (t: Tid, s': State)
    requires IsRun(run) && i <= j < |run|
    requires forall k :: i <= k <= j ==> run[k].phase.Waking?
    ensures InCallSteps(run, i, j) <= 6 * |run[i].phase.wave.targets| + 7
    ensures t in run[j].pcs && run[j].pcs[t] != Out && StepOf(run[j], t, s')
  {
    WaveShortens(run, i, j);
    WaveUsesItsSteps(run, i, j);
    RemainingInRun(run, i);
    RemainingInRun(run, j);
    t, s' := WaveCanContinue(run, j);
  }
}
