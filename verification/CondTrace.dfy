// The condition variable from end to end: what a finished wave of wake-ups did,
// told by the program counters along the run alone, from the notifier's gate to
// the step that opens the gate again.
module CondTrace {
  import opened Wrappers
  import opened CondImpl

  /** The threads whose PreWait is complete and which wait on m_queue. */
  ghost function Waiters(s: State): set<Tid> {
    set t | t in s.pcs && s.pcs[t].Queued?
  }

  /** The threads that this step releases from postwait's counted section. */
  ghost function Releases(s: State, s': State): set<Tid> {
    set t | t in s.pcs && t in s'.pcs && s.pcs[t].PostDecide? && s'.pcs[t].PostUnlock?
  }

  ghost function ReleasedBetween(run: seq<State>, i: nat, j: nat): set<Tid>
    requires i <= j < |run|
    decreases j
  {
    if i == j then {} else ReleasedBetween(run, i, j - 1) + Releases(run[j - 1], run[j])
  }

  /** Inside one Notify (or NotifyAll) that has the gate and has not decided yet. */
  predicate Deciding(s: State, t: Tid, broadcast: bool) {
    t in s.pcs && (s.pcs[t] == NotifyLock(broadcast) || s.pcs[t] == NotifyDecide(broadcast))
  }

  ghost predicate Shut(run: seq<State>, i: nat, j: nat) {
    forall k :: i < k <= j < |run| ==> run[k].gate == 0
  }

  /** A call of t passed the gate with step g and is still deciding at i. */
  ghost predicate DecidesSince(run: seq<State>, g: nat, i: nat, t: Tid, broadcast: bool) {
    && g < i < |run| && Shut(run, g, i)
    && t in run[g].pcs && run[g].pcs[t] == NotifyGate(broadcast)
    && forall k :: g < k <= i ==> Deciding(run[k], t, broadcast)
  }

  /** That call then decided with step d to wake, and the wave is still on at i. */
  ghost predicate WakesSince(run: seq<State>, g: nat, d: nat, i: nat, t: Tid, broadcast: bool) {
    && d < i < |run| && DecidesSince(run, g, d, t, broadcast) && Shut(run, d, i)
    && run[d].pcs[t] == NotifyDecide(broadcast) && t in run[d + 1].pcs && run[d + 1].pcs[t] == NotifyUnlock
  }

  // ----- single steps -----

  ghost predicate GateStep(s: State, s': State, t: Tid, broadcast: bool) {
    && t in s.pcs && s.pcs[t] == NotifyGate(broadcast)
    && s'.phase == Held(t, Waiters(s))
  }

  ghost predicate StillDeciding(s: State, s': State, t: Tid, broadcast: bool) {
    s.phase == s'.phase && Deciding(s, t, broadcast)
  }

  lemma OpenWaiters(s: State)
    requires CountInv(s) && PhaseInv(s) && s.phase == Open
    ensures s.waiting == Waiters(s)
  {
    assert forall v :: v in s.waiting <==> v in Waiters(s);
  }

  lemma HolderStep(s: State, t: Tid, s': State, broadcast: bool)
    requires Inv(s) && StepOf(s, t, s')
    requires s'.phase.Held? && s'.phase.holder == t && Deciding(s', t, broadcast)
    ensures GateStep(s, s', t, broadcast) || StillDeciding(s, s', t, broadcast)
  {
    if NotifyStep(s, t, s') && s.pcs[t].NotifyGate? {
      OpenWaiters(s);
    }
  }

  lemma BystanderStep(s: State, u: Tid, s': State, t: Tid, broadcast: bool)
    requires Inv(s) && StepOf(s, u, s') && u != t
    requires s'.phase.Held? && s'.phase.holder == t && Deciding(s', t, broadcast)
    ensures StillDeciding(s, s', t, broadcast)
  {
    OneCounterMoves(s, u, s');
  }

  lemma HeldStep(s: State, s': State, t: Tid, broadcast: bool)
    requires Inv(s) && Next(s, s')
    requires s'.phase.Held? && s'.phase.holder == t && Deciding(s', t, broadcast)
    ensures GateStep(s, s', t, broadcast) || StillDeciding(s, s', t, broadcast)
  {
    var u :| StepOf(s, u, s');
    if u == t {
      HolderStep(s, t, s', broadcast);
    } else {
      BystanderStep(s, u, s', t, broadcast);
    }
  }

  ghost predicate DecideStep(s: State, s': State, t: Tid) {
    && s.phase.Held? && s.phase.holder == t && s'.phase.Waking? && t in s.pcs && t in s'.pcs
    && s.pcs[t] == NotifyDecide(s'.phase.wave.broadcast) && s'.pcs[t] == NotifyUnlock
    && s'.phase.wave.targets == s.phase.waitingAtGate && s'.phase.wave.released == Releases(s, s') == {}
  }

  ghost predicate WaveStep(s: State, s': State) {
    && s.phase.Waking? && s'.phase.Waking?
    && s'.phase.wave == s.phase.wave.(released := s.phase.wave.released + Releases(s, s'))
  }

  lemma ReleaseStep(s: State, t: Tid, s': State)
    requires StepOf(s, t, s')
    ensures Releases(s, s') == if s.pcs[t].PostDecide? && s'.pcs[t].PostUnlock? then {t} else {}
  {
    OneCounterMoves(s, t, s');
  }

  lemma StartStep(s: State, t: Tid, s': State)
    requires Inv(s) && StepOf(s, t, s') && !s.phase.Waking? && s'.phase.Waking?
    ensures DecideStep(s, s', t)
  {
    ReleaseStep(s, t, s');
    assert NotifyStep(s, t, s');
  }

  lemma StepInWave(s: State, t: Tid, s': State)
    requires PhaseInv(s) && StepOf(s, t, s') && s.phase.Waking? && s'.phase.Waking?
    ensures s'.phase.wave ==
      if s.pcs[t].PostDecide? && s'.pcs[t].PostUnlock?
      then s.phase.wave.(released := s.phase.wave.released + {t}) else s.phase.wave
  {
    assert s.gate == 0 && !HasGate(s.pcs[t]);
    if s.pcs[t] == Out {
    } else if NotifyStep(s, t, s') {
    } else {
      assert WaitStep(s, t, s');
    }
  }

  lemma GoOnStep(s: State, t: Tid, s': State)
    requires PhaseInv(s) && StepOf(s, t, s') && s.phase.Waking? && s'.phase.Waking?
    ensures WaveStep(s, s')
  {
    ReleaseStep(s, t, s');
    StepInWave(s, t, s');
  }

  lemma WakingStep(s: State, s': State) returns (t: Tid)
    requires Inv(s) && Next(s, s') && s'.phase.Waking?
    ensures WaveStep(s, s') || DecideStep(s, s', t)
  {
    t :| StepOf(s, t, s');
    if s.phase.Waking? {
      GoOnStep(s, t, s');
    } else {
      StartStep(s, t, s');
    }
  }

  ghost predicate EndsWave(s: State, s': State) {
    s.phase.Waking? && s'.gate == 1 && s'.waves == s.waves + [s.phase.wave]
  }

  lemma EndStep(s: State, s': State)
    requires Inv(s) && Next(s, s')
    ensures s'.waves == s.waves || EndsWave(s, s')
  {
    var t :| StepOf(s, t, s');
    if s.pcs[t] == PostPass(true) {
      assert WaitStep(s, t, s') && s.gate == 0;
    } else {
      OthersKeepWaves(s, t, s');
    }
  }

  // ----- the same at a point of a run -----

  lemma GateIsShut(run: seq<State>, i: nat)
    requires IsRun(run) && i < |run| && run[i].phase != Open
    ensures i > 0 && run[i].gate == 0
  {
    InvHolds(run, i);
  }

  lemma HeldStepAt(run: seq<State>, i: nat, t: Tid, broadcast: bool)
    requires IsRun(run) && 0 < i < |run|
    requires run[i].phase.Held? && run[i].phase.holder == t && Deciding(run[i], t, broadcast)
    ensures GateStep(run[i - 1], run[i], t, broadcast) || StillDeciding(run[i - 1], run[i], t, broadcast)
  {
    RunStep(run, i);
    InvHolds(run, i - 1);
    HeldStep(run[i - 1], run[i], t, broadcast);
  }

  lemma WakingStepAt(run: seq<State>, i: nat) returns (t: Tid)
    requires IsRun(run) && 0 < i < |run| && run[i].phase.Waking?
    ensures WaveStep(run[i - 1], run[i]) || DecideStep(run[i - 1], run[i], t)
  {
    RunStep(run, i);
    InvHolds(run, i - 1);
    t := WakingStep(run[i - 1], run[i]);
  }

  lemma EndStepAt(run: seq<State>, i: nat)
    requires IsRun(run) && 0 < i < |run|
    ensures run[i].waves == run[i - 1].waves || EndsWave(run[i - 1], run[i])
  {
    RunStep(run, i);
    InvHolds(run, i - 1);
    EndStep(run[i - 1], run[i]);
  }

  lemma NoWaveAtFirst(run: seq<State>)
    requires IsRun(run)
    ensures run[0].waves == []
  {
  }

  // ----- back along the run -----

  lemma {:induction false} GateBefore(run: seq<State>, i: nat, t: Tid, broadcast: bool) returns (g: nat)
    requires IsRun(run) && i < |run|
    requires run[i].phase.Held? && run[i].phase.holder == t && Deciding(run[i], t, broadcast)
    ensures DecidesSince(run, g, i, t, broadcast) && run[i].phase.waitingAtGate == Waiters(run[g])
  {
    GateIsShut(run, i);
    HeldStepAt(run, i, t, broadcast);
    if GateStep(run[i - 1], run[i], t, broadcast) {
      g := i - 1;
    } else {
      g := GateBefore(run, i - 1, t, broadcast);
    }
  }

  lemma {:induction false} DecisionBefore(run: seq<State>, i: nat) returns (g: nat, d: nat, t: Tid)
    requires IsRun(run) && i < |run| && run[i].phase.Waking?
    ensures var w := run[i].phase.wave;
      && WakesSince(run, g, d, i, t, w.broadcast)
      && w.targets == Waiters(run[g]) && w.released == ReleasedBetween(run, d, i)
  {
    GateIsShut(run, i);
    t := WakingStepAt(run, i);
    if WaveStep(run[i - 1], run[i]) {
      g, d, t := DecisionBefore(run, i - 1);
    } else {
      d := i - 1;
      g := GateBefore(run, d, t, run[i].phase.wave.broadcast);
    }
  }

  lemma {:induction false} EndBefore(run: seq<State>, i: nat, j: nat) returns (e: nat)
    requires IsRun(run) && i < |run| && j < |run[i].waves|
    ensures e < i && run[e].phase.Waking? && run[e].phase.wave == run[i].waves[j]
    ensures |run[e].waves| == j && |run[e + 1].waves| == j + 1 && run[e + 1].gate == 1
  {
    NoWaveAtFirst(run);
    EndStepAt(run, i);
    if j < |run[i - 1].waves| {
      e := EndBefore(run, i - 1, j);
    } else {
      e := i - 1;
    }
  }

  /** The promise of the condition variable, end to end. Behind every finished wave is one
      call of Notify or NotifyAll: it passed the gate with step g, decided with step d, and
      step e opened the gate again, which stayed shut in between. The threads released
      between d and e are all the threads that had completed PreWait at g, after a NotifyAll,
      and exactly one of them after a Notify. */
  lemma WakeUpsAreExact(run: seq<State>, i: nat, j: nat) returns (g: nat, d: nat, e: nat, t: Tid)
    requires IsRun(run) && i < |run| && j < |run[i].waves|
    ensures g < d < e < i && Shut(run, g, e) && run[e + 1].gate == 1
    ensures |run[e].waves| == j && |run[e + 1].waves| == j + 1
    ensures var broadcast := run[i].waves[j].broadcast;
      && WakesSince(run, g, d, e, t, broadcast)
      && Waiters(run[g]) != {}
      && ReleasedBetween(run, d, e) <= Waiters(run[g])
      && (broadcast ==> ReleasedBetween(run, d, e) == Waiters(run[g]))
      && (!broadcast ==> |ReleasedBetween(run, d, e)| == 1)
  {
    WavesAreExact(run, i, j);
    e := EndBefore(run, i, j);
    g, d, t := DecisionBefore(run, e);
  }
}
