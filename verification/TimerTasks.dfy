// Why two runs of one timer task never overlap (src/kpr/TimerTaskManager.cpp,
// src/kpr/TimerTaskManager.h): OnTimeOut tests and sets the timer task's flag under the
// manager's mutex and submits it to the pool, whose workers run it and clear it.
//
// Any number of threads deliver time-outs and any number of workers run tasks;
// timer tasks are submitted through this one manager only.
module TimerTasks {
  import opened Wrappers
  import Runs

  type Tid = nat
  type Task = nat

  datatype Pc =
    | Idle
    | Enter(task: Task)    // OnTimeOut: about to lock m_mutex
    | Test(task: Task)     // has m_mutex, about to read IsProcessing
    | SetFlag(task: Task)  // about to SetProcessing(true)
    | Submit(task: Task)   // about to AddWork
    | Leave                // about to unlock m_mutex
    | Running(task: Task)  // a worker inside DoTask
    | Clear(task: Task)    // about to set m_isProcessing to false

  /** History: who is responsible for a task that is marked as processing. `Lost` is a task
      the pool refused because it was being destroyed; its flag is never cleared. */
  datatype Place = Nowhere | With(t: Tid) | Waiting | Lost

  datatype State = State(
    mutex: Option<Tid>,
    processing: map<Task, bool>,
    works: seq<Task>,
    destroyed: bool,
    pcs: map<Tid, Pc>,
    place: map<Task, Place>)

  ghost predicate Init(s: State) {
    && s.mutex == None && s.works == [] && !s.destroyed
    && s.place.Keys == s.processing.Keys
    && (forall k :: k in s.processing ==> !s.processing[k] && s.place[k] == Nowhere)
    && (forall t :: t in s.pcs ==> s.pcs[t] == Idle)
  }

  function At(s: State, t: Tid, pc: Pc): State {
    s.(pcs := s.pcs[t := pc])
  }

  ghost predicate StepOf(s: State, t: Tid, s': State) {
    && t in s.pcs
    && match s.pcs[t]
       case Idle =>
         || (exists k :: k in s.processing && s' == At(s, t, Enter(k)))
         || (s.works != [] && s.works[0] in s.place &&
             s' == At(s, t, Running(s.works[0])).(works := s.works[1..], place := s.place[s.works[0] := With(t)]))
       case Enter(k) => s.mutex == None && s' == At(s, t, Test(k)).(mutex := Some(t))
       case Test(k) =>
         && k in s.processing
         && s' == At(s, t, if s.processing[k] then Leave else SetFlag(k))
       case SetFlag(k) =>
         s' == At(s, t, Submit(k)).(processing := s.processing[k := true], place := s.place[k := With(t)])
       case Submit(k) =>
         s' == if s.destroyed then At(s, t, Leave).(place := s.place[k := Lost])
               else At(s, t, Leave).(works := s.works + [k], place := s.place[k := Waiting])
       case Leave => s' == At(s, t, Idle).(mutex := None)
       case Running(k) => s' == At(s, t, Clear(k))
       case Clear(k) =>
         s' == At(s, t, Idle).(processing := s.processing[k := false], place := s.place[k := Nowhere])
  }

  /** Destroy: the pool accepts nothing more and its queue is cleared. */
  ghost predicate DestroyPool(s: State, s': State) {
    s' == s.(destroyed := true, works := [],
             place := map k | k in s.place :: if s.place[k] == Waiting then Lost else s.place[k])
  }

  ghost predicate Next(s: State, s': State) {
    DestroyPool(s, s') || exists t :: StepOf(s, t, s')
  }

  predicate HasMutex(pc: Pc) {
    pc.Test? || pc.SetFlag? || pc.Submit? || pc.Leave?
  }

  /** Responsible for a timer task between the set and the clear of its flag. */
  predicate HasTask(pc: Pc) {
    pc.Submit? || pc.Running? || pc.Clear?
  }

  ghost predicate ThreadInv(s: State, t: Tid)
    requires t in s.pcs
  {
    var pc := s.pcs[t];
    && (s.mutex == Some(t) <==> HasMutex(pc))
    && (pc.Enter? || pc.Test? || pc.SetFlag? || HasTask(pc) ==> pc.task in s.processing)
    && (pc.SetFlag? ==> !s.processing[pc.task])
    && (HasTask(pc) ==> pc.task in s.place && s.place[pc.task] == With(t))
  }

  ghost predicate PlaceInv(s: State) {
    && s.place.Keys == s.processing.Keys
    && (s.mutex.Some? ==> s.mutex.value in s.pcs)
    && (forall k :: k in s.processing ==> (s.processing[k] <==> s.place[k] != Nowhere))
    && (forall i :: 0 <= i < |s.works| ==> s.works[i] in s.place && s.place[s.works[i]] == Waiting)
    && (forall i, j :: 0 <= i < j < |s.works| ==> s.works[i] != s.works[j])
  }

  ghost predicate Inv(s: State) {
    PlaceInv(s) && forall t :: t in s.pcs ==> ThreadInv(s, t)
  }

  lemma SubmitKeepsPlaces(s: State, t: Tid, s': State)
    requires PlaceInv(s) && StepOf(s, t, s') && ThreadInv(s, t) && s.pcs[t].Submit?
    ensures PlaceInv(s') && t in s'.pcs && ThreadInv(s', t)
  {
    assert s.pcs[t].task !in s.works;
  }

  lemma TakeKeepsPlaces(s: State, t: Tid, s': State)
    requires PlaceInv(s) && t in s.pcs && ThreadInv(s, t) && s.pcs[t].Idle? && s.works != [] && s.works[0] in s.place
    requires s' == At(s, t, Running(s.works[0])).(works := s.works[1..], place := s.place[s.works[0] := With(t)])
    ensures PlaceInv(s') && t in s'.pcs && ThreadInv(s', t)
  {
    assert s.place[s.works[0]] == Waiting;
    assert forall i :: 0 <= i < |s'.works| ==> s'.works[i] == s.works[i + 1];
  }

  lemma IdleKeepsPlaces(s: State, t: Tid, s': State)
    requires PlaceInv(s) && StepOf(s, t, s') && ThreadInv(s, t) && s.pcs[t].Idle?
    ensures PlaceInv(s') && t in s'.pcs && ThreadInv(s', t)
  {
    if s'.works != s.works {
      TakeKeepsPlaces(s, t, s');
    } else {
      var k: Task :| k in s.processing && s' == At(s, t, Enter(k));
      EnterKeepsPlaces(s, t, k);
    }
  }

  lemma EnterKeepsPlaces(s: State, t: Tid, k: Task)
    requires PlaceInv(s) && t in s.pcs && ThreadInv(s, t) && s.pcs[t].Idle? && k in s.processing
    ensures var s' := At(s, t, Enter(k)); PlaceInv(s') && ThreadInv(s', t)
  {
  }

  lemma OtherKeepsPlaces(s: State, t: Tid, s': State)
    requires PlaceInv(s) && StepOf(s, t, s') && ThreadInv(s, t) && !s.pcs[t].Submit? && !s.pcs[t].Idle?
    ensures PlaceInv(s') && t in s'.pcs && ThreadInv(s', t)
  {
    if s.pcs[t].SetFlag? || s.pcs[t].Clear? {
      FlagKeepsPlaces(s, t, s');
    } else {
      assert s'.works == s.works && s'.place == s.place && s'.processing == s.processing;
    }
  }

  lemma FlagKeepsPlaces(s: State, t: Tid, s': State)
    requires PlaceInv(s) && StepOf(s, t, s') && ThreadInv(s, t) && (s.pcs[t].SetFlag? || s.pcs[t].Clear?)
    ensures PlaceInv(s') && t in s'.pcs && ThreadInv(s', t)
  {
    assert s'.works == s.works && s.pcs[t].task !in s.works;
  }

  lemma StepKeepsPlaces(s: State, t: Tid, s': State)
    requires PlaceInv(s) && StepOf(s, t, s') && ThreadInv(s, t)
    ensures PlaceInv(s') && t in s'.pcs && ThreadInv(s', t)
  {
    if s.pcs[t].Submit? {
      SubmitKeepsPlaces(s, t, s');
    } else if s.pcs[t].Idle? {
      IdleKeepsPlaces(s, t, s');
    } else {
      OtherKeepsPlaces(s, t, s');
    }
  }

  lemma StepKeepsOther(s: State, t: Tid, s': State, u: Tid)
    requires PlaceInv(s) && StepOf(s, t, s') && ThreadInv(s, t)
    requires u in s.pcs && u != t && ThreadInv(s, u)
    ensures u in s'.pcs && ThreadInv(s', u)
  {
    if s.pcs[t].Idle? {
      IdleKeepsOther(s, t, s', u);
    } else if s.pcs[t].SetFlag? || s.pcs[t].Submit? || s.pcs[t].Clear? {
      FlagKeepsOther(s, t, s', u);
    } else {
      MutexKeepsOther(s, t, s', u);
    }
  }

  lemma IdleKeepsOther(s: State, t: Tid, s': State, u: Tid)
    requires PlaceInv(s) && StepOf(s, t, s') && s.pcs[t].Idle?
    requires u in s.pcs && u != t && ThreadInv(s, u)
    ensures u in s'.pcs && ThreadInv(s', u)
  {
    assert s'.pcs == s.pcs[t := s'.pcs[t]] && s'.mutex == s.mutex && s'.processing == s.processing;
  }

  lemma FlagKeepsOther(s: State, t: Tid, s': State, u: Tid)
    requires PlaceInv(s) && StepOf(s, t, s') && ThreadInv(s, t)
    requires s.pcs[t].SetFlag? || s.pcs[t].Submit? || s.pcs[t].Clear?
    requires u in s.pcs && u != t && ThreadInv(s, u)
    ensures u in s'.pcs && ThreadInv(s', u)
  {
    var k := s.pcs[t].task;
    assert s'.pcs == s.pcs[t := s'.pcs[t]] && s'.mutex == s.mutex;
    assert s'.place == s.place[k := s'.place[k]] && s'.processing == s.processing[k := s'.processing[k]];
  }

  lemma MutexKeepsOther(s: State, t: Tid, s': State, u: Tid)
    requires StepOf(s, t, s') && ThreadInv(s, t)
    requires s.pcs[t].Enter? || s.pcs[t].Test? || s.pcs[t].Leave? || s.pcs[t].Running?
    requires u in s.pcs && u != t && ThreadInv(s, u)
    ensures u in s'.pcs && ThreadInv(s', u)
  {
    assert s'.pcs == s.pcs[t := s'.pcs[t]] && s'.place == s.place && s'.processing == s.processing;
  }

  lemma StepKeepsInv(s: State, t: Tid, s': State)
    requires Inv(s) && StepOf(s, t, s')
    ensures Inv(s')
  {
    StepKeepsPlaces(s, t, s');
    forall u | u in s'.pcs && u != t ensures ThreadInv(s', u) {
      StepKeepsOther(s, t, s', u);
    }
  }

  lemma DestroyKeepsInv(s: State, s': State)
    requires Inv(s) && DestroyPool(s, s')
    ensures Inv(s')
  {
    forall u | u in s'.pcs ensures ThreadInv(s', u) {
      assert ThreadInv(s, u);
    }
  }

  ghost predicate IsRun(run: seq<State>) {
    Runs.IsRun((s: State) => Init(s), (s: State, s': State) => Next(s, s'), run)
  }

  lemma InvHolds(run: seq<State>, i: nat)
    requires IsRun(run) && i < |run|
    ensures Inv(run[i])
  {
    forall s | Init(s) ensures Inv(s) {
    }
    forall s, s' | Inv(s) && Next(s, s') ensures Inv(s') {
      if DestroyPool(s, s') {
        DestroyKeepsInv(s, s');
      } else {
        var t :| StepOf(s, t, s');
        StepKeepsInv(s, t, s');
      }
    }
    Runs.InvariantHolds((s: State) => Init(s), (s: State, s': State) => Next(s, s'), (s: State) => Inv(s), run, i);
  }

  /** At most one thread runs a timer task, and while one does it is not queued again and
      is marked as processing. */
  lemma RunsNeverOverlap(run: seq<State>, i: nat, t: Tid, u: Tid)
    requires IsRun(run) && i < |run| && t in run[i].pcs && u in run[i].pcs
    requires run[i].pcs[t].Running? && run[i].pcs[u].Running? && run[i].pcs[t].task == run[i].pcs[u].task
    ensures t == u
    ensures run[i].pcs[t].task !in run[i].works
    ensures run[i].pcs[t].task in run[i].processing && run[i].processing[run[i].pcs[t].task]
  {
    InvHolds(run, i);
    assert ThreadInv(run[i], t) && ThreadInv(run[i], u);
  }

  /** A task marked as processing is queued exactly once, or with exactly one thread, or
      was refused by a destroyed pool; an unmarked one is nowhere. */
  lemma ProcessingIsAccountedFor(run: seq<State>, i: nat, k: Task)
    requires IsRun(run) && i < |run| && k in run[i].processing
    ensures !run[i].processing[k] ==>
      k !in run[i].works && forall t :: t in run[i].pcs && HasTask(run[i].pcs[t]) ==> run[i].pcs[t].task != k
    ensures k in run[i].works ==>
      && run[i].processing[k]
      && (forall t :: t in run[i].pcs && HasTask(run[i].pcs[t]) ==> run[i].pcs[t].task != k)
      && (forall a, b :: 0 <= a < b < |run[i].works| ==> run[i].works[a] != run[i].works[b])
  {
    InvHolds(run, i);
    var s := run[i];
    forall t | t in s.pcs && HasTask(s.pcs[t]) ensures s.place[s.pcs[t].task] == With(t) {
      assert ThreadInv(s, t);
    }
  }

  ghost predicate TakesNext(s: State, t: Tid, s': State)
    requires s.works != []
  {
    s'.works == s.works[1..] && t in s'.pcs && s'.pcs[t] == Running(s.works[0])
  }

  ghost function Successor(s: State, t: Tid): (s': State)
    requires t in s.pcs && ThreadInv(s, t) && s.pcs[t] != Idle && (s.pcs[t].Enter? ==> s.mutex == None)
    ensures StepOf(s, t, s')
  {
    match s.pcs[t]
    case Enter(k) => At(s, t, Test(k)).(mutex := Some(t))
    case Test(k) => At(s, t, if s.processing[k] then Leave else SetFlag(k))
    case SetFlag(k) => At(s, t, Submit(k)).(processing := s.processing[k := true], place := s.place[k := With(t)])
    case Submit(k) =>
      if s.destroyed then At(s, t, Leave).(place := s.place[k := Lost])
      else At(s, t, Leave).(works := s.works + [k], place := s.place[k := Waiting])
    case Leave => At(s, t, Idle).(mutex := None)
    case Running(k) => At(s, t, Clear(k))
    case Clear(k) => At(s, t, Idle).(processing := s.processing[k := false], place := s.place[k := Nowhere])
  }

  /** In every reachable state an idle thread can take the next task whenever there is one,
      and a thread inside OnTimeOut or DoTask can step exactly when the mutex it is about to
      lock is free: what the steps say of the history blocks nothing. */
  lemma HistoryBlocksNothing(run: seq<State>, i: nat, t: Tid)
    requires IsRun(run) && i < |run| && t in run[i].pcs
    ensures var s := run[i];
      && (s.pcs[t] == Idle && s.works != [] ==> exists s' :: TakesNext(s, t, s') && StepOf(s, t, s'))
      && (s.pcs[t] != Idle ==>
            ((exists s' :: StepOf(s, t, s')) <==> (s.pcs[t].Enter? ==> s.mutex == None)))
  {
    InvHolds(run, i);
    var s := run[i];
    assert ThreadInv(s, t);
    if s.pcs[t] == Idle && s.works != [] {
      var s' := At(s, t, Running(s.works[0])).(works := s.works[1..], place := s.place[s.works[0] := With(t)]);
      assert TakesNext(s, t, s') && StepOf(s, t, s');
    }
    if s.pcs[t] != Idle && (s.pcs[t].Enter? ==> s.mutex == None) {
      var s' := Successor(s, t);
    }
  }

  // ----- which time-outs are dropped -----

  predicate IsWith(s: State, u: Tid, k: Task) {
    u in s.pcs && HasTask(s.pcs[u]) && s.pcs[u].task == k
  }

  ghost predicate PlaceIsRight(s: State, k: Task)
    requires k in s.place
  {
    match s.place[k]
    case Nowhere => true
    case With(u) => IsWith(s, u, k)
    case Waiting => k in s.works
    case Lost => s.destroyed
  }

  ghost predicate Accounted(s: State) {
    forall k :: k in s.place ==> PlaceIsRight(s, k)
  }

  lemma TakeKeepsAccounts(s: State, t: Tid, s': State, k: Task)
    requires Inv(s) && Accounted(s) && t in s.pcs && s.pcs[t].Idle? && s.works != [] && s.works[0] in s.place
    requires s' == At(s, t, Running(s.works[0])).(works := s.works[1..], place := s.place[s.works[0] := With(t)])
    requires k in s'.place
    ensures PlaceIsRight(s', k)
  {
    assert PlaceIsRight(s, k);
    if s'.place[k] == Waiting {
      assert k in s.works && s.works == [s.works[0]] + s.works[1..];
    }
  }

  lemma StepKeepsAccounts(s: State, t: Tid, s': State, k: Task)
    requires Inv(s) && Accounted(s) && StepOf(s, t, s') && k in s'.place
    ensures PlaceIsRight(s', k)
  {
    assert ThreadInv(s, t);
    if s.pcs[t].Idle? {
      if s'.works != s.works {
        TakeKeepsAccounts(s, t, s', k);
      } else {
        assert PlaceIsRight(s, k);
      }
    } else {
      StepOfTaskKeepsAccounts(s, t, s', k);
    }
  }

  lemma StepOfTaskKeepsAccounts(s: State, t: Tid, s': State, k: Task)
    requires Inv(s) && Accounted(s) && StepOf(s, t, s') && k in s'.place && ThreadInv(s, t) && !s.pcs[t].Idle?
    ensures PlaceIsRight(s', k)
  {
    if k in s.place {
      assert PlaceIsRight(s, k);
    }
  }

  lemma DestroyKeepsAccounts(s: State, s': State)
    requires Accounted(s) && DestroyPool(s, s')
    ensures Accounted(s')
  {
    forall k | k in s'.place ensures PlaceIsRight(s', k) {
      assert PlaceIsRight(s, k);
    }
  }

  lemma AccountsHold(run: seq<State>, i: nat)
    requires IsRun(run) && i < |run|
    ensures Inv(run[i]) && Accounted(run[i])
  {
    InvHolds(run, i);
    if i > 0 {
      AccountsHold(run, i - 1);
      var s, s' := run[i - 1], run[i];
      Runs.StepAt((s: State) => Init(s), (s: State, s': State) => Next(s, s'), run, i);
      if DestroyPool(s, s') {
        DestroyKeepsAccounts(s, s');
      } else {
        var t :| StepOf(s, t, s');
        forall k | k in s'.place ensures PlaceIsRight(s', k) {
          StepKeepsAccounts(s, t, s', k);
        }
      }
    }
  }

  /** A time-out is dropped, until the pool is destroyed, if and only if its timer task is still
      queued or with a thread that is to submit, run or clear it; otherwise it is submitted. */
  lemma TimeOutIsDroppedIff(run: seq<State>, i: nat, t: Tid)
    requires IsRun(run) && i + 1 < |run| && t in run[i].pcs && run[i].pcs[t].Test? && StepOf(run[i], t, run[i + 1])
    ensures var s := run[i]; var k := s.pcs[t].task; var after := run[i + 1].pcs[t];
      && (after == Leave || after == SetFlag(k))
      && (!s.destroyed ==> (after == Leave <==> k in s.works || exists u :: IsWith(s, u, k)))
  {
    AccountsHold(run, i);
    var s := run[i];
    var k := s.pcs[t].task;
    assert ThreadInv(s, t) && PlaceIsRight(s, k);
    if u: Tid :| IsWith(s, u, k) {
      assert ThreadInv(s, u);
    }
  }
}
