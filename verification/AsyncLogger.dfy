// spdlog's asynchronous logger (details/async_log_helper.h) as a transition
// system: any number of producers put messages into the atomic FIFO that the
// lock-free queue refines, one worker takes them out and hands each of them to
// every sink in turn, and the destructor ends with a message of level "off". Callers
// may log at that level too (logger::force_log), which the worker cannot tell apart.
module AsyncLogger {
  import opened Wrappers
  import Fifo
  import Runs

  type Tid = nat

  datatype Level = Trace | Debug | Info | Notice | Warn | Err | Critical | Alert | Emerg | Off

  /** The fields of log_msg that travel to the worker. */
  datatype LogMsg = LogMsg(loggerName: string, level: Level, time: int, threadId: nat, raw: string)

  // ----- moving messages into and out of the queue -----

  datatype AsyncMsg = AsyncMsg(loggerName: string, level: Level, time: int, threadId: nat, txt: string)

  function FromLogMsg(m: LogMsg): AsyncMsg {
    AsyncMsg(m.loggerName, m.level, m.time, m.threadId, m.raw)
  }

  /** What a string is after being moved from. */
  function MovedFrom(m: AsyncMsg): AsyncMsg {
    m.(loggerName := "", txt := "")
  }

  /** The message as a heap object, for the move operations. */
  class MsgSlot {
    var msg: AsyncMsg

    constructor FromLog(m: LogMsg)
      ensures msg == FromLogMsg(m)
    {
      msg := FromLogMsg(m);
    }

    /** The move constructor, which has no initialiser for thread_id. */
    constructor MoveFrom(other: MsgSlot, garbage: AsyncMsg)
      modifies other
      ensures msg == old(other.msg).(threadId := garbage.threadId)
      ensures other.msg == MovedFrom(old(other.msg))
    {
      msg := AsyncMsg(other.msg.loggerName, other.msg.level, other.msg.time, garbage.threadId, other.msg.txt);
      new;
      other.msg := other.msg.(loggerName := "", txt := "");
    }

    method MoveAssign(other: MsgSlot)
      requires other != this
      modifies this, other
      ensures msg == old(other.msg) && other.msg == MovedFrom(old(other.msg))
    {
      msg := AsyncMsg(other.msg.loggerName, other.msg.level, other.msg.time, other.msg.threadId, other.msg.txt);
      other.msg := other.msg.(loggerName := "", txt := "");
    }

    method FillLogMsg() returns (m: LogMsg)
      ensures FromLogMsg(m) == msg
    {
      m := LogMsg(msg.loggerName, msg.level, msg.time, msg.threadId, msg.txt);
    }
  }

  /** The whole way of a message: built from a log_msg, moved into a cell of the queue,
      moved out into the worker's message, copied into a log_msg. Nothing is changed. */
  method Travel(m: LogMsg, cell: MsgSlot, incoming: MsgSlot) returns (delivered: LogMsg)
    requires cell != incoming
    modifies cell, incoming
    ensures delivered == m
  {
    var newMsg := new MsgSlot.FromLog(m);
    cell.MoveAssign(newMsg);
    incoming.MoveAssign(cell);
    delivered := incoming.FillLogMsg();
  }

  /** Had the queue used the move constructor, the thread id would be lost. */
  method MoveConstructionLosesThreadId(m: LogMsg, garbage: AsyncMsg) returns (delivered: LogMsg)
    ensures delivered == m <==> garbage.threadId == m.threadId
  {
    var source := new MsgSlot.FromLog(m);
    var copy := new MsgSlot.MoveFrom(source, garbage);
    delivered := copy.FillLogMsg();
  }

  // ----- the transition system -----

  datatype Producer = Idle | Trying(msg: LogMsg)

  datatype Worker =
    | Polling
    | Handling(msg: LogMsg, nextSink: nat)
    | Stopped

  /** `retry` is the block_retry policy. History: `issued` is what each thread passed to
      log, `accepted` the enqueued messages with their threads, `popped` the dequeued
      ones, and `closing` the thread that runs the destructor. */
  datatype State = State(
    capacity: nat,
    retry: bool,
    queue: seq<LogMsg>,
    producers: map<Tid, Producer>,
    worker: Worker,
    sinks: seq<seq<LogMsg>>,
    issued: map<Tid, seq<LogMsg>>,
    accepted: seq<(Tid, LogMsg)>,
    popped: seq<LogMsg>,
    closing: Option<Tid>)

  /** A message that makes the worker stop: the destructor's, or any other of that level. */
  predicate IsOff(m: LogMsg) {
    m.level == Off
  }

  ghost predicate Init(s: State) {
    && s.capacity >= 2 && s.queue == [] && s.worker == Polling
    && (forall i :: 0 <= i < |s.sinks| ==> s.sinks[i] == [])
    && s.issued.Keys == s.producers.Keys
    && (forall t :: t in s.producers ==> s.producers[t] == Idle && s.issued[t] == [])
    && s.accepted == [] && s.popped == [] && s.closing == None
  }

  function Issue(s: State, t: Tid, m: LogMsg): State
    requires t in s.issued
  {
    s.(producers := s.producers[t := Trying(m)], issued := s.issued[t := s.issued[t] + [m]])
  }

  /** A producer calls log, with a message of any level. */
  ghost predicate StartLog(s: State, t: Tid, s': State) {
    && t in s.producers && t in s.issued && s.producers[t] == Idle && s.closing == None
    && exists m :: s' == Issue(s, t, m)
  }

  /** The destructor: nobody else is inside log, and nobody calls it from now on. */
  ghost predicate StartClose(s: State, t: Tid, s': State) {
    && t in s.producers && t in s.issued && s.closing == None
    && (forall u :: u in s.producers ==> s.producers[u] == Idle)
    && exists m :: IsOff(m) && s' == Issue(s, t, m).(closing := Some(t))
  }

  ghost predicate Enqueue(s: State, t: Tid, s': State) {
    && t in s.producers && s.producers[t].Trying?
    && var m := s.producers[t].msg;
       && Fifo.Put(s.capacity, s.queue, m, s'.queue)
       && s' == s.(queue := s'.queue, producers := s.producers[t := Idle], accepted := s.accepted + [(t, m)])
  }

  /** A failed enqueue leaves the message where it is: block_retry tries again, the
      other policy drops it and returns. */
  ghost predicate EnqueueFails(s: State, t: Tid, s': State) {
    && t in s.producers && s.producers[t].Trying?
    && s' == if s.retry then s else s.(producers := s.producers[t := Idle])
  }

  ghost predicate Dequeue(s: State, s': State) {
    && s.worker == Polling
    && s.queue != []
    && var m := s.queue[0];
       && Fifo.Get(s.queue, m, s'.queue)
       && s' == s.(queue := s'.queue,
                   popped := s.popped + [m],
                   worker := if IsOff(m) then Stopped else Handling(m, 0))
  }

  ghost predicate HandOver(s: State, s': State) {
    && s.worker.Handling?
    && var i := s.worker.nextSink;
       s' == if i < |s.sinks| then
               s.(sinks := s.sinks[i := s.sinks[i] + [s.worker.msg]], worker := s.worker.(nextSink := i + 1))
             else
               s.(worker := Polling)
  }

  ghost predicate Next(s: State, s': State) {
    || (exists t :: StartLog(s, t, s') || StartClose(s, t, s') || Enqueue(s, t, s') || EnqueueFails(s, t, s'))
    || Dequeue(s, s')
    || HandOver(s, s')
    || s' == s
  }

  // ----- the inductive invariant -----

  function Messages(log: seq<(Tid, LogMsg)>): seq<LogMsg> {
    seq(|log|, i requires 0 <= i < |log| => log[i].1)
  }

  /** The messages of one thread, in order. */
  function Of(log: seq<(Tid, LogMsg)>, t: Tid): seq<LogMsg> {
    if log == [] then []
    else
      var last := log[|log| - 1];
      Of(log[..|log| - 1], t) + (if last.0 == t then [last.1] else [])
  }

  lemma OfAppend(log: seq<(Tid, LogMsg)>, e: (Tid, LogMsg), t: Tid)
    ensures Of(log + [e], t) == Of(log, t) + (if e.0 == t then [e.1] else [])
  {
    assert (log + [e])[..|log|] == log;
  }

  lemma MessagesAppend(log: seq<(Tid, LogMsg)>, e: (Tid, LogMsg))
    ensures Messages(log + [e]) == Messages(log) + [e.1]
  {
  }

  function Last<T>(xs: seq<T>): T
    requires xs != []
  {
    xs[|xs| - 1]
  }

  function Pending(p: Producer): seq<LogMsg> {
    if p.Trying? then [p.msg] else []
  }

  ghost predicate QueueInv(s: State) {
    Messages(s.accepted) == s.popped + s.queue && |s.queue| <= s.capacity && s.capacity >= 2
  }

  ghost predicate SinkInv(s: State) {
    && (forall k :: 0 <= k < |s.popped| - 1 ==> !IsOff(s.popped[k]))
    && (match s.worker
        case Polling =>
          && (s.popped != [] ==> !IsOff(s.popped[|s.popped| - 1]))
          && (forall i :: 0 <= i < |s.sinks| ==> s.sinks[i] == s.popped)
        case Handling(m, n) =>
          && s.popped != [] && s.popped[|s.popped| - 1] == m && !IsOff(m) && n <= |s.sinks|
          && (forall i :: 0 <= i < |s.sinks| ==>
                s.sinks[i] == if i < n then s.popped else s.popped[..|s.popped| - 1])
        case Stopped =>
          && s.popped != [] && IsOff(s.popped[|s.popped| - 1])
          && (forall i :: 0 <= i < |s.sinks| ==> s.sinks[i] == s.popped[..|s.popped| - 1]))
  }

  ghost predicate ProducerInv(s: State) {
    && s.issued.Keys == s.producers.Keys
    && (forall k :: 0 <= k < |s.accepted| ==> s.accepted[k].0 in s.producers)
    && (s.retry ==> forall t :: t in s.producers ==>
          Of(s.accepted, t) + Pending(s.producers[t]) == s.issued[t])
  }

  /** The destructor's message is its thread's last one, and with block_retry, once it is
      in the queue, nothing follows it. */
  ghost predicate CloseInv(s: State) {
    s.closing.Some? ==>
      var c := s.closing.value;
      && c in s.producers && c in s.issued && s.issued[c] != [] && IsOff(Last(s.issued[c]))
      && (forall u :: u in s.producers && u != c ==> s.producers[u] == Idle)
      && (s.producers[c].Trying? ==> s.producers[c].msg == Last(s.issued[c]))
      && (s.retry && s.producers[c] == Idle ==> s.accepted != [] && Last(s.accepted) == (c, Last(s.issued[c])))
  }

  ghost predicate Inv(s: State) {
    QueueInv(s) && SinkInv(s) && ProducerInv(s) && CloseInv(s)
  }

  lemma EnqueueKeepsProducers(s: State, t: Tid, s': State)
    requires ProducerInv(s) && Enqueue(s, t, s')
    ensures ProducerInv(s')
  {
    var e := (t, s.producers[t].msg);
    forall u | u in s.producers && s.retry
      ensures Of(s'.accepted, u) + Pending(s'.producers[u]) == s.issued[u]
    {
      OfAppend(s.accepted, e, u);
    }
  }

  lemma EnqueueKeepsInv(s: State, t: Tid, s': State)
    requires Inv(s) && Enqueue(s, t, s')
    ensures Inv(s')
  {
    MessagesAppend(s.accepted, (t, s.producers[t].msg));
    EnqueueKeepsProducers(s, t, s');
  }

  lemma DequeueKeepsInv(s: State, s': State)
    requires Inv(s) && Dequeue(s, s')
    ensures Inv(s')
  {
    assert s.popped + s.queue == s'.popped + s'.queue;
    assert s'.popped[..|s'.popped| - 1] == s.popped;
  }

  lemma HandOverKeepsInv(s: State, s': State)
    requires Inv(s) && HandOver(s, s')
    ensures Inv(s')
  {
    assert s.popped == s.popped[..|s.popped| - 1] + [s.worker.msg];
  }

  lemma IssueKeepsProducers(s: State, t: Tid, m: LogMsg)
    requires ProducerInv(s) && t in s.producers && s.producers[t] == Idle
    ensures ProducerInv(Issue(s, t, m))
  {
    var s' := Issue(s, t, m);
    forall u | u in s'.producers && s.retry
      ensures Of(s.accepted, u) + Pending(s'.producers[u]) == s'.issued[u]
    {
      assert Of(s.accepted, u) + Pending(s.producers[u]) == s.issued[u];
    }
  }

  lemma IssueKeepsInv(s: State, t: Tid, m: LogMsg, s': State)
    requires Inv(s) && t in s.producers && s.producers[t] == Idle && s.closing == None
    requires || s' == Issue(s, t, m)
             || (IsOff(m) && (forall u :: u in s.producers ==> s.producers[u] == Idle)
                 && s' == Issue(s, t, m).(closing := Some(t)))
    ensures Inv(s')
  {
    IssueKeepsProducers(s, t, m);
  }

  lemma CallStepKeepsInv(s: State, t: Tid, s': State)
    requires Inv(s) && (StartLog(s, t, s') || StartClose(s, t, s') || EnqueueFails(s, t, s'))
    ensures Inv(s')
  {
    if StartLog(s, t, s') {
      var m :| s' == Issue(s, t, m);
      IssueKeepsInv(s, t, m, s');
    } else if StartClose(s, t, s') {
      var m :| IsOff(m) && s' == Issue(s, t, m).(closing := Some(t));
      IssueKeepsInv(s, t, m, s');
    } else {
      FailKeepsInv(s, t, s');
    }
  }

  lemma FailKeepsInv(s: State, t: Tid, s': State)
    requires Inv(s) && EnqueueFails(s, t, s')
    ensures Inv(s')
  {
  }

  lemma NextKeepsInv(s: State, s': State)
    requires Inv(s) && Next(s, s')
    ensures Inv(s')
  {
    if Dequeue(s, s') {
      DequeueKeepsInv(s, s');
    } else if HandOver(s, s') {
      HandOverKeepsInv(s, s');
    } else if s' != s {
      var t :| StartLog(s, t, s') || StartClose(s, t, s') || Enqueue(s, t, s') || EnqueueFails(s, t, s');
      if Enqueue(s, t, s') {
        EnqueueKeepsInv(s, t, s');
      } else {
        CallStepKeepsInv(s, t, s');
      }
    }
  }

  // ----- main results, for every run with any number of producers -----

  ghost predicate IsRun(run: seq<State>) {
    Runs.IsRun((s: State) => Init(s), (s: State, s': State) => Next(s, s'), run)
  }

  lemma InvHolds(run: seq<State>, i: nat)
    requires IsRun(run) && i < |run|
    ensures Inv(run[i])
  {
    forall s | Init(s) ensures Inv(s) {
    }
    forall s, s' | Inv(s) && Next(s, s') ensures Inv(s') {
      NextKeepsInv(s, s');
    }
    Runs.InvariantHolds((s: State) => Init(s), (s: State, s': State) => Next(s, s'), (s: State) => Inv(s), run, i);
  }

  /** At any moment every sink has received a prefix of the messages in enqueue order, and
      no two sinks are more than the message being handed over apart. */
  lemma SinksSeeEnqueueOrder(run: seq<State>, i: nat, k: nat)
    requires IsRun(run) && i < |run| && k < |run[i].sinks|
    ensures var s := run[i];
      && s.sinks[k] <= Messages(s.accepted)
      && |s.sinks[k]| <= |s.popped| <= |s.sinks[k]| + 1
      && |s.queue| <= s.capacity
  {
    InvHolds(run, i);
  }

  /** With block_retry each thread's messages enter the queue in the order of its calls,
      none missing but the one it may still be trying to enqueue. */
  lemma ProducerOrderKept(run: seq<State>, i: nat, t: Tid)
    requires IsRun(run) && i < |run| && run[i].retry && t in run[i].producers
    ensures t in run[i].issued
    ensures Of(run[i].accepted, t) + Pending(run[i].producers[t]) == run[i].issued[t]
  {
    InvHolds(run, i);
  }

  // ----- with the other policy messages may be missing, but nothing else -----

  /** `part` is `whole` with some messages left out. */
  ghost predicate Thinned(part: seq<LogMsg>, whole: seq<LogMsg>) {
    part == [] ||
    (whole != [] &&
     (Thinned(part, whole[..|whole| - 1])
      || (Last(part) == Last(whole) && Thinned(part[..|part| - 1], whole[..|whole| - 1]))))
  }

  lemma ThinnedMore(part: seq<LogMsg>, whole: seq<LogMsg>, m: LogMsg)
    requires Thinned(part, whole)
    ensures Thinned(part, whole + [m]) && Thinned(part + [m], whole + [m])
  {
    assert (whole + [m])[..|whole|] == whole && (part + [m])[..|part|] == part;
  }

  /** The messages whose calls have returned have gone in, or been dropped; the one still
      being tried is the last one issued. */
  ghost predicate ThinnedInv(s: State) {
    forall t :: t in s.producers && t in s.issued ==> ThreadThinned(s, t)
  }

  ghost predicate ThreadThinned(s: State, t: Tid)
    requires t in s.producers && t in s.issued
  {
    IsThinned(Pending(s.producers[t]), s.issued[t], Of(s.accepted, t))
  }

  ghost predicate IsThinned(pending: seq<LogMsg>, issued: seq<LogMsg>, entered: seq<LogMsg>) {
    var done := |issued| - |pending|;
    done >= 0 && issued[done..] == pending && Thinned(entered, issued[..done])
  }

  lemma ThinnedIssue(issued: seq<LogMsg>, entered: seq<LogMsg>, m: LogMsg)
    requires IsThinned([], issued, entered)
    ensures IsThinned([m], issued + [m], entered)
  {
    assert issued[..|issued|] == issued && (issued + [m])[..|issued|] == issued;
  }

  lemma ThinnedReturn(issued: seq<LogMsg>, entered: seq<LogMsg>, m: LogMsg)
    requires IsThinned([m], issued, entered)
    ensures IsThinned([], issued, entered) && IsThinned([], issued, entered + [m])
  {
    var done := issued[..|issued| - 1];
    assert issued == done + [m] && issued[..|issued|] == issued;
    ThinnedMore(entered, done, m);
  }

  lemma IssueKeepsThinned(s: State, t: Tid, m: LogMsg, u: Tid)
    requires t in s.producers && t in s.issued && s.producers[t] == Idle && u in s.producers && u in s.issued
    requires ThreadThinned(s, u)
    ensures ThreadThinned(Issue(s, t, m), u)
  {
    if u == t {
      ThinnedIssue(s.issued[t], Of(s.accepted, t), m);
    }
  }

  lemma ReturnKeepsThinned(s: State, t: Tid, s': State, u: Tid)
    requires t in s.producers && s.producers[t].Trying? && u in s.producers && u in s.issued && ThreadThinned(s, u)
    requires s'.producers == s.producers[t := Idle] && s'.issued == s.issued
    requires s'.accepted == s.accepted || s'.accepted == s.accepted + [(t, s.producers[t].msg)]
    ensures ThreadThinned(s', u)
  {
    var m := s.producers[t].msg;
    OfAppend(s.accepted, (t, m), u);
    if u == t {
      ThinnedReturn(s.issued[t], Of(s.accepted, t), m);
    } else {
      assert Of(s.accepted, u) + [] == Of(s.accepted, u);
    }
  }

  lemma OtherKeepsThinned(s: State, s': State, u: Tid)
    requires s'.producers == s.producers && s'.issued == s.issued && s'.accepted == s.accepted
    requires u in s.producers && u in s.issued && ThreadThinned(s, u)
    ensures ThreadThinned(s', u)
  {
  }

  lemma CallKeepsThreads(s: State, t: Tid, s': State)
    requires StartLog(s, t, s') || StartClose(s, t, s') || Enqueue(s, t, s') || EnqueueFails(s, t, s')
    ensures s'.producers.Keys == s.producers.Keys && s'.issued.Keys == s.issued.Keys
  {
  }

  lemma StepIsCallOrOther(s: State, s': State)
    requires Next(s, s')
    ensures || (s'.producers == s.producers && s'.issued == s.issued && s'.accepted == s.accepted)
            || exists t :: StartLog(s, t, s') || StartClose(s, t, s') || Enqueue(s, t, s') || EnqueueFails(s, t, s')
  {
  }

  lemma StepKeepsThreads(s: State, s': State)
    requires Next(s, s')
    ensures s'.producers.Keys == s.producers.Keys && s'.issued.Keys == s.issued.Keys
  {
    StepIsCallOrOther(s, s');
    if t :| StartLog(s, t, s') || StartClose(s, t, s') || Enqueue(s, t, s') || EnqueueFails(s, t, s') {
      CallKeepsThreads(s, t, s');
    }
  }

  lemma NextKeepsThinned(s: State, s': State, u: Tid)
    requires Next(s, s') && u in s.producers && u in s.issued && ThreadThinned(s, u)
    ensures u in s'.producers && u in s'.issued && ThreadThinned(s', u)
  {
    StepIsCallOrOther(s, s');
    if s'.producers == s.producers && s'.issued == s.issued && s'.accepted == s.accepted {
      OtherKeepsThinned(s, s', u);
    } else {
      var t :| StartLog(s, t, s') || StartClose(s, t, s') || Enqueue(s, t, s') || EnqueueFails(s, t, s');
      CallKeepsThinned(s, t, s', u);
    }
  }

  lemma CallKeepsThinned(s: State, t: Tid, s': State, u: Tid)
    requires u in s.producers && u in s.issued && ThreadThinned(s, u) && t in s.producers
    requires StartLog(s, t, s') || StartClose(s, t, s') || Enqueue(s, t, s') || EnqueueFails(s, t, s')
    ensures u in s'.producers && u in s'.issued && ThreadThinned(s', u)
  {
    if StartLog(s, t, s') {
      var m :| s' == Issue(s, t, m);
      IssueKeepsThinned(s, t, m, u);
    } else if StartClose(s, t, s') {
      var m :| IsOff(m) && s' == Issue(s, t, m).(closing := Some(t));
      IssueKeepsThinned(s, t, m, u);
    } else if s' != s {
      ReturnKeepsThinned(s, t, s', u);
    }
  }

  lemma ThinnedHolds(run: seq<State>, i: nat)
    requires IsRun(run) && i < |run|
    ensures ThinnedInv(run[i])
  {
    if i > 0 {
      ThinnedHolds(run, i - 1);
      Runs.StepAt((s: State) => Init(s), (s: State, s': State) => Next(s, s'), run, i);
      StepKeepsThreads(run[i - 1], run[i]);
      forall u | u in run[i].producers && u in run[i].issued ensures ThreadThinned(run[i], u) {
        assert ThreadThinned(run[i - 1], u);
        NextKeepsThinned(run[i - 1], run[i], u);
      }
    }
  }

  lemma ThinnedThread(s: State, t: Tid)
    requires t in s.producers && t in s.issued && ThinnedInv(s)
    ensures Thinned(Of(s.accepted, t), s.issued[t])
  {
    var all, mine := s.issued[t], Of(s.accepted, t);
    assert ThreadThinned(s, t);
    if s.producers[t].Trying? {
      ThinnedReturn(all, mine, s.producers[t].msg);
    }
    assert all[..|all|] == all;
  }

  /** Whatever the policy, what a thread has got into the queue is what it logged, in order and
      each message at most once, with some messages perhaps left out. */
  lemma NothingAddedOrReordered(run: seq<State>, i: nat, t: Tid)
    requires IsRun(run) && i < |run| && t in run[i].producers
    ensures t in run[i].issued && Thinned(Of(run[i].accepted, t), run[i].issued[t])
  {
    InvHolds(run, i);
    ThinnedHolds(run, i);
    ThinnedThread(run[i], t);
  }

  // ----- what is delivered when the worker has stopped -----

  predicate FirstOff(log: seq<(Tid, LogMsg)>, f: nat) {
    f < |log| && IsOff(log[f].1) && forall k :: 0 <= k < f ==> !IsOff(log[k].1)
  }

  /** When the worker has stopped, every sink has received, exactly once and in enqueue
      order, the messages accepted before the first one of level off, and whatever was
      accepted after that one is still in the queue. */
  lemma StoppedAtFirstOff(run: seq<State>, i: nat) returns (f: nat)
    requires IsRun(run) && i < |run| && run[i].worker.Stopped?
    ensures var s := run[i];
      && FirstOff(s.accepted, f) && |s.popped| == f + 1
      && (forall k :: 0 <= k < |s.sinks| ==> s.sinks[k] == Messages(s.accepted[..f]))
      && s.queue == Messages(s.accepted[f + 1..])
  {
    InvHolds(run, i);
    f := StopPoint(run[i]);
  }

  lemma StopPoint(s: State) returns (f: nat)
    requires Inv(s) && s.worker.Stopped?
    ensures FirstOff(s.accepted, f) && |s.popped| == f + 1
    ensures forall k :: 0 <= k < |s.sinks| ==> s.sinks[k] == Messages(s.accepted[..f])
    ensures s.queue == Messages(s.accepted[f + 1..])
  {
    f := |s.popped| - 1;
    var all := Messages(s.accepted);
    assert forall k :: 0 <= k <= f ==> s.accepted[k].1 == all[k] == s.popped[k];
    assert s.popped[..f] == Messages(s.accepted[..f]);
    assert all[f + 1..] == s.queue && all[f + 1..] == Messages(s.accepted[f + 1..]);
  }

  /** What a thread passed to log, without the message of the destructor. */
  function UserMessages(s: State, t: Tid): seq<LogMsg>
    requires t in s.issued
  {
    if s.closing == Some(t) && s.issued[t] != [] then s.issued[t][..|s.issued[t]| - 1] else s.issued[t]
  }

  /** The worker handed over a part of the accepted messages that holds everything each
      thread logged, and every sink has received just that part. */
  ghost predicate AllDelivered(s: State)
    requires s.issued.Keys == s.producers.Keys
  {
    && 1 <= |s.popped| <= |s.accepted|
    && var handled := s.accepted[..|s.popped| - 1];
       && (forall k :: 0 <= k < |s.sinks| ==> s.sinks[k] == Messages(handled))
       && (forall t :: t in s.producers ==> Of(handled, t) == UserMessages(s, t))
  }

  /** Nobody but the destructor logged at level off. */
  ghost predicate NoStrayOff(s: State) {
    forall t, k :: t in s.issued && 0 <= k < |UserMessages(s, t)| ==> !IsOff(UserMessages(s, t)[k])
  }

  /** The promise of block_retry and when it is kept: once the worker has stopped, everything
      logged has reached every sink, each thread's messages in order, if and only if no
      message of level off was logged but the destructor's. */
  lemma DeliveredIffNoStrayOff(run: seq<State>, i: nat)
    requires IsRun(run) && i < |run| && run[i].retry && run[i].worker.Stopped?
    ensures run[i].issued.Keys == run[i].producers.Keys
    ensures AllDelivered(run[i]) <==> NoStrayOff(run[i])
  {
    InvHolds(run, i);
    var s := run[i];
    var f := StopPoint(s);
    if NoStrayOff(s) {
      NoStrayOffDelivers(s, f);
    }
    if AllDelivered(s) {
      DeliveredHasNoOff(s, f);
    }
  }

  lemma {:induction false} OfHolds(log: seq<(Tid, LogMsg)>, k: nat)
    requires k < |log|
    ensures log[k].1 in Of(log, log[k].0)
  {
    if k < |log| - 1 {
      OfHolds(log[..|log| - 1], k);
    }
  }

  lemma {:induction false} OfComesFrom(log: seq<(Tid, LogMsg)>, t: Tid, i: nat)
    requires i < |Of(log, t)|
    ensures exists k :: 0 <= k < |log| && log[k].1 == Of(log, t)[i]
  {
    var front := log[..|log| - 1];
    if i < |Of(front, t)| {
      OfComesFrom(front, t, i);
      var k :| 0 <= k < |front| && front[k].1 == Of(front, t)[i];
      assert log[k].1 == Of(log, t)[i];
    } else {
      assert log[|log| - 1].1 == Of(log, t)[i];
    }
  }

  lemma DeliveredHasNoOff(s: State, f: nat)
    requires s.issued.Keys == s.producers.Keys && AllDelivered(s)
    requires FirstOff(s.accepted, f) && |s.popped| == f + 1
    ensures NoStrayOff(s)
  {
    var handled := s.accepted[..f];
    forall t, i | t in s.issued && 0 <= i < |UserMessages(s, t)| ensures !IsOff(UserMessages(s, t)[i]) {
      OfComesFrom(handled, t, i);
    }
  }

  lemma OffEndsTheThread(s: State, t: Tid, i: nat)
    requires NoStrayOff(s) && t in s.issued && i < |s.issued[t]| && IsOff(s.issued[t][i])
    ensures s.closing == Some(t) && i == |s.issued[t]| - 1
  {
    assert UserMessages(s, t) <= s.issued[t];
  }

  /** Without stray messages the one that stopped the worker is the destructor's. */
  lemma StopperIsLast(s: State, f: nat)
    requires Inv(s) && s.retry && NoStrayOff(s) && FirstOff(s.accepted, f)
    ensures f == |s.accepted| - 1 && s.closing == Some(s.accepted[f].0)
    ensures s.accepted[f].0 in s.producers && s.producers[s.accepted[f].0] == Idle
    ensures s.issued[s.accepted[f].0] == UserMessages(s, s.accepted[f].0) + [s.accepted[f].1]
  {
    var t, m := s.accepted[f].0, s.accepted[f].1;
    var before := Of(s.accepted, t);
    OfHolds(s.accepted, f);
    var i :| 0 <= i < |before| && before[i] == m;
    assert s.issued[t] == before + Pending(s.producers[t]) && s.issued[t][i] == m;
    OffEndsTheThread(s, t, i);
    assert s.issued[t] == s.issued[t][..i] + [m];
    if f < |s.accepted| - 1 {
      EarlierIsUser(s, f, t);
    }
  }

  lemma EarlierIsUser(s: State, f: nat, t: Tid)
    requires Inv(s) && s.retry && s.closing == Some(t) && s.producers[t] == Idle
    requires f < |s.accepted| - 1 && s.accepted[f].0 == t
    ensures s.accepted[f].1 in UserMessages(s, t)
  {
    var front := s.accepted[..|s.accepted| - 1];
    OfHolds(front, f);
    OfAppend(front, Last(s.accepted), t);
    assert s.accepted == front + [Last(s.accepted)];
    assert s.issued[t] == Of(front, t) + [Last(s.issued[t])];
    assert UserMessages(s, t) == Of(front, t);
  }

  lemma NoStrayOffDelivers(s: State, f: nat)
    requires Inv(s) && s.retry && NoStrayOff(s)
    requires FirstOff(s.accepted, f) && |s.popped| == f + 1
    requires forall k :: 0 <= k < |s.sinks| ==> s.sinks[k] == Messages(s.accepted[..f])
    ensures AllDelivered(s)
  {
    StopperIsLast(s, f);
    var handled := s.accepted[..f];
    assert s.accepted == handled + [s.accepted[f]];
    forall u | u in s.producers ensures Of(handled, u) == UserMessages(s, u) {
      OfAppend(handled, s.accepted[f], u);
      assert s.producers[u] == Idle && s.issued[u] == Of(s.accepted, u) + [];
    }
  }

  // ----- what a stray message of level off costs -----

  lemma StoppedStep(s: State, s': State)
    requires s.worker.Stopped? && Next(s, s')
    ensures s'.worker.Stopped? && s'.sinks == s.sinks
  {
  }

  /** A stopped worker stays stopped, and no sink receives anything any more. */
  lemma StoppedIsForever(run: seq<State>, i: nat, j: nat)
    requires IsRun(run) && i <= j < |run| && run[i].worker.Stopped?
    ensures run[j].worker.Stopped? && run[j].sinks == run[i].sinks
  {
    var sinks := run[i].sinks;
    forall s: State, s': State | s.worker.Stopped? && Next(s, s') ensures s'.worker.Stopped? && s'.sinks == s.sinks {
      StoppedStep(s, s');
    }
    Runs.StaysTrue((s: State) => Init(s), (s: State, s': State) => Next(s, s'),
                   (s: State) => s.worker.Stopped? && s.sinks == sinks, run, i, j);
  }

  /** Inside log with the queue full and nobody to empty it. */
  ghost predicate Stuck(s: State, t: Tid, m: LogMsg) {
    && s.worker.Stopped? && s.retry && |s.queue| >= s.capacity
    && t in s.producers && s.producers[t] == Trying(m)
  }

  lemma StuckStep(s: State, s': State, t: Tid, m: LogMsg)
    requires Stuck(s, t, m) && Next(s, s')
    ensures Stuck(s', t, m)
  {
  }

  /** Once the queue behind a stopped worker is full, a block_retry call, the destructor's
      included, never gets out of its loop. */
  lemma FullQueueBlocksForever(run: seq<State>, i: nat, j: nat, t: Tid, m: LogMsg)
    requires IsRun(run) && i <= j < |run| && Stuck(run[i], t, m)
    ensures Stuck(run[j], t, m)
  {
    forall s, s' | Stuck(s, t, m) && Next(s, s') ensures Stuck(s', t, m) {
      StuckStep(s, s', t, m);
    }
    Runs.StaysTrue((s: State) => Init(s), (s: State, s': State) => Next(s, s'),
                   (s: State) => Stuck(s, t, m), run, i, j);
  }

  // ----- runs that go on -----

  /** A run that begins with this one. */
  ghost predicate Continues(run: seq<State>, longer: seq<State>) {
    IsRun(run) && IsRun(longer) && run <= longer
  }

  lemma RunGoesOn(run: seq<State>, s': State) returns (longer: seq<State>)
    requires IsRun(run) && Next(Last(run), s')
    ensures Continues(run, longer) && longer == run + [s'] && Last(longer) == s'
  {
    longer := run + [s'];
    Runs.Extend((s: State) => Init(s), (s: State, s': State) => Next(s, s'), run, s');
  }

  /** The worker alone moved: nothing entered the queue and no caller did anything. */
  ghost predicate OnlyWorkerMoved(s: State, s': State) {
    && s' == s.(queue := s'.queue, popped := s'.popped, worker := s'.worker, sinks := s'.sinks)
    && |s'.sinks| == |s.sinks|
  }

  /** The worker finishes the message it is handing over, one step a sink. */
  lemma {:induction false} HandOverEnds(run: seq<State>) returns (longer: seq<State>)
    requires IsRun(run) && Last(run).worker.Handling? && Last(run).worker.nextSink <= |Last(run).sinks|
    ensures Continues(run, longer) && OnlyWorkerMoved(Last(run), Last(longer))
    ensures Last(longer).worker == Polling && Last(longer).queue == Last(run).queue
    ensures |longer| == |run| + |Last(run).sinks| - Last(run).worker.nextSink + 1
    decreases |Last(run).sinks| - Last(run).worker.nextSink
  {
    var s := Last(run);
    var i := s.worker.nextSink;
    if i == |s.sinks| {
      var s' := s.(worker := Polling);
      assert HandOver(s, s');
      longer := RunGoesOn(run, s');
    } else {
      var s' := s.(sinks := s.sinks[i := s.sinks[i] + [s.worker.msg]], worker := s.worker.(nextSink := i + 1));
      assert HandOver(s, s');
      longer := RunGoesOn(run, s');
      longer := HandOverEnds(longer);
    }
  }

  /** A stopped worker never makes room again. */
  ghost predicate NoRoomEver(s: State) {
    s.worker.Stopped? && |s.queue| >= s.capacity
  }

  lemma PollingMakesRoom(run: seq<State>) returns (longer: seq<State>)
    requires IsRun(run) && Last(run).worker == Polling && Last(run).queue != []
    requires |Last(run).queue| <= Last(run).capacity
    ensures Continues(run, longer) && OnlyWorkerMoved(Last(run), Last(longer))
    ensures |Last(longer).queue| < Last(longer).capacity && |longer| == |run| + 1
  {
    var s := Last(run);
    var m := s.queue[0];
    var s' := s.(queue := s.queue[1..], popped := s.popped + [m],
                 worker := if IsOff(m) then Stopped else Handling(m, 0));
    assert Dequeue(s, s');
    longer := RunGoesOn(run, s');
  }

  lemma RoomComes(run: seq<State>) returns (longer: seq<State>)
    requires IsRun(run) && !NoRoomEver(Last(run))
    ensures Continues(run, longer) && OnlyWorkerMoved(Last(run), Last(longer))
    ensures |Last(longer).queue| < Last(longer).capacity && |longer| <= |run| + |Last(run).sinks| + 2
  {
    InvHolds(run, |run| - 1);
    longer := run;
    if |Last(run).queue| >= Last(run).capacity {
      if Last(run).worker.Handling? {
        longer := HandOverEnds(run);
      }
      longer := PollingMakesRoom(longer);
    }
  }

  /** The call of t has put its message into the queue. */
  ghost predicate Entered(s: State, t: Tid, m: LogMsg) {
    t in s.producers && s.producers[t] == Idle && s.accepted != [] && Last(s.accepted) == (t, m)
  }

  /** Unless the worker has stopped and the queue is full, the worker alone can make the room
      a retrying call needs, within as many steps as there are sinks and two more. */
  lemma CallCanEnter(run: seq<State>, t: Tid, m: LogMsg) returns (longer: seq<State>)
    requires IsRun(run) && t in Last(run).producers && Last(run).producers[t] == Trying(m)
    requires !NoRoomEver(Last(run))
    ensures Continues(run, longer) && Entered(Last(longer), t, m)
    ensures |longer| <= |run| + |Last(run).sinks| + 3
  {
    longer := RoomComes(run);
    var s := Last(longer);
    var s' := s.(queue := s.queue + [m], producers := s.producers[t := Idle], accepted := s.accepted + [(t, m)]);
    assert Enqueue(s, t, s');
    longer := RunGoesOn(longer, s');
  }

  /** The promise that a block_retry call returns, and when it is kept: in every reachable
      state some continuation lets the call in if and only if it is not the case that the
      worker has stopped and the queue is full. */
  lemma CallReturnsIff(run: seq<State>, t: Tid, m: LogMsg)
    requires IsRun(run) && Last(run).retry
    requires t in Last(run).producers && Last(run).producers[t] == Trying(m)
    ensures (exists longer :: Continues(run, longer) && Entered(Last(longer), t, m)) <==> !NoRoomEver(Last(run))
  {
    if NoRoomEver(Last(run)) {
      forall longer | Continues(run, longer) ensures !Entered(Last(longer), t, m) {
        FullQueueBlocksForever(longer, |run| - 1, |longer| - 1, t, m);
      }
    } else {
      var longer := CallCanEnter(run, t, m);
    }
  }

  // ----- runs that lose a message or block -----

  lemma Begins(t: Tid, sinkCount: nat) returns (run: seq<State>)
    ensures IsRun(run) && |run| == 1
    ensures Last(run) == State(2, true, [], map[t := Idle], Polling, seq(sinkCount, _ => []), map[t := []], [], [], None)
  {
    run := [State(2, true, [], map[t := Idle], Polling, seq(sinkCount, _ => []), map[t := []], [], [], None)];
    assert Init(run[0]);
  }

  /** The state once a call of t has put m into the queue. */
  function Logged(s: State, t: Tid, m: LogMsg): State
    requires t in s.issued
  {
    s.(queue := s.queue + [m], issued := s.issued[t := s.issued[t] + [m]], accepted := s.accepted + [(t, m)])
  }

  lemma CallLogs(run: seq<State>, t: Tid, m: LogMsg) returns (longer: seq<State>)
    requires IsRun(run)
    requires var s := Last(run);
      && t in s.producers && t in s.issued && s.producers[t] == Idle
      && s.closing == None && |s.queue| < s.capacity
    ensures Continues(run, longer) && Last(longer) == Logged(Last(run), t, m)
  {
    var s := Last(run);
    assert StartLog(s, t, Issue(s, t, m));
    longer := RunGoesOn(run, Issue(s, t, m));
    assert s.producers[t := Trying(m)][t := Idle] == s.producers;
    assert Enqueue(Last(longer), t, Logged(s, t, m));
    longer := RunGoesOn(longer, Logged(s, t, m));
  }

  /** A message of level off, and the worker takes it and stops. */
  lemma OffStops(t: Tid, off: LogMsg, sinkCount: nat) returns (run: seq<State>)
    requires IsOff(off)
    ensures IsRun(run)
    ensures Last(run) == State(2, true, [], map[t := Idle], Stopped, seq(sinkCount, _ => []), map[t := [off]],
                               [(t, off)], [off], None)
  {
    run := Begins(t, sinkCount);
    run := CallLogs(run, t, off);
    var s := Last(run);
    var s' := s.(queue := [], popped := [off], worker := Stopped);
    assert s.queue == [off] && [] + [off] == [off];
    assert Dequeue(s, s');
    run := RunGoesOn(run, s');
    assert map[t := []][t := [off]] == map[t := [off]];
  }

  /** For any messages and any number of sinks: a thread logs one message of level off and
      then another one, which is accepted and never delivered. */
  lemma StrayOffLosesMessages(t: Tid, off: LogMsg, lost: LogMsg, sinkCount: nat) returns (run: seq<State>)
    requires IsOff(off)
    ensures IsRun(run)
    ensures var s := Last(run);
      && s.retry && s.closing == None && |s.sinks| == sinkCount
      && s.producers == map[t := Idle] && s.issued == map[t := [off, lost]]
      && s.accepted == [(t, off), (t, lost)]
      && s.worker.Stopped? && forall k :: 0 <= k < sinkCount ==> s.sinks[k] == []
  {
    run := OffStops(t, off, sinkCount);
    run := CallLogs(run, t, lost);
    assert [off] + [lost] == [off, lost];
  }

  /** For any messages and any number of sinks: two messages after one of level off fill the
      queue, and then the next call, or the destructor, is blocked for ever. */
  lemma BlockedIsReachable(t: Tid, off: LogMsg, a: LogMsg, b: LogMsg, m: LogMsg, closes: bool, sinkCount: nat)
    returns (run: seq<State>)
    requires IsOff(off) && (closes ==> IsOff(m))
    ensures IsRun(run) && Stuck(Last(run), t, m) && |Last(run).sinks| == sinkCount
    ensures Last(run).closing == if closes then Some(t) else None
  {
    run := OffStops(t, off, sinkCount);
    run := CallLogs(run, t, a);
    run := CallLogs(run, t, b);
    var s := Last(run);
    if closes {
      var s' := Issue(s, t, m).(closing := Some(t));
      assert StartClose(s, t, s');
      run := RunGoesOn(run, s');
    } else {
      assert StartLog(s, t, Issue(s, t, m));
      run := RunGoesOn(run, Issue(s, t, m));
    }
  }
}
