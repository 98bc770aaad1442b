// kpr's thread pool (src/kpr/ThreadPool.cpp): the work queue, the worker list and
// its counter. The pool's methods run under the pool's monitor, so callers, the
// workers' GetWork and RemoveThread, and the manager take turns. The idle flags are
// different: a worker changes its own with SetIdle, under its own monitor, at any
// time, also while the pool looks through the list. Threads can always be created.
module ThreadPool {
  import opened Lists
  import opened Wrappers

  const MAX_THREAD_COUNT := 300
  const MIN_THREAD_COUNT := 5
  const MAX_IDLE_THREAD_TIME := 300000

  datatype Worker = Worker(id: nat, idle: bool, idleTime: int, stopped: bool)

  /** ThreadPoolWorker::IdleTime: adds the interval to an idle worker's time. */
  function Tick(w: Worker, interval: nat): Worker {
    w.(idleTime := if w.idle then w.idleTime + interval else 0)
  }

  /** The position of the first idle worker, or the length of the list. */
  function FirstIdle(ws: seq<Worker>): (k: nat)
    ensures k <= |ws|
    ensures forall i :: 0 <= i < k ==> !ws[i].idle
    ensures k < |ws| ==> ws[k].idle
  {
    if ws == [] || ws[0].idle then 0 else 1 + FirstIdle(ws[1..])
  }

  /** One pass of RemoveIdleThreads: visit from the front while `size` exceeds the minimum
      and stop the workers that have been idle too long. */
  function Sweep(ws: seq<Worker>, size: int, min: int, interval: nat, maxIdle: int): seq<Worker> {
    if ws == [] || size <= min then ws
    else
      var w := Tick(ws[0], interval);
      if w.idleTime > maxIdle
      then [w.(stopped := true)] + Sweep(ws[1..], size - 1, min, interval, maxIdle)
      else [w] + Sweep(ws[1..], size, min, interval, maxIdle)
  }

  /** The list without that worker, order kept. */
  function Without(ws: seq<Worker>, id: nat): seq<Worker> {
    if ws == [] then [] else if ws[0].id == id then ws[1..] else [ws[0]] + Without(ws[1..], id)
  }

  lemma {:induction false} WithoutAt(ws: seq<Worker>, id: nat, k: nat)
    requires k <= |ws| && forall i :: 0 <= i < k ==> ws[i].id != id
    ensures k == |ws| ==> Without(ws, id) == ws
    ensures k < |ws| && ws[k].id == id ==> Without(ws, id) == ws[..k] + ws[k + 1..]
  {
    if k > 0 {
      WithoutAt(ws[1..], id, k - 1);
      if k < |ws| {
        assert ws[1..][..k - 1] == ws[1..k] && ws[1..][k..] == ws[k + 1..] && ws[..k] == [ws[0]] + ws[1..k];
        Regroup([ws[0]], ws[1..k], ws[k + 1..]);
      } else {
        assert ws == [ws[0]] + ws[1..];
      }
    } else if ws != [] {
      DropEmpty(ws[1..]);
    }
  }

  predicate SameWorker(w: Worker, u: Worker) {
    w.id == u.id && w.stopped == u.stopped
  }

  /** The same workers with the same orders to stop; their idle flags and times may differ. */
  ghost predicate SameList(ws: seq<Worker>, us: seq<Worker>) {
    |ws| == |us| && forall i :: 0 <= i < |ws| ==> SameWorker(ws[i], us[i])
  }

  lemma {:induction false} SameListUnstopped(ws: seq<Worker>, us: seq<Worker>)
    requires SameList(ws, us)
    ensures Unstopped(ws) == Unstopped(us)
  {
    if ws != [] {
      SameListUnstopped(ws[1..], us[1..]);
    }
  }

  function Busy(w: Worker): Worker {
    w.(idle := false, idleTime := 0)
  }

  /** How many threads AddWork creates when nobody is idle. */
  function Growth(count: int, max: int, step: int): (n: int)
    ensures max > 0 && n > 0 ==> count + n <= max
  {
    if max != 0 && count >= max then 0
    else if 0 < max < count + step then max - count
    else step
  }

  lemma {:induction false} FirstIdleAt(ws: seq<Worker>, k: nat)
    requires k <= |ws| && forall i :: 0 <= i < k ==> !ws[i].idle
    requires k < |ws| ==> ws[k].idle
    ensures FirstIdle(ws) == k
  {
    if k > 0 {
      FirstIdleAt(ws[1..], k - 1);
    }
  }

  /** The old workers in front, then n new ones, none if n is negative; nobody is stopped. */
  ghost predicate GrownBy(before: seq<Worker>, now: seq<Worker>, n: int) {
    && |now| == |before| + (if n > 0 then n else 0)
    && SameList(before, now[..|before|])
    && forall i :: |before| <= i < |now| ==> !now[i].stopped
  }

  function Unstopped(ws: seq<Worker>): nat {
    if ws == [] then 0 else (if ws[0].stopped then 0 else 1) + Unstopped(ws[1..])
  }

  /** The workers a sweep has visited as it left them, and its `size` after that. */
  datatype Pass = Pass(swept: seq<Worker>, size: int)

  function PassOver(seen: seq<Worker>, from: int, interval: nat, maxIdle: int): (p: Pass)
    ensures |p.swept| == |seen|
  {
    if seen == [] then Pass([], from)
    else
      var p := PassOver(seen[..|seen| - 1], from, interval, maxIdle);
      var w := Tick(seen[|seen| - 1], interval);
      if w.idleTime > maxIdle then Pass(p.swept + [w.(stopped := true)], p.size - 1)
      else Pass(p.swept + [w], p.size)
  }

  /** The minimum was not reached before any of these visits. */
  predicate AboveMinimum(seen: seq<Worker>, from: int, min: int, interval: nat, maxIdle: int) {
    seen == [] ||
    (var front := seen[..|seen| - 1];
     AboveMinimum(front, from, min, interval, maxIdle) && PassOver(front, from, interval, maxIdle).size > min)
  }

  lemma PassOne(seen: seq<Worker>, w: Worker, from: int, min: int, interval: nat, maxIdle: int)
    requires AboveMinimum(seen, from, min, interval, maxIdle) && PassOver(seen, from, interval, maxIdle).size > min
    ensures AboveMinimum(seen + [w], from, min, interval, maxIdle)
    ensures var p := PassOver(seen, from, interval, maxIdle); var t := Tick(w, interval);
      PassOver(seen + [w], from, interval, maxIdle) ==
        if t.idleTime > maxIdle then Pass(p.swept + [t.(stopped := true)], p.size - 1) else Pass(p.swept + [t], p.size)
  {
    assert (seen + [w])[..|seen|] == seen;
  }

  /** The visits made one after the other are the front of the sweep. */
  lemma {:induction false} SweepFront(seen: seq<Worker>, rest: seq<Worker>, from: int, min: int, interval: nat, maxIdle: int)
    requires AboveMinimum(seen, from, min, interval, maxIdle)
    ensures var p := PassOver(seen, from, interval, maxIdle);
      Sweep(seen + rest, from, min, interval, maxIdle) == p.swept + Sweep(rest, p.size, min, interval, maxIdle)
    decreases |seen|
  {
    if seen == [] {
      assert seen + rest == rest;
    } else {
      var front, w := seen[..|seen| - 1], seen[|seen| - 1];
      var p := PassOver(front, from, interval, maxIdle);
      SweepFront(front, [w] + rest, from, min, interval, maxIdle);
      assert seen + rest == front + ([w] + rest) && ([w] + rest)[1..] == rest;
      PassOne(front, w, from, min, interval, maxIdle);
      assert front + [w] == seen;
      if Tick(w, interval).idleTime > maxIdle {
        Regroup(p.swept, [Tick(w, interval).(stopped := true)], Sweep(rest, p.size - 1, min, interval, maxIdle));
      } else {
        Regroup(p.swept, [Tick(w, interval)], Sweep(rest, p.size, min, interval, maxIdle));
      }
    }
  }

  /** The first i of the workers `was` were found as `seen` and left as `swept`; `now` is the
      list at this moment. */
  ghost predicate VisitedUpTo(i: nat, was: seq<Worker>, seen: seq<Worker>, swept: seq<Worker>, now: seq<Worker>) {
    && i == |seen| == |swept| <= |now| == |was|
    && (forall j :: 0 <= j < i ==> SameWorker(seen[j], was[j]) && SameWorker(swept[j], now[j]))
    && (forall j :: i <= j < |was| ==> SameWorker(was[j], now[j]))
  }

  lemma VisitedOneMore(i: nat, was: seq<Worker>, seen: seq<Worker>, swept: seq<Worker>,
                       before: seq<Worker>, found: Worker, now: seq<Worker>)
    requires VisitedUpTo(i, was, seen, swept, before) && i < |was| == |now|
    requires SameWorker(found, before[i])
    requires forall j :: 0 <= j < |now| && j != i ==> SameWorker(now[j], before[j])
    ensures VisitedUpTo(i + 1, was, seen + [found], swept + [now[i]], now)
  {
  }

  lemma AllVisited(i: nat, was: seq<Worker>, seen: seq<Worker>, swept: seq<Worker>, now: seq<Worker>)
    requires VisitedUpTo(i, was, seen, swept, now)
    ensures SameList(was, seen + now[i..]) && SameList(swept + now[i..], now)
  {
  }

  /** The list of a new pool. */
  function Fresh(n: nat): seq<Worker> {
    seq(n, i requires 0 <= i => Worker(i, true, 0, false))
  }

  lemma SeenOneMore(was: seq<Worker>, seen: seq<Worker>, now: seq<Worker>, i: nat)
    requires SameList(was, now) && i < |was| && SameList(was[..i], seen)
    ensures SameList(was[..i + 1], seen + [now[i]])
  {
  }

  lemma FoundAt(was: seq<Worker>, seen: seq<Worker>, now: seq<Worker>, i: nat)
    requires SameList(was, now) && i < |was| && SameList(was[..i], seen)
    ensures SameList(was, seen + now[i..])
  {
  }

  class ThreadPool<W(==)> {
    var destroy: bool
    var minCount: int
    var maxCount: int
    var maxIdleTime: int
    var count: int
    const step: int
    var index: nat
    var works: seq<W>
    var workers: seq<Worker>
    ghost var added: seq<W>    // every work AddWork accepted
    ghost var handed: seq<W>   // every work GetWork gave out

    ghost predicate Valid()
      reads this
    {
      && count == |workers|
      && (forall i :: 0 <= i < |workers| ==> workers[i].id < index)
      && (forall i, j :: 0 <= i < j < |workers| ==> workers[i].id != workers[j].id)
      && (!destroy ==> added == handed + works)
      && handed <= added
      && minCount > 0 && maxCount >= 0 && maxIdleTime >= 0
    }

    /** The pool does not exceed its maximum, where zero means unlimited. */
    ghost predicate Bounded()
      reads this
    {
      maxCount == 0 || count <= maxCount
    }

    /** The limits after normalisation; the pool starts at or above its minimum, and within
        its maximum exactly when the maximum is not below both the minimum and five. */
    constructor (count: int, minCount: int, maxCount: int, step: int, maxIdleTime: int)
      ensures Valid() && !destroy && works == added == handed == []
      ensures this.step == step
      ensures this.maxCount == (if maxCount < 0 then MAX_THREAD_COUNT else maxCount)
      ensures var min := if minCount <= 0 then MIN_THREAD_COUNT else minCount;
        && this.minCount == (if 0 < this.maxCount < min then MIN_THREAD_COUNT else min)
        && this.count >= this.minCount
        && this.count == (if 0 < this.maxCount < count || count < this.minCount then this.minCount else count)
        && (Bounded() <==> this.maxCount == 0 || this.maxCount >= min || this.maxCount >= MIN_THREAD_COUNT)
      ensures workers == Fresh(|workers|)
    {
      destroy := false;
      var min, max, threads := minCount, maxCount, count;
      if min <= 0 {
        min := MIN_THREAD_COUNT;
      }
      if max < 0 {
        max := MAX_THREAD_COUNT;
      }
      this.maxIdleTime := if maxIdleTime < 0 then MAX_IDLE_THREAD_TIME else maxIdleTime;
      if max != 0 && max < min {
        min := MIN_THREAD_COUNT;
      }
      if (max != 0 && threads > max) || threads < min {
        threads := min;
      }
      this.minCount, this.maxCount, this.step := min, max, step;
      this.count, index, works, workers := 0, 0, [], [];
      added, handed := [], [];
      new;
      AddThreads(threads);
    }

    method AddThreads(n: int)
      requires Valid()
      modifies this`count, this`index, this`workers
      ensures Valid() && count == old(count) + (if n > 0 then n else 0)
      ensures old(workers) <= workers
      ensures forall i :: |old(workers)| <= i < |workers| ==>
        workers[i] == Worker(old(index) + i - |old(workers)|, true, 0, false)
    {
      var i := 0;
      while i < n
        invariant 0 <= i && (n > 0 ==> i <= n) && (n <= 0 ==> i == 0)
        invariant Valid() && count == old(count) + i
        invariant old(workers) <= workers
        invariant index == old(index) + i
        invariant forall j :: |old(workers)| <= j < |workers| ==>
          workers[j] == Worker(old(index) + j - |old(workers)|, true, 0, false)
        modifies this`count, this`index, this`workers
      {
        workers := workers + [Worker(index, true, 0, false)];
        index := index + 1;
        count := count + 1;
        i := i + 1;
      }
    }

    /** What the workers do to their own flags meanwhile: any number of SetIdle calls. */
    method WorkersRun()
      requires Valid()
      modifies this`workers
      ensures Valid() && SameList(old(workers), workers)
    {
      var calls: nat :| true;
      while calls > 0
        invariant Valid() && SameList(old(workers), workers)
        modifies this`workers
      {
        var id: nat, idle: bool :| true;
        SetIdle(id, idle);
        calls := calls - 1;
      }
    }

    /** ThreadPoolWorker::SetIdle of one of the workers. */
    method SetIdle(id: nat, idle: bool)
      requires Valid()
      modifies this`workers
      ensures Valid() && SameList(old(workers), workers)
      ensures forall i :: 0 <= i < |workers| ==>
        workers[i] == if workers[i].id == id then old(workers)[i].(idle := idle, idleTime := 0) else old(workers)[i]
    {
      var i := 0;
      while i < |workers|
        invariant i <= |workers| && workers == old(workers)
        invariant forall j :: 0 <= j < i ==> workers[j].id != id
        modifies this`workers
      {
        if workers[i].id == id {
          workers := workers[i := workers[i].(idle := idle, idleTime := 0)];
          return;
        }
        i := i + 1;
      }
    }

    /** Looks through the list for an idle worker and wakes it, even one that has been told
        to stop, while all workers go on. `atVisit` has the flags each of them had when it
        was looked at: the worker woken is the first that was found idle. */
    method WakeOneThread() returns (woken: bool, ghost atVisit: seq<Worker>)
      requires Valid()
      modifies this`workers
      ensures Valid() && SameList(old(workers), workers) && SameList(old(workers), atVisit)
      ensures woken <==> FirstIdle(atVisit) < |atVisit|
      ensures woken ==> workers[FirstIdle(atVisit)] == Busy(atVisit[FirstIdle(atVisit)])
    {
      var i := 0;
      ghost var seen: seq<Worker> := [];
      while i < |workers|
        invariant i == |seen| <= |workers| && Valid() && SameList(old(workers), workers)
        invariant SameList(old(workers)[..i], seen) && forall j :: 0 <= j < i ==> !seen[j].idle
        modifies this`workers
      {
        WorkersRun();
        if workers[i].idle {
          atVisit := seen + workers[i..];
          FoundAt(old(workers), seen, workers, i);
          FirstIdleAt(atVisit, i);
          workers := workers[i := Busy(workers[i])];
          return true, atVisit;
        }
        SeenOneMore(old(workers), seen, workers, i);
        seen := seen + [workers[i]];
        i := i + 1;
      }
      assert old(workers)[..i] == old(workers);
      FirstIdleAt(seen, i);
      return false, seen;
    }

    /** `seen` has the flags with which the workers were found when the new work arrived. */
    method AddWork(w: W) returns (rc: int, ghost seen: seq<Worker>)
      requires Valid()
      modifies this`works, this`workers, this`count, this`index, this`added
      ensures Valid() && (old(Bounded()) ==> Bounded()) && SameList(old(workers), seen)
      ensures rc == if destroy then -1 else 0
      ensures works == old(works) + (if destroy then [] else [w])
      ensures added == old(added) + (if destroy then [] else [w])
      ensures destroy ==> workers == old(workers)
      ensures !destroy && FirstIdle(seen) < |seen| ==>
        SameList(old(workers), workers) && workers[FirstIdle(seen)] == Busy(seen[FirstIdle(seen)])
      ensures !destroy && FirstIdle(seen) == |seen| ==>
        GrownBy(old(workers), workers, Growth(old(count), maxCount, step))
      ensures Step(minCount, old(workers), Flags, workers)
           || Step(minCount, old(workers), Grown(Growth(old(count), maxCount, step)), workers)
    {
      rc, seen := 0, workers;
      if destroy {
        return -1, seen;
      }
      works, added := works + [w], added + [w];
      var woken;
      woken, seen := WakeOneThread();
      if !woken {
        Grow();
      }
    }

    /** The part of AddWork for when no worker was found idle. */
    method Grow()
      requires Valid()
      modifies this`workers, this`count, this`index
      ensures Valid() && (old(Bounded()) ==> Bounded())
      ensures GrownBy(old(workers), workers, Growth(old(count), maxCount, step))
    {
      if maxCount == 0 || count < maxCount {
        var n := step;
        if 0 < maxCount && count + step > maxCount {
          n := maxCount - count;
        }
        AddThreads(n);
        var woken, seen := WakeOneThread();
      }
    }

    method GetWork() returns (w: Option<W>)
      requires Valid()
      modifies this`works, this`handed
      ensures Valid()
      ensures if destroy || old(works) == [] then w == None && works == old(works) && handed == old(handed)
              else w == Some(old(works)[0]) && works == old(works)[1..] && handed == old(handed) + [old(works)[0]]
    {
      w := None;
      if !destroy && works != [] {
        w := Some(works[0]);
        handed := handed + [works[0]];
        works := works[1..];
      }
    }

    method RemoveThread(id: nat)
      requires Valid()
      modifies this`workers, this`count
      ensures Valid() && (old(Bounded()) ==> Bounded())
      ensures workers == Without(old(workers), id)
    {
      var i := 0;
      while i < |workers|
        invariant i <= |workers| && workers == old(workers) && count == old(count)
        invariant forall j :: 0 <= j < i ==> workers[j].id != id
        modifies this`workers, this`count
      {
        if workers[i].id == id {
          WithoutAt(workers, id, i);
          workers := workers[..i] + workers[i + 1..];
          count := count - 1;
          return;
        }
        i := i + 1;
      }
      WithoutAt(workers, id, i);
    }

    /** `interval` is the time since the previous call. The workers go on meanwhile; `atVisit`
        has the flags each of them had when it was visited. */
    method RemoveIdleThreads(interval: nat) returns (ghost atVisit: seq<Worker>)
      requires Valid()
      modifies this`workers
      ensures Valid() && SameList(old(workers), atVisit)
      ensures maxIdleTime == 0 ==> workers == old(workers)
      ensures maxIdleTime != 0 ==>
        && SameList(Sweep(atVisit, |atVisit|, minCount, interval, maxIdleTime), workers)
        && Step(minCount, old(workers), Swept(interval, maxIdleTime), workers)
    {
      atVisit := workers;
      if maxIdleTime == 0 {
        return;
      }
      atVisit := StopIdle(interval);
      assert SweptTo(minCount, old(workers), atVisit, interval, maxIdleTime, workers);
    }

    /** One step of the loop below; `found` is the worker as it was when visited. */
    method VisitWorker(i: nat, interval: nat) returns (stop: bool, ghost found: Worker)
      requires Valid() && i < |workers|
      modifies this`workers
      ensures Valid() && |workers| == old(|workers|)
      ensures forall j :: 0 <= j < |workers| && j != i ==> SameWorker(workers[j], old(workers)[j])
      ensures SameWorker(found, old(workers)[i])
      ensures stop <==> Tick(found, interval).idleTime > maxIdleTime
      ensures workers[i] == if stop then Tick(found, interval).(stopped := true) else Tick(found, interval)
    {
      WorkersRun();
      found := workers[i];
      var w := Tick(workers[i], interval);
      stop := w.idleTime > maxIdleTime;
      workers := workers[i := if stop then w.(stopped := true) else w];
    }

    /** The loop of RemoveIdleThreads. */
    method StopIdle(interval: nat) returns (ghost atVisit: seq<Worker>)
      requires Valid()
      modifies this`workers
      ensures Valid() && SameList(old(workers), atVisit)
      ensures SameList(Sweep(atVisit, |atVisit|, minCount, interval, maxIdleTime), workers)
    {
      var i := 0;
      var size := |workers|;
      ghost var seen: seq<Worker> := [];
      ghost var pass := PassOver(seen, size, interval, maxIdleTime);
      while size > minCount && i < |workers|
        invariant i == |seen| <= |workers| == old(|workers|) && Valid()
        invariant AboveMinimum(seen, |workers|, minCount, interval, maxIdleTime)
        invariant pass == PassOver(seen, |workers|, interval, maxIdleTime) && pass.size == size
        invariant VisitedUpTo(i, old(workers), seen, pass.swept, workers)
        decreases |workers| - i
      {
        var stop;
        ghost var found;
        ghost var before := workers;
        stop, found := VisitWorker(i, interval);
        PassOne(seen, found, |workers|, minCount, interval, maxIdleTime);
        VisitedOneMore(i, old(workers), seen, pass.swept, before, found, workers);
        seen := seen + [found];
        pass := PassOver(seen, |workers|, interval, maxIdleTime);
        if stop {
          size := size - 1;
        }
        i := i + 1;
      }
      SweepFront(seen, workers[i..], |workers|, minCount, interval, maxIdleTime);
      AllVisited(i, old(workers), seen, pass.swept, workers);
      atVisit := seen + workers[i..];
    }

    /** The locked part of Destroy. */
    method BeginDestroy()
      requires Valid()
      modifies this`destroy, this`workers
      ensures Valid() && destroy && |workers| == old(|workers|)
      ensures old(destroy) ==> workers == old(workers)
      ensures !old(destroy) ==> forall i :: 0 <= i < |workers| ==> workers[i] == old(workers)[i].(stopped := true)
    {
      if destroy {
        return;
      }
      destroy := true;
      var i := 0;
      while i < |workers|
        invariant i <= |workers| == old(|workers|)
        invariant forall j :: 0 <= j < i ==> workers[j] == old(workers)[j].(stopped := true)
        invariant forall j :: i <= j < |workers| ==> workers[j] == old(workers)[j]
        modifies this`workers
      {
        workers := workers[i := workers[i].(stopped := true)];
        i := i + 1;
      }
    }
  }

  /** A pool that starts above its maximum: three threads asked for, at least four and at
      most three, and five run. */
  method StartAboveMaximum<W(==)>(step: int, maxIdleTime: int) returns (pool: ThreadPool<W>)
    ensures fresh(pool) && pool.Valid()
    ensures pool.maxCount == 3 && pool.minCount == pool.count == |pool.workers| == 5 && !pool.Bounded()
  {
    pool := new ThreadPool(3, 4, 3, step, maxIdleTime);
  }

  // ----- idle times, and how far the pool grows -----

  /** What happens to a worker's idle flag and time. */
  datatype IdleEvent = Set(idle: bool) | Visit(interval: nat)

  function Happens(w: Worker, e: IdleEvent): Worker {
    match e
    case Set(idle) => w.(idle := idle, idleTime := 0)
    case Visit(interval) => Tick(w, interval)
  }

  function AllHappen(w: Worker, events: seq<IdleEvent>): Worker {
    if events == [] then w else Happens(AllHappen(w, events[..|events| - 1]), events[|events| - 1])
  }

  function Passed(intervals: seq<nat>): nat {
    if intervals == [] then 0 else intervals[0] + Passed(intervals[1..])
  }

  function Visits(intervals: seq<nat>): seq<IdleEvent> {
    if intervals == [] then [] else [Visit(intervals[0])] + Visits(intervals[1..])
  }

  lemma {:induction false} AllHappenAppend(w: Worker, a: seq<IdleEvent>, b: seq<IdleEvent>)
    ensures AllHappen(w, a + b) == AllHappen(AllHappen(w, a), b)
    decreases |b|
  {
    if b == [] {
      assert a + b == a;
    } else {
      assert (a + b)[..|a + b| - 1] == a + b[..|b| - 1];
      AllHappenAppend(w, a, b[..|b| - 1]);
    }
  }

  lemma {:induction false} VisitsAddUp(w: Worker, intervals: seq<nat>)
    ensures var u := AllHappen(w, Visits(intervals));
      u == if w.idle then w.(idleTime := w.idleTime + Passed(intervals))
           else if intervals == [] then w else w.(idleTime := 0)
    decreases |intervals|
  {
    if intervals != [] {
      var first := [Visit(intervals[0])];
      assert first[..0] == [];
      AllHappenAppend(w, first, Visits(intervals[1..]));
      VisitsAddUp(Tick(w, intervals[0]), intervals[1..]);
    }
  }

  /** The idle time is what has passed, over all visits, since the worker last became idle, and
      zero for a worker that is busy; nothing else about it changes. */
  lemma IdleTimeIsTimeIdle(w: Worker, before: seq<IdleEvent>, idle: bool, intervals: seq<nat>)
    ensures var u := AllHappen(w, before + ([Set(idle)] + Visits(intervals)));
      u == Worker(w.id, idle, if idle then Passed(intervals) else 0, w.stopped)
  {
    HappeningKeepsTheRest(w, before);
    var marked := [Set(idle)];
    assert marked[..0] == [];
    AllHappenAppend(w, before, marked + Visits(intervals));
    AllHappenAppend(AllHappen(w, before), marked, Visits(intervals));
    VisitsAddUp(Happens(AllHappen(w, before), Set(idle)), intervals);
  }

  lemma {:induction false} HappeningKeepsTheRest(w: Worker, events: seq<IdleEvent>)
    ensures SameWorker(AllHappen(w, events), w)
  {
    if events != [] {
      HappeningKeepsTheRest(w, events[..|events| - 1]);
    }
  }

  /** Idle, and for longer than allowed once the interval has passed. */
  predicate IsLate(w: Worker, interval: nat, maxIdle: nat) {
    w.idle && w.idleTime + interval > maxIdle
  }

  function LateOnes(ws: seq<Worker>, interval: nat, maxIdle: nat): nat {
    if ws == [] then 0 else (if IsLate(ws[0], interval, maxIdle) then 1 else 0) + LateOnes(ws[1..], interval, maxIdle)
  }

  /** A sweep tells just the first `size - min` workers to stop that have been idle too long. */
  lemma {:induction false} SweepStopsTheFirstLate(ws: seq<Worker>, size: int, min: int, interval: nat, maxIdle: nat, i: nat)
    requires i < |ws|
    ensures var us := Sweep(ws, size, min, interval, maxIdle);
      && |us| == |ws| && us[i].id == ws[i].id
      && (us[i].stopped <==>
            ws[i].stopped || (IsLate(ws[i], interval, maxIdle) && LateOnes(ws[..i], interval, maxIdle) < size - min))
  {
    if size > min {
      var left := if IsLate(ws[0], interval, maxIdle) then size - 1 else size;
      SweepLength(ws[1..], left, min, interval, maxIdle);
      if i > 0 {
        SweepStopsTheFirstLate(ws[1..], left, min, interval, maxIdle, i - 1);
        assert ws[..i][1..] == ws[1..][..i - 1];
      }
    }
  }

  lemma {:induction false} SweepLength(ws: seq<Worker>, size: int, min: int, interval: nat, maxIdle: nat)
    ensures |Sweep(ws, size, min, interval, maxIdle)| == |ws|
  {
    if ws != [] && size > min {
      SweepLength(ws[1..], size - 1, min, interval, maxIdle);
      SweepLength(ws[1..], size, min, interval, maxIdle);
    }
  }

  /** The pool grows by the step, or by as much of it as the maximum allows. */
  lemma GrowthIsLargest(count: int, max: int, step: nat)
    requires max >= 0
    ensures var n := Growth(count, max, step);
      && 0 <= n <= step
      && (max > 0 && n > 0 ==> count + n <= max)
      && (n < step ==> max > 0 && (count + n == max || (n == 0 && count >= max)))
  {
  }

  // ----- does RemoveIdleThreads leave the minimum running? -----

  lemma {:induction false} SweepStopsFew(ws: seq<Worker>, size: int, min: int, interval: nat, maxIdle: int)
    requires size >= min
    ensures Unstopped(Sweep(ws, size, min, interval, maxIdle)) >= Unstopped(ws) - (size - min)
  {
    if ws != [] && size > min {
      SweepStopsFew(ws[1..], size - 1, min, interval, maxIdle);
      SweepStopsFew(ws[1..], size, min, interval, maxIdle);
    }
  }

  lemma {:induction false} UnstoppedOfFresh(ws: seq<Worker>)
    ensures Unstopped(ws) <= |ws|
    ensures Unstopped(ws) == |ws| <==> forall i :: 0 <= i < |ws| ==> !ws[i].stopped
  {
    if ws != [] {
      UnstoppedOfFresh(ws[1..]);
      assert forall i :: 0 <= i < |ws[1..]| ==> ws[1..][i] == ws[i + 1];
      if forall i :: 0 <= i < |ws[1..]| ==> !ws[1..][i].stopped {
        assert forall i :: 0 < i < |ws| ==> ws[i] == ws[1..][i - 1];
      }
    }
  }

  /** The workers agree with the flags on who has been told to stop and is still listed. */
  ghost predicate HasFlags(ws: seq<Worker>, flags: seq<bool>) {
    |ws| == |flags| && forall i :: 0 <= i < |ws| ==> ws[i].stopped == flags[i]
  }

  /** Stopped workers were marked busy by WakeUp, the others have been idle too long. */
  ghost predicate Hostile(ws: seq<Worker>, maxIdle: int) {
    forall i :: 0 <= i < |ws| ==> if ws[i].stopped then !ws[i].idle else ws[i].idle && ws[i].idleTime > maxIdle
  }

  lemma {:induction false} HostileSweep(ws: seq<Worker>, size: int, min: int, interval: nat, maxIdle: int)
    requires Hostile(ws, maxIdle) && maxIdle >= 0 && size >= min
    ensures Unstopped(Sweep(ws, size, min, interval, maxIdle)) ==
      if Unstopped(ws) <= size - min then 0 else Unstopped(ws) - (size - min)
  {
    if ws != [] && size > min {
      assert Hostile(ws[1..], maxIdle);
      HostileSweep(ws[1..], size - 1, min, interval, maxIdle);
      HostileSweep(ws[1..], size, min, interval, maxIdle);
    }
  }

  /** When more workers are listed than the minimum, a call keeps at least the minimum of
      them running, whatever their idle times, exactly when no listed worker was stopped
      by an earlier call. */
  lemma MinimumKeptIffNoneStopping(flags: seq<bool>, min: int, interval: nat, maxIdle: int)
    requires |flags| > min > 0 && maxIdle > 0
    ensures (forall ws :: HasFlags(ws, flags) ==> Unstopped(Sweep(ws, |ws|, min, interval, maxIdle)) >= min)
      <==> forall i :: 0 <= i < |flags| ==> !flags[i]
  {
    if forall i :: 0 <= i < |flags| ==> !flags[i] {
      forall ws | HasFlags(ws, flags) ensures Unstopped(Sweep(ws, |ws|, min, interval, maxIdle)) >= min {
        SweepStopsFew(ws, |ws|, min, interval, maxIdle);
        UnstoppedOfFresh(ws);
      }
    } else {
      var ws := seq(|flags|, i requires 0 <= i < |flags| => Worker(i, !flags[i], maxIdle + 1, flags[i]));
      assert HasFlags(ws, flags) && Hostile(ws, maxIdle);
      HostileSweep(ws, |ws|, min, interval, maxIdle);
      UnstoppedOfFresh(ws);
    }
  }

  // ----- the minimum over whole runs -----

  /** What happens to the list of workers until the pool is destroyed. */
  datatype Event =
    | Flags                                  // SetIdle, WakeOneThread: idle flags and times
    | Grown(n: int)                          // AddThreads
    | Gone(id: nat)                          // a worker leaves its loop and removes itself
    | Swept(interval: nat, maxIdle: nat)     // RemoveIdleThreads

  /** Each method of the pool moves its list by such events; a worker leaves its loop only
      when it was told to stop. */
  ghost predicate Step(min: int, ws: seq<Worker>, e: Event, us: seq<Worker>) {
    match e
    case Flags => SameList(ws, us)
    case Grown(n) => GrownBy(ws, us, n)
    case Gone(id) => us == Without(ws, id) && forall i :: 0 <= i < |ws| && ws[i].id == id ==> ws[i].stopped
    case Swept(interval, maxIdle) => exists seen :: SweptTo(min, ws, seen, interval, maxIdle, us)
  }

  /** A sweep that found the workers with the flags of `seen`. */
  ghost predicate SweptTo(min: int, ws: seq<Worker>, seen: seq<Worker>, interval: nat, maxIdle: nat, us: seq<Worker>) {
    SameList(ws, seen) && SameList(Sweep(seen, |seen|, min, interval, maxIdle), us)
  }

  ghost predicate IsPoolRun(min: int, run: seq<seq<Worker>>, events: seq<Event>) {
    |run| == |events| + 1 && forall i :: 0 <= i < |events| ==> Step(min, run[i], events[i], run[i + 1])
  }

  predicate NoneStopped(ws: seq<Worker>) {
    forall i :: 0 <= i < |ws| ==> !ws[i].stopped
  }

  lemma {:induction false} UnstoppedAppend(ws: seq<Worker>, us: seq<Worker>)
    ensures Unstopped(ws + us) == Unstopped(ws) + Unstopped(us)
  {
    if ws == [] {
      assert ws + us == us;
    } else {
      assert (ws + us)[1..] == ws[1..] + us;
      UnstoppedAppend(ws[1..], us);
    }
  }

  lemma {:induction false} UnstoppedWithout(ws: seq<Worker>, id: nat)
    requires forall i :: 0 <= i < |ws| && ws[i].id == id ==> ws[i].stopped
    ensures Unstopped(Without(ws, id)) == Unstopped(ws)
  {
    if ws != [] && ws[0].id != id {
      UnstoppedWithout(ws[1..], id);
      assert ([ws[0]] + Without(ws[1..], id))[1..] == Without(ws[1..], id);
    }
  }

  lemma GrownKeepsMinimum(ws: seq<Worker>, us: seq<Worker>, n: int)
    requires GrownBy(ws, us, n)
    ensures Unstopped(us) == Unstopped(ws) + (if n > 0 then n else 0)
  {
    var front, back := us[..|ws|], us[|ws|..];
    assert us == front + back;
    UnstoppedAppend(front, back);
    SameListUnstopped(ws, front);
    UnstoppedOfFresh(back);
  }

  lemma SweptKeepsMinimum(min: int, ws: seq<Worker>, seen: seq<Worker>, interval: nat, maxIdle: nat, us: seq<Worker>)
    requires SweptTo(min, ws, seen, interval, maxIdle, us) && NoneStopped(ws) && Unstopped(ws) >= min
    ensures Unstopped(us) >= min
  {
    UnstoppedOfFresh(ws);
    UnstoppedOfFresh(seen);
    SweepStopsFew(seen, |seen|, min, interval, maxIdle);
    SameListUnstopped(Sweep(seen, |seen|, min, interval, maxIdle), us);
  }

  lemma StepKeepsMinimum(min: int, ws: seq<Worker>, e: Event, us: seq<Worker>)
    requires Step(min, ws, e, us) && Unstopped(ws) >= min && (e.Swept? ==> NoneStopped(ws))
    ensures Unstopped(us) >= min
  {
    match e
    case Flags => SameListUnstopped(ws, us);
    case Grown(n) => GrownKeepsMinimum(ws, us, n);
    case Gone(id) => UnstoppedWithout(ws, id);
    case Swept(interval, maxIdle) =>
      var seen :| SweptTo(min, ws, seen, interval, maxIdle, us);
      SweptKeepsMinimum(min, ws, seen, interval, maxIdle, us);
  }

  /** Over every run in which each sweep finds no worker still listed that was told to stop,
      at least the minimum of workers stay running, and so m_count stays at least that. */
  lemma {:induction false} MinimumHoldsOverRuns(min: int, run: seq<seq<Worker>>, events: seq<Event>, i: nat)
    requires IsPoolRun(min, run, events) && i < |run| && Unstopped(run[0]) >= min
    requires forall k :: 0 <= k < |events| && events[k].Swept? ==> NoneStopped(run[k])
    ensures |run[i]| >= Unstopped(run[i]) >= min
  {
    UnstoppedOfFresh(run[i]);
    if i > 0 {
      MinimumHoldsOverRuns(min, run, events, i - 1);
      StepKeepsMinimum(min, run[i - 1], events[i - 1], run[i]);
    }
  }

  lemma {:induction false} SweepFresh(ws: seq<Worker>, size: int, min: int, interval: nat, maxIdle: nat)
    requires forall i :: 0 <= i < |ws| ==> ws[i].idle && !ws[i].stopped && ws[i].idleTime + interval > maxIdle
    requires min <= size <= |ws|
    ensures var us := Sweep(ws, size, min, interval, maxIdle);
      |us| == |ws| && forall i :: 0 <= i < |ws| ==>
        us[i] == if i < size - min then Tick(ws[i], interval).(stopped := true) else ws[i]
    decreases |ws|
  {
    if ws != [] && size > min {
      SweepFresh(ws[1..], size - 1, min, interval, maxIdle);
    }
  }

  /** A reachable pool below its minimum. Seven fresh workers with a minimum of five: a sweep
      tells the first two to stop; before the first has left, new work wakes it, being first
      and idle; the next sweep counts seven, passes the busy one over, stops the second once
      more and a third: four are left running. */
  lemma BelowMinimumIsReachable() returns (run: seq<seq<Worker>>, events: seq<Event>)
    ensures IsPoolRun(5, run, events) && |run| == 4 && run[0] == Fresh(7)
    ensures events == [Swept(101, 100), Flags, Swept(101, 100)]
    ensures FirstIdle(run[1]) == 0 && run[1][0].stopped && run[2] == run[1][0 := Busy(run[1][0])]
    ensures Unstopped(run[1]) == 5 && Unstopped(run[3]) == 4
  {
    var ws0 := Fresh(7);
    var ws1 := Sweep(ws0, 7, 5, 101, 100);
    SweepFresh(ws0, 7, 5, 101, 100);
    var ws2 := ws1[0 := Busy(ws1[0])];
    var ws3 := Sweep(ws2, 7, 5, 101, 100);
    run, events := [ws0, ws1, ws2, ws3], [Swept(101, 100), Flags, Swept(101, 100)];
    SameAsItself(ws0);
    SameAsItself(ws1);
    SameAsItself(ws2);
    SameAsItself(ws3);
    assert SweptTo(5, ws0, ws0, 101, 100, ws1);
    SecondSweep(ws2);
    assert SweptTo(5, ws2, ws2, 101, 100, ws3);
    TwoStopped(ws1);
  }

  lemma SameAsItself(ws: seq<Worker>)
    ensures SameList(ws, ws)
  {
  }

  lemma TwoStopped(ws: seq<Worker>)
    requires |ws| == 7 && ws[0].stopped && ws[1].stopped && forall i :: 2 <= i < 7 ==> !ws[i].stopped
    ensures Unstopped(ws) == 5
  {
    UnstoppedOfFresh(ws[1..][1..]);
    assert forall i :: 0 <= i < 5 ==> ws[1..][1..][i] == ws[i + 2];
  }

  lemma SecondSweep(ws: seq<Worker>)
    requires |ws| == 7 && ws[0].stopped && !ws[0].idle
    requires ws[1].stopped && ws[1].idle && ws[1].idleTime == 101
    requires forall i :: 2 <= i < 7 ==> ws[i].idle && !ws[i].stopped && ws[i].idleTime == 0
    ensures Unstopped(Sweep(ws, 7, 5, 101, 100)) == 4
  {
    var rest := ws[1..][1..];
    assert forall i :: 0 <= i < 5 ==> rest[i] == ws[i + 2];
    var w0, w1 := Tick(ws[0], 101), Tick(ws[1], 101).(stopped := true);
    var w2 := Tick(rest[0], 101).(stopped := true);
    assert Sweep(rest, 6, 5, 101, 100) == [w2] + rest[1..];
    assert Sweep(ws[1..], 7, 5, 101, 100) == [w1] + ([w2] + rest[1..]);
    var us := [w0] + ([w1] + ([w2] + rest[1..]));
    assert Sweep(ws, 7, 5, 101, 100) == us;
    assert us[1..][1..] == [w2] + rest[1..] && ([w2] + rest[1..])[1..] == rest[1..];
    UnstoppedOfFresh(rest[1..]);
    assert Unstopped([w2] + rest[1..]) == 4;
  }
}
