// The bounded multi-producer multi-consumer queue of spdlog
// (details/mpmc_bounded_q.h) as a transition system over any number of threads.
//
// One transition is one access to shared memory: a load of a position or of a
// cell's sequence number, a compare-and-exchange, a move into or out of a cell,
// or the store that hands the cell on. Memory is sequentially consistent,
// tickets are unbounded and a compare-and-exchange may fail spuriously.
module MpmcQueue {
  import opened Wrappers
  import opened Bits
  import Fifo
  import Runs

  type Tid = nat

  /** `data` is None in a cell that was never filled or whose value was moved out. */
  datatype Cell<T> = Cell(sequence: nat, data: Option<T>)

  /** Where a thread is inside `enqueue` or `dequeue`. */
  datatype Pc<T> =
    | Idle
    | EnqStart(item: T)                      // about to load enqueue_pos
    | EnqAt(item: T, pos: nat)               // about to load the cell's sequence
    | EnqSeen(item: T, pos: nat, seen: nat)  // about to act on the sequence it saw
    | EnqFill(item: T, pos: nat)             // owns ticket pos, about to write the data
    | EnqPublish(pos: nat)                   // about to store sequence pos + 1
    | DeqStart
    | DeqAt(pos: nat)
    | DeqSeen(pos: nat, seen: nat)
    | DeqTake(pos: nat)                      // owns ticket pos, about to move the data out
    | DeqRelease(pos: nat, got: Option<T>)  // about to store sequence pos + size

  /** The queue's memory, the threads' positions, and three history variables:
      the items by enqueue ticket, the tickets whose item is published and the
      items handed out by dequeue ticket. */
  datatype State<T> = State(
    cells: seq<Cell<T>>,
    enqPos: nat,
    deqPos: nat,
    pcs: map<Tid, Pc<T>>,
    stored: seq<T>,
    published: set<nat>,
    taken: map<nat, Option<T>>)

  /** `pos & buffer_mask_`. */
  function Slot(size: nat, pos: nat): nat
    requires size >= 1
  {
    And(pos, size - 1)
  }

  ghost predicate GoodSize(size: nat) {
    size >= 2 && IsPowerOfTwo(size)
  }

  /** The constructor: rejects every size that is not a power of two above one. */
  method Construct<T>(bufferSize: nat) returns (r: Result<seq<Cell<T>>, string>)
    ensures r.Ok? <==> GoodSize(bufferSize)
    ensures r.Ok? ==> |r.value| == bufferSize
    ensures r.Ok? ==> forall i :: 0 <= i < bufferSize ==> r.value[i] == Cell(i, None)
  {
    if bufferSize >= 1 {
      PowerOfTwoTest(bufferSize);
    }
    if !(bufferSize >= 2 && And(bufferSize, bufferSize - 1) == 0) {
      return Err("async logger queue size must be power of two");
    }
    var cells: seq<Cell<T>> := [];
    var i := 0;
    while i != bufferSize
      invariant 0 <= i <= bufferSize && |cells| == i
      invariant forall j :: 0 <= j < i ==> cells[j] == Cell(j, None)
    {
      cells := cells + [Cell(i, None)];
      i := i + 1;
    }
    return Ok(cells);
  }

  ghost predicate Init<T(!new)>(s: State<T>) {
    && GoodSize(|s.cells|)
    && (forall i :: 0 <= i < |s.cells| ==> s.cells[i] == Cell(i, None))
    && s.enqPos == 0 && s.deqPos == 0
    && (forall t :: t in s.pcs ==> s.pcs[t] == Idle)
    && s.stored == [] && s.published == {} && s.taken == map[]
  }

  // ----- transitions -----

  ghost predicate CanIndex<T>(s: State<T>) {
    |s.cells| >= 1 && forall pos: nat :: Slot(|s.cells|, pos) < |s.cells|
  }

  /** Calls, returns and the steps that only read shared memory. */
  ghost predicate LocalMove<T(!new)>(s: State<T>, t: Tid, pc: Pc<T>)
    requires t in s.pcs && CanIndex(s)
  {
    var n := |s.cells|;
    match s.pcs[t]
    case Idle => pc.EnqStart? || pc.DeqStart?
    case EnqStart(item) => pc == EnqAt(item, s.enqPos)
    case EnqAt(item, pos) => pc == EnqSeen(item, pos, s.cells[Slot(n, pos)].sequence)
    case EnqSeen(item, pos, seen) =>
      || (seen < pos && pc == Idle)                      // return false
      || (seen > pos && pc == EnqStart(item))            // load enqueue_pos again
      || (seen == pos && pc == EnqAt(item, s.enqPos))    // failed compare-and-exchange
    case DeqStart => pc == DeqAt(s.deqPos)
    case DeqAt(pos) => pc == DeqSeen(pos, s.cells[Slot(n, pos)].sequence)
    case DeqSeen(pos, seen) =>
      || (seen < pos + 1 && pc == Idle)                  // return false
      || (seen > pos + 1 && pc == DeqStart)
      || (seen == pos + 1 && pc == DeqAt(s.deqPos))      // failed compare-and-exchange
    case _ => false
  }

  ghost predicate Local<T(!new)>(s: State<T>, t: Tid, s': State<T>) {
    && t in s.pcs && CanIndex(s)
    && exists pc :: LocalMove(s, t, pc) && s' == s.(pcs := s.pcs[t := pc])
  }

  ghost predicate ClaimEnqueue<T(!new)>(s: State<T>, t: Tid, s': State<T>) {
    && t in s.pcs && s.pcs[t].EnqSeen? && s.pcs[t].seen == s.pcs[t].pos == s.enqPos
    && s' == s.(enqPos := s.enqPos + 1,
                stored := s.stored + [s.pcs[t].item],
                pcs := s.pcs[t := EnqFill(s.pcs[t].item, s.enqPos)])
  }

  ghost predicate Fill<T(!new)>(s: State<T>, t: Tid, s': State<T>) {
    && t in s.pcs && s.pcs[t].EnqFill? && CanIndex(s)
    && var i := Slot(|s.cells|, s.pcs[t].pos);
       s' == s.(cells := s.cells[i := s.cells[i].(data := Some(s.pcs[t].item))],
                pcs := s.pcs[t := EnqPublish(s.pcs[t].pos)])
  }

  ghost predicate Publish<T(!new)>(s: State<T>, t: Tid, s': State<T>) {
    && t in s.pcs && s.pcs[t].EnqPublish? && CanIndex(s)
    && var pos := s.pcs[t].pos;
       var i := Slot(|s.cells|, pos);
       s' == s.(cells := s.cells[i := s.cells[i].(sequence := pos + 1)],
                published := s.published + {pos},
                pcs := s.pcs[t := Idle])
  }

  ghost predicate ClaimDequeue<T(!new)>(s: State<T>, t: Tid, s': State<T>) {
    && t in s.pcs && s.pcs[t].DeqSeen?
    && s.pcs[t].seen == s.pcs[t].pos + 1 && s.pcs[t].pos == s.deqPos
    && s' == s.(deqPos := s.deqPos + 1, pcs := s.pcs[t := DeqTake(s.deqPos)])
  }

  ghost predicate Take<T(!new)>(s: State<T>, t: Tid, s': State<T>) {
    && t in s.pcs && s.pcs[t].DeqTake? && CanIndex(s)
    && var i := Slot(|s.cells|, s.pcs[t].pos);
       s' == s.(cells := s.cells[i := s.cells[i].(data := None)],
                pcs := s.pcs[t := DeqRelease(s.pcs[t].pos, s.cells[i].data)])
  }

  ghost predicate Release<T(!new)>(s: State<T>, t: Tid, s': State<T>) {
    && t in s.pcs && s.pcs[t].DeqRelease? && CanIndex(s)
    && var pos := s.pcs[t].pos;
       var i := Slot(|s.cells|, pos);
       s' == s.(cells := s.cells[i := s.cells[i].(sequence := pos + |s.cells|)],
                taken := s.taken[pos := s.pcs[t].got],
                pcs := s.pcs[t := Idle])
  }

  ghost predicate StepOf<T(!new)>(s: State<T>, t: Tid, s': State<T>) {
    || Local(s, t, s')
    || ClaimEnqueue(s, t, s')
    || Fill(s, t, s')
    || Publish(s, t, s')
    || ClaimDequeue(s, t, s')
    || Take(s, t, s')
    || Release(s, t, s')
  }

  ghost predicate Next<T(!new)>(s: State<T>, s': State<T>) {
    exists t :: StepOf(s, t, s')
  }

  // ----- arithmetic of slots -----

  lemma SlotIsRemainder(size: nat, pos: nat)
    requires GoodSize(size)
    ensures Slot(size, pos) == pos % size
  {
    var k: nat :| size == Pow2(k);
    MaskIsRemainder(pos, k);
  }

  /** What the proofs need of slots: tickets that share a cell are a whole buffer apart. */
  ghost predicate SlotFacts(size: nat)
    requires size >= 1
  {
    && (forall a: nat :: Slot(size, a) < size)
    && (forall a: nat :: a < size ==> Slot(size, a) == a)
    && (forall a: nat, b: nat :: b == a + size ==> Slot(size, b) == Slot(size, a))
    && (forall a: nat, b: nat :: Slot(size, a) == Slot(size, b) && a < b ==> a + size <= b)
  }

  lemma SlotFactsHold(size: nat)
    requires GoodSize(size)
    ensures SlotFacts(size)
  {
    forall a: nat ensures Slot(size, a) == a % size {
      SlotIsRemainder(size, a);
    }
    RemainderFacts(size);
  }

  lemma OneTurnOn(a: nat, size: nat)
    requires size >= 1
    ensures (a + size) % size == a % size
  {
    assert a == (a / size) * size + a % size;
    RemainderUnique(a + size, size, a / size + 1, a % size);
  }

  lemma RemainderFacts(size: nat)
    requires size >= 1
    ensures forall a: nat :: a < size ==> a % size == a
    ensures forall a: nat :: (a + size) % size == a % size
    ensures forall a: nat, b: nat :: a % size == b % size && a < b ==> a + size <= b
  {
    forall a: nat | a < size ensures a % size == a {
      RemainderUnique(a, size, 0, a);
    }
    forall a: nat ensures (a + size) % size == a % size {
      OneTurnOn(a, size);
    }
    forall a: nat, b: nat | a % size == b % size && a < b ensures a + size <= b {
      SameRemainderGap(a, b, size);
    }
  }

  // ----- the inductive invariant -----

  ghost predicate Enqueues<T>(pc: Pc<T>, pos: nat) {
    (pc.EnqFill? || pc.EnqPublish?) && pc.pos == pos
  }

  ghost predicate Dequeues<T>(pc: Pc<T>, pos: nat) {
    (pc.DeqTake? || pc.DeqRelease?) && pc.pos == pos
  }

  /** The cell waits for enqueue ticket k, which is unclaimed or in progress. */
  ghost predicate Awaits<T(!new)>(s: State<T>, i: nat, k: nat)
    requires i < |s.cells|
  {
    && s.cells[i].sequence == k && Slot(|s.cells|, k) == i
    && s.deqPos <= k < s.deqPos + |s.cells|
    && (k >= s.enqPos || exists t :: t in s.pcs && Enqueues(s.pcs[t], k))
  }

  /** The cell offers the item of ticket k, unclaimed or being dequeued. */
  ghost predicate Offers<T(!new)>(s: State<T>, i: nat, k: nat)
    requires i < |s.cells|
  {
    && s.cells[i].sequence == k + 1 && Slot(|s.cells|, k) == i
    && k < s.enqPos <= k + |s.cells| && k < s.deqPos + |s.cells|
    && k < |s.stored|
    && (k >= s.deqPos ==> s.cells[i].data == Some(s.stored[k]))
    && (k < s.deqPos ==> exists t :: t in s.pcs && Dequeues(s.pcs[t], k))
  }

  ghost predicate CellInv<T(!new)>(s: State<T>, i: nat)
    requires i < |s.cells|
  {
    || Awaits(s, i, s.cells[i].sequence)
    || (s.cells[i].sequence >= 1 && Offers(s, i, s.cells[i].sequence - 1))
  }

  ghost predicate ThreadInv<T(!new)>(s: State<T>, pc: Pc<T>)
    requires CanIndex(s)
  {
    var n := |s.cells|;
    match pc
    case EnqAt(_, pos) => pos <= s.enqPos
    case EnqSeen(_, pos, seen) =>
      && pos <= s.enqPos
      && (seen == pos == s.enqPos ==> s.cells[Slot(n, pos)].sequence == pos)
    case EnqFill(item, pos) =>
      pos < s.enqPos && pos < |s.stored| && s.stored[pos] == item && s.cells[Slot(n, pos)].sequence == pos
    case EnqPublish(pos) =>
      && pos < s.enqPos && pos < |s.stored|
      && s.cells[Slot(n, pos)] == Cell(pos, Some(s.stored[pos]))
    case DeqAt(pos) => pos <= s.deqPos
    case DeqSeen(pos, seen) =>
      && pos <= s.deqPos
      && (seen == pos + 1 && pos == s.deqPos ==> s.cells[Slot(n, pos)].sequence == pos + 1)
    case DeqTake(pos) =>
      && pos < s.deqPos && pos < |s.stored|
      && s.cells[Slot(n, pos)] == Cell(pos + 1, Some(s.stored[pos]))
    case DeqRelease(pos, got) =>
      && pos < s.deqPos && pos < |s.stored| && got == Some(s.stored[pos])
      && s.cells[Slot(n, pos)].sequence == pos + 1
    case _ => true
  }

  ghost predicate TicketsUnique<T(!new)>(s: State<T>) {
    forall t, u :: t in s.pcs && u in s.pcs && t != u ==>
      && !((s.pcs[t].EnqFill? || s.pcs[t].EnqPublish?) && Enqueues(s.pcs[u], s.pcs[t].pos))
      && !((s.pcs[t].DeqTake? || s.pcs[t].DeqRelease?) && Dequeues(s.pcs[u], s.pcs[t].pos))
  }

  ghost predicate HistoryInv<T(!new)>(s: State<T>)
    requires CanIndex(s)
  {
    var n := |s.cells|;
    && (forall k: nat :: k in s.published <==> s.cells[Slot(n, k)].sequence > k)
    && (forall k: nat :: k in s.taken <==> s.cells[Slot(n, k)].sequence >= k + n)
    && (forall k: nat :: k in s.taken ==> k < s.deqPos && k < |s.stored| && s.taken[k] == Some(s.stored[k]))
  }

  ghost predicate CellsInv<T(!new)>(s: State<T>) {
    forall i :: 0 <= i < |s.cells| ==> CellInv(s, i)
  }

  ghost predicate ThreadsInv<T(!new)>(s: State<T>)
    requires CanIndex(s)
  {
    forall t :: t in s.pcs ==> ThreadInv(s, s.pcs[t])
  }

  ghost predicate Shape<T(!new)>(s: State<T>) {
    && GoodSize(|s.cells|) && SlotFacts(|s.cells|) && CanIndex(s)
    && s.deqPos <= s.enqPos <= s.deqPos + |s.cells|
    && |s.stored| == s.enqPos
  }

  ghost predicate Inv<T(!new)>(s: State<T>) {
    Shape(s) && CellsInv(s) && ThreadsInv(s) && TicketsUnique(s) && HistoryInv(s)
  }

  lemma InitInv<T(!new)>(s: State<T>)
    requires Init(s)
    ensures Inv(s)
  {
    SlotFactsHold(|s.cells|);
    forall i | 0 <= i < |s.cells| ensures CellInv(s, i) {
      assert Awaits(s, i, i);
    }
    forall k: nat ensures s.cells[Slot(|s.cells|, k)].sequence <= k {
      var i := Slot(|s.cells|, k);
      assert Slot(|s.cells|, i) == i;
    }
  }

  // ----- every step keeps the invariant -----

  /** Tickets the stepping thread holds stay held, so a cell that does not change
      keeps its invariant when positions only grow past it legitimately. */
  lemma CellKept<T(!new)>(s: State<T>, t: Tid, s': State<T>, i: nat)
    requires i < |s.cells| == |s'.cells| && CellInv(s, i)
    requires t in s.pcs && t in s'.pcs && s'.pcs == s.pcs[t := s'.pcs[t]]
    requires s'.cells[i].sequence == s.cells[i].sequence
    requires s.deqPos <= s'.deqPos && s.enqPos <= s'.enqPos && s.stored <= s'.stored
    requires var q := s.cells[i].sequence;
      && (Awaits(s, i, q) ==>
            && s'.deqPos <= q
            && (Enqueues(s.pcs[t], q) ==> Enqueues(s'.pcs[t], q))
            && (q < s'.enqPos ==> q < s.enqPos || Enqueues(s'.pcs[t], q)))
      && (q >= 1 && Offers(s, i, q - 1) ==>
            && s'.enqPos <= q - 1 + |s.cells|
            && (s'.cells[i].data == s.cells[i].data || q - 1 < s'.deqPos)
            && (Dequeues(s.pcs[t], q - 1) ==> Dequeues(s'.pcs[t], q - 1))
            && (q - 1 < s'.deqPos ==> q - 1 < s.deqPos || Dequeues(s'.pcs[t], q - 1)))
    ensures CellInv(s', i)
  {
    var q := s.cells[i].sequence;
    if Awaits(s, i, q) {
      if q < s.enqPos {
        var u :| u in s.pcs && Enqueues(s.pcs[u], q);
        assert u in s'.pcs && Enqueues(s'.pcs[u], q);
      } else if q < s'.enqPos {
        assert t in s'.pcs && Enqueues(s'.pcs[t], q);
      }
      assert Awaits(s', i, q);
    } else {
      if q - 1 < s.deqPos {
        var u :| u in s.pcs && Dequeues(s.pcs[u], q - 1);
        assert u in s'.pcs && Dequeues(s'.pcs[u], q - 1);
      } else if q - 1 < s'.deqPos {
        assert t in s'.pcs && Dequeues(s'.pcs[t], q - 1);
      }
      assert Offers(s', i, q - 1);
    }
  }

  lemma TicketsStayUnique<T(!new)>(s: State<T>, t: Tid, s': State<T>)
    requires Inv(s) && t in s.pcs && t in s'.pcs && s'.pcs == s.pcs[t := s'.pcs[t]]
    requires forall k :: Enqueues(s'.pcs[t], k) ==> Enqueues(s.pcs[t], k) || k == s.enqPos
    requires forall k :: Dequeues(s'.pcs[t], k) ==> Dequeues(s.pcs[t], k) || k == s.deqPos
    ensures TicketsUnique(s')
  {
    forall u | u in s.pcs ensures !Enqueues(s.pcs[u], s.enqPos) && !Dequeues(s.pcs[u], s.deqPos) {
      NextTicketIsFree(s, s.pcs[u]);
    }
    OneClaimStaysUnique(s, t, s');
  }

  lemma NextTicketIsFree<T(!new)>(s: State<T>, pc: Pc<T>)
    requires CanIndex(s) && ThreadInv(s, pc)
    ensures !Enqueues(pc, s.enqPos) && !Dequeues(pc, s.deqPos)
  {
  }

  lemma OneClaimStaysUnique<T(!new)>(s: State<T>, t: Tid, s': State<T>)
    requires TicketsUnique(s) && t in s.pcs && t in s'.pcs && s'.pcs == s.pcs[t := s'.pcs[t]]
    requires forall u :: u in s.pcs ==> !Enqueues(s.pcs[u], s.enqPos) && !Dequeues(s.pcs[u], s.deqPos)
    requires forall k :: Enqueues(s'.pcs[t], k) ==> Enqueues(s.pcs[t], k) || k == s.enqPos
    requires forall k :: Dequeues(s'.pcs[t], k) ==> Dequeues(s.pcs[t], k) || k == s.deqPos
    ensures TicketsUnique(s')
  {
  }

  lemma HistoryKept<T(!new)>(s: State<T>, s': State<T>)
    requires CanIndex(s) && HistoryInv(s) && |s'.cells| == |s.cells|
    requires forall i :: 0 <= i < |s.cells| ==> s'.cells[i].sequence == s.cells[i].sequence
    requires s.deqPos <= s'.deqPos && s.stored <= s'.stored
    requires s'.published == s.published && s'.taken == s.taken
    ensures CanIndex(s') && HistoryInv(s')
  {
  }

  lemma PublishAtTicket<T(!new)>(s: State<T>, t: Tid, s': State<T>, k: nat)
    requires Shape(s) && HistoryInv(s) && Publish(s, t, s') && ThreadInv(s, s.pcs[t])
    ensures k in s'.published <==> s'.cells[Slot(|s.cells|, k)].sequence > k
    ensures k in s'.taken <==> s'.cells[Slot(|s.cells|, k)].sequence >= k + |s.cells|
  {
    assert Slot(|s.cells|, k + |s.cells|) == Slot(|s.cells|, k);
  }

  lemma PublishKeepsHistory<T(!new)>(s: State<T>, t: Tid, s': State<T>)
    requires Shape(s) && HistoryInv(s) && Publish(s, t, s') && ThreadInv(s, s.pcs[t])
    ensures CanIndex(s') && HistoryInv(s')
  {
    var n := |s.cells|;
    forall k: nat
      ensures k in s'.published <==> s'.cells[Slot(n, k)].sequence > k
      ensures k in s'.taken <==> s'.cells[Slot(n, k)].sequence >= k + n
    {
      PublishAtTicket(s, t, s', k);
    }
  }

  lemma ReleaseAtTicket<T(!new)>(s: State<T>, t: Tid, s': State<T>, k: nat)
    requires Shape(s) && HistoryInv(s) && Release(s, t, s') && ThreadInv(s, s.pcs[t])
    ensures k in s'.published <==> s'.cells[Slot(|s.cells|, k)].sequence > k
    ensures k in s'.taken <==> s'.cells[Slot(|s.cells|, k)].sequence >= k + |s.cells|
  {
    assert Slot(|s.cells|, k + |s.cells|) == Slot(|s.cells|, k);
  }

  lemma ReleaseKeepsHistory<T(!new)>(s: State<T>, t: Tid, s': State<T>)
    requires Shape(s) && HistoryInv(s) && Release(s, t, s') && ThreadInv(s, s.pcs[t])
    ensures CanIndex(s') && HistoryInv(s')
  {
    var n := |s.cells|;
    forall k: nat
      ensures k in s'.published <==> s'.cells[Slot(n, k)].sequence > k
      ensures k in s'.taken <==> s'.cells[Slot(n, k)].sequence >= k + n
    {
      ReleaseAtTicket(s, t, s', k);
    }
  }

  lemma LocalKeepsCells<T(!new)>(s: State<T>, t: Tid, s': State<T>)
    requires Inv(s) && Local(s, t, s')
    ensures CellsInv(s') && Shape(s')
  {
    forall i | 0 <= i < |s.cells| ensures CellInv(s', i) {
      CellKept(s, t, s', i);
    }
  }

  lemma LocalKeepsThreads<T(!new)>(s: State<T>, t: Tid, s': State<T>)
    requires Inv(s) && Local(s, t, s') && Shape(s')
    ensures ThreadsInv(s')
  {
    assert ThreadInv(s, s.pcs[t]);
    forall u | u in s'.pcs ensures ThreadInv(s', s'.pcs[u]) {
      assert u != t ==> ThreadInv(s, s.pcs[u]);
    }
  }

  lemma ClaimEnqueueKeepsCells<T(!new)>(s: State<T>, t: Tid, s': State<T>)
    requires Inv(s) && ClaimEnqueue(s, t, s')
    ensures CellsInv(s') && Shape(s')
  {
    var n, pos := |s.cells|, s.enqPos;
    assert ThreadInv(s, s.pcs[t]);
    assert CellInv(s, Slot(n, pos));
    assert Awaits(s, Slot(n, pos), pos);
    forall i | 0 <= i < n ensures CellInv(s', i) {
      var q := s.cells[i].sequence;
      assert q >= 1 && Offers(s, i, q - 1) ==> s.enqPos != q - 1 + n;
      CellKept(s, t, s', i);
    }
  }

  lemma ClaimEnqueueKeepsThreads<T(!new)>(s: State<T>, t: Tid, s': State<T>)
    requires Inv(s) && ClaimEnqueue(s, t, s') && Shape(s')
    ensures ThreadsInv(s')
  {
    assert ThreadInv(s, s.pcs[t]);
    forall u | u in s'.pcs ensures ThreadInv(s', s'.pcs[u]) {
      assert u != t ==> ThreadInv(s, s.pcs[u]);
    }
  }

  lemma FillKeepsCells<T(!new)>(s: State<T>, t: Tid, s': State<T>)
    requires Inv(s) && Fill(s, t, s')
    ensures CellsInv(s') && Shape(s')
  {
    assert ThreadInv(s, s.pcs[t]);
    assert CellInv(s, Slot(|s.cells|, s.pcs[t].pos));
    forall i | 0 <= i < |s.cells| ensures CellInv(s', i) {
      CellKept(s, t, s', i);
    }
  }

  lemma FillKeepsThread<T(!new)>(s: State<T>, t: Tid, s': State<T>, u: Tid)
    requires Shape(s) && Fill(s, t, s') && ThreadInv(s, s.pcs[t]) && TicketsUnique(s)
    requires u in s.pcs && u != t && ThreadInv(s, s.pcs[u])
    ensures CanIndex(s') && ThreadInv(s', s.pcs[u])
  {
  }

  lemma FillKeepsThreads<T(!new)>(s: State<T>, t: Tid, s': State<T>)
    requires Inv(s) && Fill(s, t, s') && Shape(s')
    ensures ThreadsInv(s')
  {
    assert ThreadInv(s, s.pcs[t]);
    forall u | u in s'.pcs ensures ThreadInv(s', s'.pcs[u]) {
      if u != t {
        assert ThreadInv(s, s.pcs[u]);
        FillKeepsThread(s, t, s', u);
      }
    }
  }

  lemma PublishedCell<T(!new)>(s: State<T>, t: Tid, s': State<T>)
    requires Inv(s) && Publish(s, t, s')
    ensures var j := Slot(|s.cells|, s.pcs[t].pos); j < |s'.cells| && CellInv(s', j)
  {
    var pos := s.pcs[t].pos;
    var j := Slot(|s.cells|, pos);
    assert ThreadInv(s, s.pcs[t]);
    assert CellInv(s, j) && Awaits(s, j, pos);
    assert Offers(s', j, pos);
  }

  lemma UnpublishedCell<T(!new)>(s: State<T>, t: Tid, s': State<T>, i: nat)
    requires Inv(s) && Publish(s, t, s') && i < |s.cells| && i != Slot(|s.cells|, s.pcs[t].pos)
    ensures i < |s'.cells| && CellInv(s', i)
  {
    assert ThreadInv(s, s.pcs[t]) && CellInv(s, i);
    CellKept(s, t, s', i);
  }

  lemma PublishKeepsShape<T(!new)>(s: State<T>, t: Tid, s': State<T>)
    requires Shape(s) && Publish(s, t, s')
    ensures Shape(s') && |s'.cells| == |s.cells|
  {
  }

  lemma PublishKeepsCells<T(!new)>(s: State<T>, t: Tid, s': State<T>)
    requires Inv(s) && Publish(s, t, s')
    ensures CellsInv(s') && Shape(s')
  {
    PublishKeepsShape(s, t, s');
    forall i | 0 <= i < |s'.cells| ensures CellInv(s', i) {
      if i == Slot(|s.cells|, s.pcs[t].pos) {
        PublishedCell(s, t, s');
      } else {
        UnpublishedCell(s, t, s', i);
      }
    }
  }

  lemma PublishKeepsThread<T(!new)>(s: State<T>, t: Tid, s': State<T>, u: Tid)
    requires Shape(s) && Publish(s, t, s') && ThreadInv(s, s.pcs[t]) && TicketsUnique(s)
    requires u in s.pcs && u != t && ThreadInv(s, s.pcs[u])
    ensures CanIndex(s') && ThreadInv(s', s.pcs[u])
  {
  }

  lemma PublishKeepsThreads<T(!new)>(s: State<T>, t: Tid, s': State<T>)
    requires Inv(s) && Publish(s, t, s') && Shape(s')
    ensures ThreadsInv(s')
  {
    assert ThreadInv(s, s.pcs[t]);
    forall u | u in s'.pcs ensures ThreadInv(s', s'.pcs[u]) {
      if u != t {
        assert ThreadInv(s, s.pcs[u]);
        PublishKeepsThread(s, t, s', u);
      }
    }
  }

  lemma ClaimDequeueKeepsCell<T(!new)>(s: State<T>, t: Tid, s': State<T>, i: nat)
    requires Inv(s) && ClaimDequeue(s, t, s') && i < |s.cells|
    requires Offers(s, Slot(|s.cells|, s.deqPos), s.deqPos)
    ensures CellInv(s', i)
  {
    assert CellInv(s, i);
    CellKept(s, t, s', i);
  }

  lemma ClaimDequeueKeepsCells<T(!new)>(s: State<T>, t: Tid, s': State<T>)
    requires Inv(s) && ClaimDequeue(s, t, s')
    ensures CellsInv(s') && Shape(s')
  {
    var j := Slot(|s.cells|, s.deqPos);
    assert ThreadInv(s, s.pcs[t]);
    assert CellInv(s, j) && Offers(s, j, s.deqPos);
    forall i | 0 <= i < |s.cells| ensures CellInv(s', i) {
      ClaimDequeueKeepsCell(s, t, s', i);
    }
  }

  lemma ClaimDequeueStartsTaking<T(!new)>(s: State<T>, t: Tid, s': State<T>)
    requires Inv(s) && ClaimDequeue(s, t, s')
    ensures CanIndex(s') && t in s'.pcs && ThreadInv(s', s'.pcs[t])
  {
    assert ThreadInv(s, s.pcs[t]);
    assert CellInv(s, Slot(|s.cells|, s.deqPos));
    assert Offers(s, Slot(|s.cells|, s.deqPos), s.deqPos);
  }

  lemma ClaimDequeueKeepsThreads<T(!new)>(s: State<T>, t: Tid, s': State<T>)
    requires Inv(s) && ClaimDequeue(s, t, s') && Shape(s')
    ensures ThreadsInv(s')
  {
    ClaimDequeueStartsTaking(s, t, s');
    forall u | u in s'.pcs && u != t ensures ThreadInv(s', s'.pcs[u]) {
      assert ThreadInv(s, s.pcs[u]);
    }
  }

  lemma TakeKeepsCells<T(!new)>(s: State<T>, t: Tid, s': State<T>)
    requires Inv(s) && Take(s, t, s')
    ensures CellsInv(s') && Shape(s')
  {
    assert ThreadInv(s, s.pcs[t]);
    forall i | 0 <= i < |s.cells| ensures CellInv(s', i) {
      CellKept(s, t, s', i);
    }
  }

  lemma TakeKeepsThread<T(!new)>(s: State<T>, t: Tid, s': State<T>, u: Tid)
    requires Shape(s) && Take(s, t, s') && ThreadInv(s, s.pcs[t]) && TicketsUnique(s)
    requires u in s.pcs && u != t && ThreadInv(s, s.pcs[u])
    ensures CanIndex(s') && ThreadInv(s', s.pcs[u])
  {
  }

  lemma TakeKeepsThreads<T(!new)>(s: State<T>, t: Tid, s': State<T>)
    requires Inv(s) && Take(s, t, s') && Shape(s')
    ensures ThreadsInv(s')
  {
    assert ThreadInv(s, s.pcs[t]);
    forall u | u in s'.pcs ensures ThreadInv(s', s'.pcs[u]) {
      if u != t {
        assert ThreadInv(s, s.pcs[u]);
        TakeKeepsThread(s, t, s', u);
      }
    }
  }

  lemma ReleasedCell<T(!new)>(s: State<T>, t: Tid, s': State<T>)
    requires Inv(s) && Release(s, t, s')
    ensures var j := Slot(|s.cells|, s.pcs[t].pos); j < |s'.cells| && CellInv(s', j)
  {
    var n, pos := |s.cells|, s.pcs[t].pos;
    var j := Slot(n, pos);
    assert ThreadInv(s, s.pcs[t]);
    assert CellInv(s, j) && Offers(s, j, pos);
    assert Slot(n, pos + n) == j;
    assert Awaits(s', j, pos + n);
  }

  lemma UnreleasedCell<T(!new)>(s: State<T>, t: Tid, s': State<T>, i: nat)
    requires Inv(s) && Release(s, t, s') && i < |s.cells| && i != Slot(|s.cells|, s.pcs[t].pos)
    ensures i < |s'.cells| && CellInv(s', i)
  {
    assert ThreadInv(s, s.pcs[t]) && CellInv(s, i);
    CellKept(s, t, s', i);
  }

  lemma ReleaseKeepsShape<T(!new)>(s: State<T>, t: Tid, s': State<T>)
    requires Shape(s) && Release(s, t, s')
    ensures Shape(s') && |s'.cells| == |s.cells|
  {
  }

  lemma ReleaseKeepsCells<T(!new)>(s: State<T>, t: Tid, s': State<T>)
    requires Inv(s) && Release(s, t, s')
    ensures CellsInv(s') && Shape(s')
  {
    ReleaseKeepsShape(s, t, s');
    forall i | 0 <= i < |s'.cells| ensures CellInv(s', i) {
      if i == Slot(|s.cells|, s.pcs[t].pos) {
        ReleasedCell(s, t, s');
      } else {
        UnreleasedCell(s, t, s', i);
      }
    }
  }

  lemma ReleaseKeepsThread<T(!new)>(s: State<T>, t: Tid, s': State<T>, u: Tid)
    requires Shape(s) && Release(s, t, s') && ThreadInv(s, s.pcs[t]) && TicketsUnique(s)
    requires u in s.pcs && u != t && ThreadInv(s, s.pcs[u])
    ensures CanIndex(s') && ThreadInv(s', s.pcs[u])
  {
    var n, pos := |s.cells|, s.pcs[t].pos;
    assert s.cells[Slot(n, pos)].sequence == pos + 1;
    assert Slot(n, pos + n) == Slot(n, pos);
  }

  lemma ReleaseKeepsThreads<T(!new)>(s: State<T>, t: Tid, s': State<T>)
    requires Inv(s) && Release(s, t, s') && Shape(s')
    ensures ThreadsInv(s')
  {
    assert ThreadInv(s, s.pcs[t]);
    forall u | u in s'.pcs ensures ThreadInv(s', s'.pcs[u]) {
      if u != t {
        assert ThreadInv(s, s.pcs[u]);
        ReleaseKeepsThread(s, t, s', u);
      }
    }
  }

  lemma LocalKeepsInv<T(!new)>(s: State<T>, t: Tid, s': State<T>)
    requires Inv(s) && Local(s, t, s')
    ensures Inv(s')
  {
    LocalKeepsCells(s, t, s');
    LocalKeepsThreads(s, t, s');
    assert ThreadInv(s, s.pcs[t]);
    TicketsStayUnique(s, t, s');
    HistoryKept(s, s');
  }

  lemma ClaimEnqueueKeepsInv<T(!new)>(s: State<T>, t: Tid, s': State<T>)
    requires Inv(s) && ClaimEnqueue(s, t, s')
    ensures Inv(s')
  {
    ClaimEnqueueKeepsCells(s, t, s');
    ClaimEnqueueKeepsThreads(s, t, s');
    assert ThreadInv(s, s.pcs[t]);
    TicketsStayUnique(s, t, s');
    HistoryKept(s, s');
  }

  lemma FillKeepsInv<T(!new)>(s: State<T>, t: Tid, s': State<T>)
    requires Inv(s) && Fill(s, t, s')
    ensures Inv(s')
  {
    FillKeepsCells(s, t, s');
    FillKeepsThreads(s, t, s');
    assert ThreadInv(s, s.pcs[t]);
    TicketsStayUnique(s, t, s');
    HistoryKept(s, s');
  }

  lemma PublishKeepsInv<T(!new)>(s: State<T>, t: Tid, s': State<T>)
    requires Inv(s) && Publish(s, t, s')
    ensures Inv(s')
  {
    PublishKeepsCells(s, t, s');
    PublishKeepsThreads(s, t, s');
    assert ThreadInv(s, s.pcs[t]);
    TicketsStayUnique(s, t, s');
    PublishKeepsHistory(s, t, s');
  }

  lemma ClaimDequeueKeepsInv<T(!new)>(s: State<T>, t: Tid, s': State<T>)
    requires Inv(s) && ClaimDequeue(s, t, s')
    ensures Inv(s')
  {
    ClaimDequeueKeepsCells(s, t, s');
    ClaimDequeueKeepsThreads(s, t, s');
    assert ThreadInv(s, s.pcs[t]);
    TicketsStayUnique(s, t, s');
    HistoryKept(s, s');
  }

  lemma TakeKeepsInv<T(!new)>(s: State<T>, t: Tid, s': State<T>)
    requires Inv(s) && Take(s, t, s')
    ensures Inv(s')
  {
    TakeKeepsCells(s, t, s');
    TakeKeepsThreads(s, t, s');
    assert ThreadInv(s, s.pcs[t]);
    TicketsStayUnique(s, t, s');
    HistoryKept(s, s');
  }

  lemma ReleaseKeepsInv<T(!new)>(s: State<T>, t: Tid, s': State<T>)
    requires Inv(s) && Release(s, t, s')
    ensures Inv(s')
  {
    ReleaseKeepsCells(s, t, s');
    ReleaseKeepsThreads(s, t, s');
    assert ThreadInv(s, s.pcs[t]);
    TicketsStayUnique(s, t, s');
    ReleaseKeepsHistory(s, t, s');
  }

  lemma NextKeepsInv<T(!new)>(s: State<T>, s': State<T>)
    requires Inv(s) && Next(s, s')
    ensures Inv(s')
  {
    var t :| StepOf(s, t, s');
    if Local(s, t, s') {
      LocalKeepsInv(s, t, s');
    } else if ClaimEnqueue(s, t, s') {
      ClaimEnqueueKeepsInv(s, t, s');
    } else if Fill(s, t, s') {
      FillKeepsInv(s, t, s');
    } else if Publish(s, t, s') {
      PublishKeepsInv(s, t, s');
    } else if ClaimDequeue(s, t, s') {
      ClaimDequeueKeepsInv(s, t, s');
    } else if Take(s, t, s') {
      TakeKeepsInv(s, t, s');
    } else if Release(s, t, s') {
      ReleaseKeepsInv(s, t, s');
    }
  }

  // ----- main results, for every run with any number of threads -----

  ghost predicate IsRun<T(!new)>(run: seq<State<T>>) {
    Runs.IsRun((s: State<T>) => Init(s), (s: State<T>, s': State<T>) => Next(s, s'), run)
  }

  lemma InvHolds<T(!new)>(run: seq<State<T>>, i: nat)
    requires IsRun(run) && i < |run|
    ensures Inv(run[i])
  {
    forall s: State<T> | Init(s) ensures Inv(s) {
      InitInv(s);
    }
    forall s: State<T>, s': State<T> | Inv(s) && Next(s, s') ensures Inv(s') {
      NextKeepsInv(s, s');
    }
    Runs.InvariantHolds((s: State<T>) => Init(s), (s: State<T>, s': State<T>) => Next(s, s'),
                        (s: State<T>) => Inv(s), run, i);
  }

  /** The items claimed by enqueues and not yet claimed by dequeues. */
  ghost function Contents<T(!new)>(s: State<T>): seq<T>
    requires s.deqPos <= |s.stored|
  {
    s.stored[s.deqPos..]
  }

  lemma ClaimEnqueuePuts<T(!new)>(s: State<T>, t: Tid, s': State<T>)
    requires Inv(s) && Inv(s') && ClaimEnqueue(s, t, s')
    ensures Fifo.Put(|s.cells|, Contents(s), s.pcs[t].item, Contents(s'))
  {
    assert s.stored[s.deqPos..] + [s.pcs[t].item] == (s.stored + [s.pcs[t].item])[s.deqPos..];
  }

  lemma ClaimDequeueGets<T(!new)>(s: State<T>, t: Tid, s': State<T>)
    requires Inv(s) && Inv(s') && ClaimDequeue(s, t, s')
    ensures s.deqPos < s.enqPos && Fifo.Get(Contents(s), s.stored[s.deqPos], Contents(s'))
  {
  }

  /** Claims are the only steps that move the abstract queue: an enqueue claim appends
      the caller's item and a dequeue claim takes the head. */
  lemma StepRefinesFifo<T(!new)>(s: State<T>, t: Tid, s': State<T>)
    requires Inv(s) && Inv(s') && StepOf(s, t, s')
    ensures |s'.cells| == |s.cells|
    ensures
      if ClaimEnqueue(s, t, s') then Fifo.Put(|s.cells|, Contents(s), s.pcs[t].item, Contents(s'))
      else if ClaimDequeue(s, t, s') then
        s.deqPos < s.enqPos && Fifo.Get(Contents(s), s.stored[s.deqPos], Contents(s'))
      else Contents(s') == Contents(s)
  {
    if ClaimEnqueue(s, t, s') {
      ClaimEnqueuePuts(s, t, s');
    } else if ClaimDequeue(s, t, s') {
      ClaimDequeueGets(s, t, s');
    }
  }

  /** Refinement: along every run the queue moves as an atomic bounded FIFO. */
  lemma {:induction false} RefinesFifo<T(!new)>(run: seq<State<T>>, i: nat)
    requires IsRun(run) && 0 < i < |run|
    ensures Inv(run[i - 1]) && Inv(run[i]) && |run[i].cells| == |run[0].cells|
    ensures Fifo.Next(|run[0].cells|, Contents(run[i - 1]), Contents(run[i]))
  {
    InvHolds(run, i - 1);
    InvHolds(run, i);
    if i > 1 {
      RefinesFifo(run, i - 1);
    }
    Runs.StepAt((s: State<T>) => Init(s), (s: State<T>, s': State<T>) => Next(s, s'), run, i);
    NextRefinesFifo(run[i - 1], run[i]);
  }

  lemma NextRefinesFifo<T(!new)>(s: State<T>, s': State<T>)
    requires Inv(s) && Inv(s') && Next(s, s')
    ensures |s'.cells| == |s.cells|
    ensures Fifo.Next(|s.cells|, Contents(s), Contents(s'))
  {
    var t :| StepOf(s, t, s');
    StepRefinesFifo(s, t, s');
  }

  /** The positions never drift apart by more than the buffer, every delivered item is
      the one stored under the same ticket, and each ticket ever issued is delivered,
      or held by exactly one dequeuing thread, or still in the queue. */
  lemma NothingLostOrDuplicated<T(!new)>(run: seq<State<T>>, i: nat, k: nat)
    requires IsRun(run) && i < |run|
    ensures var s := run[i];
      && 0 <= s.enqPos - s.deqPos <= |s.cells|
      && |s.stored| == s.enqPos
      && (k in s.taken ==> k < s.deqPos && s.taken[k] == Some(s.stored[k]))
      && (k < s.deqPos && k !in s.taken ==>
            && (exists t :: t in s.pcs && Dequeues(s.pcs[t], k))
            && (forall t, u :: t in s.pcs && u in s.pcs && Dequeues(s.pcs[t], k) && Dequeues(s.pcs[u], k) ==> t == u))
      && (forall t :: t in s.pcs && s.pcs[t].DeqRelease? && s.pcs[t].pos == k ==>
            k < s.deqPos && s.pcs[t].got == Some(s.stored[k]))
  {
    InvHolds(run, i);
    var s := run[i];
    forall t | t in s.pcs && s.pcs[t].DeqRelease? ensures ThreadInv(s, s.pcs[t]) {
    }
    if k < s.deqPos && k !in s.taken {
      UndeliveredIsHeld(s, k);
    }
  }

  lemma UndeliveredIsHeld<T(!new)>(s: State<T>, k: nat)
    requires Inv(s) && k < s.deqPos && k !in s.taken
    ensures exists t :: t in s.pcs && Dequeues(s.pcs[t], k)
  {
    var i := Slot(|s.cells|, k);
    assert CellInv(s, i);
    assert s.cells[i].sequence < k + |s.cells|;
  }

  /** When no thread is inside a call, everything claimed by dequeues was delivered and
      the rest waits, in order, in the cells. */
  lemma QuiescentContents<T(!new)>(run: seq<State<T>>, i: nat, k: nat)
    requires IsRun(run) && i < |run|
    requires forall t :: t in run[i].pcs ==> run[i].pcs[t].Idle?
    ensures var s := run[i];
      && (k in s.taken <==> k < s.deqPos)
      && (s.deqPos <= k < s.enqPos ==>
            CanIndex(s) && k < |s.stored| && s.cells[Slot(|s.cells|, k)] == Cell(k + 1, Some(s.stored[k])))
  {
    InvHolds(run, i);
    var s := run[i];
    assert CellInv(s, Slot(|s.cells|, k));
    if k < s.deqPos && k !in s.taken {
      UndeliveredIsHeld(s, k);
    }
  }

  ghost predicate AccessesData<T>(pc: Pc<T>) {
    pc.EnqFill? || pc.DeqTake?
  }

  /** No two threads are ever about to touch the data of one cell. */
  lemma NoDataRace<T(!new)>(run: seq<State<T>>, i: nat, t: Tid, u: Tid)
    requires IsRun(run) && i < |run|
    requires t in run[i].pcs && u in run[i].pcs && t != u
    requires AccessesData(run[i].pcs[t]) && AccessesData(run[i].pcs[u])
    ensures var s := run[i];
      |s.cells| >= 1 && Slot(|s.cells|, s.pcs[t].pos) != Slot(|s.cells|, s.pcs[u].pos)
  {
    InvHolds(run, i);
    var s := run[i];
    assert ThreadInv(s, s.pcs[t]) && ThreadInv(s, s.pcs[u]);
    assert !Enqueues(s.pcs[u], s.pcs[t].pos) || !s.pcs[t].EnqFill?;
  }

  /** An enqueuer that has loaded position pos sees a sequence that makes it return
      false exactly when the dequeue of ticket pos - size is not finished. */
  lemma EnqueueSeesFull<T(!new)>(run: seq<State<T>>, i: nat, t: Tid)
    requires IsRun(run) && i < |run| && t in run[i].pcs && run[i].pcs[t].EnqAt?
    ensures var s := run[i];
      var pos := s.pcs[t].pos;
      && CanIndex(s)
      && (s.cells[Slot(|s.cells|, pos)].sequence < pos <==>
            pos >= |s.cells| && pos - |s.cells| !in s.taken)
  {
    InvHolds(run, i);
    var s := run[i];
    var n, pos := |s.cells|, s.pcs[t].pos;
    assert ThreadInv(s, s.pcs[t]);
    assert CellInv(s, Slot(n, pos));
    if pos >= n {
      assert Slot(n, pos - n + n) == Slot(n, pos - n);
    } else {
      assert Slot(n, pos) == pos;
    }
  }

  /** A dequeuer that has loaded position pos sees a sequence that makes it return
      false exactly when pos is the head ticket and its item is not published. */
  lemma DequeueSeesEmpty<T(!new)>(run: seq<State<T>>, i: nat, t: Tid)
    requires IsRun(run) && i < |run| && t in run[i].pcs && run[i].pcs[t].DeqAt?
    ensures var s := run[i];
      var pos := s.pcs[t].pos;
      && CanIndex(s)
      && (s.cells[Slot(|s.cells|, pos)].sequence < pos + 1 <==> pos == s.deqPos && pos !in s.published)
  {
    InvHolds(run, i);
    var s := run[i];
    var n, pos := |s.cells|, s.pcs[t].pos;
    assert ThreadInv(s, s.pcs[t]);
    assert CellInv(s, Slot(n, pos));
  }
}
