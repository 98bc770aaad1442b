// jsoncpp's batch allocator (json_batchallocator.h): blocks of a fixed number of
// objects are cut from pages by a bump pointer, and released blocks form a linked
// list stored inside the blocks themselves.
module BatchAllocator {
  import opened Wrappers
  import opened Bits

  /** A place in memory: the page by order of allocation, and the object within it. */
  datatype Addr = Addr(page: nat, offset: nat)

  /** used_ and end_ relative to buffer_, and how many objects malloc gave. */
  datatype Batch = Batch(used: nat, end: nat, size: nat)

  /** A page just allocated: end_ is objectsPerPage objects from buffer_, whatever a block is. */
  function NewPage(block: nat, perPage: nat): Batch {
    Batch(0, perPage, block * perPage)
  }

  /** The bump pointer and the end are at starts of blocks, within the page's memory. */
  predicate PageValid(b: Batch, block: nat)
    requires block > 0
  {
    b.used <= b.end <= b.size && b.used % block == 0 && b.end % block == 0
  }

  /** What handing out a block makes of its page. */
  function Taken(b: Batch, block: nat): Batch {
    b.(used := b.used + block)
  }

  /** Two blocks of n objects have no object in common. */
  predicate Disjoint(n: nat, a: Addr, b: Addr) {
    a.page != b.page || a.offset + n <= b.offset || b.offset + n <= a.offset
  }

  function Head(list: seq<Addr>): Option<Addr> {
    if list == [] then None else Some(list[0])
  }

  /** Each block of the list holds the address of the next, and no block occurs twice. */
  ghost predicate Linked(memory: map<Addr, Option<Addr>>, list: seq<Addr>) {
    list == [] || (
      && list[0] in memory && memory[list[0]] == Head(list[1..]) && list[0] !in list[1..]
      && Linked(memory, list[1..]))
  }

  lemma {:induction false} LinkedFrame(memory: map<Addr, Option<Addr>>, list: seq<Addr>, a: Addr, word: Option<Addr>)
    requires Linked(memory, list) && a !in list
    ensures Linked(memory[a := word], list)
  {
    if list != [] {
      LinkedFrame(memory, list[1..], a, word);
    }
  }

  class BatchAllocator {
    const objectPerAllocation: nat
    const objectsPerPage: nat
    var batches: seq<Batch>               // the list from batches_, newest page first
    var current: nat                      // currentBatch_; the length of the list is the null pointer
    var freeHead: Option<Addr>
    var memory: map<Addr, Option<Addr>>   // the pointer stored at the start of a block
    ghost var free: seq<Addr>             // the free list
    ghost var live: set<Addr>             // handed out and not released

    /** The page that an address is in. */
    ghost function Page(a: Addr): Batch
      requires a.page < |batches|
      reads this
    {
      batches[|batches| - 1 - a.page]
    }

    /** The address lies below its page's bump pointer, at the start of a block. */
    ghost predicate Bumped(a: Addr)
      requires objectPerAllocation > 0
      reads this
    {
      a.page < |batches| && a.offset % objectPerAllocation == 0 && a.offset < Page(a).used
    }

    ghost predicate BatchesValid()
      reads this
    {
      && objectPerAllocation > 0 && objectsPerPage % objectPerAllocation == 0 && objectsPerPage > 0
      && batches != [] && current == 0
      && (forall i :: 0 <= i < |batches| ==> PageValid(batches[i], objectPerAllocation))
      && (forall i :: 0 < i < |batches| ==> batches[i].used == batches[i].end)
    }

    ghost predicate ListValid()
      reads this
    {
      freeHead == Head(free) && Linked(memory, free)
    }

    /** Live, free and never-used blocks account for every page. */
    ghost predicate BlocksValid()
      requires objectPerAllocation > 0
      reads this
    {
      && (forall a :: Bumped(a) <==> a in live || a in free)
      && (forall a :: a in live ==> a !in free)
    }

    ghost predicate Valid()
      reads this
    {
      BatchesValid() && ListValid() && BlocksValid()
    }

    constructor (objectPerAllocation: nat, objectsPerPage: nat)
      requires objectPerAllocation >= 1 && objectsPerPage >= 16
      ensures Valid() <==> objectsPerPage % objectPerAllocation == 0
      ensures live == {} && free == []
      ensures this.objectPerAllocation == objectPerAllocation && this.objectsPerPage == objectsPerPage
    {
      this.objectPerAllocation, this.objectsPerPage := objectPerAllocation, objectsPerPage;
      batches := [Batch(0, 0, 0)];  // the dummy page
      current := 0;
      freeHead := None;
      memory := map[];
      free, live := [], {};
    }

    /** The block is new to the caller, wholly inside its page and clear of every live one. */
    method Allocate() returns (a: Addr)
      requires Valid()
      modifies this
      ensures Valid() && memory == old(memory)
      ensures live == old(live) + {a} && a !in old(live)
      ensures a.page < |batches| && a.offset + objectPerAllocation <= Page(a).end <= Page(a).size
      ensures forall b :: b in old(live) ==> Disjoint(objectPerAllocation, a, b)
      ensures old(free) != [] ==> a == old(free[0]) && free == old(free[1..]) && batches == old(batches)
      ensures old(free) == [] ==> free == []
    {
      if freeHead.Some? {
        a := TakeFree();
      } else {
        a := TakeNew();
      }
      BlocksAreDisjoint(a);
    }

    /** Returns the node at the head of the free list. */
    method TakeFree() returns (a: Addr)
      requires Valid() && free != []
      modifies this`freeHead, this`free, this`live
      ensures Valid() && a == old(free[0]) && free == old(free[1..])
      ensures live == old(live) + {a} && a !in old(live)
      ensures a.page < |batches| && a.offset + objectPerAllocation <= Page(a).end
    {
      a := freeHead.value;
      assert a in free && Bumped(a);
      freeHead := memory[a];
      free, live := free[1..], live + {a};
      assert forall b :: b in old(free) <==> b == a || b in free;
      SameRemainderGap(a.offset, Page(a).end, objectPerAllocation);
    }

    /** Cuts a block from the first page that has room, or from a new page. */
    method TakeNew() returns (a: Addr)
      requires Valid() && free == []
      modifies this`batches, this`current, this`live
      ensures Valid() && free == []
      ensures live == old(live) + {a} && a !in old(live)
      ensures a.page < |batches| && a.offset + objectPerAllocation <= Page(a).end
      ensures old(batches[0].used < batches[0].end) ==>
        var b := old(batches[0]);
        a == Addr(old(|batches|) - 1, b.used) && batches == old(batches)[0 := Taken(b, objectPerAllocation)]
      ensures old(batches[0].used == batches[0].end) ==>
        && a == Addr(old(|batches|), 0)
        && batches == [Taken(NewPage(objectPerAllocation, objectsPerPage), objectPerAllocation)] + old(batches)
    {
      if batches[current].used == batches[current].end {
        current := current + 1;
        while current < |batches| && batches[current].used == batches[current].end
          invariant 0 < current <= |batches|
          modifies this`current
        {
          current := current + 1;
        }
        if current == |batches| {
          AllocateBatch();
        }
      }
      a := Bump();
    }

    /** allocateBatch and its insertion at the head of the list. */
    method AllocateBatch()
      requires objectPerAllocation > 0 && objectsPerPage > 0 && objectsPerPage % objectPerAllocation == 0
      requires forall i :: 0 <= i < |batches| ==>
        PageValid(batches[i], objectPerAllocation) && batches[i].used == batches[i].end
      requires ListValid() && BlocksValid() && free == []
      modifies this`batches, this`current
      ensures Valid() && batches == [NewPage(objectPerAllocation, objectsPerPage)] + old(batches)
      ensures current == 0
    {
      NewPageValid(objectPerAllocation, objectsPerPage);
      batches := [NewPage(objectPerAllocation, objectsPerPage)] + batches;
      current := 0;
      forall a: Addr
        ensures Bumped(a) <==> old(Bumped(a))
      {
        if a.page < |old(batches)| {
          assert Page(a) == old(Page(a));
        }
      }
    }

    /** Takes the next block of the current page. */
    method Bump() returns (a: Addr)
      requires Valid() && free == [] && batches[current].used < batches[current].end
      modifies this`batches, this`live
      ensures Valid() && a == old(Addr(|batches| - 1, batches[0].used))
      ensures batches == old(batches)[0 := Taken(old(batches[0]), objectPerAllocation)]
      ensures live == old(live) + {a} && a !in old(live)
      ensures a.page < |batches| && a.offset + objectPerAllocation <= Page(a).end
    {
      var b := batches[current];
      a := Addr(|batches| - 1 - current, b.used);
      SameRemainderGap(b.used, b.end, objectPerAllocation);
      NextMultiple(b.used, objectPerAllocation);
      batches := batches[current := Taken(b, objectPerAllocation)];
      live := live + {a};
      forall c: Addr ensures Bumped(c) <==> c == a || old(Bumped(c)) {
        if c.page == a.page && c.offset % objectPerAllocation == 0 && b.used < c.offset {
          SameRemainderGap(b.used, c.offset, objectPerAllocation);
        }
      }
    }

    method Release(a: Addr)
      requires Valid() && a in live
      modifies this
      ensures Valid() && live == old(live) - {a} && free == [a] + old(free)
      ensures batches == old(batches)
    {
      ReleaseToList(a);
      live := live - {a};
      assert forall b :: b in free <==> b == a || b in old(free);
    }

    /** Stores the old head in the block and makes the block the head. */
    method ReleaseToList(a: Addr)
      requires ListValid() && a !in free
      modifies this`memory, this`freeHead, this`free
      ensures ListValid() && free == [a] + old(free)
    {
      LinkedFrame(memory, free, a, freeHead);
      memory := memory[a := freeHead];
      freeHead := Some(a);
      free := [a] + free;
      assert free[1..] == old(free);
    }

    /** The caller may overwrite a block it owns, link word included. */
    method WriteBlock(a: Addr, word: Option<Addr>)
      requires Valid() && a in live
      modifies this`memory
      ensures Valid()
    {
      LinkedFrame(memory, free, a, word);
      memory := memory[a := word];
    }

    lemma BlocksAreDisjoint(a: Addr)
      requires Valid() && a in live
      ensures forall b :: b in live && b != a ==> Disjoint(objectPerAllocation, a, b)
    {
      forall b | b in live && b != a ensures Disjoint(objectPerAllocation, a, b) {
        assert Bumped(a) && Bumped(b);
        assert a == Addr(a.page, a.offset) && b == Addr(b.page, b.offset);
        if a.offset < b.offset {
          SameRemainderGap(a.offset, b.offset, objectPerAllocation);
        } else if b.offset < a.offset {
          SameRemainderGap(b.offset, a.offset, objectPerAllocation);
        }
      }
    }
  }

  lemma NewPageValid(block: nat, perPage: nat)
    requires block >= 1 && perPage % block == 0
    ensures PageValid(NewPage(block, perPage), block)
  {
    assert block * perPage >= perPage;
  }

  lemma NextMultiple(a: nat, n: nat)
    requires n > 0 && a % n == 0
    ensures (a + n) % n == 0
  {
    RemainderUnique(a + n, n, a / n + 1, 0);
  }

  // ----- why the page size must be a multiple of the block size -----

  function TakenTimes(b: Batch, block: nat, n: nat): Batch {
    if n == 0 then b else Taken(TakenTimes(b, block, n - 1), block)
  }

  lemma {:induction false} TakenTimesUsed(b: Batch, block: nat, n: nat)
    ensures TakenTimes(b, block, n) == b.(used := b.used + n * block)
  {
    if n > 0 {
      TakenTimesUsed(b, block, n - 1);
      assert n * block == (n - 1) * block + block;
    }
  }

  /** A new page hands out its block number n (from 0): used_ has not met end_ before. */
  ghost predicate Serves(block: nat, perPage: nat, n: nat) {
    forall m: nat :: m <= n ==>
      var b := TakenTimes(NewPage(block, perPage), block, m);
      b.used != b.end
  }

  /** The block the page hands out next lies inside the memory malloc gave. */
  predicate Holds(b: Batch, block: nat) {
    b.used + block <= b.size
  }

  /** Every block a page serves lies inside the memory malloc gave it exactly when the
      block size divides the page size; otherwise the bump pointer steps over end_. */
  lemma PageSafeIffDivides(block: nat, perPage: nat)
    requires block >= 1 && perPage >= 1
    ensures (forall n: nat :: Serves(block, perPage, n) ==> Holds(TakenTimes(NewPage(block, perPage), block, n), block))
      <==> perPage % block == 0
  {
    if perPage % block == 0 {
      forall n: nat | Serves(block, perPage, n) ensures Holds(TakenTimes(NewPage(block, perPage), block, n), block) {
        ServedBlockFits(block, perPage, n);
      }
    } else {
      PageLeavesItsMemory(block, perPage);
    }
  }

  lemma ExactQuotient(n: nat, block: nat)
    requires block >= 1 && n % block == 0
    ensures (n / block) * block == n
  {
  }

  lemma BlockFits(block: nat, perPage: nat, n: nat, q: nat)
    requires block >= 1 && q * block == perPage && n < q
    ensures n * block + block <= block * perPage
  {
    var rest := q - n - 1;
    assert q * block == n * block + block + rest * block;
    assert block * perPage >= perPage;
  }

  lemma ServedBlockFits(block: nat, perPage: nat, n: nat)
    requires block >= 1 && perPage >= 1 && perPage % block == 0 && Serves(block, perPage, n)
    ensures Holds(TakenTimes(NewPage(block, perPage), block, n), block)
  {
    var q, page := perPage / block, NewPage(block, perPage);
    TakenTimesUsed(page, block, n);
    TakenTimesUsed(page, block, q);
    ExactQuotient(perPage, block);
    assert TakenTimes(page, block, q).used == TakenTimes(page, block, q).end;
    BlockFits(block, perPage, n, q);
  }

  lemma StepsOver(block: nat, perPage: nat, m: nat)
    requires block >= 1 && perPage % block != 0
    ensures TakenTimes(NewPage(block, perPage), block, m).used != perPage
  {
    TakenTimesUsed(NewPage(block, perPage), block, m);
    if m * block == perPage {
      RemainderUnique(perPage, block, m, 0);
    }
  }

  lemma PageLeavesItsMemory(block: nat, perPage: nat)
    requires block >= 1 && perPage >= 1 && perPage % block != 0
    ensures Serves(block, perPage, perPage) && !Holds(TakenTimes(NewPage(block, perPage), block, perPage), block)
  {
    var page := NewPage(block, perPage);
    forall m: nat | m <= perPage
      ensures TakenTimes(page, block, m).used != TakenTimes(page, block, m).end
    {
      StepsOver(block, perPage, m);
      TakenTimesUsed(page, block, m);
    }
    TakenTimesUsed(page, block, perPage);
  }

  /** With eight objects a block and the default of 255 a page, the page hands out its block
      number 255, which begins where its memory ends. */
  lemma PageOf255LeavesItsMemory()
    ensures Serves(8, 255, 255)
    ensures TakenTimes(NewPage(8, 255), 8, 255) == Batch(2040, 255, 2040)
    ensures !Holds(TakenTimes(NewPage(8, 255), 8, 255), 8)
  {
    PageLeavesItsMemory(8, 255);
    TakenTimesUsed(NewPage(8, 255), 8, 255);
  }
}
