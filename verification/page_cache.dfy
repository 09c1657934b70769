// The cache of pages: blocks come from the operating system, go to the stacks and tables of the
// machine, and are kept for reuse when they come back.

module PageCache {
  import opened Words
  import opened Layouts

  datatype PageBlock = PageBlock(ptr: nat, size: nat)

  function End(b: PageBlock): nat { b.ptr + b.size }

  predicate Apart(a: PageBlock, b: PageBlock) {
    End(a) <= b.ptr || End(b) <= a.ptr
  }

  /** The free list, front first, what was taken from the system, and the blocks that are in use. */
  datatype Cache = Cache(free: seq<PageBlock>, mapped: int, inUse: seq<PageBlock>)

  function Total(bs: seq<PageBlock>): nat {
    if bs == [] then 0 else bs[0].size + Total(bs[1..])
  }

  function Without<T>(s: seq<T>, i: nat): seq<T>
    requires i < |s|
  {
    s[..i] + s[i + 1..]
  }

  // ----- the operations -----

  /** The first free block that is large enough, or the length of the list. */
  function FirstFit(free: seq<PageBlock>, size: nat): (i: nat)
    ensures i <= |free| && (i < |free| ==> free[i].size >= size)
    ensures forall j :: 0 <= j < i ==> free[j].size < size
  {
    if free == [] || free[0].size >= size then 0 else 1 + FirstFit(free[1..], size)
  }

  /** The first free block that ends at `ptr`, or the length of the list. */
  function EndingAt(free: seq<PageBlock>, ptr: nat): (i: nat)
    ensures i <= |free| && (i < |free| ==> End(free[i]) == ptr)
    ensures forall j :: 0 <= j < i ==> End(free[j]) != ptr
  {
    if free == [] || End(free[0]) == ptr then 0 else 1 + EndingAt(free[1..], ptr)
  }

  /** A free block is given out whole, however large; `pages` is where new ones would be mapped. */
  function Allocated(free: seq<PageBlock>, size: nat, pages: nat): (r: (PageBlock, seq<PageBlock>, nat))
  {
    var i := FirstFit(free, size);
    if i < |free| then (free[i], Without(free, i), 0) else (PageBlock(pages, size), free, size)
  }

  function Deallocated(free: seq<PageBlock>, b: PageBlock): seq<PageBlock> {
    var i := EndingAt(free, b.ptr);
    if i < |free| then free[i := free[i].(size := free[i].size + b.size)] else [b] + free
  }

  datatype Event =
    | Allocate(size: nat, pages: nat)
    | Extend(k: nat, size: nat, granted: bool)
    | Deallocate(k: nat)

  function Step(page: nat, c: Cache, e: Event): Cache
    requires page > 0
  {
    match e
    case Allocate(size, pages) =>
      var (b, free, new_) := Allocated(c.free, RoundUp(size, page), pages);
      Cache(free, c.mapped + new_, [b] + c.inUse)
    case Extend(k, size, granted) =>
      if k >= |c.inUse| || !granted then c
      else
        var b := c.inUse[k].(size := RoundUp(size, page));
        c.(mapped := c.mapped + b.size - c.inUse[k].size, inUse := c.inUse[k := b])
    case Deallocate(k) =>
      if k >= |c.inUse| then c
      else Cache(Deallocated(c.free, c.inUse[k].(size := RoundUp(c.inUse[k].size, page))), c.mapped,
                 Without(c.inUse, k))
  }

  // ----- what is kept -----

  predicate AllApart(bs: seq<PageBlock>) {
    forall i, j :: 0 <= i < j < |bs| ==> Apart(bs[i], bs[j])
  }

  predicate ApartFromAll(b: PageBlock, bs: seq<PageBlock>) {
    forall i :: 0 <= i < |bs| ==> Apart(b, bs[i])
  }

  predicate WholePages(page: nat, bs: seq<PageBlock>)
    requires page > 0
  {
    forall i :: 0 <= i < |bs| ==> bs[i].size > 0 && bs[i].size % page == 0
  }

  /** Cached blocks and blocks in use are whole pages and disjoint, and together they are what was
      taken from the system. */
  predicate Conserved(page: nat, c: Cache)
    requires page > 0
  {
    && WholePages(page, c.free) && WholePages(page, c.inUse) && BothApart(c.free, c.inUse)
    && c.mapped == Total(c.free) + Total(c.inUse)
  }

  /** What the system guarantees: new pages, and pages added to a block, belong to nobody else. */
  predicate Honest(page: nat, c: Cache, e: Event)
    requires page > 0
  {
    match e
    case Allocate(size, pages) =>
      size > 0 && var b := PageBlock(pages, RoundUp(size, page)); ApartFromAll(b, c.free) && ApartFromAll(b, c.inUse)
    case Extend(k, size, granted) =>
      size > 0 && (k < |c.inUse| ==>
        var b := c.inUse[k].(size := RoundUp(size, page));
        ApartFromAll(b, c.free) && ApartFromAll(b, Without(c.inUse, k)))
    case Deallocate(k) => true
  }

  // ----- pages -----

  /** Rounding gives the next whole number of pages, and leaves whole pages alone. */
  lemma Rounded(size: nat, page: nat)
    requires page > 0
    ensures RoundUp(size, page) % page == 0 && size <= RoundUp(size, page) < size + page
    ensures size % page == 0 ==> RoundUp(size, page) == size
  {
    var q := (size + page - 1) / page;
    assert size + page - 1 == q * page + (size + page - 1) % page;
    DivMod(q, page, 0);
    if size % page == 0 {
      var n := size / page;
      assert size == n * page + size % page;
      DivMod(n, page, page - 1);
    }
  }

  lemma {:induction false} TotalUpdate(bs: seq<PageBlock>, i: nat, b: PageBlock)
    requires i < |bs|
    ensures Total(bs[i := b]) == Total(bs) - bs[i].size + b.size
  {
    if i == 0 {
      assert bs[0 := b][1..] == bs[1..];
    } else {
      assert bs[i := b][1..] == bs[1..][i - 1 := b];
      TotalUpdate(bs[1..], i - 1, b);
    }
  }

  lemma {:induction false} TotalWithout(bs: seq<PageBlock>, i: nat)
    requires i < |bs|
    ensures Total(Without(bs, i)) == Total(bs) - bs[i].size
  {
    if i == 0 {
      assert Without(bs, 0) == bs[1..];
    } else {
      assert Without(bs, i)[1..] == Without(bs[1..], i - 1) && Without(bs, i)[0] == bs[0];
      TotalWithout(bs[1..], i - 1);
    }
  }

  lemma TotalPush(b: PageBlock, bs: seq<PageBlock>)
    ensures Total([b] + bs) == b.size + Total(bs)
  {
    assert ([b] + bs)[1..] == bs;
  }

  // ----- disjointness, wherever a block is -----

  /** Cached blocks and blocks in use, each apart from all others. */
  predicate BothApart(free: seq<PageBlock>, inUse: seq<PageBlock>) {
    && AllApart(free) && AllApart(inUse)
    && forall i, j :: 0 <= i < |free| && 0 <= j < |inUse| ==> Apart(free[i], inUse[j])
  }

  lemma WithoutApart(bs: seq<PageBlock>, i: nat)
    requires AllApart(bs) && i < |bs|
    ensures AllApart(Without(bs, i)) && ApartFromAll(bs[i], Without(bs, i))
  {
    var bs' := Without(bs, i);
    forall j, k | 0 <= j < k < |bs'| ensures Apart(bs'[j], bs'[k]) {
      assert bs'[j] == bs[if j < i then j else j + 1] && bs'[k] == bs[if k < i then k else k + 1];
    }
    forall j | 0 <= j < |bs'| ensures Apart(bs[i], bs'[j]) {
      assert bs'[j] == bs[if j < i then j else j + 1];
    }
  }

  /** A block moves from one list to the other. */
  lemma MovedApart(from: seq<PageBlock>, i: nat, to: seq<PageBlock>)
    requires BothApart(from, to) && i < |from|
    ensures BothApart(Without(from, i), [from[i]] + to)
  {
    WithoutApart(from, i);
    var from', to' := Without(from, i), [from[i]] + to;
    forall j, k | 0 <= j < |from'| && 0 <= k < |to'| ensures Apart(from'[j], to'[k]) {
      assert from'[j] == from[if j < i then j else j + 1];
    }
  }

  lemma Flipped(free: seq<PageBlock>, inUse: seq<PageBlock>)
    requires BothApart(free, inUse)
    ensures BothApart(inUse, free)
  {
  }

  lemma PushedApart(free: seq<PageBlock>, inUse: seq<PageBlock>, b: PageBlock)
    requires BothApart(free, inUse) && ApartFromAll(b, free) && ApartFromAll(b, inUse)
    ensures BothApart(free, [b] + inUse)
  {
  }

  lemma ChangedApart(free: seq<PageBlock>, inUse: seq<PageBlock>, k: nat, b: PageBlock)
    requires BothApart(free, inUse) && k < |inUse| && ApartFromAll(b, free) && ApartFromAll(b, Without(inUse, k))
    ensures BothApart(free, inUse[k := b])
  {
    forall j | 0 <= j < |inUse| && j != k ensures Apart(b, inUse[j]) {
      assert inUse[j] == Without(inUse, k)[if j < k then j else j - 1];
    }
  }

  lemma WithoutSubset(bs: seq<PageBlock>, i: nat, page: nat)
    requires i < |bs| && page > 0 && WholePages(page, bs)
    ensures WholePages(page, Without(bs, i))
  {
    forall j | 0 <= j < |bs| - 1 ensures Without(bs, i)[j] == bs[if j < i then j else j + 1] {
    }
  }

  // ----- one event -----

  lemma AllocateConserves(page: nat, c: Cache, size: nat, pages: nat)
    requires page > 0 && Conserved(page, c) && Honest(page, c, Allocate(size, pages))
    ensures Conserved(page, Step(page, c, Allocate(size, pages)))
    ensures Step(page, c, Allocate(size, pages)).inUse[0].size >= size
  {
    Rounded(size, page);
    var need := RoundUp(size, page);
    var i := FirstFit(c.free, need);
    if i < |c.free| {
      MovedApart(c.free, i, c.inUse);
      TotalWithout(c.free, i);
      TotalPush(c.free[i], c.inUse);
      WithoutSubset(c.free, i, page);
    } else {
      PushedApart(c.free, c.inUse, PageBlock(pages, need));
      TotalPush(PageBlock(pages, need), c.inUse);
    }
  }

  lemma ExtendConserves(page: nat, c: Cache, k: nat, size: nat, granted: bool)
    requires page > 0 && Conserved(page, c) && Honest(page, c, Extend(k, size, granted))
    ensures Conserved(page, Step(page, c, Extend(k, size, granted)))
  {
    if k < |c.inUse| && granted {
      Rounded(size, page);
      var b := c.inUse[k].(size := RoundUp(size, page));
      ChangedApart(c.free, c.inUse, k, b);
      TotalUpdate(c.inUse, k, b);
    }
  }

  /** A block joined to the one that ends where it starts overlaps nothing either did not. */
  lemma JoinedApart(free: seq<PageBlock>, inUse: seq<PageBlock>, i: nat, b: PageBlock)
    requires BothApart(free, [b] + inUse) && i < |free| && End(free[i]) == b.ptr && free[i].size > 0 && b.size > 0
    requires forall j :: 0 <= j < |free| ==> free[j].size > 0
    requires forall j :: 0 <= j < |inUse| ==> inUse[j].size > 0
    ensures BothApart(free[i := free[i].(size := free[i].size + b.size)], inUse)
  {
    var joined := free[i].(size := free[i].size + b.size);
    assert ([b] + inUse)[0] == b;
    forall j | 0 <= j < |free| && j != i ensures Apart(joined, free[j]) {
      assert Apart(free[j], ([b] + inUse)[0]);
      assert if i < j then Apart(free[i], free[j]) else Apart(free[j], free[i]);
    }
    forall j | 0 <= j < |inUse| ensures Apart(joined, inUse[j]) {
      assert inUse[j] == ([b] + inUse)[j + 1];
      assert Apart(free[i], ([b] + inUse)[j + 1]) && Apart(([b] + inUse)[0], ([b] + inUse)[j + 1]);
    }
    AllInUseApart(b, inUse);
    var free' := free[i := joined];
    forall j, k | 0 <= j < k < |free| ensures Apart(free'[j], free'[k]) {
      assert j != i && k != i ==> Apart(free[j], free[k]);
    }
    forall j, k | 0 <= j < |free| && 0 <= k < |inUse| ensures Apart(free'[j], inUse[k]) {
      assert j != i ==> Apart(free[j], ([b] + inUse)[k + 1]);
    }
  }

  lemma AllInUseApart(b: PageBlock, inUse: seq<PageBlock>)
    requires AllApart([b] + inUse)
    ensures AllApart(inUse)
  {
    assert ([b] + inUse)[1..] == inUse;
    forall i, j | 0 <= i < j < |inUse| ensures Apart(inUse[i], inUse[j]) {
      assert Apart(([b] + inUse)[i + 1], ([b] + inUse)[j + 1]);
    }
  }

  /** A block joined to a free one, or put in front of the list. */
  lemma DeallocatedConserves(page: nat, free: seq<PageBlock>, rest: seq<PageBlock>, b: PageBlock)
    requires page > 0 && b.size > 0 && b.size % page == 0 && WholePages(page, free) && WholePages(page, rest)
    requires BothApart(rest, [b] + free)
    ensures BothApart(Deallocated(free, b), rest) && WholePages(page, Deallocated(free, b))
    ensures Total(Deallocated(free, b)) == Total(free) + b.size
  {
    var i := EndingAt(free, b.ptr);
    if i < |free| {
      BackAndForth(free, rest, b);
      JoinedApart(free, rest, i, b);
      TotalUpdate(free, i, free[i].(size := free[i].size + b.size));
      SumOfMultiples(free[i].size, b.size, page);
    } else {
      Flipped(rest, [b] + free);
      TotalPush(b, free);
    }
  }

  /** A block that is given back, taken out of the ones in use. */
  lemma DeallocateConserves(page: nat, c: Cache, k: nat)
    requires page > 0 && Conserved(page, c)
    ensures Conserved(page, Step(page, c, Deallocate(k)))
  {
    if k < |c.inUse| {
      var b, rest := c.inUse[k], Without(c.inUse, k);
      Rounded(b.size, page);
      assert b.(size := RoundUp(b.size, page)) == b;
      Flipped(c.free, c.inUse);
      MovedApart(c.inUse, k, c.free);
      TotalWithout(c.inUse, k);
      WithoutSubset(c.inUse, k, page);
      DeallocatedConserves(page, c.free, rest, b);
    }
  }

  lemma BackAndForth(free: seq<PageBlock>, rest: seq<PageBlock>, b: PageBlock)
    requires BothApart(rest, [b] + free)
    ensures BothApart(free, [b] + rest)
  {
    assert ([b] + free)[0] == b;
    AllInUseApart(b, free);
    forall j | 0 <= j < |rest| ensures Apart(b, rest[j]) {
      assert Apart(rest[j], ([b] + free)[0]);
    }
    forall j | 0 <= j < |free| ensures Apart(free[j], b) {
      assert Apart(([b] + free)[0], ([b] + free)[j + 1]);
    }
    forall i, j | 0 <= i < |free| && 0 <= j < |[b] + rest| ensures Apart(free[i], ([b] + rest)[j]) {
      assert j > 0 ==> Apart(rest[j - 1], ([b] + free)[i + 1]);
    }
  }

  lemma StepConserves(page: nat, c: Cache, e: Event)
    requires page > 0 && Conserved(page, c) && Honest(page, c, e)
    ensures Conserved(page, Step(page, c, e))
  {
    match e
    case Allocate(size, pages) => AllocateConserves(page, c, size, pages);
    case Extend(k, size, granted) => ExtendConserves(page, c, k, size, granted);
    case Deallocate(k) => DeallocateConserves(page, c, k);
  }

  // ----- whole runs -----

  function RunAll(page: nat, c: Cache, es: seq<Event>): Cache
    requires page > 0
    decreases |es|
  {
    if es == [] then c else RunAll(page, Step(page, c, es[0]), es[1..])
  }

  predicate AllHonest(page: nat, c: Cache, es: seq<Event>)
    requires page > 0
    decreases |es|
  {
    es == [] || (Honest(page, c, es[0]) && AllHonest(page, Step(page, c, es[0]), es[1..]))
  }

  /** Over any run, cached blocks and blocks in use stay disjoint, and the counter is exactly their
      total: what releasing the cached ones leaves is the total of the blocks still in use. */
  lemma {:induction false} EveryRunConserves(page: nat, c: Cache, es: seq<Event>)
    requires page > 0 && Conserved(page, c) && AllHonest(page, c, es)
    ensures Conserved(page, RunAll(page, c, es))
    ensures RunAll(page, c, es).mapped - Total(RunAll(page, c, es).free) == Total(RunAll(page, c, es).inUse)
    decreases |es|
  {
    if es != [] {
      StepConserves(page, c, es[0]);
      EveryRunConserves(page, Step(page, c, es[0]), es[1..]);
    }
  }

  // ----- how far blocks are merged -----

  /** No free block starts where another one ends. */
  predicate FullyMerged(free: seq<PageBlock>) {
    forall i, j :: 0 <= i < |free| && 0 <= j < |free| ==> End(free[i]) != free[j].ptr
  }

  /** Giving a block back keeps the cache fully merged if and only if no free block starts where it
      ends: a block is joined to the one before it, never to the one after it.  (A comment in the
      source says that everything is merged.) */
  lemma MergesOnlyForward(free: seq<PageBlock>, b: PageBlock)
    requires FullyMerged(free) && b.size > 0 && AllApart(free) && ApartFromAll(b, free)
    requires forall i :: 0 <= i < |free| ==> free[i].size > 0
    ensures FullyMerged(Deallocated(free, b)) <==> forall i :: 0 <= i < |free| ==> free[i].ptr != End(b)
  {
    var i := EndingAt(free, b.ptr);
    var free' := Deallocated(free, b);
    if i < |free| {
      assert free'[i] == free[i].(size := free[i].size + b.size) && End(free'[i]) == End(b);
      if j :| 0 <= j < |free| && free[j].ptr == End(b) {
        assert j != i && free'[j] == free[j];
        assert End(free'[i]) == free'[j].ptr;
      } else {
        forall x, y | 0 <= x < |free| && 0 <= y < |free| ensures End(free'[x]) != free'[y].ptr {
          assert free'[y].ptr == free[y].ptr;
          assert x != i ==> End(free[x]) != free[y].ptr;
        }
      }
    } else {
      assert free'[0] == b;
      if j :| 0 <= j < |free| && free[j].ptr == End(b) {
        assert End(free'[0]) == free'[j + 1].ptr;
      } else {
        forall x, y | 0 <= x < |free'| && 0 <= y < |free'| ensures End(free'[x]) != free'[y].ptr {
          assert x > 0 ==> free'[x] == free[x - 1];
          assert y > 0 ==> free'[y] == free[y - 1];
        }
      }
    }
  }

  /** Two neighbouring pages, given back from the upper to the lower one, stay two blocks. */
  lemma NeverJoinedExample()
    ensures var upper, lower := PageBlock(8192, 4096), PageBlock(4096, 4096);
            && FullyMerged([upper]) && AllApart([upper]) && ApartFromAll(lower, [upper])
            && Deallocated([upper], lower) == [lower, upper] && !FullyMerged(Deallocated([upper], lower))
  {
    var upper, lower := PageBlock(8192, 4096), PageBlock(4096, 4096);
    assert Deallocated([upper], lower) == [lower, upper];
    assert End([lower, upper][0]) == [lower, upper][1].ptr;
  }

  // ----- the allocator, changed in place -----

  class PageAllocator {
    var free: seq<PageBlock>
    var mapped: int
    const page: nat

    constructor (page: nat)
      ensures free == [] && mapped == 0 && this.page == page
    {
      this.page, free, mapped := page, [], 0;
    }

    /** The first cached block that is large enough, or `pages` new from the system. */
    method Allocate(size: nat, pages: nat) returns (b: PageBlock)
      requires page > 0
      modifies this
      ensures (b, free, mapped - old(mapped)) == Allocated(old(free), RoundUp(size, page), pages)
    {
      var need := RoundUp(size, page);
      var i := 0;
      while i < |free|
        invariant 0 <= i <= |free| && free == old(free) && mapped == old(mapped)
        invariant FirstFit(free, need) == i + FirstFit(free[i..], need)
      {
        if free[i].size >= need {
          b := free[i];
          free := Without(free, i);
          return;
        }
        assert free[i..][1..] == free[i + 1..];
        i := i + 1;
      }
      mapped := mapped + need;
      b := PageBlock(pages, need);
    }

    /** The size the block could be extended to: 0 if the system refuses. */
    method TryExtend(b: PageBlock, size: nat, granted: bool) returns (r: nat)
      requires page > 0
      modifies this`mapped
      ensures r == if granted then RoundUp(size, page) else 0
      ensures mapped == old(mapped) + if granted then RoundUp(size, page) - b.size else 0
    {
      if !granted {
        return 0;
      }
      mapped := mapped + RoundUp(size, page) - b.size;
      r := RoundUp(size, page);
    }

    method Deallocate(b: PageBlock)
      requires page > 0
      modifies this`free
      ensures free == Deallocated(old(free), b.(size := RoundUp(b.size, page)))
    {
      var whole := b.(size := RoundUp(b.size, page));
      var i := 0;
      while i < |free|
        invariant 0 <= i <= |free| && free == old(free)
        invariant EndingAt(free, whole.ptr) == i + EndingAt(free[i..], whole.ptr)
      {
        if End(free[i]) == whole.ptr {
          free := free[i := free[i].(size := free[i].size + whole.size)];
          return;
        }
        assert free[i..][1..] == free[i + 1..];
        i := i + 1;
      }
      free := [whole] + free;
    }

    /** Every cached block goes back to the system; the result is what is still in use.  The list
        itself is left as it was, so nothing may be allocated afterwards. */
    method Release() returns (left: int)
      modifies this`mapped
      ensures left == mapped == old(mapped) - Total(free)
    {
      var i := 0;
      while i < |free|
        invariant 0 <= i <= |free|
        invariant mapped == old(mapped) - Total(free) + Total(free[i..])
      {
        assert free[i..][0] == free[i] && free[i..][1..] == free[i + 1..];
        mapped := mapped - free[i].size;
        i := i + 1;
      }
      left := mapped;
    }
  }
}
