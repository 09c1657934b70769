// Call frames packed into linked pages.

module CallStacks {
  import opened Words
  import opened Allocations
  import PageCache

  type PageBlock = PageCache.PageBlock

  /** Frames lie in chunks of one page each, behind a header of two words. */
  const PAGE: nat := 4096
  const CHUNK_HEADER: nat := 16
  const FRAME_HEADER: nat := 32

  /** `blockSize` is 0 in a chunk that does not start a block of pages. */
  datatype Chunk = Chunk(ptr: nat, blockSize: nat)

  /** A frame: where it is, how much of it is in use so far, and the most its function uses. */
  datatype Placed = Placed(ptr: nat, next: nat, max: nat)

  // ----- chunks -----

  /** The chunks of a block of pages. */
  function Row(b: PageBlock): (row: seq<Chunk>)
    ensures |row| == b.size / PAGE
  {
    seq(b.size / PAGE, (i: nat) => Chunk(b.ptr + i * PAGE, if i == 0 then b.size else 0))
  }

  function ChunksOf(blocks: seq<PageBlock>): seq<Chunk> {
    if blocks == [] then [] else Row(blocks[0]) + ChunksOf(blocks[1..])
  }

  /** A block the page allocator gives out: whole pages, at the start of one. */
  predicate IsPages(b: PageBlock) {
    b.size >= PAGE && b.size % PAGE == 0 && b.ptr % PAGE == 0
  }

  /** Chunks are different pages. */
  predicate ChunksApart(chunks: seq<Chunk>) {
    (forall i :: 0 <= i < |chunks| ==> chunks[i].ptr % PAGE == 0)
    && forall i, j :: 0 <= i < j < |chunks| ==> chunks[i].ptr != chunks[j].ptr
  }

  predicate BlockApart(chunks: seq<Chunk>, b: PageBlock) {
    forall i :: 0 <= i < |chunks| ==> chunks[i].ptr + PAGE <= b.ptr || b.ptr + b.size <= chunks[i].ptr
  }

  lemma RowApart(chunks: seq<Chunk>, b: PageBlock)
    requires ChunksApart(chunks) && BlockApart(chunks, b) && IsPages(b)
    ensures ChunksApart(chunks + Row(b))
  {
    var all := chunks + Row(b);
    forall i | 0 <= i < |all| ensures all[i].ptr % PAGE == 0 {
      if i >= |chunks| {
        assert all[i].ptr == b.ptr + (i - |chunks|) * PAGE;
      }
    }
    forall i, j | 0 <= i < j < |all| ensures all[i].ptr != all[j].ptr {
      if j >= |chunks| {
        assert all[j].ptr == b.ptr + (j - |chunks|) * PAGE && (j - |chunks|) * PAGE + PAGE <= b.size;
        if i >= |chunks| {
          assert all[i].ptr == b.ptr + (i - |chunks|) * PAGE;
        } else {
          assert all[i] == chunks[i];
        }
      }
    }
  }

  lemma {:induction false} ChunksOfAppend(blocks: seq<PageBlock>, b: PageBlock)
    ensures ChunksOf(blocks + [b]) == ChunksOf(blocks) + Row(b)
  {
    if blocks == [] {
      assert ([] + [b])[1..] == [] && [b] == [] + [b];
      assert ChunksOf([b]) == Row(b) + [];
    } else {
      assert (blocks + [b])[1..] == blocks[1..] + [b];
      ChunksOfAppend(blocks[1..], b);
    }
  }

  /** The chunks of a list of blocks start with the first block's, and only its first tells its size. */
  lemma BlockStarts(blocks: seq<PageBlock>)
    requires blocks != [] && IsPages(blocks[0])
    ensures Row(blocks[0]) != [] && ChunksOf(blocks) == Row(blocks[0]) + ChunksOf(blocks[1..])
    ensures ChunksOf(blocks)[0] == Chunk(blocks[0].ptr, blocks[0].size) && blocks[0].size > 0
  {
  }

  // ----- frames -----

  /** `page_of`: the chunk an address lies in. */
  function PageOf(ptr: nat): nat { ptr - ptr % PAGE }

  /** Where a new frame of at most `max` bytes goes above `top`, which lies in chunk `at`: right
      after it, at the start of the next chunk, or nowhere yet.  What `top` uses is counted twice, so
      a frame may move on although it would fit. */
  function NewFrame(chunks: seq<Chunk>, at: nat, top: Placed, max: nat): Option<nat>
    requires at < |chunks|
  {
    if top.next + max > chunks[at].ptr + PAGE - (top.ptr + top.next) then
      if at + 1 == |chunks| then None else Some(chunks[at + 1].ptr + CHUNK_HEADER)
    else Some(top.ptr + top.next)
  }

  predicate InChunk(c: Chunk, f: Placed) {
    c.ptr + CHUNK_HEADER <= f.ptr && f.ptr + f.max <= c.ptr + PAGE && FRAME_HEADER <= f.next <= f.max
  }

  /** The stack: blocks of pages with their chunks, frames from the outermost on, and the chunk each
      frame is in. */
  datatype Stack = Stack(blocks: seq<PageBlock>, chunks: seq<Chunk>, frames: seq<Placed>, at: seq<nat>)

  predicate Follows(s: Stack, k: nat)
    requires k + 1 < |s.frames| == |s.at|
  {
    s.at[k] <= s.at[k + 1] && (s.at[k] == s.at[k + 1] ==> s.frames[k].ptr + s.frames[k].next <= s.frames[k + 1].ptr)
  }

  /** Every frame is in one chunk, with room for all it may use, and frames go up chunk by chunk. */
  predicate Packed(s: Stack) {
    && s.chunks == ChunksOf(s.blocks) && ChunksApart(s.chunks)
    && (forall i :: 0 <= i < |s.blocks| ==> IsPages(s.blocks[i]))
    && |s.at| == |s.frames| > 0
    && (forall k :: 0 <= k < |s.frames| ==> s.at[k] < |s.chunks| && InChunk(s.chunks[s.at[k]], s.frames[k]))
    && (forall k :: 0 <= k < |s.frames| - 1 ==> Follows(s, k))
  }

  datatype Event = Call(max: nat) | Use(n: nat) | Return | Grow(b: PageBlock)

  /** There is a top frame, and its chunk. */
  predicate Shaped(s: Stack) {
    |s.at| == |s.frames| > 0 && s.at[|s.frames| - 1] < |s.chunks|
  }

  function Top(s: Stack): (top: nat)
    requires Shaped(s)
    ensures top + 1 == |s.frames|
  {
    |s.frames| - 1
  }

  /** A call without room for its frame changes nothing: the stack grows and the call is tried again. */
  function Step(s: Stack, e: Event): Stack
    requires Shaped(s)
  {
    var top := Top(s);
    match e
    case Call(max) =>
      (match NewFrame(s.chunks, s.at[top], s.frames[top], max)
       case None => s
       case Some(ptr) =>
         var at := if ptr == s.frames[top].ptr + s.frames[top].next then s.at[top] else s.at[top] + 1;
         s.(frames := s.frames + [Placed(ptr, FRAME_HEADER, max)], at := s.at + [at]))
    case Use(n) => s.(frames := s.frames[top := s.frames[top].(next := s.frames[top].next + n)])
    case Return => s.(frames := s.frames[..top], at := s.at[..top])
    case Grow(b) => s.(blocks := s.blocks + [b], chunks := s.chunks + Row(b))
  }

  /** A callee fits a chunk, a frame uses no more than its function's maximum, the trampoline's frame
      is never left, and new pages are whole pages that belong to nobody else. */
  predicate Allowed(s: Stack, e: Event)
    requires Shaped(s)
  {
    match e
    case Call(max) => FRAME_HEADER <= max <= PAGE - CHUNK_HEADER
    case Use(n) => s.frames[Top(s)].next + n <= s.frames[Top(s)].max
    case Return => |s.frames| > 1
    case Grow(b) => IsPages(b) && BlockApart(s.chunks, b)
  }

  lemma CallPacks(s: Stack, max: nat)
    requires Packed(s) && Allowed(s, Call(max))
    ensures Packed(Step(s, Call(max)))
  {
    var top := Top(s);
    var f, c := s.frames[top], s.chunks[s.at[top]];
    assert InChunk(c, f);
    var s' := Step(s, Call(max));
    if s' != s {
      if s.at[top] + 1 < |s.chunks| {
        NextChunkIsElsewhere(s);
      }
      forall k | 0 <= k < |s'.frames| - 1 ensures Follows(s', k) {
        if k < top {
          assert Follows(s, k);
        }
      }
    }
  }

  /** The start of the next chunk is not where the top frame ends. */
  lemma NextChunkIsElsewhere(s: Stack)
    requires Packed(s) && s.at[Top(s)] + 1 < |s.chunks|
    ensures var f := s.frames[Top(s)]; f.ptr + f.next != s.chunks[s.at[Top(s)] + 1].ptr + CHUNK_HEADER
  {
    var f, i := s.frames[Top(s)], s.at[Top(s)];
    assert InChunk(s.chunks[i], f);
    assert s.chunks[i].ptr != s.chunks[i + 1].ptr;
    SamePage(s.chunks[i].ptr, s.chunks[i + 1].ptr);
  }

  lemma SamePage(a: nat, b: nat)
    requires a % PAGE == 0 && b % PAGE == 0 && a != b
    ensures a + PAGE <= b || b + PAGE <= a
  {
  }

  lemma StepPacks(s: Stack, e: Event)
    requires Packed(s) && Allowed(s, e)
    ensures Packed(Step(s, e))
  {
    match e {
      case Call(max) => CallPacks(s, max);
      case Use(n) =>
        var s' := Step(s, e);
        forall k | 0 <= k < |s.frames| - 1 ensures Follows(s', k) {
          assert Follows(s, k);
        }
      case Return =>
        var s' := Step(s, e);
        forall k | 0 <= k < |s'.frames| - 1 ensures Follows(s', k) {
          assert Follows(s, k);
        }
      case Grow(b) =>
        RowApart(s.chunks, b);
        ChunksOfAppend(s.blocks, b);
        var s' := Step(s, e);
        forall k | 0 <= k < |s.frames| - 1 ensures Follows(s', k) {
          assert Follows(s, k);
        }
    }
  }

  // ----- whole runs -----

  ghost predicate AllAllowed(s: Stack, es: seq<Event>)
    decreases |es|
  {
    es == [] || (Shaped(s) && Allowed(s, es[0]) && AllAllowed(Step(s, es[0]), es[1..]))
  }

  ghost function RunAll(s: Stack, es: seq<Event>): Stack
    requires AllAllowed(s, es)
    decreases |es|
  {
    if es == [] then s else RunAll(Step(s, es[0]), es[1..])
  }

  /** Over any run of calls, returns and growth the frames stay packed. */
  lemma {:induction false} EveryRunPacks(s: Stack, es: seq<Event>)
    requires Packed(s) && AllAllowed(s, es)
    ensures Packed(RunAll(s, es))
    decreases |es|
  {
    if es != [] {
      StepPacks(s, es[0]);
      EveryRunPacks(Step(s, es[0]), es[1..]);
    }
  }

  // ----- what packing means -----

  /** The chunk of a frame can be found from its address alone. */
  lemma PageOfFrame(s: Stack, k: nat)
    requires Packed(s) && k < |s.frames|
    ensures PageOf(s.frames[k].ptr) == s.chunks[s.at[k]].ptr
    ensures forall i :: 0 <= i < |s.chunks| && s.chunks[i].ptr == PageOf(s.frames[k].ptr) ==> i == s.at[k]
  {
    assert InChunk(s.chunks[s.at[k]], s.frames[k]);
  }

  lemma {:induction false} Ordered(s: Stack, j: nat, k: nat)
    requires Packed(s) && j < k < |s.frames|
    ensures s.at[j] <= s.at[k]
    ensures s.at[j] == s.at[k] ==> s.frames[j].ptr + s.frames[j].next <= s.frames[k].ptr
  {
    assert Follows(s, k - 1) && InChunk(s.chunks[s.at[k - 1]], s.frames[k - 1]);
    if j < k - 1 {
      Ordered(s, j, k - 1);
    }
  }

  /** The bytes a frame may touch: all its function may use for the innermost one, what it uses so far
      for one that waits for a call. */
  function Extent(s: Stack, k: nat): nat
    requires k < |s.frames|
  {
    if k + 1 == |s.frames| then s.frames[k].max else s.frames[k].next
  }

  /** Frames lie in increasing chunks, each in a single page, and no two overlap. */
  lemma FramesAreDisjoint(s: Stack, j: nat, k: nat)
    requires Packed(s) && j < k < |s.frames|
    ensures s.at[j] <= s.at[k]
    ensures var f, g := s.frames[j], s.frames[k];
            f.ptr + Extent(s, j) <= g.ptr || g.ptr + Extent(s, k) <= f.ptr
    ensures PageOf(s.frames[k].ptr) == PageOf(s.frames[k].ptr + Extent(s, k) - 1)
  {
    Ordered(s, j, k);
    var a, b := s.chunks[s.at[j]], s.chunks[s.at[k]];
    assert InChunk(a, s.frames[j]) && InChunk(b, s.frames[k]);
    PageOfFrame(s, k);
    if s.at[j] != s.at[k] {
      SamePage(a.ptr, b.ptr);
    }
  }

  /** The grown stack takes the call that it grew for. */
  lemma GrownTakesTheCall(s: Stack, max: nat, b: PageBlock)
    requires Packed(s) && Allowed(s, Call(max)) && Allowed(s, Grow(b))
    requires NewFrame(s.chunks, s.at[Top(s)], s.frames[Top(s)], max) == None
    ensures var s' := Step(s, Grow(b));
            Packed(s') && NewFrame(s'.chunks, s'.at[Top(s')], s'.frames[Top(s')], max) == Some(b.ptr + CHUNK_HEADER)
  {
    StepPacks(s, Grow(b));
    var s' := Step(s, Grow(b));
    assert s'.chunks[|s.chunks|] == Row(b)[0];
    assert s'.chunks[|s.chunks| - 1] == s.chunks[|s.chunks| - 1];
  }

  // ----- the stack, changed in place -----

  class CallStack {
    var chunks: seq<Chunk>
    var frames: seq<Placed>
    var capacity: nat
    ghost var blocks: seq<PageBlock>
    ghost var at: seq<nat>

    ghost function View(): Stack
      reads this
    {
      Stack(blocks, chunks, frames, at)
    }

    /** The pages of a block, linked up. */
    static method LinkPages(b: PageBlock) returns (row: seq<Chunk>)
      requires IsPages(b)
      ensures row == Row(b)
    {
      row := [Chunk(b.ptr, b.size)];
      var i := PAGE;
      while i < b.size
        invariant PAGE <= i <= b.size && i % PAGE == 0 && |row| == i / PAGE
        invariant row == Row(b)[..|row|]
      {
        row := row + [Chunk(b.ptr + i, 0)];
        i := i + PAGE;
      }
    }

    /** The stack of a new fiber, which puts its trampoline's frame at `base`. */
    constructor (b: PageBlock, initial: nat, base: Placed)
      requires IsPages(b) && InChunk(Chunk(b.ptr, b.size), base)
      ensures Packed(View()) && blocks == [b] && frames == [base] && capacity == initial
    {
      chunks, frames, capacity := Row(b), [base], initial;
      blocks, at := [b], [0];
      new;
      RowApart([], b);
      assert [] + Row(b) == Row(b);
      ChunksOfAppend([], b);
      assert [] + [b] == [b];
    }

    /** The place of a chunk in the list. */
    method ChunkOf(ptr: nat) returns (i: nat)
      requires exists j :: 0 <= j < |chunks| && chunks[j].ptr == PageOf(ptr)
      ensures i < |chunks| && chunks[i].ptr == PageOf(ptr)
    {
      i := 0;
      while chunks[i].ptr != PageOf(ptr)
        invariant 0 <= i < |chunks| && forall j :: 0 <= j < i ==> chunks[j].ptr != PageOf(ptr)
        decreases |chunks| - i
      {
        i := i + 1;
      }
    }

    method NewCallFrame(max: nat) returns (ok: bool)
      requires Packed(View()) && Allowed(View(), Call(max))
      modifies this
      ensures View() == Step(old(View()), Call(max)) && Packed(View())
      ensures ok == (View() != old(View()))
    {
      StepPacks(View(), Call(max));
      ghost var k := |frames| - 1;
      var top := frames[|frames| - 1];
      PageOfFrame(View(), k);
      assert chunks[at[k]].ptr == PageOf(top.ptr);
      var i := ChunkOf(top.ptr);
      var next := top.ptr + top.next;
      ghost var chunk := i;
      if top.next + max > chunks[i].ptr + PAGE - next {
        if i + 1 == |chunks| {
          return false;
        }
        NextChunkIsElsewhere(View());
        next := chunks[i + 1].ptr + CHUNK_HEADER;
        chunk := i + 1;
      }
      frames := frames + [Placed(next, FRAME_HEADER, max)];
      at := at + [chunk];
      ok := true;
    }

    method ReturnFrame()
      requires Packed(View()) && |frames| > 1
      modifies this
      ensures View() == Step(old(View()), Return) && Packed(View())
    {
      StepPacks(View(), Return);
      frames := frames[..|frames| - 1];
      at := at[..|at| - 1];
    }

    /** `grow`, with the block the page allocator gave. */
    method Grow(b: PageBlock)
      requires Packed(View()) && Allowed(View(), Event.Grow(b))
      modifies this
      ensures View() == Step(old(View()), Event.Grow(b)) && Packed(View()) && capacity == old(capacity) + PAGE
    {
      StepPacks(View(), Event.Grow(b));
      var row := LinkPages(b);
      chunks := chunks + row;
      blocks := blocks + [b];
      capacity := capacity + PAGE;
    }

    /** `clear`: every block of pages goes back, once, whatever chunks it holds. */
    method Clear() returns (given: seq<PageBlock>)
      requires Packed(View())
      modifies this`chunks
      ensures given == blocks && chunks == []
    {
      given := [];
      var cur := 0;
      while cur < |chunks|
        invariant 0 <= |given| <= |blocks| && given == blocks[..|given|]
        invariant chunks == old(chunks)
        invariant cur <= |chunks| && chunks[cur..] == ChunksOf(blocks[|given|..])
        decreases |chunks| - cur
      {
        ghost var rest := blocks[|given|..];
        ghost var end := cur + |Row(rest[0])|;
        BlockStarts(rest);
        assert forall i :: cur <= i < |chunks| ==> chunks[i] == ChunksOf(rest)[i - cur];
        assert chunks[end..] == ChunksOf(rest[1..]);
        assert forall i :: cur < i < end ==> chunks[i].blockSize == 0;
        if rest[1..] != [] {
          BlockStarts(rest[1..]);
          assert chunks[end] == chunks[end..][0];
        }
        given := given + [PageCache.PageBlock(chunks[cur].ptr, chunks[cur].blockSize)];
        assert blocks[|given|..] == rest[1..];
        var next := cur + 1;
        while next < |chunks| && chunks[next].blockSize == 0
          invariant cur < next <= end <= |chunks|
        {
          next := next + 1;
        }
        cur := next;
      }
      chunks := [];
    }
  }
}
