// The table of allocations of a process, changed in place.

module SlotTables {
  import opened Words
  import opened Allocations
  import opened Bytecode
  import opened Vm
  import opened Blocks
  import opened Collector
  import opened Pieces
  import opened Ledgers

  class SlotTable {
    var allocations: seq<Allocation>
    var generation: U8

    constructor ()
      ensures allocations == [] && generation == 0
    {
      allocations, generation := [], 0;
    }

    /** The table as a value; `cells` is the native memory, which the table only points into. */
    function View(cells: map<Word, Word>): Memory
      reads this
    {
      Memory(allocations, generation, cells)
    }

    // ----- slots -----

    method NewAllocation(a: Allocation) returns (addr: Word)
      modifies this`allocations
      ensures allocations == old(allocations) + [a]
      ensures addr == MakeAddress(|old(allocations)|, a.generation, 0)
      ensures |old(allocations)| < TWO_30 ==>
                TryGet(allocations, addr) == Some(|old(allocations)|) && AddressOffset(addr) == 0
    {
      var index := |allocations|;
      allocations := allocations + [a];
      addr := MakeAddress(index, a.generation, 0);
      if index < TWO_30 {
        AddressRoundTrip(index, a.generation, 0);
      }
    }

    /** Freed slots are popped from the end, and the generation goes up if there were any. */
    method RemoveFreed()
      modifies this
      ensures View(map[]) == Blocks.RemoveFreed(old(View(map[])))
    {
      if allocations == [] || allocations[|allocations| - 1].status != Freed {
        return;
      }
      while allocations != [] && allocations[|allocations| - 1].status == Freed
        invariant allocations <= old(allocations)
        invariant DropFreed(allocations) == DropFreed(old(allocations))
        invariant generation == old(generation)
        decreases |allocations|
      {
        allocations := allocations[..|allocations| - 1];
      }
      generation := (generation + 1) % 0x100;
    }

    method PoisonAllocation(addr: Word) returns (ok: bool)
      modifies this`allocations
      ensures ok <==> Poisoned(old(allocations), addr).Some?
      ensures allocations == if ok then Poisoned(old(allocations), addr).value else old(allocations)
    {
      match TryGet(allocations, addr) {
        case None => ok := false;
        case Some(i) =>
          ok := allocations[i].status == Allocated;
          if ok { allocations := allocations[i := allocations[i].(status := Poison)]; }
      }
    }

    method UnpoisonAllocation(addr: Word) returns (ok: bool)
      modifies this`allocations
      ensures ok <==> Unpoisoned(old(allocations), addr).Some?
      ensures allocations == if ok then Unpoisoned(old(allocations), addr).value else old(allocations)
    {
      match TryGet(allocations, addr) {
        case None => ok := false;
        case Some(i) =>
          ok := allocations[i].source != FiberMemory && allocations[i].status == Poison;
          if ok { allocations := allocations[i := allocations[i].(status := Allocated)]; }
      }
    }

    method SplitUp(addr: Word) returns (ok: bool, addr1: Word, addr2: Word)
      modifies this`allocations
      ensures ok <==> SplitAllocation(old(allocations), addr).Some?
      ensures allocations == if ok then SplitAllocation(old(allocations), addr).value else old(allocations)
      ensures ok ==> addr1 == MakeAddress(TryGet(old(allocations), addr).value, AddressGeneration(addr), 0)
      ensures ok ==> addr2 == MakeAddress(|old(allocations)|, allocations[|old(allocations)|].generation, 0)
    {
      addr1, addr2 := 0, 0;
      match TryGet(allocations, addr) {
        case None => ok := false;
        case Some(i) =>
          var a, offset := allocations[i], AddressOffset(addr);
          ok := a.status == Allocated && offset < a.size;
          if ok {
            addr2 := NewAllocation(a.(ptr := Wrap(a.ptr + offset), size := a.size - offset,
                                      split := if EndsBlock(a.split) then SplitLast else SplitMiddle));
            var split := if StartsBlock(a.split) then SplitFirst else SplitMiddle;
            allocations := allocations[i := a.(size := offset, split := split)];
            addr1 := MakeAddress(i, AddressGeneration(addr), 0);
          }
      }
    }

    method MergeUp(addr1: Word, addr2: Word) returns (ok: bool)
      modifies this`allocations
      ensures ok <==> MergeAllocation(old(allocations), addr1, addr2).Some?
      ensures allocations == if ok then MergeAllocation(old(allocations), addr1, addr2).value else old(allocations)
    {
      var first, second := TryGet(allocations, addr1), TryGet(allocations, addr2);
      if first.None? || second.None? || !CanMerge(allocations[first.value], allocations[second.value]) {
        return false;
      }
      var i, j := first.value, second.value;
      var last := allocations[j].split == SplitLast;
      var split :=
        if !last then allocations[i].split else if allocations[i].split == SplitFirst then Unsplit else SplitLast;
      var size := (allocations[i].size + allocations[j].size) % 0x1_0000_0000;
      allocations := allocations[i := allocations[i].(size := size)];
      allocations := allocations[i := allocations[i].(split := split)];
      allocations := allocations[j := allocations[j].(status := Freed)];
      ok := true;
    }

    method DeclareReachable(addr: Word, explicit: bool) returns (ok: bool)
      modifies this`allocations
      ensures ok <==> DeclaredReachable(old(allocations), addr, explicit).Some?
      ensures allocations == if ok then DeclaredReachable(old(allocations), addr, explicit).value else old(allocations)
    {
      match TryGet(allocations, addr) {
        case None => ok := false;
        case Some(i) =>
          ok := allocations[i].source == HeapMemory;
          if ok {
            var gc := if explicit then ReachableExplicit else Unreachable;
            allocations := allocations[i := allocations[i].(gc := gc)];
          }
      }
    }

    method DeclareWeak(addr: Word, weak: bool) returns (ok: bool)
      modifies this`allocations
      ensures ok <==> DeclaredWeak(old(allocations), addr, weak).Some?
      ensures allocations == if ok then DeclaredWeak(old(allocations), addr, weak).value else old(allocations)
    {
      match TryGet(allocations, addr) {
        case None => ok := false;
        case Some(i) =>
          allocations := allocations[i := allocations[i].(weak := weak)];
          ok := true;
      }
    }

    // ----- the heap -----

    /** `heap.alloc`, once the host has given `size` bytes at `ptr`. */
    method HeapAlloc(ptr: Word, size: nat) returns (addr: Word)
      modifies this`allocations
      ensures allocations == old(allocations) + [MakeHeapAlloc(ptr, size, generation)]
      ensures addr == MakeAddress(|old(allocations)|, generation, 0)
    {
      addr := NewAllocation(MakeHeapAlloc(ptr, size, generation));
    }

    /** `heap.free`: the block to give back to the host, or `None` for a panic. */
    method HeapFree(addr: Word) returns (block: Option<Word>)
      modifies this`allocations
      ensures block.Some? <==> Leaked(old(allocations), addr).Some?
      ensures block.Some? ==> allocations == Leaked(old(allocations), addr).value
                              && block.value == old(allocations)[TryGet(old(allocations), addr).value].ptr
      ensures block.None? ==> allocations == old(allocations)
    {
      match TryGet(allocations, addr) {
        case None => block := None;
        case Some(i) =>
          if allocations[i].status == Freed || allocations[i].source != HeapMemory || allocations[i].split != Unsplit {
            block := None;
          } else {
            block := Some(allocations[i].ptr);
            allocations := allocations[i := allocations[i].(status := Freed)];
          }
      }
    }

    /** `do_cleanup`: the blocks given back at the end of the process. */
    method CleanUp() returns (blocks: seq<Word>)
      modifies this`allocations
      ensures blocks == CleanedUp(old(allocations), |old(allocations)|)
      ensures allocations == []
    {
      blocks := [];
      var i := 0;
      while i < |allocations|
        invariant 0 <= i <= |allocations|
        invariant |allocations| == |old(allocations)|
        invariant allocations[i..] == old(allocations)[i..]
        invariant blocks == CleanedUp(old(allocations), i)
      {
        var a := allocations[i];
        assert a == old(allocations)[i..][0];
        if a.status != Freed {
          if a.source == HeapMemory {
            if a.split == Unsplit {
              blocks := blocks + [a.ptr];
            } else if a.split == SplitFirst {
              blocks := blocks + [a.ptr];
            }
          } else if a.source == FiberMemory {
            allocations := allocations[i := a.(status := Freed)];
          }
        }
        i := i + 1;
      }
      allocations := [];
    }

    // ----- collection -----

    method MarkReachable(j: nat, pending: seq<nat>) returns (pending': seq<nat>)
      requires j < |allocations|
      modifies this`allocations
      ensures Progress(old(allocations), pending, allocations, pending')
      ensures Live(old(allocations)[j]) ==> allocations[j].gc != Unreachable
      ensures forall i :: 0 <= i < |allocations| && i != j ==> allocations[i] == old(allocations)[i]
    {
      NoProgress(allocations, pending);
      pending' := pending;
      if allocations[j].status != Freed && allocations[j].gc == Unreachable {
        MarkProgress(allocations, pending, j);
        allocations := allocations[j := allocations[j].(gc := Reachable)];
        pending' := pending' + [j];
      }
    }

    /** One word, taken for an address. */
    method MarkWord(w: Word, pending: seq<nat>) returns (pending': seq<nat>)
      modifies this`allocations
      ensures Progress(old(allocations), pending, allocations, pending')
      ensures WordMarked(old(allocations), w, allocations)
      ensures forall i :: 0 <= i < |allocations| && allocations[i] != old(allocations)[i] ==>
                Names(old(allocations), w, i)
    {
      NoProgress(allocations, pending);
      pending' := pending;
      match TryGet(allocations, w) {
        case None =>
        case Some(j) =>
          if AddressOffset(w) <= allocations[j].size {
            pending' := MarkReachable(j, pending);
          }
      }
    }

    /** `process_reachable_memory`. */
    method ScanMemory(cells: map<Word, Word>, a: Allocation, pending: seq<nat>) returns (pending': seq<nat>)
      modifies this`allocations
      ensures Progress(old(allocations), pending, allocations, pending')
      ensures Scanned(old(allocations), cells, a, allocations)
      ensures forall i :: 0 <= i < |allocations| && allocations[i] != old(allocations)[i]
                ==> PointsTo(old(allocations), cells, a, i)
    {
      NoProgress(allocations, pending);
      pending' := pending;
      if a.size < 8 || a.weak {
        return;
      }
      var k := 0;
      while k < WordCount(a)
        invariant 0 <= k <= WordCount(a)
        invariant Progress(old(allocations), pending, allocations, pending')
        invariant PartlyScanned(old(allocations), cells, a, k, allocations)
      {
        ghost var before, pendingBefore := allocations, pending';
        pending' := MarkWord(WordAt(cells, a, k), pending');
        WordStep(old(allocations), pending, before, pendingBefore, allocations, pending', WordAt(cells, a, k));
        ScanStep(old(allocations), cells, a, k, before, allocations);
        k := k + 1;
      }
    }

    method ScanStack(f: FiberRoots, pending: seq<nat>) returns (pending': seq<nat>)
      modifies this`allocations
      ensures Progress(old(allocations), pending, allocations, pending')
      ensures forall k :: 0 <= k < |f.stack| ==> WordMarked(old(allocations), f.stack[k], allocations)
      ensures forall i :: 0 <= i < |allocations| && allocations[i] != old(allocations)[i]
                ==> NamedByStack(old(allocations), f, i)
    {
      NoProgress(allocations, pending);
      pending' := pending;
      var k := 0;
      while k < |f.stack|
        invariant 0 <= k <= |f.stack|
        invariant Progress(old(allocations), pending, allocations, pending')
        invariant forall k' :: 0 <= k' < k ==> WordMarked(old(allocations), f.stack[k'], allocations)
        invariant forall i :: 0 <= i < |allocations| && allocations[i] != old(allocations)[i]
                    ==> NamedByStack(old(allocations), f, i)
      {
        ghost var before, pendingBefore := allocations, pending';
        pending' := MarkWord(f.stack[k], pending');
        WordStep(old(allocations), pending, before, pendingBefore, allocations, pending', f.stack[k]);
        k := k + 1;
      }
    }

    method ScanFrames(cells: map<Word, Word>, f: FiberRoots, pending: seq<nat>) returns (pending': seq<nat>)
      modifies this`allocations
      ensures Progress(old(allocations), pending, allocations, pending')
      ensures forall k :: 0 <= k < |f.frames| ==> Scanned(old(allocations), cells, FrameAlloc(f.frames[k]), allocations)
      ensures forall i :: 0 <= i < |allocations| && allocations[i] != old(allocations)[i]
                ==> NamedByFrame(old(allocations), cells, f, i)
    {
      NoProgress(allocations, pending);
      pending' := pending;
      var k := 0;
      while k < |f.frames|
        invariant 0 <= k <= |f.frames|
        invariant Progress(old(allocations), pending, allocations, pending')
        invariant forall k' :: 0 <= k' < k ==> Scanned(old(allocations), cells, FrameAlloc(f.frames[k']), allocations)
        invariant forall i :: 0 <= i < |allocations| && allocations[i] != old(allocations)[i]
                    ==> NamedByFrame(old(allocations), cells, f, i)
      {
        ghost var before, pendingBefore := allocations, pending';
        pending' := ScanMemory(cells, FrameAlloc(f.frames[k]), pending');
        MemoryStep(old(allocations), pending, before, pendingBefore, allocations, pending', cells,
                   FrameAlloc(f.frames[k]));
        k := k + 1;
      }
    }

    method ScanFiber(cells: map<Word, Word>, f: FiberRoots, pending: seq<nat>) returns (pending': seq<nat>)
      modifies this`allocations
      ensures Progress(old(allocations), pending, allocations, pending')
      ensures FiberMarked(old(allocations), cells, f, allocations)
      ensures forall i :: 0 <= i < |allocations| && allocations[i] != old(allocations)[i]
                ==> NamedByStack(old(allocations), f, i) || NamedByFrame(old(allocations), cells, f, i)
    {
      var p := ScanStack(f, pending);
      ghost var middle := allocations;
      pending' := ScanFrames(cells, f, p);
      FiberStep(old(allocations), pending, middle, p, allocations, pending', cells, f);
    }

    /** The current fiber, and what the stacks of all fibers name. */
    method MarkFibers(roots: Roots) returns (pending: seq<nat>)
      requires roots.current < |allocations|
      modifies this`allocations
      ensures Progress(old(allocations), [], allocations, pending)
      ensures NamedMarked(old(allocations), roots, |roots.fibers|, allocations)
      ensures Justified(old(allocations), roots, allocations)
    {
      ghost var t0 := allocations;
      pending := MarkReachable(roots.current, []);
      CurrentIsJustified(t0, roots, allocations);
      var f := 0;
      while f < |roots.fibers|
        invariant 0 <= f <= |roots.fibers|
        invariant Progress(t0, [], allocations, pending)
        invariant NamedMarked(t0, roots, f, allocations)
        invariant Justified(t0, roots, allocations)
      {
        ghost var before, pendingBefore := allocations, pending;
        pending := ScanFiber(roots.cells, roots.fibers[f], pending);
        NextFiber(t0, roots, f, before, pendingBefore, allocations, pending);
        f := f + 1;
      }
    }

    /** What explicitly reachable allocations point to. */
    method MarkExplicit(ghost t0: seq<Allocation>, roots: Roots, pending: seq<nat>) returns (pending': seq<nat>)
      requires NoMarks(t0) && Progress(t0, [], allocations, pending) && Justified(t0, roots, allocations)
      modifies this`allocations
      ensures Progress(t0, [], allocations, pending') && MarksStay(old(allocations), allocations)
      ensures ExplicitScanned(t0, roots, |t0|, allocations)
      ensures Justified(t0, roots, allocations)
    {
      pending' := pending;
      var i := 0;
      while i < |allocations|
        invariant 0 <= i <= |allocations|
        invariant Progress(t0, [], allocations, pending') && MarksStay(old(allocations), allocations)
        invariant ExplicitScanned(t0, roots, i, allocations)
        invariant Justified(t0, roots, allocations)
      {
        assert allocations[i].(gc := t0[i].gc) == t0[i];
        ghost var before, pendingBefore := allocations, pending';
        if allocations[i].gc == ReachableExplicit && allocations[i].status != Freed {
          RootIsTraced(t0, roots, i);
          pending' := ScanMemory(roots.cells, allocations[i], pending');
          NextScanned(t0, roots, i, before, pendingBefore, allocations, pending');
          ProgressTrans(t0, [], before, pendingBefore, allocations, pending');
        }
        NextExplicit(t0, roots, i, before, allocations);
        i := i + 1;
      }
    }

    /** The worklist: the memory of everything pending is looked at.  It ends because each slot is
        pushed at most once. */
    method FollowPending(ghost t0: seq<Allocation>, roots: Roots, start: seq<nat>)
      requires NoMarks(t0) && Progress(t0, [], allocations, start)
      requires RootsMarked(t0, roots, allocations) && Justified(t0, roots, allocations)
      modifies this`allocations
      ensures MarkedFrom(t0, allocations) && RootsMarked(t0, roots, allocations) && Sound(t0, roots, allocations)
      ensures ScannedBut(t0, roots, allocations, [])
    {
      var pending := start;
      StartIsPending(t0, roots, allocations, pending);
      while pending != []
        invariant Working(t0, roots, allocations, pending)
        decreases Unmarked(allocations) + |pending|
      {
        var i, rest := pending[|pending| - 1], pending[..|pending| - 1];
        ghost var before := allocations;
        pending := ScanMemory(roots.cells, allocations[i], rest);
        NextScanned(t0, roots, i, before, rest, allocations, pending);
        KeepsWorking(t0, roots, i, before, rest, allocations, pending);
      }
    }

    /** Unmarked heap allocations go back to the host, unmarked fibers are destroyed, and the marks
        are taken away again. */
    method Sweep(ghost t0: seq<Allocation>, ghost roots: Roots) returns (bytes: nat, blocks: seq<Word>)
      requires MarkedFrom(t0, allocations) && RootsMarked(t0, roots, allocations) && Sound(t0, roots, allocations)
      requires ScannedBut(t0, roots, allocations, [])
      modifies this`allocations
      ensures |allocations| == |t0|
      ensures forall j :: 0 <= j < |t0| ==> allocations[j] == Swept(t0, roots, j)
      ensures bytes == FreedBytes(t0, allocations, |t0|)
      ensures blocks == FreedBlocks(t0, allocations, |t0|)
    {
      ghost var marked := allocations;
      bytes, blocks := 0, [];
      var i := 0;
      while i < |allocations|
        invariant 0 <= i <= |allocations| == |t0|
        invariant forall j :: 0 <= j < i ==> allocations[j] == Swept(t0, roots, j)
        invariant forall j :: i <= j < |t0| ==> allocations[j] == marked[j]
        invariant bytes == FreedBytes(t0, allocations, i)
        invariant blocks == FreedBlocks(t0, allocations, i)
      {
        var a := allocations[i];
        ghost var before := allocations;
        SweptFromMark(t0, roots, marked, i);
        if a.source == HeapMemory && a.status != Freed && a.split == Unsplit && a.gc == Unreachable {
          bytes, blocks := bytes + a.size, blocks + [a.ptr];
          a := a.(status := Freed);
        } else if a.source == FiberMemory && a.status != Freed && a.gc == Unreachable {
          a := a.(status := Freed);
        }
        if a.gc != ReachableExplicit {
          a := a.(gc := Unreachable);
        }
        allocations := allocations[i := a];
        assert before[..i] == allocations[..i];
        FreedPrefix(t0, before, allocations, i);
        i := i + 1;
      }
    }

    /** `lauf_runtime_gc`: exactly the unreachable unsplit heap allocations and the unreachable fibers
        are freed, nothing else changes, and the bytes freed are returned. */
    method Collect(roots: Roots) returns (bytes: nat, blocks: seq<Word>)
      requires roots.current < |allocations| && NoMarks(allocations)
      modifies this`allocations
      ensures |allocations| == |old(allocations)| && NoMarks(allocations)
      ensures forall j :: 0 <= j < |allocations| ==> allocations[j] == Swept(old(allocations), roots, j)
      ensures bytes == FreedBytes(old(allocations), allocations, |allocations|)
      ensures blocks == FreedBlocks(old(allocations), allocations, |allocations|)
    {
      ghost var t0 := allocations;
      var pending := MarkFibers(roots);
      ghost var named := allocations;
      ProgressStays(t0, [], named, pending);
      pending := MarkExplicit(t0, roots, pending);
      RootsAreMarked(t0, roots, named, allocations);
      FollowPending(t0, roots, pending);
      bytes, blocks := Sweep(t0, roots);
    }
  }

  // ----- what the marks of one step are against the table the collection started with -----

  /** What one more word adds to the marks made since `t0`. */
  lemma WordStep(t0: seq<Allocation>, p0: seq<nat>, t: seq<Allocation>, p: seq<nat>, t': seq<Allocation>, p': seq<nat>,
                 w: Word)
    requires Progress(t0, p0, t, p) && Progress(t, p, t', p')
    requires WordMarked(t, w, t')
    requires forall i :: 0 <= i < |t| && t'[i] != t[i] ==> Names(t, w, i)
    ensures Progress(t0, p0, t', p') && MarksStay(t, t')
    ensures WordMarked(t0, w, t')
    ensures forall i :: 0 <= i < |t| && t'[i] != t[i] ==> Names(t0, w, i)
  {
    ProgressTrans(t0, p0, t, p, t', p');
    ProgressStays(t, p, t', p');
    forall j | 0 <= j < |t| ensures Names(t0, w, j) == Names(t, w, j) && Live(t0[j]) == Live(t[j]) {
      ShapeNames(t0, t, w, j);
      assert t[j].(gc := t0[j].gc) == t0[j];
    }
  }

  /** The first `k` words of `a` have been looked at, and nothing else. */
  ghost predicate PartlyScanned(t0: seq<Allocation>, cells: map<Word, Word>, a: Allocation, k: nat,
                                t: seq<Allocation>) {
    && |t0| == |t| && k <= WordCount(a)
    && (forall k' :: 0 <= k' < k ==> WordMarked(t0, WordAt(cells, a, k'), t))
    && forall i :: 0 <= i < |t| && t[i] != t0[i] ==> PointsTo(t0, cells, a, i)
  }

  lemma ScanStep(t0: seq<Allocation>, cells: map<Word, Word>, a: Allocation, k: nat, t: seq<Allocation>,
                 t': seq<Allocation>)
    requires PartlyScanned(t0, cells, a, k, t) && k < WordCount(a) && MarksStay(t, t')
    requires WordMarked(t0, WordAt(cells, a, k), t')
    requires forall i :: 0 <= i < |t| && t'[i] != t[i] ==> Names(t0, WordAt(cells, a, k), i)
    ensures PartlyScanned(t0, cells, a, k + 1, t')
  {
    forall k' | 0 <= k' < k ensures WordMarked(t0, WordAt(cells, a, k'), t') {
      assert WordMarked(t0, WordAt(cells, a, k'), t);
    }
  }

  lemma MemoryStep(t0: seq<Allocation>, p0: seq<nat>, t: seq<Allocation>, p: seq<nat>, t': seq<Allocation>,
                   p': seq<nat>,
                   cells: map<Word, Word>, a: Allocation)
    requires Progress(t0, p0, t, p) && Progress(t, p, t', p')
    requires Scanned(t, cells, a, t')
    requires forall i :: 0 <= i < |t| && t'[i] != t[i] ==> PointsTo(t, cells, a, i)
    ensures Progress(t0, p0, t', p') && MarksStay(t, t')
    ensures Scanned(t0, cells, a, t')
    ensures forall i :: 0 <= i < |t| && t'[i] != t[i] ==> PointsTo(t0, cells, a, i)
  {
    ProgressTrans(t0, p0, t, p, t', p');
    ProgressStays(t, p, t', p');
    forall j | 0 <= j < |t| ensures PointsTo(t0, cells, a, j) == PointsTo(t, cells, a, j) && Live(t0[j]) == Live(t[j]) {
      ShapePointsTo(t0, t, cells, a, j);
      assert t[j].(gc := t0[j].gc) == t0[j];
    }
  }

  lemma FrameStep(t0: seq<Allocation>, t: seq<Allocation>, cells: map<Word, Word>, f: FiberRoots, j: nat)
    requires SameShape(t0, t)
    ensures NamedByFrame(t0, cells, f, j) == NamedByFrame(t, cells, f, j)
  {
    forall k | 0 <= k < |f.frames|
      ensures PointsTo(t0, cells, FrameAlloc(f.frames[k]), j) == PointsTo(t, cells, FrameAlloc(f.frames[k]), j)
    {
      ShapePointsTo(t0, t, cells, FrameAlloc(f.frames[k]), j);
    }
  }

  lemma FiberStep(t0: seq<Allocation>, p0: seq<nat>, t: seq<Allocation>, p: seq<nat>, t': seq<Allocation>, p': seq<nat>,
                  cells: map<Word, Word>, f: FiberRoots)
    requires Progress(t0, p0, t, p) && Progress(t, p, t', p')
    requires forall k :: 0 <= k < |f.stack| ==> WordMarked(t0, f.stack[k], t)
    requires forall i :: 0 <= i < |t| && t[i] != t0[i] ==> NamedByStack(t0, f, i)
    requires forall k :: 0 <= k < |f.frames| ==> Scanned(t, cells, FrameAlloc(f.frames[k]), t')
    requires forall i :: 0 <= i < |t| && t'[i] != t[i] ==> NamedByFrame(t, cells, f, i)
    ensures Progress(t0, p0, t', p')
    ensures FiberMarked(t0, cells, f, t')
    ensures forall i :: 0 <= i < |t| && t'[i] != t0[i] ==> NamedByStack(t0, f, i) || NamedByFrame(t0, cells, f, i)
  {
    ProgressTrans(t0, p0, t, p, t', p');
    ProgressStays(t, p, t', p');
    forall j | 0 <= j < |t|
      ensures NamedByFrame(t0, cells, f, j) == NamedByFrame(t, cells, f, j) && Live(t0[j]) == Live(t[j]) {
      FrameStep(t0, t, cells, f, j);
      assert t[j].(gc := t0[j].gc) == t0[j];
    }
    forall j | 0 <= j < |t| && Live(t0[j]) && NamedByFrame(t, cells, f, j) ensures t'[j].gc != Unreachable {
      var k :| 0 <= k < |f.frames| && PointsTo(t, cells, FrameAlloc(f.frames[k]), j);
      assert Scanned(t, cells, FrameAlloc(f.frames[k]), t');
    }
  }

  // ----- the root phase -----

  /** Only reachable slots have been marked. */
  ghost predicate Justified(t0: seq<Allocation>, roots: Roots, t: seq<Allocation>) {
    |t0| == |t| && forall i :: 0 <= i < |t| && t[i] != t0[i] ==> Traced(t0, roots, i)
  }

  lemma CurrentIsJustified(t0: seq<Allocation>, roots: Roots, t: seq<Allocation>)
    requires roots.current < |t0| == |t|
    requires t[roots.current] != t0[roots.current] ==> Live(t0[roots.current])
    requires forall i :: 0 <= i < |t| && i != roots.current ==> t[i] == t0[i]
    ensures Justified(t0, roots, t)
  {
    if Live(t0[roots.current]) {
      RootIsTraced(t0, roots, roots.current);
    }
  }

  lemma FiberMarkedStays(t0: seq<Allocation>, cells: map<Word, Word>, f: FiberRoots, t: seq<Allocation>,
                         t': seq<Allocation>)
    requires |t0| == |t| && FiberMarked(t0, cells, f, t) && MarksStay(t, t')
    ensures FiberMarked(t0, cells, f, t')
  {
  }

  /** The current fiber and what the first `n` fibers name are marked. */
  ghost predicate NamedMarked(t0: seq<Allocation>, roots: Roots, n: nat, t: seq<Allocation>) {
    && |t0| == |t| && n <= |roots.fibers|
    && (roots.current < |t| && Live(t0[roots.current]) ==> t[roots.current].gc != Unreachable)
    && forall f :: 0 <= f < n ==> FiberMarked(t0, roots.cells, roots.fibers[f], t)
  }

  lemma ShapeNamed(t0: seq<Allocation>, t: seq<Allocation>, cells: map<Word, Word>, f: FiberRoots, j: nat)
    requires SameShape(t0, t) && j < |t|
    ensures NamedByFrame(t0, cells, f, j) == NamedByFrame(t, cells, f, j)
    ensures NamedByStack(t0, f, j) == NamedByStack(t, f, j)
    ensures Live(t0[j]) == Live(t[j])
  {
    FrameStep(t0, t, cells, f, j);
    forall k | 0 <= k < |f.stack| ensures Names(t0, f.stack[k], j) == Names(t, f.stack[k], j) {
      ShapeNames(t0, t, f.stack[k], j);
    }
    assert t[j].(gc := t0[j].gc) == t0[j];
  }

  lemma NextFiber(t0: seq<Allocation>, roots: Roots, f: nat, t: seq<Allocation>, p: seq<nat>, t': seq<Allocation>,
                  p': seq<nat>)
    requires f < |roots.fibers|
    requires Progress(t0, [], t, p) && Progress(t, p, t', p')
    requires Justified(t0, roots, t) && NamedMarked(t0, roots, f, t)
    requires FiberMarked(t, roots.cells, roots.fibers[f], t')
    requires forall i :: 0 <= i < |t| && t'[i] != t[i]
               ==> NamedByStack(t, roots.fibers[f], i) || NamedByFrame(t, roots.cells, roots.fibers[f], i)
    ensures Progress(t0, [], t', p')
    ensures Justified(t0, roots, t') && NamedMarked(t0, roots, f + 1, t')
  {
    ProgressTrans(t0, [], t, p, t', p');
    ProgressStays(t, p, t', p');
    forall j | 0 <= j < |t|
      ensures NamedByFrame(t0, roots.cells, roots.fibers[f], j) == NamedByFrame(t, roots.cells, roots.fibers[f], j)
      ensures NamedByStack(t0, roots.fibers[f], j) == NamedByStack(t, roots.fibers[f], j)
      ensures Live(t0[j]) == Live(t[j])
    {
      ShapeNamed(t0, t, roots.cells, roots.fibers[f], j);
    }
    forall i | 0 <= i < |t| && t'[i] != t0[i] ensures Traced(t0, roots, i) {
      if t'[i] != t[i] {
        RootIsTraced(t0, roots, i);
      }
    }
    forall f' | 0 <= f' < f ensures FiberMarked(t0, roots.cells, roots.fibers[f'], t') {
      FiberMarkedStays(t0, roots.cells, roots.fibers[f'], t, t');
    }
  }

  // ----- following what is reachable -----

  lemma SameMemory(t0: seq<Allocation>, cells: map<Word, Word>, a: Allocation, b: Allocation, j: nat)
    requires a.ptr == b.ptr && a.size == b.size && a.weak == b.weak
    ensures PointsTo(t0, cells, a, j) == PointsTo(t0, cells, b, j)
  {
    forall k | 0 <= k < WordCount(a) ensures WordAt(cells, a, k) == WordAt(cells, b, k) {
    }
  }

  /** One more slot, itself reachable, has had its memory looked at. */
  lemma NextScanned(t0: seq<Allocation>, roots: Roots, i: nat, t: seq<Allocation>, p: seq<nat>,
                    t': seq<Allocation>, p': seq<nat>)
    requires SameShape(t0, t) && i < |t0| && Traced(t0, roots, i)
    requires Progress(t, p, t', p')
    requires Justified(t0, roots, t)
    requires Scanned(t, roots.cells, t[i], t')
    requires forall j :: 0 <= j < |t| && t'[j] != t[j] ==> PointsTo(t, roots.cells, t[i], j)
    ensures MarksStay(t, t')
    ensures Justified(t0, roots, t')
    ensures Scanned(t0, roots.cells, t0[i], t')
  {
    ProgressStays(t, p, t', p');
    forall j | 0 <= j < |t|
      ensures PointsTo(t0, roots.cells, t0[i], j) == PointsTo(t, roots.cells, t[i], j) && Live(t0[j]) == Live(t[j])
    {
      ShapePointsTo(t0, t, roots.cells, t[i], j);
      assert t[i].(gc := t0[i].gc) == t0[i] && t[j].(gc := t0[j].gc) == t0[j];
      SameMemory(t0, roots.cells, t0[i], t[i], j);
    }
    forall j | 0 <= j < |t| && t'[j] != t0[j] ensures Traced(t0, roots, j) {
      if t'[j] != t[j] {
        StepIsTraced(t0, roots, i, j);
      }
    }
  }

  /** The memory of the live explicitly reachable slots among the first `n` has been looked at. */
  ghost predicate ExplicitScanned(t0: seq<Allocation>, roots: Roots, n: nat, t: seq<Allocation>) {
    && |t0| == |t| && n <= |t|
    && forall i :: 0 <= i < n && Live(t0[i]) && t0[i].gc == ReachableExplicit ==> Scanned(t0, roots.cells, t0[i], t)
  }

  lemma NextExplicit(t0: seq<Allocation>, roots: Roots, i: nat, t: seq<Allocation>, t': seq<Allocation>)
    requires ExplicitScanned(t0, roots, i, t) && i < |t| && MarksStay(t, t')
    requires Live(t0[i]) && t0[i].gc == ReachableExplicit ==> Scanned(t0, roots.cells, t0[i], t')
    ensures ExplicitScanned(t0, roots, i + 1, t')
  {
    forall i' | 0 <= i' < i && Live(t0[i']) && t0[i'].gc == ReachableExplicit
      ensures Scanned(t0, roots.cells, t0[i'], t') {
      assert Scanned(t0, roots.cells, t0[i'], t);
    }
  }

  /** The two parts of the root phase together. */
  lemma RootsAreMarked(t0: seq<Allocation>, roots: Roots, t: seq<Allocation>, t': seq<Allocation>)
    requires NamedMarked(t0, roots, |roots.fibers|, t) && SameShape(t0, t') && MarksStay(t, t')
    requires MarksStay(t0, t) && ExplicitScanned(t0, roots, |t0|, t')
    ensures RootsMarked(t0, roots, t')
  {
    forall j | 0 <= j < |t| && Live(t0[j]) && IsRoot(t0, roots, j) ensures t'[j].gc != Unreachable {
      if f :|
        && 0 <= f < |roots.fibers|
        && (NamedByStack(t0, roots.fibers[f], j) || NamedByFrame(t0, roots.cells, roots.fibers[f], j)) {
        assert FiberMarked(t0, roots.cells, roots.fibers[f], t);
      }
    }
  }

  // ----- the worklist -----

  /** What the worklist keeps. */
  ghost predicate Working(t0: seq<Allocation>, roots: Roots, t: seq<Allocation>, pending: seq<nat>) {
    && MarkedFrom(t0, t) && Justified(t0, roots, t) && RootsMarked(t0, roots, t)
    && (forall k :: 0 <= k < |pending| ==> pending[k] < |t| && t[pending[k]].gc == Reachable)
    && ScannedBut(t0, roots, t, pending)
    && Sound(t0, roots, t)
  }

  lemma StartIsPending(t0: seq<Allocation>, roots: Roots, t: seq<Allocation>, pending: seq<nat>)
    requires NoMarks(t0) && Progress(t0, [], t, pending) && Justified(t0, roots, t) && RootsMarked(t0, roots, t)
    ensures Working(t0, roots, t, pending)
  {
    assert pending[0..] == pending;
    forall j | 0 <= j < |t|
      ensures t[j].gc == t0[j].gc || (t0[j].gc == Unreachable && t[j].gc == Reachable)
      ensures t[j].gc == Reachable ==> j in pending && Live(t0[j]) && Traced(t0, roots, j)
    {
      assert t[j] == t0[j] || (t0[j].gc == Unreachable && Live(t0[j]) && t[j].gc == Reachable && j in pending);
    }
  }

  lemma MarkedGoesOn(t0: seq<Allocation>, t: seq<Allocation>, p: seq<nat>, t': seq<Allocation>, p': seq<nat>)
    requires MarkedFrom(t0, t) && Progress(t, p, t', p')
    ensures MarkedFrom(t0, t')
  {
    forall j | 0 <= j < |t|
      ensures t'[j].(gc := t0[j].gc) == t0[j]
      ensures t'[j].gc == t0[j].gc || (t0[j].gc == Unreachable && t'[j].gc == Reachable)
    {
      assert t[j].(gc := t0[j].gc) == t0[j] && t'[j].(gc := t[j].gc) == t[j];
    }
  }

  lemma RootsStay(t0: seq<Allocation>, roots: Roots, t: seq<Allocation>, t': seq<Allocation>)
    requires |t0| == |t| && RootsMarked(t0, roots, t) && MarksStay(t, t')
    ensures RootsMarked(t0, roots, t')
  {
    forall i | 0 <= i < |t| && Live(t0[i]) && t0[i].gc == ReachableExplicit
      ensures Scanned(t0, roots.cells, t0[i], t') {
      assert Scanned(t0, roots.cells, t0[i], t);
    }
  }

  lemma KeepsWorking(t0: seq<Allocation>, roots: Roots, i: nat, t: seq<Allocation>, rest: seq<nat>,
                     t': seq<Allocation>, pending: seq<nat>)
    requires Working(t0, roots, t, rest + [i]) && Progress(t, rest, t', pending)
    requires Justified(t0, roots, t') && i < |t0| && Scanned(t0, roots.cells, t0[i], t')
    ensures Working(t0, roots, t', pending)
  {
    MarkedGoesOn(t0, t, rest, t', pending);
    ProgressStays(t, rest, t', pending);
    RootsStay(t0, roots, t, t');
    forall k | 0 <= k < |pending| ensures pending[k] < |t| && t'[pending[k]].gc == Reachable {
      if k < |rest| {
        assert (rest + [i])[k] == rest[k] == pending[k];
        assert t'[pending[k]] == t[pending[k]];
      }
    }
    forall j | 0 <= j < |t| && t'[j].gc == Reachable
      ensures t0[j].gc == Unreachable && Live(t0[j]) && Traced(t0, roots, j)
      ensures j !in pending ==> Scanned(t0, roots.cells, t0[j], t')
    {
      if t'[j] == t[j] {
        if j !in pending && j != i {
          assert j !in rest + [i];
          assert Scanned(t0, roots.cells, t0[j], t);
        }
      } else {
        assert Live(t[j]) && j in pending[|rest|..];
        assert t[j].(gc := t0[j].gc) == t0[j];
      }
    }
  }

  // ----- sweeping -----

  /** What the sweep decides from a slot's mark is what reachability says. */
  lemma SweptFromMark(t0: seq<Allocation>, roots: Roots, t: seq<Allocation>, j: nat)
    requires MarkedFrom(t0, t) && RootsMarked(t0, roots, t) && ScannedBut(t0, roots, t, []) && Sound(t0, roots, t)
    requires j < |t|
    ensures t[j].(gc := t0[j].gc) == t0[j]
    ensures Live(t0[j]) && t0[j].gc == Unreachable ==> (t[j].gc == Unreachable <==> !Traced(t0, roots, j))
    ensures t0[j].gc == ReachableExplicit <==> t[j].gc == ReachableExplicit
    ensures Swept(t0, roots, j).gc == t0[j].gc != Reachable
  {
    if Live(t0[j]) && t0[j].gc == Unreachable {
      MarkingIsExact(t0, roots, t, j);
    }
  }
}
