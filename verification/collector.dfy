// The conservative mark-sweep collector over the slot table.

module Collector {
  import opened Words
  import opened Allocations
  import opened Bytecode
  import opened Vm

  // ----- what is reachable -----

  /** The memory of a stack frame, after its header of 32 bytes. */
  datatype FrameMemory = FrameMemory(ptr: Word, nextOffset: U32, generation: U8)

  const FRAME_HEADER := 32

  /** A fiber's value stack and call stack, as the collector walks them. */
  datatype FiberRoots = FiberRoots(stack: seq<Word>, frames: seq<FrameMemory>)

  /** The current fiber's slot, all fibers, and the native memory allocations point into. */
  datatype Roots = Roots(current: nat, fibers: seq<FiberRoots>, cells: map<Word, Word>)

  predicate Live(a: Allocation) { a.status != Freed }

  /** How many aligned words of an allocation are looked at. */
  function WordCount(a: Allocation): nat {
    if a.size < 8 || a.weak then 0 else (a.size - AlignOffset(a.ptr, 8)) / 8
  }

  function WordAt(cells: map<Word, Word>, a: Allocation, k: nat): Word {
    var ptr := Wrap(a.ptr + AlignOffset(a.ptr, 8) + 8 * k);
    if ptr in cells then cells[ptr] else 0
  }

  /** A word is taken for an address of slot `j`: its generation fits, its offset is not past the end. */
  predicate Names(t: seq<Allocation>, w: Word, j: nat) {
    TryGet(t, w) == Some(j) && AddressOffset(w) <= t[j].size
  }

  /** Some aligned word in the memory of `a` names slot `j`. */
  predicate PointsTo(t: seq<Allocation>, cells: map<Word, Word>, a: Allocation, j: nat) {
    exists k :: 0 <= k < WordCount(a) && Names(t, WordAt(cells, a, k), j)
  }

  /** The allocation the collector makes up for a stack frame. */
  function FrameAlloc(f: FrameMemory): Allocation {
    MakeLocalAlloc(Wrap(f.ptr + FRAME_HEADER), (f.nextOffset - FRAME_HEADER) % 0x1_0000_0000, f.generation)
  }

  predicate NamedByStack(t: seq<Allocation>, f: FiberRoots, j: nat) {
    exists k :: 0 <= k < |f.stack| && Names(t, f.stack[k], j)
  }

  predicate NamedByFrame(t: seq<Allocation>, cells: map<Word, Word>, f: FiberRoots, j: nat) {
    exists k :: 0 <= k < |f.frames| && PointsTo(t, cells, FrameAlloc(f.frames[k]), j)
  }

  predicate IsRoot(t: seq<Allocation>, roots: Roots, j: nat) {
    j < |t|
    && (j == roots.current
        || t[j].gc == ReachableExplicit
        || (exists f :: 0 <= f < |roots.fibers| && NamedByStack(t, roots.fibers[f], j))
        || (exists f :: 0 <= f < |roots.fibers| && NamedByFrame(t, roots.cells, roots.fibers[f], j)))
  }

  /** A chain of allocations that are not freed, from a root, each pointing to the next. */
  predicate IsPath(t: seq<Allocation>, roots: Roots, p: seq<nat>) {
    && p != [] && IsRoot(t, roots, p[0])
    && (forall k :: 0 <= k < |p| ==> p[k] < |t| && Live(t[p[k]]))
    && (forall k :: 0 <= k < |p| - 1 ==> PointsTo(t, roots.cells, t[p[k]], p[k + 1]))
  }

  predicate PathTo(t: seq<Allocation>, roots: Roots, p: seq<nat>, j: nat) {
    IsPath(t, roots, p) && p[|p| - 1] == j
  }

  ghost predicate Traced(t: seq<Allocation>, roots: Roots, j: nat) {
    exists p :: PathTo(t, roots, p, j)
  }

  /** What a collection makes of slot `j`. */
  ghost function Swept(t: seq<Allocation>, roots: Roots, j: nat): Allocation
    requires j < |t|
  {
    if Live(t[j]) && t[j].gc == Unreachable && !Traced(t, roots, j)
       && (t[j].source == FiberMemory || (t[j].source == HeapMemory && t[j].split == Unsplit))
    then t[j].(status := Freed)
    else t[j]
  }

  /** The bytes of the heap allocations among the first `n` that went from live to freed. */
  function FreedBytes(t: seq<Allocation>, after: seq<Allocation>, n: nat): nat
    requires n <= |t| == |after|
  {
    if n == 0 then 0
    else
      FreedBytes(t, after, n - 1)
      + (if t[n - 1].source == HeapMemory && Live(t[n - 1]) && !Live(after[n - 1]) then t[n - 1].size else 0)
  }

  /** The blocks given back to the host for the heap allocations among the first `n`. */
  function FreedBlocks(t: seq<Allocation>, after: seq<Allocation>, n: nat): seq<Word>
    requires n <= |t| == |after|
  {
    if n == 0 then []
    else
      FreedBlocks(t, after, n - 1)
      + (if t[n - 1].source == HeapMemory && Live(t[n - 1]) && !Live(after[n - 1]) then [t[n - 1].ptr] else [])
  }

  lemma {:induction false} FreedPrefix(t: seq<Allocation>, after: seq<Allocation>, after': seq<Allocation>, n: nat)
    requires n <= |t| == |after| == |after'| && after[..n] == after'[..n]
    ensures FreedBytes(t, after, n) == FreedBytes(t, after', n)
    ensures FreedBlocks(t, after, n) == FreedBlocks(t, after', n)
  {
    if n > 0 {
      assert after[n - 1] == after[..n][n - 1] == after'[n - 1];
      assert after[..n - 1] == after[..n][..n - 1] == after'[..n - 1];
      FreedPrefix(t, after, after', n - 1);
    }
  }

  // ----- marking -----

  /** The tables differ at most in their marks. */
  predicate SameShape(t: seq<Allocation>, t': seq<Allocation>) {
    |t| == |t'| && forall j :: 0 <= j < |t| ==> t'[j].(gc := t[j].gc) == t[j]
  }

  lemma ShapeNames(t: seq<Allocation>, t': seq<Allocation>, w: Word, j: nat)
    requires SameShape(t, t')
    ensures Names(t', w, j) == Names(t, w, j)
  {
    var i := AddressAllocation(w);
    assert i < |t| ==> t'[i].(gc := t[i].gc) == t[i];
    assert j < |t| ==> t'[j].(gc := t[j].gc) == t[j];
  }

  /** Between collections no slot carries a mark of its own. */
  predicate NoMarks(t: seq<Allocation>) {
    forall j :: 0 <= j < |t| ==> t[j].gc != Reachable
  }

  /** `t` is the unmarked table `t0` with some slots marked. */
  predicate MarkedFrom(t0: seq<Allocation>, t: seq<Allocation>) {
    && SameShape(t0, t) && NoMarks(t0)
    && forall j :: 0 <= j < |t| ==> t[j].gc == t0[j].gc || (t0[j].gc == Unreachable && t[j].gc == Reachable)
  }

  /** The slots that could still be marked. */
  function Unmarked(t: seq<Allocation>): nat {
    if t == [] then 0
    else Unmarked(t[..|t| - 1]) + (if Live(t[|t| - 1]) && t[|t| - 1].gc == Unreachable then 1 else 0)
  }

  lemma {:induction false} UnmarkedDrops(t: seq<Allocation>, j: nat)
    requires j < |t| && Live(t[j]) && t[j].gc == Unreachable
    ensures Unmarked(t[j := t[j].(gc := Reachable)]) == Unmarked(t) - 1
  {
    var t', n := t[j := t[j].(gc := Reachable)], |t| - 1;
    if j == n {
      assert t'[..n] == t[..n];
    } else {
      UnmarkedDrops(t[..n], j);
      assert t'[..n] == t[..n][j := t[j].(gc := Reachable)];
    }
  }

  /** Some live unmarked slots have been marked, and each of them pushed. */
  predicate Progress(t: seq<Allocation>, pending: seq<nat>, t': seq<Allocation>, pending': seq<nat>) {
    && SameShape(t, t')
    && pending <= pending'
    && (forall j :: 0 <= j < |t| ==>
          t'[j] == t[j]
          || (t[j].gc == Unreachable && Live(t[j]) && t'[j].gc == Reachable && j in pending'[|pending|..]))
    && (forall k :: |pending| <= k < |pending'| ==>
          pending'[k] < |t| && t[pending'[k]].gc == Unreachable && t'[pending'[k]].gc == Reachable)
    && Unmarked(t') + |pending'| == Unmarked(t) + |pending|
  }

  lemma NoProgress(t: seq<Allocation>, pending: seq<nat>)
    ensures Progress(t, pending, t, pending)
  {
  }

  lemma ProgressTrans(t: seq<Allocation>, p: seq<nat>, t1: seq<Allocation>, p1: seq<nat>, t2: seq<Allocation>,
                      p2: seq<nat>)
    requires Progress(t, p, t1, p1) && Progress(t1, p1, t2, p2)
    ensures Progress(t, p, t2, p2)
  {
    assert p2[|p|..] == p1[|p|..] + p2[|p1|..];
    forall j | 0 <= j < |t|
      ensures t2[j].(gc := t[j].gc) == t[j]
      ensures t2[j] == t[j] || (t[j].gc == Unreachable && Live(t[j]) && t2[j].gc == Reachable && j in p2[|p|..])
    {
      assert t1[j].(gc := t[j].gc) == t[j] && t2[j].(gc := t1[j].gc) == t1[j];
    }
    forall k | |p| <= k < |p2| ensures p2[k] < |t| && t[p2[k]].gc == Unreachable && t2[p2[k]].gc == Reachable {
      if k < |p1| {
        assert p2[k] == p1[k];
        assert t2[p1[k]] == t1[p1[k]];
      } else {
        assert t1[p2[k]] == t[p2[k]];
      }
    }
  }

  lemma MarkProgress(t: seq<Allocation>, pending: seq<nat>, j: nat)
    requires j < |t| && Live(t[j]) && t[j].gc == Unreachable
    ensures Progress(t, pending, t[j := t[j].(gc := Reachable)], pending + [j])
  {
    UnmarkedDrops(t, j);
    assert (pending + [j])[|pending|..] == [j];
  }

  /** The live slot a word names is marked. */
  ghost predicate WordMarked(t: seq<Allocation>, w: Word, t': seq<Allocation>)
    requires |t| == |t'|
  {
    forall j :: 0 <= j < |t| && Names(t, w, j) && Live(t[j]) ==> t'[j].gc != Unreachable
  }

  /** Every live slot that `a` points to is marked. */
  ghost predicate Scanned(t: seq<Allocation>, cells: map<Word, Word>, a: Allocation, t': seq<Allocation>)
    requires |t| == |t'|
  {
    forall j :: 0 <= j < |t| && Live(t[j]) && PointsTo(t, cells, a, j) ==> t'[j].gc != Unreachable
  }

  /** Every live slot that a fiber's stacks point to is marked. */
  ghost predicate FiberMarked(t: seq<Allocation>, cells: map<Word, Word>, f: FiberRoots, t': seq<Allocation>)
    requires |t| == |t'|
  {
    forall j :: 0 <= j < |t| && Live(t[j]) && (NamedByStack(t, f, j) || NamedByFrame(t, cells, f, j))
                ==> t'[j].gc != Unreachable
  }

  /** Marks are never taken back. */
  predicate MarksStay(t: seq<Allocation>, t': seq<Allocation>) {
    |t| == |t'| && forall j :: 0 <= j < |t| && t[j].gc != Unreachable ==> t'[j].gc != Unreachable
  }

  lemma ProgressStays(t: seq<Allocation>, p: seq<nat>, t': seq<Allocation>, p': seq<nat>)
    requires Progress(t, p, t', p')
    ensures MarksStay(t, t')
  {
  }

  lemma ShapePointsTo(t: seq<Allocation>, t': seq<Allocation>, cells: map<Word, Word>, a: Allocation, j: nat)
    requires SameShape(t, t')
    ensures PointsTo(t', cells, a, j) == PointsTo(t, cells, a, j)
  {
    forall k | 0 <= k < WordCount(a) ensures Names(t', WordAt(cells, a, k), j) == Names(t, WordAt(cells, a, k), j) {
      ShapeNames(t, t', WordAt(cells, a, k), j);
    }
  }

  /** The slots marked are all reachable. */
  ghost predicate Sound(t0: seq<Allocation>, roots: Roots, t: seq<Allocation>)
    requires |t0| == |t|
  {
    forall j :: 0 <= j < |t| && t[j].gc == Reachable ==> t0[j].gc == Unreachable && Live(t0[j]) && Traced(t0, roots, j)
  }

  /** The roots are marked, and so is all that frames and explicitly reachable allocations point to. */
  ghost predicate RootsMarked(t0: seq<Allocation>, roots: Roots, t: seq<Allocation>)
    requires |t0| == |t|
  {
    && (forall j :: 0 <= j < |t| && Live(t0[j]) && IsRoot(t0, roots, j) ==> t[j].gc != Unreachable)
    && (forall i :: 0 <= i < |t| && Live(t0[i]) && t0[i].gc == ReachableExplicit ==> Scanned(t0, roots.cells, t0[i], t))
  }

  /** The memory of everything marked has been looked at, unless it is still pending. */
  ghost predicate ScannedBut(t0: seq<Allocation>, roots: Roots, t: seq<Allocation>, pending: seq<nat>)
    requires |t0| == |t|
  {
    forall i :: 0 <= i < |t| && t[i].gc == Reachable && i !in pending ==> Scanned(t0, roots.cells, t0[i], t)
  }

  lemma RootIsTraced(t: seq<Allocation>, roots: Roots, j: nat)
    requires IsRoot(t, roots, j) && Live(t[j])
    ensures Traced(t, roots, j)
  {
    assert PathTo(t, roots, [j], j);
  }

  lemma StepIsTraced(t: seq<Allocation>, roots: Roots, i: nat, j: nat)
    requires Traced(t, roots, i) && j < |t| && Live(t[j]) && i < |t| && PointsTo(t, roots.cells, t[i], j)
    ensures Traced(t, roots, j)
  {
    var p :| PathTo(t, roots, p, i);
    var p' := p + [j];
    forall k | 0 <= k < |p'| - 1 ensures PointsTo(t, roots.cells, t[p'[k]], p'[k + 1]) {
      assert p'[k] == p[k];
    }
    assert PathTo(t, roots, p', j);
  }

  /** Once nothing is pending, every slot on a path from a root is marked. */
  lemma {:induction false} PathIsMarked(t0: seq<Allocation>, roots: Roots, t: seq<Allocation>, p: seq<nat>)
    requires MarkedFrom(t0, t) && RootsMarked(t0, roots, t) && ScannedBut(t0, roots, t, [])
    requires IsPath(t0, roots, p)
    ensures t[p[|p| - 1]].gc != Unreachable
  {
    if |p| > 1 {
      var q := p[..|p| - 1];
      PathIsMarked(t0, roots, t, q);
      var i, j := p[|p| - 2], p[|p| - 1];
      assert q[|q| - 1] == i;
      assert PointsTo(t0, roots.cells, t0[i], j);
      assert t[i].gc == Reachable || t0[i].gc == ReachableExplicit;
    }
  }

  /** Marking is exact: a live slot that was not explicitly reachable is marked if and only if some
      path from the roots leads to it. */
  lemma MarkingIsExact(t0: seq<Allocation>, roots: Roots, t: seq<Allocation>, j: nat)
    requires MarkedFrom(t0, t) && RootsMarked(t0, roots, t) && ScannedBut(t0, roots, t, []) && Sound(t0, roots, t)
    requires j < |t0| && Live(t0[j]) && t0[j].gc == Unreachable
    ensures t[j].gc == Reachable <==> Traced(t0, roots, j)
  {
    if Traced(t0, roots, j) {
      var p :| PathTo(t0, roots, p, j);
      PathIsMarked(t0, roots, t, p);
    }
  }

  // ----- a collection is complete -----

  ghost predicate IsSwept(t: seq<Allocation>, roots: Roots, t': seq<Allocation>) {
    |t| == |t'| && forall j :: 0 <= j < |t| ==> t'[j] == Swept(t, roots, j)
  }

  lemma SweptPointsTo(t: seq<Allocation>, roots: Roots, t': seq<Allocation>, a: Allocation, j: nat)
    requires IsSwept(t, roots, t')
    ensures PointsTo(t', roots.cells, a, j) == PointsTo(t, roots.cells, a, j)
  {
    forall k | 0 <= k < WordCount(a)
      ensures Names(t', WordAt(roots.cells, a, k), j) == Names(t, WordAt(roots.cells, a, k), j) {
      var i := AddressAllocation(WordAt(roots.cells, a, k));
      assert i < |t| ==> t'[i] == Swept(t, roots, i);
    }
  }

  lemma SweptRoot(t: seq<Allocation>, roots: Roots, t': seq<Allocation>, j: nat)
    requires IsSwept(t, roots, t') && IsRoot(t, roots, j)
    ensures IsRoot(t', roots, j)
  {
    assert t'[j] == Swept(t, roots, j);
    if f :| 0 <= f < |roots.fibers| && NamedByStack(t, roots.fibers[f], j) {
      var k :| 0 <= k < |roots.fibers[f].stack| && Names(t, roots.fibers[f].stack[k], j);
      assert Names(t', roots.fibers[f].stack[k], j);
      assert NamedByStack(t', roots.fibers[f], j);
    }
    if f :| 0 <= f < |roots.fibers| && NamedByFrame(t, roots.cells, roots.fibers[f], j) {
      var k :| 0 <= k < |roots.fibers[f].frames| && PointsTo(t, roots.cells, FrameAlloc(roots.fibers[f].frames[k]), j);
      SweptPointsTo(t, roots, t', FrameAlloc(roots.fibers[f].frames[k]), j);
      assert NamedByFrame(t', roots.cells, roots.fibers[f], j);
    }
  }

  /** What was reachable survives a collection and is still reachable after it. */
  lemma {:induction false} ReachableSurvives(t: seq<Allocation>, roots: Roots, t': seq<Allocation>, p: seq<nat>)
    requires IsSwept(t, roots, t') && IsPath(t, roots, p)
    ensures IsPath(t', roots, p) && t'[p[|p| - 1]] == t[p[|p| - 1]]
  {
    var j := p[|p| - 1];
    assert PathTo(t, roots, p, j);
    if |p| == 1 {
      SweptRoot(t, roots, t', j);
    } else {
      var q := p[..|p| - 1];
      ReachableSurvives(t, roots, t', q);
      var i := q[|q| - 1];
      SweptPointsTo(t, roots, t', t[i], j);
      forall k | 0 <= k < |p| - 1 ensures PointsTo(t', roots.cells, t'[p[k]], p[k + 1]) {
        if k < |q| - 1 {
          assert q[k] == p[k] && q[k + 1] == p[k + 1];
        }
      }
    }
  }

  /** Collecting again from the same roots frees nothing more. */
  lemma CollectingTwice(t: seq<Allocation>, roots: Roots, t': seq<Allocation>)
    requires IsSwept(t, roots, t')
    ensures IsSwept(t', roots, t')
  {
    forall j | 0 <= j < |t| ensures Swept(t', roots, j) == t'[j] {
      assert t'[j] == Swept(t, roots, j);
      if Traced(t, roots, j) {
        var p :| PathTo(t, roots, p, j);
        ReachableSurvives(t, roots, t', p);
        assert PathTo(t', roots, p, j);
      }
    }
  }
}
