// The books a process keeps with the host: every block of heap memory it takes goes back once.

module Ledgers {
  import opened Words
  import opened Allocations
  import opened Bytecode
  import opened Vm
  import opened Blocks
  import opened Collector
  import opened Pieces

  // ----- single slots -----

  function Poisoned(t: seq<Allocation>, addr: Word): Option<seq<Allocation>> {
    match TryGet(t, addr)
    case None => None
    case Some(i) => if t[i].status == Allocated then Some(t[i := t[i].(status := Poison)]) else None
  }

  /** The memory of a fiber stays poisoned. */
  function Unpoisoned(t: seq<Allocation>, addr: Word): Option<seq<Allocation>> {
    match TryGet(t, addr)
    case None => None
    case Some(i) =>
      if t[i].source != FiberMemory && t[i].status == Poison then Some(t[i := t[i].(status := Allocated)]) else None
  }

  /** The heap block at `addr` is given up: it must be whole. */
  function Leaked(t: seq<Allocation>, addr: Word): Option<seq<Allocation>> {
    match TryGet(t, addr)
    case None => None
    case Some(i) =>
      if t[i].status != Freed && t[i].source == HeapMemory && t[i].split == Unsplit
      then Some(t[i := t[i].(status := Freed)]) else None
  }

  function DeclaredReachable(t: seq<Allocation>, addr: Word, explicit: bool): Option<seq<Allocation>> {
    match TryGet(t, addr)
    case None => None
    case Some(i) =>
      if t[i].source == HeapMemory then Some(t[i := t[i].(gc := if explicit then ReachableExplicit else Unreachable)])
      else None
  }

  function DeclaredWeak(t: seq<Allocation>, addr: Word, weak: bool): Option<seq<Allocation>> {
    match TryGet(t, addr)
    case None => None
    case Some(i) => Some(t[i := t[i].(weak := weak)])
  }

  // ----- the process as the host sees it -----

  /** The table, the heap blocks taken from the host so far, and those given back. */
  datatype Ledger = Ledger(memory: Memory, taken: seq<Word>, given: seq<Word>)

  datatype Event =
    | Take(ptr: Word, size: nat)
    | Add(a: Allocation)
    | Free(addr: Word)
    | SplitUp(addr: Word)
    | MergeUp(addr1: Word, addr2: Word)
    | PoisonIt(addr: Word)
    | UnpoisonIt(addr: Word)
    | Declare(addr: Word, explicit: bool)
    | DeclareWeak(addr: Word, weak: bool)
    | Release(slots: set<nat>)
    | Collect(roots: Roots)
    | DropFreedSlots

  function WithTable(l: Ledger, t: seq<Allocation>): Ledger {
    l.(memory := l.memory.(allocations := t))
  }

  function OrSame(l: Ledger, t: Option<seq<Allocation>>): Ledger {
    match t case None => l case Some(t') => WithTable(l, t')
  }

  /** Slots that are not heap memory freed: locals by a return, a fiber by its destruction. */
  function Released(t: seq<Allocation>, slots: set<nat>): (t': seq<Allocation>)
    ensures |t'| == |t|
  {
    seq(|t|, i requires 0 <= i < |t| => if i in slots then t[i].(status := Freed) else t[i])
  }

  ghost function SweptTable(t: seq<Allocation>, roots: Roots): (t': seq<Allocation>)
    ensures IsSwept(t, roots, t')
  {
    seq(|t|, i requires 0 <= i < |t| => Swept(t, roots, i))
  }

  ghost function After(l: Ledger, e: Event): Ledger {
    var t := l.memory.allocations;
    match e
    case Take(ptr, size) =>
      WithTable(l, t + [MakeHeapAlloc(ptr, size, l.memory.generation)]).(taken := l.taken + [ptr])
    case Add(a) => WithTable(l, t + [a])
    case Free(addr) =>
      if Leaked(t, addr).None? then l
      else WithTable(l, Leaked(t, addr).value).(given := l.given + [t[TryGet(t, addr).value].ptr])
    case SplitUp(addr) => OrSame(l, SplitAllocation(t, addr))
    case MergeUp(addr1, addr2) => OrSame(l, MergeAllocation(t, addr1, addr2))
    case PoisonIt(addr) => OrSame(l, Poisoned(t, addr))
    case UnpoisonIt(addr) => OrSame(l, Unpoisoned(t, addr))
    case Declare(addr, explicit) => OrSame(l, DeclaredReachable(t, addr, explicit))
    case DeclareWeak(addr, weak) => OrSame(l, DeclaredWeak(t, addr, weak))
    case Release(slots) => WithTable(l, Released(t, slots))
    case Collect(roots) =>
      WithTable(l, SweptTable(t, roots)).(given := l.given + FreedBlocks(t, SweptTable(t, roots), |t|))
    case DropFreedSlots => l.(memory := RemoveFreed(l.memory))
  }

  predicate NewSlot(t: seq<Allocation>, a: Allocation) {
    Live(a) && a.split == Unsplit && EndOf(a) < TWO_64 && ClearOf(t, a)
  }

  /** New memory does not overlap what the process has, splits are strictly inside a piece, and the
      first piece of a merge is not the last of its block. */
  predicate Allowed(l: Ledger, e: Event) {
    var t := l.memory.allocations;
    match e
    case Take(ptr, size) => NewSlot(t, MakeHeapAlloc(ptr, size, l.memory.generation))
    case Add(a) => NewSlot(t, a) && a.source != HeapMemory && (a.source == FiberMemory ==> a.status == Poison)
    case SplitUp(addr) => AddressOffset(addr) > 0
    case MergeUp(addr1, addr2) =>
      MergeAllocation(t, addr1, addr2).Some? ==> t[TryGet(t, addr1).value].split != SplitLast
    case Release(slots) => forall i :: i in slots && i < |t| ==> t[i].source != HeapMemory && t[i].split == Unsplit
    case _ => true
  }

  /** The blocks the process has been given by an event. */
  function NewBlocks(e: Event): seq<HostBlock> {
    match e
    case Take(ptr, size) => [HostBlock(ptr, size % 0x1_0000_0000)]
    case Add(a) => [HostBlock(a.ptr, a.size)]
    case _ => []
  }

  // ----- the pieces that stand for their heap block -----

  predicate IsHead(a: Allocation) {
    a.source == HeapMemory && Live(a) && StartsBlock(a.split)
  }

  function HeadAt(a: Allocation, w: Word): nat {
    if IsHead(a) && a.ptr == w then 1 else 0
  }

  /** How many heap blocks that start at `w` the process has. */
  function Heads(t: seq<Allocation>, w: Word): nat {
    if t == [] then 0 else Heads(t[..|t| - 1], w) + HeadAt(t[|t| - 1], w)
  }

  lemma {:induction false} HeadsUpdate(t: seq<Allocation>, i: nat, a: Allocation, w: Word)
    requires i < |t|
    ensures Heads(t[i := a], w) + HeadAt(t[i], w) == Heads(t, w) + HeadAt(a, w)
  {
    var n := |t| - 1;
    if i == n {
      assert t[i := a][..n] == t[..n];
    } else {
      HeadsUpdate(t[..n], i, a, w);
      assert t[i := a][..n] == t[..n][i := a];
    }
  }

  lemma HeadsAppend(t: seq<Allocation>, a: Allocation, w: Word)
    ensures Heads(t + [a], w) == Heads(t, w) + HeadAt(a, w)
  {
    assert (t + [a])[..|t|] == t;
  }

  /** Freed slots stand for nothing. */
  lemma {:induction false} HeadsOfPrefix(t: seq<Allocation>, t': seq<Allocation>, w: Word)
    requires t' <= t && forall i :: |t'| <= i < |t| ==> !Live(t[i])
    ensures Heads(t', w) == Heads(t, w)
  {
    if |t'| < |t| {
      HeadsOfPrefix(t[..|t| - 1], t', w);
    } else {
      assert t == t';
    }
  }

  /** A slot stands for what it stood for, or was a whole heap block and is freed. */
  predicate FreedOrSame(a: Allocation, a': Allocation) {
    && a'.ptr == a.ptr && a'.source == a.source
    && (IsHead(a) && Live(a') ==> IsHead(a'))
    && (!IsHead(a) ==> !IsHead(a') && !(a.source == HeapMemory && Live(a) && !Live(a')))
  }

  predicate GivenBack(a: Allocation, a': Allocation) {
    a.source == HeapMemory && Live(a) && !Live(a')
  }

  lemma FreedHead(a: Allocation, a': Allocation, w: Word)
    requires FreedOrSame(a, a')
    ensures HeadAt(a, w) == HeadAt(a', w) + (if GivenBack(a, a') && a.ptr == w then 1 else 0)
  {
  }

  lemma FreedBlocksSnoc(t: seq<Allocation>, t': seq<Allocation>, n: nat, w: Word)
    requires 0 < n <= |t| == |t'|
    ensures multiset(FreedBlocks(t, t', n))[w]
         == multiset(FreedBlocks(t, t', n - 1))[w]
            + (if GivenBack(t[n - 1], t'[n - 1]) && t[n - 1].ptr == w then 1 else 0)
  {
    CountSnoc(FreedBlocks(t, t', n - 1), t[n - 1].ptr, w);
    assert FreedBlocks(t, t', n - 1) + [] == FreedBlocks(t, t', n - 1);
  }

  lemma HeadsSnoc(t: seq<Allocation>, n: nat, w: Word)
    requires 0 < n <= |t|
    ensures Heads(t[..n], w) == Heads(t[..n - 1], w) + HeadAt(t[n - 1], w)
  {
    assert t[..n][..n - 1] == t[..n - 1];
  }

  lemma {:induction false} FreedHeads(t: seq<Allocation>, t': seq<Allocation>, n: nat, w: Word)
    requires n <= |t| == |t'| && forall i :: 0 <= i < |t| ==> FreedOrSame(t[i], t'[i])
    ensures Heads(t[..n], w) == Heads(t'[..n], w) + multiset(FreedBlocks(t, t', n))[w]
  {
    if n > 0 {
      FreedHeads(t, t', n - 1, w);
      HeadsSnoc(t, n, w);
      HeadsSnoc(t', n, w);
      FreedHead(t[n - 1], t'[n - 1], w);
      FreedBlocksSnoc(t, t', n, w);
    }
  }

  lemma CountSnoc(s: seq<Word>, x: Word, w: Word)
    ensures multiset(s + [x])[w] == multiset(s)[w] + (if x == w then 1 else 0)
  {
  }

  // ----- the books balance -----

  /** Every heap block taken was given back, or the process still has it. */
  ghost predicate Balanced(l: Ledger) {
    forall w: Word :: multiset(l.taken)[w] == multiset(l.given)[w] + Heads(l.memory.allocations, w)
  }

  /** The memory of fibers is never usable, so it is never in pieces. */
  predicate FibersWhole(t: seq<Allocation>) {
    forall i :: 0 <= i < |t| && t[i].source == FiberMemory ==> t[i].split == Unsplit && t[i].status != Allocated
  }

  ghost predicate Kept(l: Ledger, g: Tiling) {
    Tiled(l.memory.allocations, g) && Disjoint(l.memory.allocations) && FibersWhole(l.memory.allocations) && Balanced(l)
  }

  lemma FreedStaysDisjoint(t: seq<Allocation>, t': seq<Allocation>)
    requires Disjoint(t) && SomeFreed(t, t')
    ensures Disjoint(t')
  {
    forall i, j | 0 <= i < |t'| && 0 <= j < |t'| && i != j && Live(t'[i]) && Live(t'[j]) ensures Apart(t'[i], t'[j]) {
      assert Apart(t[i], t[j]);
    }
  }

  lemma FreedBalances(l: Ledger, t': seq<Allocation>)
    requires var t := l.memory.allocations; |t'| == |t| && forall i :: 0 <= i < |t| ==> FreedOrSame(t[i], t'[i])
    requires Balanced(l)
    ensures Balanced(WithTable(l, t').(given := l.given + FreedBlocks(l.memory.allocations, t', |t'|)))
  {
    var t := l.memory.allocations;
    forall w: Word
      ensures multiset(l.taken)[w] == multiset(l.given + FreedBlocks(t, t', |t|))[w] + Heads(t', w)
    {
      FreedHeads(t, t', |t|, w);
      assert t[..|t|] == t && t'[..|t|] == t';
    }
  }

  /** What freeing whole blocks, and changing statuses and marks otherwise, keeps. */
  lemma FreedKeeps(l: Ledger, g: Tiling, t': seq<Allocation>) returns (g': Tiling)
    requires var t := l.memory.allocations;
             Kept(l, g) && SomeFreed(t, t') && FibersWhole(t') && forall i :: 0 <= i < |t| ==> FreedOrSame(t[i], t'[i])
    ensures Kept(WithTable(l, t').(given := l.given + FreedBlocks(l.memory.allocations, t', |t'|)), g')
    ensures g'.blocks == g.blocks
  {
    var t := l.memory.allocations;
    g' := WithoutFreed(t', g);
    FreeingKeeps(t, g, t');
    FreedStaysDisjoint(t, t');
    FreedBalances(l, t');
  }

  lemma {:induction false} NoneFreed(t: seq<Allocation>, t': seq<Allocation>, n: nat)
    requires n <= |t| == |t'| && forall i :: 0 <= i < n && t[i].source == HeapMemory && Live(t[i]) ==> Live(t'[i])
    ensures FreedBlocks(t, t', n) == []
  {
    if n > 0 {
      NoneFreed(t, t', n - 1);
    }
  }

  lemma {:induction false} OneFreed(t: seq<Allocation>, i: nat, n: nat)
    requires i < n <= |t| && t[i].source == HeapMemory && Live(t[i])
    ensures FreedBlocks(t, t[i := t[i].(status := Freed)], n) == [t[i].ptr]
  {
    var t' := t[i := t[i].(status := Freed)];
    if i == n - 1 {
      NoneFreed(t, t', n - 1);
    } else {
      OneFreed(t, i, n - 1);
    }
  }

  /** Events that change statuses and marks only. */
  lemma MarkedKeeps(l: Ledger, g: Tiling, t': seq<Allocation>) returns (g': Tiling)
    requires var t := l.memory.allocations;
             Kept(l, g) && SomeFreed(t, t') && FibersWhole(t')
             && (forall i :: 0 <= i < |t| ==> FreedOrSame(t[i], t'[i]))
             && (forall i :: 0 <= i < |t| && t[i].source == HeapMemory && Live(t[i]) ==> Live(t'[i]))
    ensures Kept(WithTable(l, t'), g') && g'.blocks == g.blocks
  {
    NoneFreed(l.memory.allocations, t', |t'|);
    g' := FreedKeeps(l, g, t');
    assert l.given + [] == l.given;
  }

  /** One slot's status or marks change. */
  lemma OneMarkedKeeps(l: Ledger, g: Tiling, i: nat, a: Allocation) returns (g': Tiling)
    requires var t := l.memory.allocations;
             Kept(l, g) && i < |t| && a.(status := t[i].status, gc := t[i].gc, weak := t[i].weak) == t[i]
             && Live(a) == Live(t[i]) && (a.source == FiberMemory ==> a.status != Allocated)
    ensures Kept(WithTable(l, l.memory.allocations[i := a]), g') && g'.blocks == g.blocks
  {
    g' := MarkedKeeps(l, g, l.memory.allocations[i := a]);
  }

  lemma AddedStaysDisjoint(t: seq<Allocation>, a: Allocation)
    requires Disjoint(t) && ClearOf(t, a)
    ensures Disjoint(t + [a])
  {
    var t' := t + [a];
    forall i, j | 0 <= i < |t'| && 0 <= j < |t'| && i != j && Live(t'[i]) && Live(t'[j]) ensures Apart(t'[i], t'[j]) {
      assert i < |t| && j < |t| ==> Apart(t[i], t[j]);
      assert i < |t| && j == |t| ==> Apart(t[i], a);
      assert j < |t| && i == |t| ==> Apart(t[j], a);
    }
  }

  lemma AddedKeeps(l: Ledger, g: Tiling, a: Allocation, taken: seq<Word>) returns (g': Tiling)
    requires Kept(l, g) && NewSlot(l.memory.allocations, a) && taken == (if IsHead(a) then [a.ptr] else [])
    requires a.source == FiberMemory ==> a.status != Allocated
    ensures Kept(WithTable(l, l.memory.allocations + [a]).(taken := l.taken + taken), g')
    ensures g'.blocks == g.blocks + [HostBlock(a.ptr, a.size)]
  {
    var t := l.memory.allocations;
    g' := WithBlock(t, g, a);
    AppendKeeps(t, g, a);
    AddedStaysDisjoint(t, a);
    forall w: Word ensures multiset(l.taken + taken)[w] == multiset(l.given)[w] + Heads(t + [a], w) {
      HeadsAppend(t, a, w);
      CountSnoc(l.taken, a.ptr, w);
      assert l.taken + [] == l.taken;
    }
  }

  lemma SplitHeads(t: seq<Allocation>, i: nat, offset: U32, w: Word)
    requires i < |t| && offset < t[i].size
    ensures Heads(SplitTable(t, i, offset), w) == Heads(t, w)
  {
    var a := t[i].(size := offset, split := if StartsBlock(t[i].split) then SplitFirst else SplitMiddle);
    HeadsUpdate(t, i, a, w);
    HeadsAppend(t[i := a], SplitTable(t, i, offset)[|t|], w);
  }

  lemma SplitUpKeeps(l: Ledger, g: Tiling, addr: Word) returns (g': Tiling)
    requires Kept(l, g) && AddressOffset(addr) > 0 && SplitAllocation(l.memory.allocations, addr).Some?
    ensures Kept(WithTable(l, SplitAllocation(l.memory.allocations, addr).value), g') && g'.blocks == g.blocks
  {
    var t, offset := l.memory.allocations, AddressOffset(addr);
    var i := TryGet(t, addr).value;
    assert SplitAllocation(t, addr).value == SplitTable(t, i, offset);
    g' := SplitKeeps(t, g, i, offset);
    var _, _ := PlaceOf(t, g, i);
    SplitStaysDisjoint(t, i, offset);
    forall w: Word ensures Heads(SplitTable(t, i, offset), w) == Heads(t, w) {
      SplitHeads(t, i, offset, w);
    }
  }

  lemma MergeHeads(t: seq<Allocation>, i: nat, j: nat, w: Word)
    requires i < |t| && j < |t| && i != j && CanMerge(t[i], t[j]) && t[i].split != SplitLast && !StartsBlock(t[j].split)
    ensures Heads(MergeTable(t, i, j), w) == Heads(t, w)
  {
    HeadsUpdate(t, i, Merged(t[i], t[j]), w);
    HeadsUpdate(t[i := Merged(t[i], t[j])], j, t[j].(status := Freed), w);
  }

  lemma MergeUpKeeps(l: Ledger, g: Tiling, addr1: Word, addr2: Word) returns (g': Tiling)
    requires var t := l.memory.allocations;
             Kept(l, g) && MergeAllocation(t, addr1, addr2).Some? && t[TryGet(t, addr1).value].split != SplitLast
    ensures Kept(WithTable(l, MergeAllocation(l.memory.allocations, addr1, addr2).value), g') && g'.blocks == g.blocks
  {
    var t := l.memory.allocations;
    var i, j := TryGet(t, addr1).value, TryGet(t, addr2).value;
    assert MergeAllocation(t, addr1, addr2).value == MergeTable(t, i, j);
    g' := MergeKeeps(t, g, i, j);
    var o, k := MergesNeighbours(t, g, i, j);
    var c := g.chains[o];
    ChainIncreases(t, c, g.blocks[o], k, k + 1);
    assert EndOf(t[c[k]]) == t[c[k + 1]].ptr && t[j].split == TagAt(k + 1, |c|);
    MergeStaysDisjoint(t, i, j);
    forall w: Word ensures Heads(MergeTable(t, i, j), w) == Heads(t, w) {
      MergeHeads(t, i, j, w);
    }
  }

  lemma DroppedAreFreed(t: seq<Allocation>)
    ensures DropFreed(t) <= t && forall i :: |DropFreed(t)| <= i < |t| ==> !Live(t[i])
  {
  }

  lemma DropKeeps(l: Ledger, g: Tiling)
    requires Kept(l, g)
    ensures Kept(l.(memory := RemoveFreed(l.memory)), g)
  {
    var t := l.memory.allocations;
    var t' := DropFreed(t);
    DroppedAreFreed(t);
    DroppingKeeps(t, g, t');
    forall w: Word ensures Heads(t', w) == Heads(t, w) {
      HeadsOfPrefix(t, t', w);
    }
    forall i, j | 0 <= i < |t'| && 0 <= j < |t'| && i != j && Live(t'[i]) && Live(t'[j]) ensures Apart(t'[i], t'[j]) {
      assert t'[i] == t[i] && t'[j] == t[j];
    }
  }

  lemma FreeKeeps(l: Ledger, g: Tiling, addr: Word) returns (g': Tiling)
    requires Kept(l, g)
    ensures Kept(After(l, Free(addr)), g') && g'.blocks == g.blocks
  {
    var t := l.memory.allocations;
    g' := g;
    if Leaked(t, addr).Some? {
      var i := TryGet(t, addr).value;
      OneFreed(t, i, |t|);
      g' := FreedKeeps(l, g, t[i := t[i].(status := Freed)]);
    }
  }

  lemma SweptSlot(t: seq<Allocation>, roots: Roots, i: nat)
    requires FibersWhole(t) && i < |t|
    ensures var a := Swept(t, roots, i);
            a == t[i] || (a == t[i].(status := Freed) && Live(t[i]) && t[i].split == Unsplit)
  {
  }

  lemma SweptIsFreed(t: seq<Allocation>, roots: Roots)
    requires FibersWhole(t)
    ensures SomeFreed(t, SweptTable(t, roots)) && FibersWhole(SweptTable(t, roots))
    ensures forall i :: 0 <= i < |t| ==> FreedOrSame(t[i], SweptTable(t, roots)[i])
  {
    var t' := SweptTable(t, roots);
    forall i | 0 <= i < |t|
      ensures t'[i] == t[i] || (t'[i] == t[i].(status := Freed) && Live(t[i]) && t[i].split == Unsplit) {
      SweptSlot(t, roots, i);
    }
  }

  lemma CollectKeeps(l: Ledger, g: Tiling, roots: Roots) returns (g': Tiling)
    requires Kept(l, g)
    ensures Kept(After(l, Collect(roots)), g') && g'.blocks == g.blocks
  {
    SweptIsFreed(l.memory.allocations, roots);
    g' := FreedKeeps(l, g, SweptTable(l.memory.allocations, roots));
  }

  lemma ReleaseKeeps(l: Ledger, g: Tiling, slots: set<nat>) returns (g': Tiling)
    requires Kept(l, g) && Allowed(l, Release(slots))
    ensures Kept(After(l, Release(slots)), g') && g'.blocks == g.blocks
  {
    g' := MarkedKeeps(l, g, Released(l.memory.allocations, slots));
  }

  /** An event that changes the status or the marks of one slot. */
  predicate ChangesOne(e: Event) { e.PoisonIt? || e.UnpoisonIt? || e.Declare? || e.DeclareWeak? }

  lemma ChangedKeeps(l: Ledger, g: Tiling, e: Event) returns (g': Tiling)
    requires Kept(l, g) && ChangesOne(e)
    ensures Kept(After(l, e), g') && g'.blocks == g.blocks
  {
    var t, t' := l.memory.allocations, After(l, e).memory.allocations;
    g' := g;
    if t' != t {
      var i := TryGet(t, e.addr).value;
      assert t' == t[i := t'[i]];
      g' := OneMarkedKeeps(l, g, i, t'[i]);
    }
  }

  /** One event keeps the blocks tiled and the books balanced. */
  lemma EventKeeps(l: Ledger, g: Tiling, e: Event) returns (g': Tiling)
    requires Kept(l, g) && Allowed(l, e)
    ensures Kept(After(l, e), g') && g'.blocks == g.blocks + NewBlocks(e)
  {
    var t := l.memory.allocations;
    g' := g;
    match e {
      case Take(ptr, size) => g' := AddedKeeps(l, g, MakeHeapAlloc(ptr, size, l.memory.generation), [ptr]);
      case Add(a) =>
        g' := AddedKeeps(l, g, a, []);
        assert l.taken + [] == l.taken;
      case Free(addr) => g' := FreeKeeps(l, g, addr);
      case SplitUp(addr) =>
        if SplitAllocation(t, addr).Some? { g' := SplitUpKeeps(l, g, addr); }
      case MergeUp(addr1, addr2) =>
        if MergeAllocation(t, addr1, addr2).Some? { g' := MergeUpKeeps(l, g, addr1, addr2); }
      case Release(slots) => g' := ReleaseKeeps(l, g, slots);
      case Collect(roots) => g' := CollectKeeps(l, g, roots);
      case DropFreedSlots => DropKeeps(l, g);
      case _ => g' := ChangedKeeps(l, g, e);
    }
  }

  // ----- whole runs -----

  ghost function AfterAll(l: Ledger, es: seq<Event>): Ledger
    decreases |es|
  {
    if es == [] then l else AfterAll(After(l, es[0]), es[1..])
  }

  ghost predicate AllAllowed(l: Ledger, es: seq<Event>)
    decreases |es|
  {
    es == [] || (Allowed(l, es[0]) && AllAllowed(After(l, es[0]), es[1..]))
  }

  function AllBlocks(es: seq<Event>): seq<HostBlock> {
    if es == [] then [] else NewBlocks(es[0]) + AllBlocks(es[1..])
  }

  /** Over any run, the live slots tile the blocks the process was given, and every heap block is
      either with the host again or still had by the process. */
  lemma {:induction false} RunKeeps(l: Ledger, g: Tiling, es: seq<Event>) returns (g': Tiling)
    requires Kept(l, g) && AllAllowed(l, es)
    ensures Kept(AfterAll(l, es), g') && g'.blocks == g.blocks + AllBlocks(es)
    decreases |es|
  {
    if es == [] {
      g' := g;
      assert g.blocks + AllBlocks(es) == g.blocks;
    } else {
      var l1 := After(l, es[0]);
      var g1 := EventKeeps(l, g, es[0]);
      g' := RunKeeps(l1, g1, es[1..]);
      assert AfterAll(l, es) == AfterAll(l1, es[1..]);
      ConcatIsAssociative(g.blocks, NewBlocks(es[0]), AllBlocks(es[1..]));
    }
  }

  lemma ConcatIsAssociative(a: seq<HostBlock>, b: seq<HostBlock>, c: seq<HostBlock>)
    ensures (a + b) + c == a + (b + c)
  {
  }

  // ----- cleanup -----

  /** What the end of a process gives back for the first `n` slots: whole blocks and first pieces. */
  function CleanedUp(t: seq<Allocation>, n: nat): seq<Word>
    requires n <= |t|
  {
    if n == 0 then [] else CleanedUp(t, n - 1) + (if IsHead(t[n - 1]) then [t[n - 1].ptr] else [])
  }

  lemma {:induction false} CleanedUpIsHeads(t: seq<Allocation>, n: nat, w: Word)
    requires n <= |t|
    ensures multiset(CleanedUp(t, n))[w] == Heads(t[..n], w)
  {
    if n > 0 {
      CleanedUpIsHeads(t, n - 1, w);
      assert t[..n][..n - 1] == t[..n - 1];
      CountSnoc(CleanedUp(t, n - 1), t[n - 1].ptr, w);
    }
  }

  /** At the end of any run every heap block has been given back, by its start, exactly as often as
      it was taken, even the blocks that are in pieces. */
  lemma EverythingGoesBack(memory: Memory, es: seq<Event>)
    requires memory.allocations == [] && AllAllowed(Ledger(memory, [], []), es)
    ensures var l := AfterAll(Ledger(memory, [], []), es);
            var t := l.memory.allocations;
            multiset(l.taken) == multiset(l.given + CleanedUp(t, |t|))
  {
    var l0, g0 := Ledger(memory, [], []), Tiling([], [], []);
    assert Kept(l0, g0);
    var g := RunKeeps(l0, g0, es);
    var l := AfterAll(l0, es);
    var t := l.memory.allocations;
    forall w: Word ensures multiset(l.taken)[w] == multiset(l.given + CleanedUp(t, |t|))[w] {
      CleanedUpIsHeads(t, |t|, w);
      assert t[..|t|] == t;
    }
    SameCounts(l.taken, l.given + CleanedUp(t, |t|));
  }

  lemma SameCounts(a: seq<Word>, b: seq<Word>)
    requires forall w: Word :: multiset(a)[w] == multiset(b)[w]
    ensures multiset(a) == multiset(b)
  {
  }
}
