// Local variables: the offsets the builder assigns, and the places the prologue gives them.

module FrameLocals {
  import opened Words
  import opened Allocations
  import opened Bytecode
  import opened Layouts
  import opened Vm
  import opened Blocks
  import opened Flat
  import opened Emission
  import opened Refinement

  /** `sizeof(lauf_runtime_stack_frame)`. */
  const FRAME_SIZE := 32

  const UNKNOWN_OFFSET: U16 := 0xFFFF

  // ----- declaring locals -----

  /** The layout a local gets: its size and alignment rounded up to that of a pointer. */
  function LocalLayout(layout: Layout): Layout {
    Layout(RoundUp(layout.size, POINTER_ALIGNMENT), Max(layout.alignment, POINTER_ALIGNMENT))
  }

  /** The locals after one more is declared, when `size` bytes have been given out before. */
  function Declared(locals: seq<Local>, size: U16, layout: Layout): (seq<Local>, U16) {
    var l := LocalLayout(layout);
    var offset := if l.alignment > POINTER_ALIGNMENT then UNKNOWN_OFFSET else (size + FRAME_SIZE) % 0x1_0000;
    (locals + [Local(l, |locals| % 0x1_0000, offset)], (size + SpaceOf(l)) % 0x1_0000)
  }

  function DeclaredAll(layouts: seq<Layout>): (seq<Local>, U16) {
    if layouts == [] then ([], 0)
    else
      var (locals, size) := DeclaredAll(layouts[..|layouts| - 1]);
      Declared(locals, size, layouts[|layouts| - 1])
  }

  /** The bytes of the first `n` locals, with the padding of the over-aligned ones. */
  function SpaceBefore(locals: seq<Local>, n: nat): nat
    requires n <= |locals|
  {
    if n == 0 then 0 else SpaceBefore(locals, n - 1) + SpaceOf(locals[n - 1].layout)
  }

  predicate IsLocalLayout(layout: Layout) {
    layout.alignment >= POINTER_ALIGNMENT && layout.alignment % POINTER_ALIGNMENT == 0
    && layout.size % POINTER_ALIGNMENT == 0
  }

  lemma {:induction false} PowerIsMultiple(k: nat)
    requires k >= 3
    ensures Pow2(k) % 8 == 0 && Pow2(k) >= 8
  {
    if k > 3 {
      PowerIsMultiple(k - 1);
    }
  }

  lemma LocalLayoutIsAligned(layout: Layout)
    requires IsPowerOfTwo(layout.alignment)
    ensures IsLocalLayout(LocalLayout(layout)) && LocalLayout(layout).size >= layout.size
    ensures LocalLayout(layout).alignment >= layout.alignment
  {
    var k: nat :| HasExponent(layout.alignment, k);
    if k >= 3 {
      PowerIsMultiple(k);
    } else {
      assert k == 0 || k == 1 || k == 2;
    }
  }

  /** The locals of a function: each one's index is its position, and the offset of a pointer-aligned
      one is where the ones before it end. */
  predicate LaidOut(locals: seq<Local>) {
    forall l :: 0 <= l < |locals| ==> IsLaidOut(locals, l)
  }

  predicate IsLaidOut(locals: seq<Local>, l: nat)
    requires l < |locals|
  {
    && IsLocalLayout(locals[l].layout) && locals[l].index == l
    && (locals[l].layout.alignment == POINTER_ALIGNMENT ==> locals[l].offset == FRAME_SIZE + SpaceBefore(locals, l))
  }

  lemma {:induction false} SpaceOfPrefix(locals: seq<Local>, more: seq<Local>, n: nat)
    requires n <= |locals|
    ensures SpaceBefore(locals + more, n) == SpaceBefore(locals, n)
  {
    if n > 0 {
      SpaceOfPrefix(locals, more, n - 1);
    }
  }

  lemma {:induction false} SpaceGrows(locals: seq<Local>, i: nat, n: nat)
    requires i <= n <= |locals|
    ensures SpaceBefore(locals, i) <= SpaceBefore(locals, n)
  {
    if i < n {
      SpaceGrows(locals, i, n - 1);
    }
  }

  lemma OneMoreLaidOut(locals: seq<Local>, size: U16, layout: Layout)
    requires LaidOut(locals) && |locals| < 0x1_0000 && IsPowerOfTwo(layout.alignment)
    requires size == SpaceBefore(locals, |locals|) && FRAME_SIZE + size < 0x1_0000
    ensures LaidOut(Declared(locals, size, layout).0)
  {
    hide IsPowerOfTwo, RoundUp, SpaceOf;
    var all := Declared(locals, size, layout).0;
    LocalLayoutIsAligned(layout);
    forall l | 0 <= l < |all| ensures IsLaidOut(all, l) {
      SpaceOfPrefix(locals, [all[|all| - 1]], l);
      assert l < |locals| ==> IsLaidOut(locals, l);
    }
  }

  /** Declaring locals one by one lays them out, as long as they all fit in 16 bits. */
  lemma {:induction false} DeclaredIsLaidOut(layouts: seq<Layout>, total: nat)
    requires forall k :: 0 <= k < |layouts| ==> IsPowerOfTwo(layouts[k].alignment)
    requires |layouts| < 0x1_0000
    requires total == FRAME_SIZE + SpaceBefore(DeclaredAll(layouts).0, |DeclaredAll(layouts).0|) < 0x1_0000
    ensures |DeclaredAll(layouts).0| == |layouts| && LaidOut(DeclaredAll(layouts).0)
    ensures total == FRAME_SIZE + DeclaredAll(layouts).1
  {
    hide IsPowerOfTwo, IsLaidOut, LaidOut, LocalLayout, SpaceOf;
    if layouts == [] {
      NothingLaidOut();
    } else {
      var init := layouts[..|layouts| - 1];
      var (locals, size) := DeclaredAll(init);
      var (all, _) := DeclaredAll(layouts);
      SpaceOfPrefix(locals, [all[|all| - 1]], |locals|);
      DeclaredIsLaidOut(init, FRAME_SIZE + SpaceBefore(locals, |locals|));
      OneMoreLaidOut(locals, size, layouts[|layouts| - 1]);
    }
  }

  lemma NothingLaidOut()
    ensures LaidOut([])
  {
  }

  // ----- what the prologue does -----

  /** Where local `l` of a frame lies: inside the room reserved for it, at its declared offset if that
      is known, and aligned. */
  predicate PlacedAt(locals: seq<Local>, base: Word, l: nat, ptr: Word)
    requires l < |locals|
  {
    var layout := locals[l].layout;
    && base + FRAME_SIZE + SpaceBefore(locals, l) <= ptr
    && ptr + layout.size <= base + FRAME_SIZE + SpaceBefore(locals, l + 1)
    && layout.alignment > 0 && ptr % layout.alignment == 0
    && (layout.alignment == POINTER_ALIGNMENT ==> ptr == base + locals[l].offset)
  }

  /** The first `n` locals have been allocated, in order, on top of the table. */
  ghost predicate AllocatedLocals(locals: seq<Local>, n: nat, before: State, st: State)
    requires n <= |locals|
  {
    && st.stack == before.stack && st.frame.base == before.frame.base
    && st.memory.generation == before.memory.generation && st.memory.cells == before.memory.cells
    && st.frame.firstLocal == |before.memory.allocations| && st.frame.localGeneration == before.memory.generation % 4
    && st.frame.nextOffset == FRAME_SIZE + SpaceBefore(locals, n)
    && |st.memory.allocations| == |before.memory.allocations| + n
    && before.memory.allocations <= st.memory.allocations
    && forall l :: 0 <= l < n ==> IsSlotOf(locals, l, before, st)
  }

  ghost predicate IsSlotOf(locals: seq<Local>, l: nat, before: State, st: State)
    requires l < |locals|
  {
    |before.memory.allocations| + l < |st.memory.allocations|
    && var a := st.memory.allocations[|before.memory.allocations| + l];
       && a == MakeLocalAlloc(a.ptr, locals[l].layout.size % 0x1_0000_0000, before.memory.generation % 4)
       && PlacedAt(locals, before.frame.base, l, a.ptr)
  }

  /** The frame a call starts with. */
  predicate NewFrame(locals: seq<Local>, st: State) {
    && st.frame.nextOffset == FRAME_SIZE && st.frame.base % POINTER_ALIGNMENT == 0
    && st.frame.base + FRAME_SIZE + SpaceBefore(locals, |locals|) < TWO_64
    && |st.memory.allocations| + |locals| < TWO_30
  }

  lemma {:induction false} SpaceIsAligned(locals: seq<Local>, n: nat)
    requires n <= |locals| && LaidOut(locals)
    ensures SpaceBefore(locals, n) % 8 == 0
  {
    if n > 0 {
      SpaceIsAligned(locals, n - 1);
      assert IsLaidOut(locals, n - 1);
    }
  }

  function AllocInst(layout: Layout): Inst {
    if layout.alignment == POINTER_ALIGNMENT then Inst.LocalAlloc(layout) else Inst.LocalAllocAligned(layout)
  }

  /** The address the next local gets: the end of the frame so far, aligned if need be. */
  function NextLocal(st: State, layout: Layout): Word
    requires layout.alignment > 0
  {
    var start := Wrap(st.frame.base + st.frame.nextOffset);
    if layout.alignment == POINTER_ALIGNMENT then start else Wrap(start + AlignOffset(start, layout.alignment))
  }

  lemma ExecutesAlloc(m: Module, env: Environment, layout: Layout, st: State)
    requires IsLocalLayout(layout)
    ensures Execute(m, env, AllocInst(layout), st)
         == Ok(AllocateLocal(st, NextLocal(st, layout), layout.size, SpaceOf(layout)))
  {
  }

  lemma PointerAligned(locals: seq<Local>, n: nat, base: nat)
    requires LaidOut(locals) && n < |locals| && locals[n].layout.alignment == POINTER_ALIGNMENT && base % 8 == 0
    ensures (base + FRAME_SIZE + SpaceBefore(locals, n)) % 8 == 0
  {
    assert IsLaidOut(locals, n);
    SpaceIsAligned(locals, n);
    SumOfMultiples(base, FRAME_SIZE, 8);
    SumOfMultiples(base + FRAME_SIZE, SpaceBefore(locals, n), 8);
  }

  lemma NextIsPlaced(locals: seq<Local>, n: nat, before: State, st: State)
    requires LaidOut(locals) && NewFrame(locals, before) && n < |locals| && AllocatedLocals(locals, n, before, st)
    ensures locals[n].layout.alignment > 0
    ensures PlacedAt(locals, before.frame.base, n, NextLocal(st, locals[n].layout))
  {
    var layout := locals[n].layout;
    assert IsLaidOut(locals, n);
    SpaceGrows(locals, n + 1, |locals|);
    var start := before.frame.base + FRAME_SIZE + SpaceBefore(locals, n);
    WrapSmall(start);
    if layout.alignment == POINTER_ALIGNMENT {
      PointerAligned(locals, n, before.frame.base);
    } else {
      AlignUp(start, layout.alignment);
      WrapSmall(start + AlignOffset(start, layout.alignment));
    }
  }

  lemma WrapSmall(n: nat)
    requires n < TWO_64
    ensures Wrap(n) == n
  {
  }

  /** One `local_alloc` or `local_alloc_aligned`. */
  lemma AllocatesNext(m: Module, env: Environment, locals: seq<Local>, n: nat, before: State, st: State)
    requires LaidOut(locals) && NewFrame(locals, before) && n < |locals| && AllocatedLocals(locals, n, before, st)
    ensures Execute(m, env, AllocInst(locals[n].layout), st).Ok?
    ensures AllocatedLocals(locals, n + 1, before, Execute(m, env, AllocInst(locals[n].layout), st).state)
  {
    var layout := locals[n].layout;
    assert IsLaidOut(locals, n);
    ExecutesAlloc(m, env, layout, st);
    NextIsPlaced(locals, n, before, st);
    var st' := AllocateLocal(st, NextLocal(st, layout), layout.size, SpaceOf(layout));
    forall l | 0 <= l < n + 1 ensures IsSlotOf(locals, l, before, st') {
      if l < n {
        assert IsSlotOf(locals, l, before, st);
      }
    }
  }

  lemma {:induction false} LocalAllocsAllocate(m: Module, env: Environment, locals: seq<Local>, n: nat, before: State,
                                               st: State)
    requires LaidOut(locals) && NewFrame(locals, before) && n <= |locals| && AllocatedLocals(locals, 0, before, st)
    ensures Run(m, env, LocalAllocs(locals[..n]), st).Ok?
    ensures AllocatedLocals(locals, n, before, Run(m, env, LocalAllocs(locals[..n]), st).state)
  {
    if n > 0 {
      LocalAllocsAllocate(m, env, locals, n - 1, before, st);
      assert locals[..n][..n - 1] == locals[..n - 1];
      var mid := Run(m, env, LocalAllocs(locals[..n - 1]), st).state;
      AllocatesNext(m, env, locals, n - 1, before, mid);
      var i := AllocInst(locals[n - 1].layout);
      assert LocalAllocs(locals[..n]) == LocalAllocs(locals[..n - 1]) + [i];
      RunLast(m, env, LocalAllocs(locals[..n - 1]), i, st);
    }
  }

  /** The prologue of a function with an address-taken local gives every local its allocation, at the
      offset the builder computed, and reserves exactly the space the builder counted. */
  lemma PrologueAllocates(m: Module, env: Environment, locals: seq<Local>, addrCount: nat, before: State)
    requires LaidOut(locals) && NewFrame(locals, before) && addrCount > 0
    ensures Run(m, env, Prologue(locals, addrCount), before).Ok?
    ensures AllocatedLocals(locals, |locals|, before, Run(m, env, Prologue(locals, addrCount), before).state)
  {
    var setup := Inst.SetupLocalAlloc(|locals| % TWO_24);
    RunConcat(m, env, [setup], LocalAllocs(locals), before);
    assert [setup][1..] == [];
    assert locals[..|locals|] == locals;
    LocalAllocsAllocate(m, env, locals, |locals|, before, Execute(m, env, setup, before).state);
  }

  function Reserved(before: State, space: nat): State {
    before.(frame := before.frame.(nextOffset := before.frame.nextOffset + space))
  }

  lemma ReservesMore(m: Module, env: Environment, before: State, space: nat, more: U24)
    ensures Execute(m, env, Inst.LocalStorage(more), Reserved(before, space)) == Ok(Reserved(before, space + more))
  {
  }

  lemma {:induction false} StoragesReserve(m: Module, env: Environment, locals: seq<Local>, before: State)
    requires SpaceBefore(locals, |locals|) < TWO_24
    ensures Run(m, env, LocalStorages(locals), before) == Ok(Reserved(before, SpaceBefore(locals, |locals|)))
  {
    hide SpaceOf, Execute, Reserved;
    if locals == [] {
      NothingReserved(before);
    } else {
      var init, last := locals[..|locals| - 1], locals[|locals| - 1];
      assert locals == init + [last];
      SpaceOfPrefix(init, [last], |init|);
      StoragesReserve(m, env, init, before);
      var space := SpaceOf(last.layout);
      if space != 0 {
        RunLast(m, env, LocalStorages(init), Inst.LocalStorage(space), before);
        ReservesMore(m, env, before, SpaceBefore(init, |init|), space);
      } else {
        assert LocalStorages(init) + [] == LocalStorages(init);
      }
    }
  }

  lemma NothingReserved(before: State)
    ensures Reserved(before, 0) == before
  {
  }

  /** Without an address-taken local the prologue only reserves the same space. */
  lemma PrologueReserves(m: Module, env: Environment, locals: seq<Local>, before: State)
    requires SpaceBefore(locals, |locals|) < TWO_24
    ensures Run(m, env, Prologue(locals, 0), before)
         == Ok(before.(frame := before.frame.(nextOffset := before.frame.nextOffset + SpaceBefore(locals, |locals|))))
  {
    StoragesReserve(m, env, locals, before);
  }

  /** Distinct locals never overlap. */
  lemma LocalsAreDisjoint(locals: seq<Local>, before: State, st: State, i: nat, j: nat)
    requires AllocatedLocals(locals, |locals|, before, st) && i < j < |locals|
    ensures st.memory.allocations[st.frame.firstLocal + i].ptr + locals[i].layout.size
         <= st.memory.allocations[st.frame.firstLocal + j].ptr
    ensures st.memory.allocations[st.frame.firstLocal + j].ptr + locals[j].layout.size
         <= st.frame.base + st.frame.nextOffset
  {
    assert IsSlotOf(locals, i, before, st) && IsSlotOf(locals, j, before, st);
    SpaceGrows(locals, i + 1, j);
    SpaceGrows(locals, j + 1, |locals|);
  }

  lemma AllocatedSlotsOk(m: Module, before: State, st: State)
    requires LaidOut(m.locals) && NewFrame(m.locals, before) && AllocatedLocals(m.locals, |m.locals|, before, st)
    requires forall g :: 0 <= g < |m.globals| ==> GlobalSlotOk(m, before.memory, g)
    ensures SlotsOk(m, st.frame, st.memory)
  {
    forall l | 0 <= l < |m.locals| ensures LocalSlotOk(m, st.frame, st.memory, l) {
      assert IsSlotOf(m.locals, l, before, st);
      assert IsLaidOut(m.locals, l);
      SpaceGrows(m.locals, l, |m.locals|);
    }
    forall g | 0 <= g < |m.globals| ensures GlobalSlotOk(m, st.memory, g) {
      assert GlobalSlotOk(m, before.memory, g);
    }
  }

  /** After the prologue the slots are where the builder's folding assumes them. */
  lemma PrologueGivesSlots(m: Module, env: Environment, addrCount: nat, before: State)
    requires LaidOut(m.locals) && NewFrame(m.locals, before) && addrCount > 0
    requires forall g :: 0 <= g < |m.globals| ==> GlobalSlotOk(m, before.memory, g)
    ensures Run(m, env, Prologue(m.locals, addrCount), before).Ok?
    ensures var st := Run(m, env, Prologue(m.locals, addrCount), before).state; SlotsOk(m, st.frame, st.memory)
  {
    PrologueAllocates(m, env, m.locals, addrCount, before);
    AllocatedSlotsOk(m, before, Run(m, env, Prologue(m.locals, addrCount), before).state);
  }

  // ----- freeing them again -----

  /** `return_free` marks exactly the frame's slots freed, and panics exactly when one is split. */
  lemma {:induction false} FreeLocalsEffect(table: seq<Allocation>, first: nat, count: nat)
    requires first + count <= |table|
    ensures FreeLocals(table, first, count).None?
       <==> exists k :: first <= k < first + count && table[k].split != Unsplit
    ensures var freed := FreeLocals(table, first, count);
            freed.Some? ==>
              |freed.value| == |table|
              && (forall k :: 0 <= k < |table| ==>
                    freed.value[k] == if first <= k < first + count then table[k].(status := Freed) else table[k])
    decreases count
  {
    if count > 0 && table[first].split == Unsplit {
      var marked := table[first := table[first].(status := Freed)];
      FreeLocalsEffect(marked, first + 1, count - 1);
      assert forall k :: first < k < first + count ==> marked[k] == table[k];
    }
  }
}
