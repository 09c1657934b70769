// Which stale addresses the two generation bits catch.

module Generations {
  import opened Words
  import opened Allocations
  import opened Bytecode
  import opened Vm
  import opened Blocks
  import opened Collector
  import opened Pieces
  import opened Ledgers

  /** The allocation in a slot: the how-manieth it is, and how often the table had shrunk before it. */
  datatype Stamp = Stamp(serial: nat, born: nat)

  /** A process with, for each slot, the stamp of the allocation that is in it now. */
  datatype History = History(ledger: Ledger, shrinks: nat, stamps: seq<Stamp>, next: nat)

  function Table(h: History): seq<Allocation> { h.ledger.memory.allocations }

  ghost function Advance(h: History, e: Event): History
    requires |h.stamps| == |Table(h)|
  {
    var l' := After(h.ledger, e);
    var n, n' := |h.stamps|, |l'.memory.allocations|;
    if n' < n then History(l', h.shrinks + 1, h.stamps[..n'], h.next)
    else if n' > n then History(l', h.shrinks, h.stamps + [Stamp(h.next, h.shrinks)], h.next + 1)
    else h.(ledger := l')
  }

  /** New slots carry the current generation, except those of fibers, which carry generation 0. */
  predicate Stamped(h: History, e: Event) {
    e.Add? ==> e.a.generation % 4 == if e.a.source == FiberMemory then 0 else h.ledger.memory.generation % 4
  }

  predicate Consistent(h: History) {
    && |h.stamps| == |Table(h)|
    && h.ledger.memory.generation == h.shrinks % 0x100
    && (forall i :: 0 <= i < |h.stamps| ==> h.stamps[i].serial < h.next && h.stamps[i].born <= h.shrinks)
    && (forall i :: 0 <= i < |h.stamps| ==> GenerationOk(Table(h)[i], h.stamps[i]))
  }

  predicate GenerationOk(a: Allocation, s: Stamp) {
    a.generation % 4 == if a.source == FiberMemory then 0 else s.born % 4
  }

  // ----- one event -----

  /** An event keeps the generation and the source of every slot it does not drop. */
  predicate SameIdentity(t: seq<Allocation>, t': seq<Allocation>) {
    forall i :: 0 <= i < |t| && i < |t'| ==> t'[i].generation == t[i].generation && t'[i].source == t[i].source
  }

  lemma DroppedPrefix(t: seq<Allocation>)
    ensures DropFreed(t) <= t
    ensures forall i :: 0 <= i < |t| && Live(t[i]) ==> i < |DropFreed(t)|
  {
  }

  /** Only a shrink drops slots, it never drops a live one, and at most one slot is added. */
  lemma EventEffect(l: Ledger, e: Event)
    ensures var t, t' := l.memory.allocations, After(l, e).memory.allocations;
            SameIdentity(t, t') && |t'| <= |t| + 1 && forall i :: 0 <= i < |t| && Live(t[i]) ==> i < |t'|
  {
    var t := l.memory.allocations;
    match e {
      case DropFreedSlots => DroppedPrefix(t);
      case Collect(roots) => assert IsSwept(t, roots, SweptTable(t, roots));
      case _ =>
    }
  }

  /** The generation goes up when the table shrinks. */
  lemma ShrinkCounts(l: Ledger, e: Event)
    ensures var t, t' := l.memory.allocations, After(l, e).memory.allocations;
            After(l, e).memory.generation == (l.memory.generation + (if |t'| < |t| then 1 else 0)) % 0x100
  {
  }

  lemma NewSlotOf(l: Ledger, e: Event)
    requires |After(l, e).memory.allocations| == |l.memory.allocations| + 1 && !e.SplitUp?
    ensures var t, t' := l.memory.allocations, After(l, e).memory.allocations;
            (e.Take? && t'[|t|].generation == l.memory.generation && t'[|t|].source == HeapMemory)
            || (e.Add? && t'[|t|] == e.a)
  {
  }

  lemma CounterWraps(shrinks: nat)
    ensures (shrinks % 0x100) % 4 == shrinks % 4
    ensures (shrinks % 0x100 + 1) % 0x100 == (shrinks + 1) % 0x100
  {
  }

  lemma AdvanceKeeps(h: History, e: Event)
    requires Consistent(h) && Stamped(h, e) && !e.SplitUp?
    ensures Consistent(Advance(h, e))
  {
    EventEffect(h.ledger, e);
    ShrinkCounts(h.ledger, e);
    CounterWraps(h.shrinks);
    var h' := Advance(h, e);
    if |h'.stamps| > |h.stamps| {
      NewSlotOf(h.ledger, e);
    }
    forall i | 0 <= i < |h'.stamps| ensures GenerationOk(Table(h')[i], h'.stamps[i]) {
      if i < |h.stamps| {
        assert GenerationOk(Table(h)[i], h.stamps[i]);
      }
    }
  }

  // ----- a run -----

  ghost function AdvanceAll(h: History, es: seq<Event>): History
    requires |h.stamps| == |Table(h)|
    decreases |es|
  {
    if es == [] then h
    else
      EventEffect(h.ledger, es[0]);
      AdvanceAll(Advance(h, es[0]), es[1..])
  }

  ghost predicate AllStamped(h: History, es: seq<Event>)
    requires |h.stamps| == |Table(h)|
    decreases |es|
  {
    es == []
    || (Stamped(h, es[0]) && !es[0].SplitUp?
        && (EventEffect(h.ledger, es[0]); AllStamped(Advance(h, es[0]), es[1..])))
  }

  /** What has become of the slots of `h0`: each holds its allocation still, or one that was made
      after a later shrink. */
  predicate Since(h0: History, h: History) {
    && h0.next <= h.next && h0.shrinks <= h.shrinks
    && (|h.stamps| < |h0.stamps| ==> h0.shrinks < h.shrinks)
    && forall i :: 0 <= i < |h0.stamps| && i < |h.stamps| ==> StillOrLater(h0, h, i)
  }

  predicate StillOrLater(h0: History, h: History, i: nat)
    requires i < |h0.stamps| && i < |h.stamps|
  {
    h.stamps[i] == h0.stamps[i] || (h.stamps[i].serial >= h0.next && h.stamps[i].born > h0.shrinks)
  }

  lemma AdvanceSince(h0: History, h: History, e: Event)
    requires Consistent(h) && Stamped(h, e) && !e.SplitUp? && Since(h0, h)
    ensures Since(h0, Advance(h, e))
  {
    EventEffect(h.ledger, e);
    var h' := Advance(h, e);
    forall i | 0 <= i < |h0.stamps| && i < |h'.stamps| ensures StillOrLater(h0, h', i) {
      assert i < |h.stamps| ==> StillOrLater(h0, h, i);
    }
  }

  lemma {:induction false} RunSince(h0: History, h: History, es: seq<Event>)
    requires Consistent(h) && Since(h0, h) && AllStamped(h, es)
    ensures Consistent(AdvanceAll(h, es)) && Since(h0, AdvanceAll(h, es))
    decreases |es|
  {
    if es != [] {
      AdvanceKeeps(h, es[0]);
      AdvanceSince(h0, h, es[0]);
      RunSince(h0, Advance(h, es[0]), es[1..]);
    }
  }

  ghost predicate LiveThroughout(h: History, es: seq<Event>, i: nat)
    requires |h.stamps| == |Table(h)|
    decreases |es|
  {
    && i < |Table(h)| && Live(Table(h)[i])
    && (es == [] || (EventEffect(h.ledger, es[0]); LiveThroughout(Advance(h, es[0]), es[1..], i)))
  }

  /** A live slot never moves: it keeps its index, its allocation and its generation. */
  lemma {:induction false} LiveSlotStays(h: History, es: seq<Event>, i: nat)
    requires |h.stamps| == |Table(h)| && LiveThroughout(h, es, i)
    ensures var h' := AdvanceAll(h, es);
            i < |Table(h')| && |h'.stamps| == |Table(h')| && h'.stamps[i] == h.stamps[i]
            && Table(h')[i].generation == Table(h)[i].generation
    decreases |es|
  {
    if es != [] {
      EventEffect(h.ledger, es[0]);
      LiveSlotStays(Advance(h, es[0]), es[1..], i);
    }
  }

  // ----- addresses -----

  /** The address of the allocation in slot `i`. */
  function AddressOf(h: History, i: nat, offset: U32): Word
    requires i < |Table(h)|
  {
    MakeAddress(i, Table(h)[i].generation, offset)
  }

  lemma Resolves(t: seq<Allocation>, i: nat, generation: U8, offset: U32)
    requires i < TWO_30
    ensures TryGet(t, MakeAddress(i, generation, offset))
         == if i < |t| && t[i].generation % 4 == generation % 4 then Some(i) else None
  {
    AddressRoundTrip(i, generation, offset);
  }

  /** The address of a slot that stays live resolves to it throughout. */
  lemma LiveAddressResolves(h: History, es: seq<Event>, i: nat, offset: U32)
    requires |h.stamps| == |Table(h)| && LiveThroughout(h, es, i) && i < TWO_30
    ensures TryGet(Table(AdvanceAll(h, es)), AddressOf(h, i, offset)) == Some(i)
  {
    LiveSlotStays(h, es, i);
    Resolves(Table(AdvanceAll(h, es)), i, Table(h)[i].generation, offset);
  }

  /** What becomes of an address of slot `i` of `h`, by the time of `h'`. */
  ghost predicate AddressFate(h: History, h': History, i: nat, offset: U32)
    requires i < |Table(h)| == |h.stamps| && |h'.stamps| == |Table(h')|
  {
    var found := TryGet(Table(h'), AddressOf(h, i, offset));
    if i >= |Table(h')| then found == None
    else if Table(h')[i].source == FiberMemory then found == Some(i) <==> h.stamps[i].born % 4 == 0
    else if h'.stamps[i] == h.stamps[i] then found == Some(i)
    else
      var between := h'.stamps[i].born - h.stamps[i].born;
      between > 0 && (found == Some(i) <==> between % 4 == 0)
  }

  lemma FateOf(h: History, h': History, i: nat, offset: U32)
    requires Consistent(h) && Consistent(h') && Since(h, h')
    requires i < |Table(h)| && i < TWO_30 && Table(h)[i].source != FiberMemory
    ensures AddressFate(h, h', i, offset)
  {
    Resolves(Table(h'), i, Table(h)[i].generation, offset);
    if i < |Table(h')| {
      SlotsMatch(h, h', i);
    }
  }

  /** The address of a heap or local allocation after any run of allocations, frees and shrinks.
      With the slot gone it is refused.  With the slot reused by another allocation that is not a
      fiber, the table has shrunk in between, and the address is accepted if and only if it has
      shrunk a multiple of 4 times.  A fiber in the slot has generation 0. */
  lemma StaleAddress(h: History, es: seq<Event>, i: nat, offset: U32)
    requires Consistent(h) && AllStamped(h, es) && i < |Table(h)| && i < TWO_30 && Table(h)[i].source != FiberMemory
    ensures |AdvanceAll(h, es).stamps| == |Table(AdvanceAll(h, es))| && AddressFate(h, AdvanceAll(h, es), i, offset)
  {
    RunSince(h, h, es);
    FateOf(h, AdvanceAll(h, es), i, offset);
  }

  /** Two allocations of one slot have the same generation bits if the shrinks between them are a
      multiple of 4. */
  lemma SlotsMatch(h: History, h': History, i: nat)
    requires Consistent(h) && Consistent(h') && Since(h, h') && i < |h.stamps| && i < |h'.stamps|
    ensures StillOrLater(h, h', i)
    ensures GenerationOk(Table(h)[i], h.stamps[i]) && GenerationOk(Table(h')[i], h'.stamps[i])
    ensures Table(h)[i].source != FiberMemory && Table(h')[i].source != FiberMemory ==>
              (Table(h')[i].generation % 4 == Table(h)[i].generation % 4
               <==> (h'.stamps[i].born - h.stamps[i].born) % 4 == 0)
  {
    assert GenerationOk(Table(h)[i], h.stamps[i]) && GenerationOk(Table(h')[i], h'.stamps[i]);
    SameMod4(h'.stamps[i].born, h.stamps[i].born);
  }

  lemma SameMod4(a: nat, b: nat)
    ensures a % 4 == b % 4 <==> (a - b) % 4 == 0
  {
  }

  /** A piece split off keeps the generation of the whole, so shrinks do not count: the address of
      an earlier allocation in the slot the piece gets is accepted if and only if that allocation had
      the generation of the allocation that was split. */
  lemma SplitRevivesStaleAddress(t: seq<Allocation>, addr: Word, generation: U8, offset: U32)
    requires SplitAllocation(t, addr).Some? && |t| < TWO_30
    ensures TryGet(SplitAllocation(t, addr).value, MakeAddress(|t|, generation, offset)) == Some(|t|)
            <==> generation % 4 == t[TryGet(t, addr).value].generation % 4
  {
    Resolves(SplitAllocation(t, addr).value, |t|, generation, offset);
  }
}
