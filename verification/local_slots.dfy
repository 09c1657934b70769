// Counting, allocating and freeing the locals of a function, put together: every instruction that takes
// the address of a local finds its slot, and a return frees exactly the slots of the function.

module LocalSlots {
  import opened Words
  import opened Allocations
  import opened Bytecode
  import opened Vm
  import opened Blocks
  import opened Flat
  import opened Builder
  import opened Compiler
  import opened Emission
  import opened FrameLocals
  import opened AddressCount
  import opened EmittedCode

  /** A builder before its first call, with `n` blocks. */
  function NewSession(inputs: seq<U8>): (s: Session)
    ensures |s.builds| == |inputs|
  {
    Session(seq(|inputs|, i requires 0 <= i < |inputs| => Fresh(inputs[i], 0)), 0)
  }

  lemma {:induction false} NothingCounted(builds: seq<Build>)
    requires forall k :: 0 <= k < |builds| ==> builds[k].insts == []
    ensures Total(builds) == 0
  {
    if builds != [] {
      NothingCounted(builds[..|builds| - 1]);
    }
  }

  ghost predicate SessionEmitted(m: Module, s: Session) {
    forall k :: 0 <= k < |s.builds| ==> AllEmitted(m, s.builds[k].insts)
  }

  lemma {:induction false} PerformAllEmitted(m: Module, s: Session, calls: seq<Action>)
    requires SessionEmitted(m, s) && forall k :: 0 <= k < |calls| ==> calls[k].block < |s.builds|
    ensures SessionEmitted(m, PerformAll(m, s, calls))
  {
    if calls != [] {
      var init, c := calls[..|calls| - 1], calls[|calls| - 1];
      PerformAllEmitted(m, s, init);
      var before := PerformAll(m, s, init);
      var b := before.builds[c.block].(addrCount := before.count);
      match c
      case Make(_, op) => EmitEmitted(m, op, b);
      case Finish(_, inputs, outputs, end) => EndEmitted(m, inputs, outputs, end, b);
    }
  }

  lemma {:induction false} AddrIsCounted(insts: seq<Inst>, k: nat)
    requires k < |insts| && insts[k].LocalAddr?
    ensures Addrs(insts) > 0
  {
    if k < |insts| - 1 {
      AddrIsCounted(insts[..|insts| - 1], k);
    }
  }

  lemma {:induction false} BlockIsCounted(builds: seq<Build>, i: nat)
    requires i < |builds|
    ensures Addrs(builds[i].insts) <= Total(builds)
  {
    if i < |builds| - 1 {
      BlockIsCounted(builds[..|builds| - 1], i);
    }
  }

  /** A function as its builder leaves it: the blocks with their instructions, the counter that decides
      about the prologue, and what a return frees. */
  ghost predicate IsBuiltBy(m: Module, inputs: seq<U8>, calls: seq<Action>, body: Body, addrCount: nat) {
    && (forall k :: 0 <= k < |calls| ==> calls[k].block < |inputs|)
    && var s := PerformAll(m, NewSession(inputs), calls);
       && Healthy(s) && |body.blocks| == |inputs| && addrCount == Counter16(s)
       && (forall i :: 0 <= i < |inputs| ==> body.blocks[i].insts == s.builds[i].insts)
       && body.freeCount == FreeCount(m.locals, addrCount)
  }

  /** How many instructions take the address of a local, in all blocks. */
  function AddrsIn(blocks: seq<CodeBlock>): nat {
    if blocks == [] then 0 else AddrsIn(blocks[..|blocks| - 1]) + Addrs(blocks[|blocks| - 1].insts)
  }

  lemma {:induction false} SameTotal(blocks: seq<CodeBlock>, builds: seq<Build>)
    requires |blocks| == |builds| && forall i :: 0 <= i < |blocks| ==> blocks[i].insts == builds[i].insts
    ensures AddrsIn(blocks) == Total(builds)
  {
    if blocks != [] {
      SameTotal(blocks[..|blocks| - 1], builds[..|builds| - 1]);
    }
  }

  /** The counter is the number of such instructions modulo 2^16. */
  lemma CounterOf(m: Module, inputs: seq<U8>, calls: seq<Action>, body: Body, addrCount: nat)
    requires IsBuiltBy(m, inputs, calls, body, addrCount)
    ensures addrCount == AddrsIn(body.blocks) % 0x1_0000
  {
    var s0 := NewSession(inputs);
    NothingCounted(s0.builds);
    CountIsTotal(m, s0, calls);
    SameTotal(body.blocks, PerformAll(m, s0, calls).builds);
  }

  /** The instruction takes the address of a local of the function. */
  lemma TakesLocal(m: Module, inputs: seq<U8>, calls: seq<Action>, body: Body, addrCount: nat, i: nat, k: nat)
    requires IsBuiltBy(m, inputs, calls, body, addrCount)
    requires i < |body.blocks| && k < |body.blocks[i].insts| && body.blocks[i].insts[k].LocalAddr?
    ensures IsLocalIndex(m, body.blocks[i].insts[k].index) && AddrsIn(body.blocks) > 0
  {
    var s0 := NewSession(inputs);
    var s := PerformAll(m, s0, calls);
    PerformAllEmitted(m, s0, calls);
    assert AllEmitted(m, s.builds[i].insts);
    assert MayEmit(m, body.blocks[i].insts[k]);
    AddrIsCounted(body.blocks[i].insts, k);
    BlockIsCounted(s.builds, i);
    SameTotal(body.blocks, s.builds);
  }

  /** The slot a `local_addr` names in a frame that the prologue has set up is that of its local. */
  ghost predicate FindsItsSlot(m: Module, before: State, st: State, index: nat) {
    exists l :: 0 <= l < |m.locals| && m.locals[l].index == index && IsSlotOf(m.locals, l, before, st)
                && TryGet(st.memory.allocations, Vm.LocalAddress(st.frame, index))
                    == Some(|before.memory.allocations| + l)
  }

  /** With the locals allocated, the address of one names its slot. */
  lemma SlotIsFound(m: Module, before: State, st: State, index: nat)
    requires LaidOut(m.locals) && NewFrame(m.locals, before) && AllocatedLocals(m.locals, |m.locals|, before, st)
    requires IsLocalIndex(m, index)
    ensures FindsItsSlot(m, before, st, index)
  {
    hide MakeAddress, AddressAllocation, AddressGeneration, AddressOffset, PlacedAt, SpaceBefore;
    var l :| 0 <= l < |m.locals| && m.locals[l].index == index;
    assert IsLaidOut(m.locals, l) && IsSlotOf(m.locals, l, before, st);
    AddressRoundTrip(st.frame.firstLocal + index, st.frame.localGeneration, 0);
  }

  /** Whatever calls a function was built with, as long as the number of its `local_addr` instructions is
      no positive multiple of 2^16: in a new frame, after the prologue, every such instruction in any of
      its blocks finds the slot of its local, which was not there before. */
  lemma AddressesHaveSlots(m: Module, env: Environment, inputs: seq<U8>, calls: seq<Action>, body: Body, addrCount: nat,
                           before: State, i: nat, k: nat)
    requires IsBuiltBy(m, inputs, calls, body, addrCount)
    requires LaidOut(m.locals) && NewFrame(m.locals, before)
    requires AddrsIn(body.blocks) % 0x1_0000 != 0
    requires i < |body.blocks| && k < |body.blocks[i].insts| && body.blocks[i].insts[k].LocalAddr?
    ensures Run(m, env, Prologue(m.locals, addrCount), before).Ok?
    ensures FindsItsSlot(m, before, Run(m, env, Prologue(m.locals, addrCount), before).state,
                         body.blocks[i].insts[k].index)
  {
    hide IsBuiltBy, AllocatedLocals, LaidOut, NewFrame, FindsItsSlot, Prologue;
    CounterOf(m, inputs, calls, body, addrCount);
    TakesLocal(m, inputs, calls, body, addrCount, i, k);
    PrologueAllocates(m, env, m.locals, addrCount, before);
    SlotIsFound(m, before, Run(m, env, Prologue(m.locals, addrCount), before).state, body.blocks[i].insts[k].index);
  }

  /** When such a function returns from the frame, exactly the slots that the prologue made are freed:
      as many as there are locals if any has its address taken, and none otherwise.  It panics exactly
      if one of them is in pieces. */
  lemma ReturnFreesThem(m: Module, env: Environment, inputs: seq<U8>, calls: seq<Action>, body: Body, addrCount: nat,
                        before: State, st': State)
    requires IsBuiltBy(m, inputs, calls, body, addrCount)
    requires LaidOut(m.locals) && NewFrame(m.locals, before) && SpaceBefore(m.locals, |m.locals|) < TWO_24
    requires |m.locals| < TWO_24 && Run(m, env, Prologue(m.locals, addrCount), before).Ok?
    requires var st := Run(m, env, Prologue(m.locals, addrCount), before).state;
             st'.frame == st.frame && |st'.memory.allocations| >= |st.memory.allocations|
    ensures var st := Run(m, env, Prologue(m.locals, addrCount), before).state;
            var first, last := |before.memory.allocations|, |st.memory.allocations|;
            && last == first + body.freeCount
            && match ReturnWith(st', body.freeCount)
               case Returned(after) =>
                 exists t ::
                   && Freeing(st'.memory.allocations, first, last, t)
                   && after == (if first == last then st'
                                else st'.(memory := RemoveFreed(st'.memory.(allocations := t))))
               case _ => exists j :: first <= j < last && st'.memory.allocations[j].split != Unsplit
  {
    var st := Run(m, env, Prologue(m.locals, addrCount), before).state;
    if addrCount > 0 {
      PrologueAllocates(m, env, m.locals, addrCount, before);
    } else {
      PrologueReserves(m, env, m.locals, before);
    }
    var t := st'.memory.allocations;
    if body.freeCount == 0 {
      assert Freeing(t, |before.memory.allocations|, |st.memory.allocations|, t);
    } else {
      FreeLocalsEffect(t, st'.frame.firstLocal, body.freeCount);
      match FreeLocals(t, st'.frame.firstLocal, body.freeCount)
      case None =>
      case Some(t') => assert Freeing(t, |before.memory.allocations|, |st.memory.allocations|, t');
    }
  }

  /** The slots from `first` up to `last` are freed, and no others change. */
  ghost predicate Freeing(t: seq<Allocation>, first: nat, last: nat, t': seq<Allocation>) {
    |t'| == |t| && forall j :: 0 <= j < |t| ==> t'[j] == if first <= j < last then t[j].(status := Freed) else t[j]
  }

  /** A single block never ends in a two-way branch: it could only branch to itself, and that is a jump. */
  lemma CompiledIsFlat(m: Module, src: FunctionSource, body: Body, reach: seq<bool>, prologue: seq<Inst>)
    requires Compiles(m, src, body, reach) && ClosedReach(body, reach)
    ensures BodyCode(body, reach, prologue) == FlatCode(body, reach, prologue)
  {
    if |body.blocks| == 1 {
      assert body.blocks[0].terminator == Compiled(m, src, 0).1;
    }
  }
}
