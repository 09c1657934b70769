// Stack depths of flat code: what the builder guarantees of every instruction of a function.

module Typing {
  import opened Words
  import opened Allocations
  import opened Bytecode
  import opened Layouts
  import opened Vm
  import opened Blocks
  import opened Flat
  import opened Builder
  import opened Compiler
  import opened Depth
  import opened Emission
  import opened CompiledFunctions
  import Refinement

  /** A call that never returns. */
  predicate AlwaysPanics(i: Inst) {
    i.CallBuiltin? && i.builtin.alwaysPanic && i.builtin.impl.Other?
  }

  /** Depths are handed on: `at` holds of an instruction and the stack depths it is reached with. */
  ghost predicate HandsOn(m: Module, code: seq<Inst>, outputs: nat, limit: nat, at: (nat, nat) -> bool, pc: nat,
                          d: nat) {
    && pc < |code| && d <= limit
    && match code[pc]
       case Return => d == outputs
       case ReturnFree(_) => d == outputs
       case Jump(t) => 0 <= pc + t && at(pc + t, d)
       case BranchIf(_, t) => d > 0 && 0 <= pc + t && at(pc + t, d - 1) && at(pc + 1, d - 1)
       case Panic => d > 0
       case Exit => false
       case i =>
         Consumes(m, i) <= d
         && (AlwaysPanics(i) || at(pc + 1, d - Consumes(m, i) + Produces(m, i)))
  }

  /** A function whose every instruction is reached with depths that suit it. */
  ghost predicate Typed(m: Module, code: seq<Inst>, sig: Signature, limit: nat, at: (nat, nat) -> bool) {
    && at(0, sig.inputs)
    && forall pc: nat, d: nat {:trigger HandsOn(m, code, sig.outputs, limit, at, pc, d)} ::
         at(pc, d) ==> HandsOn(m, code, sig.outputs, limit, at, pc, d)
  }

  // ----- the depths of a compiled function -----

  /** `max_vstack_size`: the largest depth any block had while it was built. */
  function MaxDepth(m: Module, src: FunctionSource, n: nat): nat
    requires n <= |src.blocks|
  {
    if n == 0 then 0
    else Max(MaxDepth(m, src, n - 1), EmitAll(m, src.blocks[n - 1].ops, Fresh(src.blocks[n - 1].inputs, 0)).max)
  }

  lemma {:induction false} MaxDepthBounds(m: Module, src: FunctionSource, i: nat, n: nat)
    requires i < n <= |src.blocks|
    ensures EmitAll(m, src.blocks[i].ops, Fresh(src.blocks[i].inputs, 0)).max <= MaxDepth(m, src, n)
  {
    if i < n - 1 {
      MaxDepthBounds(m, src, i, n - 1);
    }
  }

  /** It is what finishing the function records. */
  lemma {:induction false} MaxDepthIsLargest(m: Module, src: FunctionSource, n: nat, depths: seq<nat>)
    requires n == |depths| <= |src.blocks|
    requires forall i :: 0 <= i < n ==> depths[i] == EmitAll(m, src.blocks[i].ops, Fresh(src.blocks[i].inputs, 0)).max
    ensures MaxDepth(m, src, n) == Largest(depths)
  {
    if n > 0 {
      MaxDepthIsLargest(m, src, n - 1, depths[..n - 1]);
    }
  }

  /** The depth before the `t`-th instruction of a block's code, its marker included. */
  function BlockDepth(m: Module, insts: seq<Inst>, inputs: nat, limit: nat, t: nat): Option<nat> {
    if t == 0 then (if inputs <= limit then Some(inputs) else None)
    else if t - 1 <= |insts| then DepthAfter(m, insts[..t - 1], inputs, limit)
    else
      match DepthAfter(m, insts, inputs, limit)
      case Some(e) => if e > 0 then Some(e - 1) else None
      case None => None
  }

  /** The instructions of a block that can be reached: nothing follows a call that always panics. */
  function ReachedCode(body: Body, reach: seq<bool>, i: nat): nat
    requires i < |body.blocks| == |reach|
  {
    if body.blocks[i].terminator == Terminated then |body.blocks[i].insts| else |BlockCode(body, reach, i)|
  }

  predicate InBlock(m: Module, src: FunctionSource, body: Body, reach: seq<bool>, base: nat, limit: nat,
                    i: nat, pc: nat, d: nat)
    requires |src.blocks| == |body.blocks| == |reach|
  {
    i < |reach| && reach[i]
    && OffsetOf(body, reach, base, i) <= pc < OffsetOf(body, reach, base, i) + ReachedCode(body, reach, i)
    && BlockDepth(m, body.blocks[i].insts, src.blocks[i].inputs, limit, pc - OffsetOf(body, reach, base, i)) == Some(d)
  }

  predicate DepthAt(m: Module, src: FunctionSource, body: Body, reach: seq<bool>, base: nat, limit: nat, pc: nat,
                    d: nat)
    requires |src.blocks| == |body.blocks| == |reach| > 0
  {
    (pc < base && d == src.blocks[0].inputs)
    || exists i :: 0 <= i < |reach| && InBlock(m, src, body, reach, base, limit, i, pc, d)
  }

  /** What is known of each reachable block of a compiled function. */
  predicate BlockFine(m: Module, src: FunctionSource, body: Body, limit: nat, i: nat)
    requires i < |src.blocks| == |body.blocks|
  {
    var depth := DepthAfter(m, body.blocks[i].insts, src.blocks[i].inputs, limit);
    && depth.Some? && EndsAtDepth(src, body.blocks[i].terminator, depth.value)
    && body.blocks[i].terminator != Unterminated
    && (body.blocks[i].terminator == Terminated ==> EndsPanicking(body.blocks[i].insts))
  }

  lemma {:induction false} EntryDepth(m: Module, insts: seq<Inst>, d: nat, limit: nat)
    requires DepthAfter(m, insts, d, limit).Some?
    ensures DepthAfter(m, [], d, limit) == Some(d) && d <= limit
  {
    DepthPrefix(m, insts, 0, d, limit);
    assert insts[..0] == [];
  }

  ghost predicate AllFine(m: Module, src: FunctionSource, body: Body, reach: seq<bool>, limit: nat) {
    |src.blocks| == |body.blocks| == |reach|
    && forall i :: 0 <= i < |reach| && reach[i] ==> BlockFine(m, src, body, limit, i)
  }

  /** The entry of a reachable block, at its marker. */
  lemma BlockStart(m: Module, src: FunctionSource, body: Body, reach: seq<bool>, base: nat, limit: nat, i: nat)
    requires AllFine(m, src, body, reach, limit) && i < |reach| && reach[i]
    ensures DepthAt(m, src, body, reach, base, limit, OffsetOf(body, reach, base, i), src.blocks[i].inputs)
  {
    assert BlockFine(m, src, body, limit, i);
    EntryDepth(m, body.blocks[i].insts, src.blocks[i].inputs, limit);
    assert InBlock(m, src, body, reach, base, limit, i, OffsetOf(body, reach, base, i), src.blocks[i].inputs);
  }

  /** The end of a block's code is the start of the next reachable block. */
  lemma FallsInto(m: Module, src: FunctionSource, body: Body, reach: seq<bool>, base: nat, limit: nat, i: nat)
    requires AllFine(m, src, body, reach, limit) && i < |reach| && reach[i] && NextReachable(reach, i) < |reach|
    ensures DepthAt(m, src, body, reach, base, limit, OffsetOf(body, reach, base, i) + |BlockCode(body, reach, i)|,
                    src.blocks[NextReachable(reach, i)].inputs)
  {
    var next := NextReachable(reach, i);
    SameOffset(body, reach, i + 1, next);
    BlockStart(m, src, body, reach, base, limit, next);
  }

  lemma PlaceInBlock(m: Module, src: FunctionSource, body: Body, reach: seq<bool>, base: nat, limit: nat, i: nat,
                     t: nat, d: nat)
    requires AllFine(m, src, body, reach, limit) && i < |reach| && reach[i] && t < ReachedCode(body, reach, i)
    requires BlockDepth(m, body.blocks[i].insts, src.blocks[i].inputs, limit, t) == Some(d)
    ensures DepthAt(m, src, body, reach, base, limit, OffsetOf(body, reach, base, i) + t, d)
  {
    assert InBlock(m, src, body, reach, base, limit, i, OffsetOf(body, reach, base, i) + t, d);
  }

  /** Just before the terminator of a block: in the block, or already in the next one if the
      terminator takes no instruction. */
  lemma TailDepth(m: Module, src: FunctionSource, body: Body, reach: seq<bool>, base: nat, limit: nat, i: nat)
    requires AllFine(m, src, body, reach, limit) && i < |reach| && reach[i] && body.blocks[i].terminator != Terminated
    ensures DepthAt(m, src, body, reach, base, limit, TailOf(body, reach, base, i),
                    DepthAfter(m, body.blocks[i].insts, src.blocks[i].inputs, limit).value)
  {
    var insts, d := body.blocks[i].insts, DepthAfter(m, body.blocks[i].insts, src.blocks[i].inputs, limit).value;
    assert BlockFine(m, src, body, limit, i);
    assert insts[..|insts|] == insts;
    if Tail(body, reach, i) == [] {
      assert body.blocks[i].terminator == JumpTo(NextReachable(reach, i));
      FallsInto(m, src, body, reach, base, limit, i);
    } else {
      PlaceInBlock(m, src, body, reach, base, limit, i, 1 + |insts|, d);
    }
  }

  /** Just after the marker of a block, where jumps land. */
  lemma Landing(m: Module, src: FunctionSource, body: Body, reach: seq<bool>, base: nat, limit: nat, i: nat)
    requires AllFine(m, src, body, reach, limit) && i < |reach| && reach[i]
    ensures DepthAt(m, src, body, reach, base, limit, OffsetOf(body, reach, base, i) + 1, src.blocks[i].inputs)
  {
    var insts := body.blocks[i].insts;
    assert BlockFine(m, src, body, limit, i);
    EntryDepth(m, insts, src.blocks[i].inputs, limit);
    assert insts[..0] == [];
    if insts == [] {
      TailDepth(m, src, body, reach, base, limit, i);
    } else {
      PlaceInBlock(m, src, body, reach, base, limit, i, 1, src.blocks[i].inputs);
    }
  }

  /** What follows an instruction of a block's straight code. */
  lemma AfterInst(m: Module, src: FunctionSource, body: Body, reach: seq<bool>, base: nat, limit: nat, i: nat, k: nat)
    requires AllFine(m, src, body, reach, limit) && i < |reach| && reach[i] && k < |body.blocks[i].insts|
    requires k + 1 < ReachedCode(body, reach, i)
    ensures var insts, inputs := body.blocks[i].insts, src.blocks[i].inputs;
            && DepthAfter(m, insts[..k], inputs, limit).Some? && !IsControl(insts[k])
            && var d := DepthAfter(m, insts[..k], inputs, limit).value;
               Consumes(m, insts[k]) <= d <= limit
               && (AlwaysPanics(insts[k])
                   || DepthAt(m, src, body, reach, base, limit, OffsetOf(body, reach, base, i) + 1 + k + 1,
                              d - Consumes(m, insts[k]) + Produces(m, insts[k])))
  {
    var insts, inputs := body.blocks[i].insts, src.blocks[i].inputs;
    assert BlockFine(m, src, body, limit, i);
    DepthPrefix(m, insts, k, inputs, limit);
    var d' := DepthAfter(m, insts[..k + 1], inputs, limit).value;
    if !AlwaysPanics(insts[k]) {
      NextPlace(m, src, body, reach, base, limit, i, k, d');
    }
  }

  lemma NextPlace(m: Module, src: FunctionSource, body: Body, reach: seq<bool>, base: nat, limit: nat, i: nat, k: nat,
                  d: nat)
    requires AllFine(m, src, body, reach, limit) && i < |reach| && reach[i] && k < |body.blocks[i].insts|
    requires k + 1 < ReachedCode(body, reach, i) && !AlwaysPanics(body.blocks[i].insts[k])
    requires DepthAfter(m, body.blocks[i].insts[..k + 1], src.blocks[i].inputs, limit) == Some(d)
    ensures DepthAt(m, src, body, reach, base, limit, OffsetOf(body, reach, base, i) + 1 + k + 1, d)
  {
    var insts := body.blocks[i].insts;
    assert BlockFine(m, src, body, limit, i);
    if body.blocks[i].terminator == Terminated || k + 1 < |insts| {
      PlaceInBlock(m, src, body, reach, base, limit, i, k + 2, d);
    } else {
      assert insts[..k + 1] == insts;
      TailDepth(m, src, body, reach, base, limit, i);
    }
  }

  // ----- terminators -----

  ghost function Depths(m: Module, src: FunctionSource, body: Body, reach: seq<bool>, base: nat, limit: nat)
      : (nat, nat) -> bool
    requires |src.blocks| == |body.blocks| == |reach| > 0
  {
    (pc: nat, d: nat) => DepthAt(m, src, body, reach, base, limit, pc, d)
  }

  ghost predicate Fits(m: Module, src: FunctionSource, body: Body, reach: seq<bool>, prologue: seq<Inst>, limit: nat,
                       pc: nat, d: nat)
    requires |src.blocks| == |body.blocks| == |reach| > 0
  {
    HandsOn(m, FlatCode(body, reach, prologue), src.outputs, limit, Depths(m, src, body, reach, |prologue|, limit), pc,
            d)
  }

  lemma JumpHandsOn(m: Module, code: seq<Inst>, outputs: nat, limit: nat, at: (nat, nat) -> bool, pc: nat, d: nat,
                    t: int)
    requires pc < |code| && code[pc] == Inst.Jump(t) && d <= limit && 0 <= pc + t && at(pc + t, d)
    ensures HandsOn(m, code, outputs, limit, at, pc, d)
  {
  }

  lemma BranchHandsOn(m: Module, code: seq<Inst>, outputs: nat, limit: nat, at: (nat, nat) -> bool, pc: nat, d: nat,
                      cc: Condition, t: int)
    requires pc < |code| && code[pc] == Inst.BranchIf(cc, t) && 0 < d <= limit
    requires 0 <= pc + t && at(pc + t, d - 1) && at(pc + 1, d - 1)
    ensures HandsOn(m, code, outputs, limit, at, pc, d)
  {
  }

  lemma StraightHandsOn(m: Module, code: seq<Inst>, outputs: nat, limit: nat, at: (nat, nat) -> bool, pc: nat, d: nat)
    requires pc < |code| && !IsControl(code[pc]) && Consumes(m, code[pc]) <= d <= limit
    requires AlwaysPanics(code[pc]) || at(pc + 1, d - Consumes(m, code[pc]) + Produces(m, code[pc]))
    ensures HandsOn(m, code, outputs, limit, at, pc, d)
  {
  }

  /** A jump of a terminator, as it is in the flat code: it lands just after a successor's marker. */
  lemma JumpCode(body: Body, reach: seq<bool>, prologue: seq<Inst>, i: nat, t: nat) returns (dest: nat)
    requires ClosedReach(body, reach) && i < |reach| && reach[i] && t < |Tail(body, reach, i)|
    requires Tail(body, reach, i)[t].Jump? || Tail(body, reach, i)[t].BranchIf?
    ensures var code, at := FlatCode(body, reach, prologue), TailOf(body, reach, |prologue|, i) + t;
            && at < |code| && dest == Tail(body, reach, i)[t].target && dest < |reach| && reach[dest]
            && (Tail(body, reach, i)[t].Jump? ==> code[at].Jump?)
            && (Tail(body, reach, i)[t].BranchIf? ==> code[at].BranchIf?)
            && (code[at].Jump? || code[at].BranchIf?)
            && at + code[at].target == OffsetOf(body, reach, |prologue|, dest) + 1
  {
    TerminatorIsPlaced(body, reach, prologue, i, t);
    dest := Tail(body, reach, i)[t].target;
    assert dest in Successors(body.blocks[i].terminator);
  }

  /** A successor of a block takes the values the block leaves for it. */
  lemma SuccessorDepth(m: Module, src: FunctionSource, body: Body, limit: nat, i: nat, n: nat)
    requires i < |src.blocks| == |body.blocks| && BlockFine(m, src, body, limit, i)
    requires n in Successors(body.blocks[i].terminator)
    ensures var d := DepthAfter(m, body.blocks[i].insts, src.blocks[i].inputs, limit).value;
            n < |src.blocks| && src.blocks[n].inputs == if body.blocks[i].terminator.BranchTo? then d - 1 else d
  {
  }

  lemma JumpFits(m: Module, src: FunctionSource, body: Body, reach: seq<bool>, prologue: seq<Inst>, limit: nat, i: nat)
    requires AllFine(m, src, body, reach, limit) && ClosedReach(body, reach) && i < |reach| && reach[i]
    requires body.blocks[i].terminator.JumpTo? && Tail(body, reach, i) != []
    ensures Fits(m, src, body, reach, prologue, limit, TailOf(body, reach, |prologue|, i),
                 DepthAfter(m, body.blocks[i].insts, src.blocks[i].inputs, limit).value)
  {
    var dest := JumpCode(body, reach, prologue, i, 0);
    assert BlockFine(m, src, body, limit, i);
    SuccessorDepth(m, src, body, limit, i, dest);
    Landing(m, src, body, reach, |prologue|, limit, dest);
    var code, at := FlatCode(body, reach, prologue), TailOf(body, reach, |prologue|, i);
    JumpHandsOn(m, code, src.outputs, limit, Depths(m, src, body, reach, |prologue|, limit), at,
                DepthAfter(m, body.blocks[i].insts, src.blocks[i].inputs, limit).value, code[at].target);
  }

  lemma EndFits(m: Module, src: FunctionSource, body: Body, reach: seq<bool>, prologue: seq<Inst>, limit: nat, i: nat)
    requires AllFine(m, src, body, reach, limit) && ClosedReach(body, reach) && i < |reach| && reach[i]
    requires body.blocks[i].terminator.ReturnTo? || body.blocks[i].terminator.PanicOut?
    ensures Fits(m, src, body, reach, prologue, limit, TailOf(body, reach, |prologue|, i),
                 DepthAfter(m, body.blocks[i].insts, src.blocks[i].inputs, limit).value)
  {
    assert BlockFine(m, src, body, limit, i);
    TerminatorIsPlaced(body, reach, prologue, i, 0);
  }

  /** What a branch that is not taken runs into. */
  lemma BranchFallsInto(m: Module, src: FunctionSource, body: Body, reach: seq<bool>, base: nat, limit: nat, i: nat)
    requires AllFine(m, src, body, reach, limit) && ClosedReach(body, reach) && i < |reach| && reach[i]
    requires body.blocks[i].terminator.BranchTo?
    ensures var d := DepthAfter(m, body.blocks[i].insts, src.blocks[i].inputs, limit).value;
            d > 0 && DepthAt(m, src, body, reach, base, limit, TailOf(body, reach, base, i) + 1, d - 1)
  {
    var insts, t, next := body.blocks[i].insts, body.blocks[i].terminator, NextReachable(reach, i);
    var d := DepthAfter(m, insts, src.blocks[i].inputs, limit).value;
    assert t.next0 in Successors(t) && t.next1 in Successors(t) && BlockFine(m, src, body, limit, i);
    if t.next0 == next || t.next1 == next {
      FallsInto(m, src, body, reach, base, limit, i);
    } else {
      PlaceInBlock(m, src, body, reach, base, limit, i, 2 + |insts|, d - 1);
    }
  }

  lemma BranchFits(m: Module, src: FunctionSource, body: Body, reach: seq<bool>, prologue: seq<Inst>, limit: nat,
                   i: nat)
    requires AllFine(m, src, body, reach, limit) && ClosedReach(body, reach) && i < |reach| && reach[i]
    requires body.blocks[i].terminator.BranchTo?
    ensures var d := DepthAfter(m, body.blocks[i].insts, src.blocks[i].inputs, limit).value;
            Fits(m, src, body, reach, prologue, limit, TailOf(body, reach, |prologue|, i), d)
  {
    hide FlatCode, DepthAfter, InBlock, HandsOn, MaxDepth, BlockCode;
    var dest := JumpCode(body, reach, prologue, i, 0);
    assert BlockFine(m, src, body, limit, i);
    SuccessorDepth(m, src, body, limit, i, dest);
    Landing(m, src, body, reach, |prologue|, limit, dest);
    BranchFallsInto(m, src, body, reach, |prologue|, limit, i);
    var code, at := FlatCode(body, reach, prologue), TailOf(body, reach, |prologue|, i);
    BranchHandsOn(m, code, src.outputs, limit, Depths(m, src, body, reach, |prologue|, limit), at,
                  DepthAfter(m, body.blocks[i].insts, src.blocks[i].inputs, limit).value, code[at].cc, code[at].target);
  }

  /** The jump that follows a branch neither of whose targets comes next. */
  lemma SecondJumpFits(m: Module, src: FunctionSource, body: Body, reach: seq<bool>, prologue: seq<Inst>, limit: nat,
                       i: nat)
    requires AllFine(m, src, body, reach, limit) && ClosedReach(body, reach) && i < |reach| && reach[i]
    requires |Tail(body, reach, i)| == 2
    ensures var d := DepthAfter(m, body.blocks[i].insts, src.blocks[i].inputs, limit).value;
            d > 0 && Fits(m, src, body, reach, prologue, limit, TailOf(body, reach, |prologue|, i) + 1, d - 1)
  {
    hide FlatCode, DepthAfter, InBlock, HandsOn, MaxDepth, BlockCode;
    var dest := JumpCode(body, reach, prologue, i, 1);
    assert BlockFine(m, src, body, limit, i);
    SuccessorDepth(m, src, body, limit, i, dest);
    Landing(m, src, body, reach, |prologue|, limit, dest);
    var code, at := FlatCode(body, reach, prologue), TailOf(body, reach, |prologue|, i) + 1;
    JumpHandsOn(m, code, src.outputs, limit, Depths(m, src, body, reach, |prologue|, limit), at,
                DepthAfter(m, body.blocks[i].insts, src.blocks[i].inputs, limit).value - 1, code[at].target);
  }

  lemma TailFits(m: Module, src: FunctionSource, body: Body, reach: seq<bool>, prologue: seq<Inst>, limit: nat, i: nat,
                 t: nat, d: nat)
    requires AllFine(m, src, body, reach, limit) && ClosedReach(body, reach) && i < |reach| && reach[i]
    requires t < |Tail(body, reach, i)|
    requires BlockDepth(m, body.blocks[i].insts, src.blocks[i].inputs, limit, 1 + |body.blocks[i].insts| + t) == Some(d)
    ensures Fits(m, src, body, reach, prologue, limit, TailOf(body, reach, |prologue|, i) + t, d)
  {
    var insts := body.blocks[i].insts;
    assert insts[..|insts|] == insts;
    if t == 1 {
      SecondJumpFits(m, src, body, reach, prologue, limit, i);
    } else {
      match body.blocks[i].terminator
      case JumpTo(_) => JumpFits(m, src, body, reach, prologue, limit, i);
      case BranchTo(_, _, _) => BranchFits(m, src, body, reach, prologue, limit, i);
      case _ => EndFits(m, src, body, reach, prologue, limit, i);
    }
  }

  // ----- every instruction -----

  /** The straight code of a block, instruction by instruction. */
  lemma InstFits(m: Module, src: FunctionSource, body: Body, reach: seq<bool>, prologue: seq<Inst>, limit: nat, i: nat,
                 k: nat)
    requires AllFine(m, src, body, reach, limit) && ClosedReach(body, reach) && i < |reach| && reach[i]
    requires k < |body.blocks[i].insts| && k + 1 < ReachedCode(body, reach, i)
    ensures DepthAfter(m, body.blocks[i].insts[..k], src.blocks[i].inputs, limit).Some?
    ensures Fits(m, src, body, reach, prologue, limit, OffsetOf(body, reach, |prologue|, i) + 1 + k,
                 DepthAfter(m, body.blocks[i].insts[..k], src.blocks[i].inputs, limit).value)
  {
    var insts, pc := body.blocks[i].insts, OffsetOf(body, reach, |prologue|, i) + 1 + k;
    AfterInst(m, src, body, reach, |prologue|, limit, i, k);
    BlockIsPlaced(body, reach, prologue, i, 1 + k);
    StraightIsNotPatched(body, reach, |prologue|, insts[k], pc);
    assert BlockCode(body, reach, i)[1 + k] == insts[k];
    StraightHandsOn(m, FlatCode(body, reach, prologue), src.outputs, limit,
                    Depths(m, src, body, reach, |prologue|, limit), pc,
                    DepthAfter(m, insts[..k], src.blocks[i].inputs, limit).value);
  }

  lemma MarkerFits(m: Module, src: FunctionSource, body: Body, reach: seq<bool>, prologue: seq<Inst>, limit: nat,
                   i: nat)
    requires AllFine(m, src, body, reach, limit) && ClosedReach(body, reach) && i < |reach| && reach[i]
    requires src.blocks[i].inputs <= limit
    ensures Fits(m, src, body, reach, prologue, limit, OffsetOf(body, reach, |prologue|, i), src.blocks[i].inputs)
  {
    BlockIsPlaced(body, reach, prologue, i, 0);
    Landing(m, src, body, reach, |prologue|, limit, i);
    StraightHandsOn(m, FlatCode(body, reach, prologue), src.outputs, limit,
                    Depths(m, src, body, reach, |prologue|, limit),
                    OffsetOf(body, reach, |prologue|, i), src.blocks[i].inputs);
  }

  lemma BodyFits(m: Module, src: FunctionSource, body: Body, reach: seq<bool>, prologue: seq<Inst>, limit: nat,
                 i: nat, pc: nat, d: nat)
    requires AllFine(m, src, body, reach, limit) && ClosedReach(body, reach)
    requires InBlock(m, src, body, reach, |prologue|, limit, i, pc, d)
    ensures Fits(m, src, body, reach, prologue, limit, pc, d)
  {
    hide FlatCode, Fits, AllFine, MaxDepth;
    var t := pc - OffsetOf(body, reach, |prologue|, i);
    if t == 0 {
      MarkerFits(m, src, body, reach, prologue, limit, i);
    } else if t - 1 < |body.blocks[i].insts| {
      InstFits(m, src, body, reach, prologue, limit, i, t - 1);
    } else {
      TailFits(m, src, body, reach, prologue, limit, i, t - 1 - |body.blocks[i].insts|, d);
    }
  }

  lemma {:induction false} PrologueEffect(m: Module, locals: seq<Local>, k: nat)
    ensures k < |LocalAllocs(locals)| ==>
              var i := LocalAllocs(locals)[k];
              !IsControl(i) && Consumes(m, i) == Produces(m, i) == 0 && !AlwaysPanics(i)
    ensures k < |LocalStorages(locals)| ==>
              var i := LocalStorages(locals)[k];
              !IsControl(i) && Consumes(m, i) == Produces(m, i) == 0 && !AlwaysPanics(i)
  {
    if locals != [] {
      PrologueEffect(m, locals[..|locals| - 1], k);
    }
  }

  /** The instructions of the prologue do not touch the value stack. */
  lemma PrologueInst(m: Module, locals: seq<Local>, addrCount: nat, pc: nat)
    requires pc < |Prologue(locals, addrCount)|
    ensures var i := Prologue(locals, addrCount)[pc];
            !IsControl(i) && Consumes(m, i) == Produces(m, i) == 0 && !AlwaysPanics(i)
  {
    PrologueEffect(m, locals, pc);
    if pc > 0 {
      PrologueEffect(m, locals, pc - 1);
    }
  }

  lemma PrologueFits(m: Module, src: FunctionSource, body: Body, reach: seq<bool>, locals: seq<Local>, addrCount: nat,
                     limit: nat, pc: nat)
    requires AllFine(m, src, body, reach, limit) && ClosedReach(body, reach) && pc < |Prologue(locals, addrCount)|
    ensures Fits(m, src, body, reach, Prologue(locals, addrCount), limit, pc, src.blocks[0].inputs)
  {
    var prologue := Prologue(locals, addrCount);
    PrologueInst(m, locals, addrCount, pc);
    assert FlatCode(body, reach, prologue)[pc] == prologue[pc];
    assert OffsetOf(body, reach, |prologue|, 0) == |prologue|;
    BlockStart(m, src, body, reach, |prologue|, limit, 0);
    assert BlockFine(m, src, body, limit, 0);
    EntryDepth(m, body.blocks[0].insts, src.blocks[0].inputs, limit);
    StraightHandsOn(m, FlatCode(body, reach, prologue), src.outputs, limit,
                    Depths(m, src, body, reach, |prologue|, limit),
                    pc, src.blocks[0].inputs);
  }

  lemma CompiledIsFine(m: Module, env: Environment, src: FunctionSource, body: Body, reach: seq<bool>)
    requires Compiles(m, src, body, reach) && GenuineSource(m, src, reach) && Refinement.FoldsAgree(m, env)
    ensures AllFine(m, src, body, reach, MaxDepth(m, src, |src.blocks|))
  {
    var limit := MaxDepth(m, src, |src.blocks|);
    forall i | 0 <= i < |reach| && reach[i] ensures BlockFine(m, src, body, limit, i) {
      var own := CompiledDepth(m, src, body, reach, i);
      MaxDepthBounds(m, src, i, |src.blocks|);
      DepthWeaken(m, body.blocks[i].insts, src.blocks[i].inputs, own, limit);
      assert !Compiled(m, src, i).0.errored && body.blocks[i].insts == Compiled(m, src, i).0.insts
             && body.blocks[i].terminator == Compiled(m, src, i).1;
      if body.blocks[i].terminator == Terminated {
        EmitAllTerminates(m, env, src.blocks[i].ops, Fresh(src.blocks[i].inputs, 0));
      }
    }
  }

  /** The code of a function built without an error is typed: at every instruction that can be
      reached, the depth above the frame's base is the one the builder tracked, never more than the
      function's recorded maximum, and what the instruction needs is there. */
  lemma CompiledIsTyped(m: Module, env: Environment, src: FunctionSource, body: Body, reach: seq<bool>,
                        locals: seq<Local>, addrCount: nat)
    requires Compiles(m, src, body, reach) && GenuineSource(m, src, reach) && ClosedReach(body, reach)
    requires Refinement.FoldsAgree(m, env)
    ensures var prologue, limit := Prologue(locals, addrCount), MaxDepth(m, src, |src.blocks|);
            Typed(m, FlatCode(body, reach, prologue), Signature(src.blocks[0].inputs, src.outputs), limit,
                  Depths(m, src, body, reach, |prologue|, limit))
  {
    var prologue, limit := Prologue(locals, addrCount), MaxDepth(m, src, |src.blocks|);
    CompiledIsFine(m, env, src, body, reach);
    assert OffsetOf(body, reach, |prologue|, 0) == |prologue|;
    BlockStart(m, src, body, reach, |prologue|, limit, 0);
    forall pc: nat, d: nat | Depths(m, src, body, reach, |prologue|, limit)(pc, d)
      ensures Fits(m, src, body, reach, prologue, limit, pc, d)
    {
      if pc < |prologue| && d == src.blocks[0].inputs {
        PrologueFits(m, src, body, reach, locals, addrCount, limit, pc);
      } else {
        var i :| 0 <= i < |reach| && InBlock(m, src, body, reach, |prologue|, limit, i, pc, d);
        BodyFits(m, src, body, reach, prologue, limit, i, pc, d);
      }
    }
  }

  /** The builder tracks one depth for each instruction. */
  lemma DepthsAreSingle(m: Module, src: FunctionSource, body: Body, reach: seq<bool>, base: nat, limit: nat, pc: nat,
                        d: nat, e: nat)
    requires |src.blocks| == |body.blocks| == |reach| > 0
    requires Depths(m, src, body, reach, base, limit)(pc, d) && Depths(m, src, body, reach, base, limit)(pc, e)
    ensures d == e
  {
    if pc >= base {
      var i :| 0 <= i < |reach| && InBlock(m, src, body, reach, base, limit, i, pc, d);
      var j :| 0 <= j < |reach| && InBlock(m, src, body, reach, base, limit, j, pc, e);
      if i < j {
        SymbolicPrefix(body, reach, i + 1, j);
      } else if j < i {
        SymbolicPrefix(body, reach, j + 1, i);
      }
    }
  }

  // ----- depths do not depend on a function's locals -----

  lemma HandsOnAlike(m: Module, m': Module, code: seq<Inst>, outputs: nat, limit: nat, at: (nat, nat) -> bool, pc: nat,
                     d: nat)
    requires m.functions == m'.functions && HandsOn(m, code, outputs, limit, at, pc, d)
    ensures HandsOn(m', code, outputs, limit, at, pc, d)
  {
    assert Consumes(m, code[pc]) == Consumes(m', code[pc]) && Produces(m, code[pc]) == Produces(m', code[pc]);
  }

  lemma TypedAlike(m: Module, m': Module, code: seq<Inst>, sig: Signature, limit: nat, at: (nat, nat) -> bool)
    requires m.functions == m'.functions && Typed(m, code, sig, limit, at)
    ensures Typed(m', code, sig, limit, at)
  {
    forall pc: nat, d: nat | at(pc, d) ensures HandsOn(m', code, sig.outputs, limit, at, pc, d) {
      assert HandsOn(m, code, sig.outputs, limit, at, pc, d);
      HandsOnAlike(m, m', code, sig.outputs, limit, at, pc, d);
    }
  }
}
