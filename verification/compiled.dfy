// What holds of every function built without an error: its code is well formed, its stack depths
// are the tracked ones, and running it is running its builder calls.

module CompiledFunctions {
  import opened Words
  import opened Allocations
  import opened Bytecode
  import opened Vm
  import opened Blocks
  import opened Flat
  import opened Builder
  import opened Meaning
  import opened Refinement
  import opened Compiler
  import opened Depth
  import opened Emission
  import opened FrameLocals

  ghost predicate GenuineSource(m: Module, src: FunctionSource, reach: seq<bool>)
    requires |src.blocks| == |reach|
  {
    forall i :: 0 <= i < |reach| && reach[i] ==> GenuineAll(m, src.blocks[i].ops, Fresh(src.blocks[i].inputs, 0))
  }

  /** The depth a block must have before its terminator. */
  predicate EndsAtDepth(src: FunctionSource, t: Terminator, depth: nat) {
    match t
    case ReturnTo => depth == src.outputs
    case JumpTo(n) => n < |src.blocks| && depth == src.blocks[n].inputs
    case BranchTo(_, n0, n1) =>
      n0 < |src.blocks| && n1 < |src.blocks| && depth == src.blocks[n0].inputs + 1 == src.blocks[n1].inputs + 1
    case PanicOut => depth > 0
    case _ => true
  }

  /** A fused comparison leaves its operand on the stack for the branch. */
  lemma FusedDepth(m: Module, insts: seq<Inst>, d: nat, limit: nat)
    requires EndsWithCc(insts) && DepthAfter(m, insts, d, limit).Some?
    ensures DepthAfter(m, insts[..|insts| - 1], d, limit) == DepthAfter(m, insts, d, limit)
  {
  }

  lemma BranchDepth(m: Module, t: nat, f: nat, b: Build, inputs: nat)
    requires Balanced(m, b, inputs) && b.vstack != []
    ensures var (b', terminator) := EmitBranch(t, f, b.vstack[0], Discard(b, 1));
            DepthAfter(m, b'.insts, inputs, b.max)
            == Some(if terminator.JumpTo? then |b.vstack| - 1 else |b.vstack|)
  {
    if t == f || b.vstack[0].Constant? {
      PopBalanced(m, b, 1, inputs);
    } else if EndsWithCc(b.insts) {
      FusedDepth(m, b.insts, inputs, b.max);
      assert DeleteLast(Discard(b, 1)).insts == b.insts[..|b.insts| - 1];
    }
  }

  lemma EndDepth(m: Module, src: FunctionSource, end: End, b: Build, inputs: nat)
    requires Balanced(m, b, inputs) && !EmitEnd(InputsOf(src), src.outputs, end, b).0.errored
             && EmitEnd(InputsOf(src), src.outputs, end, b).1 != Unterminated
    ensures var (b', t) := EmitEnd(InputsOf(src), src.outputs, end, b);
            var depth := DepthAfter(m, b'.insts, inputs, b.max);
            depth.Some? && EndsAtDepth(src, t, depth.value)
  {
    if end.Branch? && !b.terminated {
      BranchDepth(m, end.ifTrue, end.ifFalse, b, inputs);
    }
  }

  /** Every reachable block of a compiled function has the depth its terminator needs. */
  lemma CompiledDepth(m: Module, src: FunctionSource, body: Body, reach: seq<bool>, i: nat) returns (limit: nat)
    requires Compiles(m, src, body, reach) && GenuineSource(m, src, reach) && i < |reach| && reach[i]
    ensures limit == EmitAll(m, src.blocks[i].ops, Fresh(src.blocks[i].inputs, 0)).max
    ensures var depth := DepthAfter(m, body.blocks[i].insts, src.blocks[i].inputs, limit);
            depth.Some? && EndsAtDepth(src, body.blocks[i].terminator, depth.value)
  {
    var b := EmitAll(m, src.blocks[i].ops, Fresh(src.blocks[i].inputs, 0));
    assert !Compiled(m, src, i).0.errored;
    BlockBalanced(m, src.blocks[i].ops, src.blocks[i].inputs, 0);
    EndDepth(m, src, src.blocks[i].end, b, src.blocks[i].inputs);
    limit := b.max;
  }

  lemma DepthIsStraight(m: Module, insts: seq<Inst>, d: nat, limit: nat)
    requires DepthAfter(m, insts, d, limit).Some?
    ensures forall k :: 0 <= k < |insts| ==> !IsControl(insts[k])
  {
    forall k | 0 <= k < |insts| ensures !IsControl(insts[k]) {
      DepthPrefix(m, insts, k, d, limit);
    }
  }

  // ----- blocks that end in a call that always panics -----

  predicate EndsPanicking(insts: seq<Inst>) {
    |insts| >= 2 && insts[|insts| - 2].CallBuiltin? && insts[|insts| - 2].builtin.alwaysPanic
    && insts[|insts| - 2].builtin.impl.Other?
  }

  lemma PanickingNeverEnds(m: Module, env: Environment, insts: seq<Inst>)
    requires EndsPanicking(insts) && FoldsAgree(m, env)
    ensures NeverEnds(m, env, insts)
  {
    forall st ensures !Run(m, env, insts, st).Ok? {
      var init, call, last := insts[..|insts| - 2], insts[|insts| - 2], insts[|insts| - 1];
      assert insts == init + [call] + [last];
      RunLast(m, env, init + [call], last, st);
      RunLast(m, env, init, call, st);
      match Run(m, env, init, st)
      case Ok(st') =>
        if call.builtin.sig.inputs <= |st'.stack| {
          assert env.builtin(call.builtin, st'.stack[..call.builtin.sig.inputs], st'.memory) == None;
        }
      case _ =>
    }
  }

  /** A foldable builtin that always panics is never folded away. */
  predicate PanicsAreNotFolded(m: Module, op: Op, b: Build) {
    op.CallBuiltin? && op.builtin.alwaysPanic && op.builtin.noProcess && op.builtin.constantFold
    && op.builtin.sig.inputs <= |b.vstack| && AllConstant(b.vstack[..op.builtin.sig.inputs])
    ==> m.fold(op.builtin, ConstantsOf(b.vstack[..op.builtin.sig.inputs])) == None
  }

  lemma HonestPanicsAreNotFolded(m: Module, env: Environment, op: Op, b: Build)
    requires FoldsAgree(m, env)
    ensures PanicsAreNotFolded(m, op, b)
  {
    if op.CallBuiltin? && op.builtin.alwaysPanic && op.builtin.noProcess && op.builtin.constantFold
       && op.builtin.sig.inputs <= |b.vstack| && AllConstant(b.vstack[..op.builtin.sig.inputs]) {
      var inputs := ConstantsOf(b.vstack[..op.builtin.sig.inputs]);
      var memory := Memory([], 0, map[]);
      assert env.builtin(op.builtin, inputs, memory) == None;
      assert env.builtin(op.builtin, inputs, memory)
          == match m.fold(op.builtin, inputs) { case None => None case Some(outs) => Some((outs, memory)) };
    }
  }

  lemma EmitTerminates(m: Module, op: Op, b: Build)
    requires !b.terminated && !b.errored && !Emit(m, op, b).errored && Emit(m, op, b).terminated
    requires PanicsAreNotFolded(m, op, b)
    ensures EndsPanicking(Emit(m, op, b).insts)
  {
  }

  lemma {:induction false} EmitAllTerminates(m: Module, env: Environment, ops: seq<Op>, b: Build)
    requires FoldsAgree(m, env) && !b.terminated && !b.errored
    requires !EmitAll(m, ops, b).errored && EmitAll(m, ops, b).terminated
    ensures EndsPanicking(EmitAll(m, ops, b).insts)
  {
    var before, op := EmitAll(m, ops[..|ops| - 1], b), ops[|ops| - 1];
    if before.errored || before.terminated {
      ErrorsStay(m, op, before);
      EmitAllTerminates(m, env, ops[..|ops| - 1], b);
    } else {
      HonestPanicsAreNotFolded(m, env, op, before);
      EmitTerminates(m, op, before);
    }
  }

  /** The code of a function built without an error is well formed. */
  lemma CompiledWellFormed(m: Module, env: Environment, src: FunctionSource, body: Body, reach: seq<bool>)
    requires Compiles(m, src, body, reach) && GenuineSource(m, src, reach) && ClosedReach(body, reach)
    requires FoldsAgree(m, env)
    ensures WellFormed(m, env, body, reach)
  {
    forall i | 0 <= i < |reach| && reach[i] ensures WellFormedBlock(m, env, body.blocks[i]) {
      var limit := CompiledDepth(m, src, body, reach, i);
      DepthIsStraight(m, body.blocks[i].insts, src.blocks[i].inputs, limit);
      assert !Compiled(m, src, i).0.errored && body.blocks[i].insts == Compiled(m, src, i).0.insts
             && body.blocks[i].terminator == Compiled(m, src, i).1;
      if body.blocks[i].terminator == Terminated {
        EmitAllTerminates(m, env, src.blocks[i].ops, Fresh(src.blocks[i].inputs, 0));
        PanickingNeverEnds(m, env, body.blocks[i].insts);
      }
    }
  }

  /** The compiler is correct: after any number of blocks of builder calls that have not panicked,
      the flat code has, some steps later, reached the very same state at the same block, or
      returned with the same result.  So it also runs forever when the builder calls do. */
  lemma CompilationCorrect(m: Module, env: Environment, src: FunctionSource, body: Body, reach: seq<bool>,
                           prologue: seq<Inst>,
                           st: State, n: nat) returns (k: nat)
    requires Compiles(m, src, body, reach) && ClosedReach(body, reach)
    requires GuardedSource(m, src, reach) && GenuineSource(m, src, reach)
    requires Ready(m, src, At(0, st)) && Honest(m, env, st.frame)
    requires !Panics(RunSource(m, env, src, body.freeCount, n, At(0, st)))
    ensures n <= k
    ensures Steps(m, env, FlatCode(body, reach, prologue), k, At(EntryPoint(prologue), st))
         == Placed(body, reach, |prologue|, RunSource(m, env, src, body.freeCount, n, At(0, st)))
  {
    CompiledWellFormed(m, env, src, body, reach);
    SourceRefines(m, env, src, body, reach, n, At(0, st), st.frame);
    k := GraphSimulates(m, env, body, reach, prologue, n, At(0, st));
    assert OffsetOf(body, reach, |prologue|, 0) == |prologue|;
  }

  // ----- from the call of a function -----

  lemma {:induction false} LocalAllocsStraight(locals: seq<Local>)
    ensures Straight(LocalAllocs(locals)) && Straight(LocalStorages(locals))
  {
    if locals != [] {
      LocalAllocsStraight(locals[..|locals| - 1]);
    }
  }

  /** Execution starts with the prologue, once, and runs into the entry block past its marker. */
  lemma PrologueRuns(m: Module, env: Environment, body: Body, reach: seq<bool>, addrCount: nat, before: State)
    requires ClosedReach(body, reach) && Run(m, env, Prologue(m.locals, addrCount), before).Ok?
    ensures var prologue := Prologue(m.locals, addrCount);
            Steps(m, env, FlatCode(body, reach, prologue), |prologue| + 1, At(0, before))
            == At(EntryPoint(prologue), Run(m, env, prologue, before).state)
  {
    var prologue := Prologue(m.locals, addrCount);
    var code := FlatCode(body, reach, prologue);
    LocalAllocsStraight(m.locals);
    assert Straight(prologue);
    assert code[0..0 + |prologue|] == prologue;
    StraightSteps(m, env, code, prologue, 0, before);
    var st := Run(m, env, prologue, before).state;
    StepsAdd(m, env, code, |prologue|, 1, At(0, before));
    OneStep(m, env, code, At(|prologue|, st));
    assert OffsetOf(body, reach, |prologue|, 0) == |prologue|;
    MarkerStep(m, env, body, reach, prologue, 0, st);
  }

  /** The state in which the builder calls of a function's entry block are made. */
  function Entered(m: Module, env: Environment, addrCount: nat, before: State): State
    requires Run(m, env, Prologue(m.locals, addrCount), before).Ok?
  {
    Run(m, env, Prologue(m.locals, addrCount), before).state
  }

  /** A function whose locals have slots: it takes the address of one of them, or has none. */
  predicate HasSlots(locals: seq<Local>, addrCount: nat) {
    addrCount > 0 || locals == []
  }

  /** A new frame has, after the prologue, all that its builder calls assume. */
  lemma EntryIsReady(m: Module, env: Environment, src: FunctionSource, addrCount: nat, before: State)
    requires LaidOut(m.locals) && NewFrame(m.locals, before) && HasSlots(m.locals, addrCount) && src.blocks != []
    requires forall g :: 0 <= g < |m.globals| ==> GlobalSlotOk(m, before.memory, g)
    requires |before.stack| >= src.blocks[0].inputs
    requires Run(m, env, Prologue(m.locals, addrCount), before).Ok?
    ensures Ready(m, src, At(0, Entered(m, env, addrCount, before)))
  {
    if addrCount > 0 {
      PrologueAllocates(m, env, m.locals, addrCount, before);
      PrologueGivesSlots(m, env, addrCount, before);
    } else {
      assert Prologue(m.locals, addrCount) == [];
    }
  }

  lemma StepsThen(m: Module, env: Environment, code: seq<Inst>, a: nat, b: nat, c: Control, mid: Control, end: Control)
    requires Steps(m, env, code, a, c) == mid && Steps(m, env, code, b, mid) == end
    ensures Steps(m, env, code, a + b, c) == end
  {
    StepsAdd(m, env, code, a, b, c);
  }

  /** From the first instruction of a prologue on, once it is known what it leads to. */
  lemma PrologueThenBody(m: Module, env: Environment, src: FunctionSource, body: Body, reach: seq<bool>,
                         prologue: seq<Inst>,
                       before: State, st: State, n: nat, k: nat)
    requires |body.blocks| == |reach|
    requires Steps(m, env, FlatCode(body, reach, prologue), |prologue| + 1, At(0, before))
             == At(EntryPoint(prologue), st)
    requires Steps(m, env, FlatCode(body, reach, prologue), k, At(EntryPoint(prologue), st))
          == Placed(body, reach, |prologue|, RunSource(m, env, src, body.freeCount, n, At(0, st)))
    ensures Steps(m, env, FlatCode(body, reach, prologue), |prologue| + 1 + k, At(0, before))
         == Placed(body, reach, |prologue|, RunSource(m, env, src, body.freeCount, n, At(0, st)))
  {
    StepsThen(m, env, FlatCode(body, reach, prologue), |prologue| + 1, k, At(0, before), At(EntryPoint(prologue), st),
              Placed(body, reach, |prologue|, RunSource(m, env, src, body.freeCount, n, At(0, st))));
  }

  lemma AfterPrologue(m: Module, env: Environment, src: FunctionSource, body: Body, reach: seq<bool>, addrCount: nat,
                      before: State, n: nat, k: nat)
    requires ClosedReach(body, reach) && Run(m, env, Prologue(m.locals, addrCount), before).Ok?
    requires var prologue, st := Prologue(m.locals, addrCount), Entered(m, env, addrCount, before);
             Steps(m, env, FlatCode(body, reach, prologue), k, At(EntryPoint(prologue), st))
             == Placed(body, reach, |prologue|, RunSource(m, env, src, body.freeCount, n, At(0, st)))
    ensures var prologue, st := Prologue(m.locals, addrCount), Entered(m, env, addrCount, before);
            Steps(m, env, FlatCode(body, reach, prologue), |prologue| + 1 + k, At(0, before))
            == Placed(body, reach, |prologue|, RunSource(m, env, src, body.freeCount, n, At(0, st)))
  {
    PrologueRuns(m, env, body, reach, addrCount, before);
    PrologueThenBody(m, env, src, body, reach, Prologue(m.locals, addrCount), before,
                     Entered(m, env, addrCount, before), n, k);
  }

  /** A whole function, without locals or with one whose address is taken: called with its arguments
      in a new frame, its code does what its builder calls mean, and nothing need be assumed of the
      slots of its locals. */
  lemma FunctionCorrect(m: Module, env: Environment, src: FunctionSource, body: Body, reach: seq<bool>, addrCount: nat,
                        before: State, n: nat) returns (k: nat)
    requires Compiles(m, src, body, reach) && ClosedReach(body, reach)
    requires GuardedSource(m, src, reach) && GenuineSource(m, src, reach)
    requires LaidOut(m.locals) && NewFrame(m.locals, before) && HasSlots(m.locals, addrCount)
    requires forall g :: 0 <= g < |m.globals| ==> GlobalSlotOk(m, before.memory, g)
    requires |before.stack| >= src.blocks[0].inputs
    requires Run(m, env, Prologue(m.locals, addrCount), before).Ok?
    requires Honest(m, env, Entered(m, env, addrCount, before).frame)
    requires !Panics(RunSource(m, env, src, body.freeCount, n, At(0, Entered(m, env, addrCount, before))))
    ensures Steps(m, env, FlatCode(body, reach, Prologue(m.locals, addrCount)), k, At(0, before))
         == Placed(body, reach, |Prologue(m.locals, addrCount)|,
                   RunSource(m, env, src, body.freeCount, n, At(0, Entered(m, env, addrCount, before))))
  {
    hide RunSource, MeansAll, Honest, GuardedSource, GenuineSource;
    EntryIsReady(m, env, src, addrCount, before);
    var k' := CompilationCorrect(m, env, src, body, reach, Prologue(m.locals, addrCount),
                                 Entered(m, env, addrCount, before), n);
    AfterPrologue(m, env, src, body, reach, addrCount, before, n, k');
    k := |Prologue(m.locals, addrCount)| + 1 + k';
  }
}
