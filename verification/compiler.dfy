// From builder calls to flat code: how blocks are ended, and the theorem that a function body
// built without an error does what its builder calls mean.

module Compiler {
  import opened Words
  import opened Allocations
  import opened Bytecode
  import opened Vm
  import opened Blocks
  import opened Flat
  import opened Builder
  import opened Meaning
  import opened Immediates
  import opened Refinement

  /** The call that ends a block; `Dead` is a block ended by a builtin that always panics. */
  datatype End = Return | Jump(dest: nat) | Branch(ifTrue: nat, ifFalse: nat) | Panic | Dead

  datatype SourceBlock = SourceBlock(inputs: U8, ops: seq<Op>, end: End)

  /** A function as its builder calls: the blocks, the first of which is the entry. */
  datatype FunctionSource = FunctionSource(blocks: seq<SourceBlock>, outputs: U8)

  // ----- what the builder does with an end -----

  /** The input counts of the function's blocks. */
  function InputsOf(src: FunctionSource): (inputs: seq<U8>)
    ensures |inputs| == |src.blocks|
  {
    seq(|src.blocks|, i requires 0 <= i < |src.blocks| => src.blocks[i].inputs)
  }

  predicate Leads(inputs: seq<U8>, dest: nat, b: Build) {
    dest < |inputs| && |b.vstack| == inputs[dest]
  }

  /** The branch a comparison is fused into. */
  function FusedBranch(cc: Condition, ifTrue: nat, ifFalse: nat): Terminator {
    match cc
    case Eq => BranchTo(NeEq, ifFalse, ifTrue)
    case Ne => BranchTo(NeEq, ifTrue, ifFalse)
    case Lt => BranchTo(LtGe, ifTrue, ifFalse)
    case Le => BranchTo(LeGt, ifTrue, ifFalse)
    case Gt => BranchTo(LeGt, ifFalse, ifTrue)
    case Ge => BranchTo(LtGe, ifFalse, ifTrue)
  }

  function EndsWithCc(insts: seq<Inst>): bool { insts != [] && insts[|insts| - 1].Cc? }

  function EmitBranch(ifTrue: nat, ifFalse: nat, condition: Value, popped: Build): (Build, Terminator) {
    if ifTrue == ifFalse then (PopTopN(popped, 1), JumpTo(ifTrue))
    else if condition.Constant? then (PopTopN(popped, 1), JumpTo(if condition.w != 0 then ifTrue else ifFalse))
    else if EndsWithCc(popped.insts) then
      (DeleteLast(popped), FusedBranch(popped.insts[|popped.insts| - 1].cc, ifTrue, ifFalse))
    else (popped, BranchTo(NeEq, ifTrue, ifFalse))
  }

  function EmitEnd(inputs: seq<U8>, outputs: U8, end: End, b: Build): (Build, Terminator) {
    if b.errored then (b, Unterminated)
    else if b.terminated then (b, Terminated)
    else
      match end
      case Return => if |b.vstack| != outputs then (Error(b), ReturnTo) else (b, ReturnTo)
      case Jump(d) => if !Leads(inputs, d, b) then (Error(b), JumpTo(d)) else (b, JumpTo(d))
      case Branch(t, f) =>
        if b.vstack == [] then (Error(b), Unterminated)
        else
          var popped := Discard(b, 1);
          if !Leads(inputs, t, popped) || !Leads(inputs, f, popped) then (Error(b), Unterminated)
          else EmitBranch(t, f, b.vstack[0], popped)
      case Panic => if b.vstack == [] then (Error(b), PanicOut) else (Discard(b, 1), PanicOut)
      case Dead => (b, Unterminated)
  }

  function Compiled(m: Module, src: FunctionSource, i: nat): (Build, Terminator)
    requires i < |src.blocks|
  {
    EmitEnd(InputsOf(src), src.outputs, src.blocks[i].end,
            EmitAll(m, src.blocks[i].ops, Fresh(src.blocks[i].inputs, 0)))
  }

  /** What the compiled function is made of, when nothing went wrong in its reachable blocks. */
  ghost predicate Compiles(m: Module, src: FunctionSource, body: Body, reach: seq<bool>) {
    && |src.blocks| == |body.blocks| == |reach|
    && forall i :: 0 <= i < |reach| && reach[i] ==>
         && !Compiled(m, src, i).0.errored
         && body.blocks[i].insts == Compiled(m, src, i).0.insts
         && body.blocks[i].terminator == Compiled(m, src, i).1
         && body.blocks[i].terminator != Unterminated
  }

  /** A branch on a constant is folded only where that is exact. */
  predicate GuardedEnd(end: End, b: Build) {
    end.Branch? && end.ifTrue != end.ifFalse && b.vstack != [] ==> ExactBranch(b.vstack[0])
  }

  ghost predicate GuardedBlock(m: Module, block: SourceBlock) {
    && GuardedAll(m, block.ops, Fresh(block.inputs, 0))
    && GuardedEnd(block.end, EmitAll(m, block.ops, Fresh(block.inputs, 0)))
  }

  ghost predicate GuardedSource(m: Module, src: FunctionSource, reach: seq<bool>)
    requires |src.blocks| == |reach|
  {
    forall i :: 0 <= i < |reach| && reach[i] ==> GuardedBlock(m, src.blocks[i])
  }

  // ----- what the calls mean -----

  function EndMeans(end: End, freeCount: nat, st: State): Control {
    match end
    case Return => Over(ReturnWith(st, freeCount))
    case Jump(d) => At(d, st)
    case Branch(t, f) =>
      if st.stack == [] then Over(Stuck) else At(if st.stack[0] != 0 then t else f, Replace(st, 1, []))
    case Panic => Over(if st.stack == [] then Stuck else PanickedOut)
    case Dead => Over(Stuck)
  }

  function SourceStep(m: Module, env: Environment, src: FunctionSource, freeCount: nat, c: Control): Control {
    match c
    case Over(_) => c
    case At(i, st) =>
      if i < 0 || i >= |src.blocks| then Over(Stuck)
      else
        match MeansAll(m, env, src.blocks[i].ops, st)
        case Ok(st') => EndMeans(src.blocks[i].end, freeCount, st')
        case o => OutcomeControl(o, i)
  }

  /** Running the builder calls of `n` blocks, from block to block. */
  function RunSource(m: Module, env: Environment, src: FunctionSource, freeCount: nat, n: nat, c: Control): Control {
    if n == 0 then c else RunSource(m, env, src, freeCount, n - 1, SourceStep(m, env, src, freeCount, c))
  }

  predicate Panics(c: Control) { c == Over(PanickedOut) || c == Over(Stuck) }

  // ----- ends -----

  lemma FusedComparison(cc: Condition, t: nat, f: nat, x: Word)
    ensures var b := FusedBranch(cc, t, f);
            (if Holds(First(b.kind), Signed(x)) then b.next0 else b.next1)
            == (if Truth(Holds(cc, Signed(x))) != 0 then t else f)
  {
  }

  /** A comparison fused into the branch on its result. */
  lemma FusedFollows(m: Module, env: Environment, t: nat, f: nat, b: Build, start: State, st: State, free: nat)
      returns (st': State)
    requires Run(m, env, b.insts, start) == Ok(st) && EndsWithCc(b.insts)
    ensures Run(m, env, DeleteLast(b).insts, start) == Ok(st') && st'.stack != [] && st.stack != []
    ensures Leaves(FusedBranch(b.insts[|b.insts| - 1].cc, t, f), free, st')
         == At(if st.stack[0] != 0 then t else f, Replace(st, 1, []))
  {
    var cc := b.insts[|b.insts| - 1].cc;
    st' := DeleteLastRuns(m, env, b, start, st);
    assert b.insts == DeleteLast(b).insts + [Inst.Cc(cc)];
    RunLast(m, env, DeleteLast(b).insts, Inst.Cc(cc), start);
    assert Execute(m, env, Inst.Cc(cc), st') == Ok(st);
    assert st.stack[0] == Truth(Holds(cc, Signed(st'.stack[0])));
    FusedComparison(cc, t, f, st'.stack[0]);
    assert Replace(st', 1, []) == Replace(st, 1, []);
  }

  lemma BranchFollows(m: Module, env: Environment, t: nat, f: nat, b: Build, start: State, st: State, free: nat)
      returns (st': State)
    requires Follows(m, env, b, start, st) && b.vstack != [] && (t != f ==> ExactBranch(b.vstack[0]))
    ensures var (b', terminator) := EmitBranch(t, f, b.vstack[0], Discard(b, 1));
            && Run(m, env, b'.insts, start) == Ok(st')
            && Leaves(terminator, free, st') == At(if st.stack[0] != 0 then t else f, Replace(st, 1, []))
  {
    assert Describes(m, st.frame, b.vstack[0], st.stack[0]);
    assert Replace(st, 1, []) == st.(stack := st.stack[1..]);
    if t == f || b.vstack[0].Constant? {
      PopFollows(m, env, b, 1, start, st);
      st' := st.(stack := st.stack[1..]);
    } else if EndsWithCc(b.insts) {
      st' := FusedFollows(m, env, t, f, Discard(b, 1), start, st, free);
    } else {
      st' := st;
    }
  }

  /** Control that has reached a block has the values the block expects. */
  ghost predicate Ready(m: Module, src: FunctionSource, c: Control) {
    c.At? ==>
      0 <= c.place < |src.blocks| && |c.state.stack| >= src.blocks[c.place].inputs
      && SlotsOk(m, c.state.frame, c.state.memory)
  }

  lemma EndFollows(m: Module, env: Environment, src: FunctionSource, end: End, b: Build, start: State, st: State,
                   free: nat)
      returns (st': State)
    requires Follows(m, env, b, start, st) && !b.errored && !b.terminated && GuardedEnd(end, b)
    requires !EmitEnd(InputsOf(src), src.outputs, end, b).0.errored
             && EmitEnd(InputsOf(src), src.outputs, end, b).1 != Unterminated
    ensures var (b', terminator) := EmitEnd(InputsOf(src), src.outputs, end, b);
            && Run(m, env, b'.insts, start) == Ok(st')
            && Leaves(terminator, free, st') == EndMeans(end, free, st)
    ensures Ready(m, src, EndMeans(end, free, st))
    ensures EndMeans(end, free, st).At? ==> EndMeans(end, free, st).state.frame == start.frame
  {
    st' := st;
    match end
    case Branch(t, f) => st' := BranchFollows(m, env, t, f, b, start, st, free);
    case _ =>
  }

  lemma EmptyFollows(m: Module, env: Environment, inputs: nat, st: State)
    requires inputs <= |st.stack| && SlotsOk(m, st.frame, st.memory)
    ensures Follows(m, env, Fresh(inputs, 0), st, st)
  {
  }

  /** One block: where its builder calls mean to go is where its instructions go. */
  lemma SourceBlockRefines(m: Module, env: Environment, src: FunctionSource, body: Body, reach: seq<bool>, i: nat,
                           st: State)
    requires Compiles(m, src, body, reach) && GuardedSource(m, src, reach) && i < |reach| && reach[i]
    requires Ready(m, src, At(i, st)) && Honest(m, env, st.frame)
    requires !Panics(SourceStep(m, env, src, body.freeCount, At(i, st)))
    ensures RunBlock(m, env, body, At(i, st)) == SourceStep(m, env, src, body.freeCount, At(i, st))
    ensures Ready(m, src, SourceStep(m, env, src, body.freeCount, At(i, st)))
    ensures var c := SourceStep(m, env, src, body.freeCount, At(i, st)); c.At? ==> c.state.frame == st.frame
  {
    var ops, b0 := src.blocks[i].ops, Fresh(src.blocks[i].inputs, 0);
    EmptyFollows(m, env, src.blocks[i].inputs, st);
    var b := EmitAll(m, ops, b0);
    assert !Compiled(m, src, i).0.errored && GuardedBlock(m, src.blocks[i]);
    BlockRefines(m, env, ops, b0, st);
    var _ := EndFollows(m, env, src, src.blocks[i].end, b, st, MeansAll(m, env, ops, st).state, body.freeCount);
  }

  lemma {:induction false} SourceOverStays(m: Module, env: Environment, src: FunctionSource, free: nat, n: nat,
                                           c: Control)
    requires c.Over?
    ensures RunSource(m, env, src, free, n, c) == c
  {
    if n > 0 {
      SourceOverStays(m, env, src, free, n - 1, c);
    }
  }

  /** Any number of blocks: as long as the builder calls do not panic, the compiled graph is always
      at the same block in the same state. */
  lemma {:induction false} SourceRefines(m: Module, env: Environment, src: FunctionSource, body: Body, reach: seq<bool>,
                                         n: nat, c: Control, frame: Frame)
    requires Compiles(m, src, body, reach) && ClosedReach(body, reach) && GuardedSource(m, src, reach)
    requires Ready(m, src, c) && InGraph(reach, c) && Honest(m, env, frame) && (c.At? ==> c.state.frame == frame)
    requires !Panics(RunSource(m, env, src, body.freeCount, n, c))
    ensures RunGraph(m, env, body, n, c) == RunSource(m, env, src, body.freeCount, n, c)
  {
    hide Honest, GuardedSource, Compiles, MeansAll, SlotsOk;
    if n > 0 {
      var c' := SourceStep(m, env, src, body.freeCount, c);
      if c.At? {
        if c'.Over? {
          SourceOverStays(m, env, src, body.freeCount, n - 1, c');
        }
        SourceBlockRefines(m, env, src, body, reach, c.place, c.state);
        StaysInGraph(m, env, body, reach, c.place, c.state);
      }
      SourceRefines(m, env, src, body, reach, n - 1, c', frame);
    }
  }

  lemma StaysInGraph(m: Module, env: Environment, body: Body, reach: seq<bool>, i: nat, st: State)
    requires ClosedReach(body, reach) && i < |reach| && reach[i]
    ensures InGraph(reach, RunBlock(m, env, body, At(i, st)))
  {
    var t := body.blocks[i].terminator;
    assert forall n :: n in Successors(t) ==> n < |reach| && reach[n];
    assert t.JumpTo? ==> t.next0 in Successors(t);
    assert t.BranchTo? ==> t.next0 in Successors(t) && t.next1 in Successors(t);
  }
}
