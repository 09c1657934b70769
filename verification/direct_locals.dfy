// Functions none of whose instructions takes the address of a local: their locals get room in the
// frame but no slots in the table, and their code does the same as with the slots.

module DirectLocals {
  import opened Words
  import opened Allocations
  import opened Bytecode
  import opened Vm
  import opened Blocks
  import opened Flat
  import opened Builder
  import opened Refinement
  import opened Compiler
  import opened Emission
  import opened FrameLocals
  import opened CompiledFunctions

  /** The second memory has the slots of the first, and more after them. */
  predicate MoreSlots(bare: Memory, slotted: Memory) {
    bare.cells == slotted.cells && bare.allocations <= slotted.allocations
  }

  predicate Extends(bare: State, slotted: State) {
    && bare.stack == slotted.stack && MoreSlots(bare.memory, slotted.memory)
    && bare.frame.base == slotted.frame.base && bare.frame.nextOffset == slotted.frame.nextOffset
  }

  predicate SameControl(bare: Control, slotted: Control) {
    match (bare, slotted)
    case (At(p, b), At(q, s)) => p == q && Extends(b, s)
    case (Over(Returned(b)), Over(Returned(s))) => Extends(b, s)
    case (Over(r), Over(q)) => r == q
    case _ => false
  }

  predicate GoesWrong(c: Control) { c.Over? && !c.result.Returned? }

  predicate SameResults(bare: Option<(seq<Word>, Memory)>, slotted: Option<(seq<Word>, Memory)>) {
    bare.Some? ==>
      slotted.Some? && bare.value.0 == slotted.value.0 && MoreSlots(bare.value.1, slotted.value.1)
  }

  /** What is called gives the same results when there are more slots, unless it panics without them;
      and the cells above the stack hold the same. */
  ghost predicate Indifferent(env: Environment) {
    && (forall f, ins, a, b :: MoreSlots(a, b) ==> SameResults(env.call(f, ins, a), env.call(f, ins, b)))
    && (forall f, ins, a, b :: MoreSlots(a, b) ==> SameResults(env.builtin(f, ins, a), env.builtin(f, ins, b)))
    && (forall kind, sig, ins, a, b ::
          MoreSlots(a, b) ==> SameResults(env.fiber(kind, sig, ins, a), env.fiber(kind, sig, ins, b)))
    && (forall a, b :: Extends(a, b) ==> env.stale(a) == env.stale(b))
  }

  predicate Direct(i: Inst) {
    !i.LocalAddr? && !i.SetupLocalAlloc? && !i.LocalAlloc? && !i.LocalAllocAligned? && !i.ReturnFree?
  }

  predicate AllDirect(code: seq<Inst>) {
    forall k :: 0 <= k < |code| ==> Direct(code[k])
  }

  /** The instruction looks up a slot the table does not have, or is a call. */
  predicate AsksForMore(i: Inst, st: State) {
    match i
    case DerefConst(_) => st.stack != [] && AddressAllocation(st.stack[0]) >= |st.memory.allocations|
    case DerefMut(_) => st.stack != [] && AddressAllocation(st.stack[0]) >= |st.memory.allocations|
    case LoadGlobalValue(g) => g >= |st.memory.allocations|
    case StoreGlobalValue(g) => g >= |st.memory.allocations|
    case Call(_) => true
    case CallIndirect(_) => true
    case CallBuiltin(_, _) => true
    case Fiber(_, _) => true
    case _ => false
  }

  predicate SameOutcome(bare: Outcome, slotted: Outcome) {
    match (bare, slotted)
    case (Ok(b), Ok(s)) => Extends(b, s)
    case (Ok(_), _) => false
    case (r, q) => r == q
  }

  lemma DerefSame(layout: Layout, writing: bool, bare: State, slotted: State)
    requires Extends(bare, slotted)
    ensures SameOutcome(Deref(bare, layout, writing), Deref(slotted, layout, writing))
         || (bare.stack != [] && AddressAllocation(bare.stack[0]) >= |bare.memory.allocations|
             && !Deref(bare, layout, writing).Ok?)
  {
  }

  lemma CallSame(env: Environment, i: Inst, m: Module, bare: State, slotted: State)
    requires Extends(bare, slotted) && Indifferent(env)
    requires i.Call? || i.CallIndirect? || i.CallBuiltin? || i.Fiber?
    ensures SameOutcome(Execute(m, env, i, bare), Execute(m, env, i, slotted)) || !Execute(m, env, i, bare).Ok?
  {
  }

  /** The instructions that only look at the stack and the frame do not see the slots. */
  predicate SeesSlots(i: Inst) {
    i.DerefConst? || i.DerefMut? || i.LoadGlobalValue? || i.StoreGlobalValue?
    || i.Call? || i.CallIndirect? || i.CallBuiltin? || i.Fiber?
  }

  lemma PlainSame(m: Module, env: Environment, i: Inst, bare: State, slotted: State)
    requires Extends(bare, slotted) && Direct(i) && !SeesSlots(i) && env.stale(bare) == env.stale(slotted)
    ensures SameOutcome(Execute(m, env, i, bare), Execute(m, env, i, slotted))
  {
  }

  /** One straight-line instruction. */
  lemma ExecuteSame(m: Module, env: Environment, i: Inst, bare: State, slotted: State)
    requires Extends(bare, slotted) && Indifferent(env) && Direct(i)
    ensures SameOutcome(Execute(m, env, i, bare), Execute(m, env, i, slotted))
         || (AsksForMore(i, bare) && !Execute(m, env, i, bare).Ok?)
  {
    if !SeesSlots(i) {
      PlainSame(m, env, i, bare, slotted);
    } else {
      match i
      case DerefConst(layout) => DerefSame(layout, false, bare, slotted);
      case DerefMut(layout) => DerefSame(layout, true, bare, slotted);
      case LoadGlobalValue(_) =>
      case StoreGlobalValue(_) =>
      case _ => CallSame(env, i, m, bare, slotted);
    }
  }

  /** Where the two runs of a code part: without the slots, it goes wrong when it asks for one. */
  predicate PartsAt(code: seq<Inst>, c: Control, next: Control) {
    c.At? && 0 <= c.place < |code| && AsksForMore(code[c.place], c.state) && GoesWrong(next)
  }

  lemma StepSame(m: Module, env: Environment, code: seq<Inst>, bare: Control, slotted: Control)
    requires SameControl(bare, slotted) && Indifferent(env) && AllDirect(code)
    ensures SameControl(Step(m, env, code, bare), Step(m, env, code, slotted))
         || PartsAt(code, bare, Step(m, env, code, bare))
  {
    if bare.At? && 0 <= bare.place < |code| && !IsControl(code[bare.place]) {
      ExecuteSame(m, env, code[bare.place], bare.state, slotted.state);
    }
  }

  /** Any number of steps: the same with and without the slots, up to where the two runs part. */
  lemma {:induction false} StepsSame(m: Module, env: Environment, code: seq<Inst>, n: nat, bare: Control,
                                     slotted: Control)
      returns (j: nat)
    requires SameControl(bare, slotted) && Indifferent(env) && AllDirect(code)
    ensures j <= n && SameControl(Steps(m, env, code, j, bare), Steps(m, env, code, j, slotted))
    ensures j < n ==> PartsAt(code, Steps(m, env, code, j, bare), Steps(m, env, code, j + 1, bare))
  {
    j := 0;
    if n > 0 {
      var next := Step(m, env, code, bare);
      StepSame(m, env, code, bare, slotted);
      if SameControl(next, Step(m, env, code, slotted)) {
        j := StepsSame(m, env, code, n - 1, next, Step(m, env, code, slotted));
        j := j + 1;
      } else {
        assert Steps(m, env, code, 1, bare) == Steps(m, env, code, 0, next);
      }
    }
  }

  /** A call gets to the entry block without the slots, where the frame with the slots is ready. */
  lemma EntersBoth(m: Module, env: Environment, src: FunctionSource, body: Body, reach: seq<bool>, before: State)
      returns (bare: State)
    requires ClosedReach(body, reach) && src.blocks != [] && |before.stack| >= src.blocks[0].inputs
    requires LaidOut(m.locals) && NewFrame(m.locals, before) && SpaceBefore(m.locals, |m.locals|) < TWO_24
    requires forall g :: 0 <= g < |m.globals| ==> GlobalSlotOk(m, before.memory, g)
    requires Run(m, env, Prologue(m.locals, 1), before).Ok?
    ensures var prologue := Prologue(m.locals, 0);
            Steps(m, env, FlatCode(body, reach, prologue), |prologue| + 1, At(0, before))
                == At(EntryPoint(prologue), bare)
    ensures Extends(bare, Entered(m, env, 1, before)) && Ready(m, src, At(0, Entered(m, env, 1, before)))
  {
    PrologueForms(m, env, before);
    EntryIsReady(m, env, src, 1, before);
    PrologueRuns(m, env, body, reach, 0, before);
    bare := Entered(m, env, 0, before);
  }

  /** The same from a number of steps earlier on, of the run without the slots. */
  lemma LaterSame(m: Module, env: Environment, code: seq<Inst>, a: nat, k: nat, start: Control, bare: Control,
                  slotted: Control)
      returns (j: nat)
    requires Steps(m, env, code, a, start) == bare
    requires SameControl(bare, slotted) && Indifferent(env) && AllDirect(code)
    ensures j <= a + k
    ensures j < a + k ==> PartsAt(code, Steps(m, env, code, j, start), Steps(m, env, code, j + 1, start))
    ensures j == a + k ==> SameControl(Steps(m, env, code, a + k, start), Steps(m, env, code, k, slotted))
  {
    j := StepsSame(m, env, code, k, bare, slotted);
    StepsAdd(m, env, code, a, j, start);
    StepsAdd(m, env, code, a, j + 1, start);
    j := a + j;
  }

  /** After either form of the prologue the frame is the same but for the slots. */
  lemma PrologueForms(m: Module, env: Environment, before: State)
    requires LaidOut(m.locals) && NewFrame(m.locals, before) && SpaceBefore(m.locals, |m.locals|) < TWO_24
    ensures Run(m, env, Prologue(m.locals, 0), before).Ok? && Run(m, env, Prologue(m.locals, 1), before).Ok?
    ensures Extends(Entered(m, env, 0, before), Entered(m, env, 1, before))
  {
    PrologueReserves(m, env, m.locals, before);
    PrologueAllocates(m, env, m.locals, 1, before);
  }

  /** A function whose locals are only accessed directly: called with its arguments in a new frame,
      its code does what its builder calls mean in a frame in which every local has a slot, up to
      the first time that it looks up a slot it does not have. */
  lemma DirectFunctionCorrect(m: Module, env: Environment, src: FunctionSource, body: Body, reach: seq<bool>,
                              before: State, n: nat) returns (k: nat, j: nat)
    requires Compiles(m, src, body, reach) && ClosedReach(body, reach)
    requires GuardedSource(m, src, reach) && GenuineSource(m, src, reach)
    requires AllDirect(FlatCode(body, reach, Prologue(m.locals, 0))) && Indifferent(env)
    requires LaidOut(m.locals) && NewFrame(m.locals, before) && SpaceBefore(m.locals, |m.locals|) < TWO_24
    requires forall g :: 0 <= g < |m.globals| ==> GlobalSlotOk(m, before.memory, g)
    requires |before.stack| >= src.blocks[0].inputs
    requires Run(m, env, Prologue(m.locals, 1), before).Ok?
    requires Honest(m, env, Entered(m, env, 1, before).frame)
    requires !Panics(RunSource(m, env, src, body.freeCount, n, At(0, Entered(m, env, 1, before))))
    ensures var code := FlatCode(body, reach, Prologue(m.locals, 0));
            && j <= k
            && (j < k ==> PartsAt(code, Steps(m, env, code, j, At(0, before)),
                                  Steps(m, env, code, j + 1, At(0, before))))
            && (j == k ==>
                  SameControl(Steps(m, env, code, k, At(0, before)),
                              Placed(body, reach, |Prologue(m.locals, 0)|,
                                     RunSource(m, env, src, body.freeCount, n, At(0, Entered(m, env, 1, before))))))
  {
    hide RunSource, Honest, GuardedSource, GenuineSource, Indifferent, AllDirect, PartsAt, SlotsOk;
    var prologue, slotted := Prologue(m.locals, 0), Entered(m, env, 1, before);
    var bare := EntersBoth(m, env, src, body, reach, before);
    var k' := CompilationCorrect(m, env, src, body, reach, prologue, slotted, n);
    j := LaterSame(m, env, FlatCode(body, reach, prologue), |prologue| + 1, k', At(0, before),
                   At(EntryPoint(prologue), bare), At(EntryPoint(prologue), slotted));
    k := |prologue| + 1 + k';
  }
}
