// A function that calls nothing, on the machine with fibers: it does there what its builder calls mean.

module LeafFunctions {
  import opened Words
  import opened Allocations
  import opened Bytecode
  import opened Vm
  import opened Blocks
  import opened Flat
  import opened Compiler
  import opened Refinement
  import opened Emission
  import opened FrameLocals
  import opened CompiledFunctions
  import M = Machine
  import S = StackSafety

  /** The innermost call of the running fiber, with what lies below it. */
  datatype Place = Place(fiber: nat, fn: nat, base: int, callers: seq<M.Activation>)

  /** The machine with fibers is where the machine for one function is. */
  predicate Shows(p: M.Process, at: Place, c: Control) {
    at.fiber in p.fibers
    && var f := p.fibers[at.fiber];
       match c
       case At(pc, st) =>
         && p.executing && p.current == Some(at.fiber) && f.stack == st.stack && p.memory == st.memory
         && f.frames == [M.Activation(at.fn, pc, at.base, st.frame)] + at.callers
       case Over(Returned(st)) =>
         && p.executing && p.current == Some(at.fiber) && f.stack == st.stack && p.memory == st.memory
         && f.frames == at.callers
       case Over(PanickedOut) => !p.executing && f.phase.Broken?
       case Over(Stuck) => p.fault
  }

  predicate IsLeaf(code: seq<Inst>) {
    forall k :: 0 <= k < |code| ==> !code[k].Call? && !code[k].CallIndirect? && !code[k].Fiber? && !code[k].Exit?
  }

  /** All that an instruction depends on of a module is its functions, and of the stale cell its value. */
  lemma ExecutesAlike(m: Module, m': Module, env: Environment, i: Inst, st: State, stale: U32)
    requires m.functions == m'.functions && env.stale(st) == stale
    ensures Execute(m, env.(stale := _ => stale), i, st) == Execute(m', env, i, st)
  {
  }

  /** One step of the one machine is one step of the other. */
  lemma StepAgrees(prog: M.Program, m: Module, env: Environment, p: M.Process, at: Place, pc: int, st: State,
                   choice: M.Choice)
    requires M.WellShaped(prog) && at.fn < |prog.code| && IsLeaf(prog.code[at.fn]) && m.functions == prog.m.functions
    requires Shows(p, at, At(pc, st)) && choice.stale == env.stale(st)
    ensures Shows(M.Execute1(prog, env, p, choice), at, Step(m, env, prog.code[at.fn], At(pc, st)))
  {
    var code, f := prog.code[at.fn], p.fibers[at.fiber];
    assert f.frames[0] == M.Activation(at.fn, pc, at.base, st.frame) && f.frames[1..] == at.callers;
    if 0 <= pc < |code| {
      var i := code[pc];
      assert M.Execute1(prog, env, p, choice) == M.InstAt(prog, env, p, at.fiber, i, choice);
      if !IsControl(i) {
        StraightAgrees(prog, m, env, p, at, pc, st, i, choice.stale);
        assert M.InstAt(prog, env, p, at.fiber, i, choice) == M.StraightAt(prog, env, p, at.fiber, i, choice.stale);
      } else {
        ControlAgrees(prog, m, env, p, at, pc, st, choice);
      }
    }
  }

  lemma StraightAgrees(prog: M.Program, m: Module, env: Environment, p: M.Process, at: Place, pc: int, st: State,
                       i: Inst, stale: U32)
    requires Shows(p, at, At(pc, st)) && stale == env.stale(st) && m.functions == prog.m.functions
    ensures Shows(M.StraightAt(prog, env, p, at.fiber, i, stale), at, OutcomeControl(Execute(m, env, i, st), pc + 1))
  {
    ExecutesAlike(prog.m, m, env, i, st, stale);
  }

  lemma ControlAgrees(prog: M.Program, m: Module, env: Environment, p: M.Process, at: Place, pc: int, st: State,
                      choice: M.Choice)
    requires M.WellShaped(prog) && at.fn < |prog.code| && 0 <= pc < |prog.code[at.fn]|
             && IsControl(prog.code[at.fn][pc])
    requires Shows(p, at, At(pc, st)) && !prog.code[at.fn][pc].Exit?
    ensures Shows(M.InstAt(prog, env, p, at.fiber, prog.code[at.fn][pc], choice), at,
                  Step(m, env, prog.code[at.fn], At(pc, st)))
  {
    var f := p.fibers[at.fiber];
    assert f.stack[0..] == f.stack;
    assert f.frames[1..] == at.callers;
    assert |f.stack| > 0 ==> Replace(st, 1, []).stack == f.stack[1..];
  }

  /** So any number of steps of the one machine is a run of the other, with some choices of what it finds
      in stale cells. */
  lemma {:induction false} StepsAgree(prog: M.Program, m: Module, env: Environment, p: M.Process, at: Place,
                                      c: Control, n: nat)
      returns (es: seq<M.Event>)
    requires M.WellShaped(prog) && at.fn < |prog.code| && IsLeaf(prog.code[at.fn]) && m.functions == prog.m.functions
    requires Shows(p, at, c)
    ensures |es| <= n && forall k :: 0 <= k < |es| ==> es[k].RunOne?
    ensures Shows(S.RunAll(prog, env, p, es), at, Steps(m, env, prog.code[at.fn], n, c))
    decreases n
  {
    es := [];
    match c
    case Over(_) => OverStays(m, env, prog.code[at.fn], n, c);
    case At(pc, st) =>
      if n > 0 {
        var choice := M.Choice(0, M.Grows, env.stale(st));
        StepAgrees(prog, m, env, p, at, pc, st, choice);
        var p' := M.Step1(prog, env, p, M.RunOne(choice));
        var rest := StepsAgree(prog, m, env, p', at, Step(m, env, prog.code[at.fn], c), n - 1);
        es := [M.RunOne(choice)] + rest;
        assert es[1..] == rest;
      }
  }

  /** A function that the builder made and that calls nothing: entered by a call on any fiber, with any
      callers below it, the machine gets to where its builder calls mean to be, or returns to its
      caller with the stack and memory they mean. */
  lemma LeafCorrect(prog: M.Program, env: Environment, b: S.Built, p: M.Process, at: Place, before: State, n: nat)
      returns (es: seq<M.Event>)
    requires M.WellShaped(prog) && at.fn < |prog.code| && IsLeaf(prog.code[at.fn]) && S.IsBuilt(prog, at.fn, b)
    requires Shows(p, at, At(0, before))
    requires var m := prog.m.(locals := b.locals);
             && GuardedSource(m, b.src, b.reach) && HasSlots(m.locals, b.addrCount)
             && LaidOut(m.locals) && NewFrame(m.locals, before)
             && (forall g :: 0 <= g < |m.globals| ==> GlobalSlotOk(m, before.memory, g))
             && |before.stack| >= b.src.blocks[0].inputs
             && Run(m, env, Prologue(m.locals, b.addrCount), before).Ok?
             && Honest(m, env, Entered(m, env, b.addrCount, before).frame)
             && !Panics(RunSource(m, env, b.src, b.body.freeCount, n, At(0, Entered(m, env, b.addrCount, before))))
    ensures forall k :: 0 <= k < |es| ==> es[k].RunOne?
    ensures var m := prog.m.(locals := b.locals);
            Shows(S.RunAll(prog, env, p, es), at,
                  Placed(b.body, b.reach, |Prologue(m.locals, b.addrCount)|,
                         RunSource(m, env, b.src, b.body.freeCount, n, At(0, Entered(m, env, b.addrCount, before)))))
  {
    hide RunSource, Honest, GuardedSource, SlotsOk, Shows, IsLeaf;
    var m := prog.m.(locals := b.locals);
    var k := FunctionCorrect(m, env, b.src, b.body, b.reach, b.addrCount, before, n);
    es := StepsAgree(prog, m, env, p, at, At(0, before), k);
  }
}
