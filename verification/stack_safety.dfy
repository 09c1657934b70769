// Safety of the value stacks, across calls, stack growth and fiber switches.

module StackSafety {
  import opened Words
  import opened Allocations
  import opened Bytecode
  import opened Vm
  import opened Blocks
  import opened Flat
  import opened Builder
  import opened Compiler
  import opened Depth
  import opened Emission
  import opened CompiledFunctions
  import opened Typing
  import Refinement
  import opened Machine
  import opened Scheduling
  import opened SavedStacks

  /** For each function, which depths its instructions are reached with. */
  type Depths = seq<(nat, nat) -> bool>

  ghost predicate TypedProgram(prog: Program, ty: Depths) {
    && WellShaped(prog) && |ty| == |prog.code|
    && forall f :: 0 <= f < |ty| ==> Typed(prog.m, prog.code[f], prog.m.functions[f], prog.limits[f], ty[f])
  }

  /** Builtins give as many values as they declare, and those that always panic do. */
  ghost predicate KeepsSignatures(env: Environment) {
    forall b: Builtin, ins, memory ::
      (env.builtin(b, ins, memory).Some? ==> |env.builtin(b, ins, memory).value.0| == b.sig.outputs)
      && (b.alwaysPanic ==> env.builtin(b, ins, memory) == None)
  }

  // ----- one handler -----

  lemma BuiltinEffect(env: Environment, b: Builtin, st: State, st': State)
    requires KeepsSignatures(env) && CallBuiltinImpl(env, b, st) == Outcome.Ok(st')
    ensures b.sig.inputs <= |st.stack| && b.sig.outputs <= |st'.stack| && !(b.alwaysPanic && b.impl.Other?)
    ensures st'.stack[b.sig.outputs..] == st.stack[b.sig.inputs..]
  {
    if b.impl.Other? {
      assert env.builtin(b, st.stack[..b.sig.inputs], st.memory).Some?;
    }
  }

  lemma DropsOnto(a: seq<Word>, b: seq<Word>, s: seq<Word>, n: nat)
    requires n <= |s| && b == s[n..]
    ensures (a + b)[|a|..] == s[n..]
  {
  }

  lemma CopyOnto(s: seq<Word>, idx: nat)
    requires idx < |s|
    ensures ([s[idx]] + s)[idx + 2..] == s[idx + 1..]
  {
  }

  /** The instructions that only move values. */
  lemma ShuffleEffect(m: Module, env: Environment, i: Inst, st: State, st': State)
    requires i.Pop? || i.Pick? || i.Roll? || i.Swap? || i.Dup?
    requires Vm.Execute(m, env, i, st) == Outcome.Ok(st')
    ensures Consumes(m, i) <= |st.stack| && Produces(m, i) <= |st'.stack|
    ensures st'.stack[Produces(m, i)..] == st.stack[Consumes(m, i)..]
  {
    hide Dereference, TryGet, MakeAddress, CallBuiltinImpl, FunctionAddress, AddToOffset, Signed;
    var s := st.stack;
    if i.Pop? {
      DropsOnto(s[..i.idx], s[i.idx + 1..], s, i.idx + 1);
    } else if i.Roll? {
      DropsOnto([s[i.idx]] + s[..i.idx], s[i.idx + 1..], s, i.idx + 1);
    } else if i.Swap? {
      DropsOnto([s[1], s[0]], s[2..], s, 2);
    } else {
      CopyOnto(s, if i.Dup? then 0 else i.idx);
    }
  }

  /** The instructions that replace values on top by others. */
  lemma ReplaceEffect(m: Module, env: Environment, i: Inst, st: State, st': State)
    requires !i.CallBuiltin? && !i.Pop? && !i.Pick? && !i.Roll? && !i.Swap? && !i.Dup? && !Transfers(i)
    requires Vm.Execute(m, env, i, st) == Outcome.Ok(st')
    ensures Consumes(m, i) <= |st.stack| && Produces(m, i) <= |st'.stack|
    ensures st'.stack[Produces(m, i)..] == st.stack[Consumes(m, i)..]
  {
    assert Consumes(m, i) <= |st.stack|;
    assert |st'.stack| == |st.stack| - Consumes(m, i) + Produces(m, i);
    DropsOnto(st'.stack[..Produces(m, i)], st.stack[Consumes(m, i)..], st.stack, Consumes(m, i));
  }

  /** A handler takes its operands from the top, leaves its results there, and nothing below changes. */
  lemma HandlerEffect(m: Module, env: Environment, i: Inst, st: State, st': State)
    requires KeepsSignatures(env) && !Transfers(i) && Vm.Execute(m, env, i, st) == Outcome.Ok(st')
    ensures Consumes(m, i) <= |st.stack| && Produces(m, i) <= |st'.stack| && !AlwaysPanics(i)
    ensures st'.stack[Produces(m, i)..] == st.stack[Consumes(m, i)..]
  {
    if i.CallBuiltin? {
      BuiltinEffect(env, i.builtin, st, st');
    } else if i.Pop? || i.Pick? || i.Roll? || i.Swap? || i.Dup? {
      ShuffleEffect(m, env, i, st, st');
    } else {
      ReplaceEffect(m, env, i, st, st');
    }
  }

  // ----- what is kept -----

  /** The calls in progress: each function's values begin at its base, the depth above it is one the
      next instruction is reached with, its largest depth fits the stack, and under a call the depth
      is the one after the call: what the callee leaves in place of its arguments. */
  ghost predicate FramesOk(prog: Program, ty: Depths, root: nat, frames: seq<Activation>, pc: int, height: int,
                           capacity: nat)
    requires TypedProgram(prog, ty)
  {
    && frames != []
    && var a := frames[0];
       && a.fn < |ty| && 0 <= a.base <= height && 0 <= pc && ty[a.fn](pc, height - a.base)
       && a.base + prog.limits[a.fn] <= capacity - HEADROOM
       && if |frames| == 1 then a.base == 0 && a.fn == root
          else
            && frames[1].base <= a.base
            && FramesOk(prog, ty, root, frames[1..], frames[1].pc, a.base + prog.m.functions[a.fn].outputs, capacity)
  }

  /** A page of stack at the least. */
  const SMALLEST_STACK := 512

  ghost predicate FiberOk(prog: Program, ty: Depths, f: Fiber)
    requires TypedProgram(prog, ty)
  {
    && f.root < |ty| && f.capacity >= SMALLEST_STACK && |f.stack| <= f.capacity - HEADROOM
    && match f.phase
       case Broken(_) => true
       case Entering =>
         && f.frames == []
         && ((f.status == Ready && f.stack == [] && f.expected == prog.m.functions[f.root].inputs)
             || (f.status == Running && |f.stack| == prog.m.functions[f.root].inputs))
       case Leaving =>
         && f.frames == [] && (f.status == Running || f.status == Done)
         && (f.status == Running ==> |f.stack| == prog.m.functions[f.root].outputs)
       case Inside =>
         && f.frames != [] && (f.status == Running || f.status == Suspended)
         && (f.status == Running ==> FramesOk(prog, ty, f.root, f.frames, f.frames[0].pc, |f.stack|, f.capacity))
         && (f.status == Suspended ==>
               FramesOk(prog, ty, f.root, f.frames, f.frames[0].pc + 1, |f.stack| + f.expected, f.capacity))
  }

  ghost predicate AllOk(prog: Program, ty: Depths, p: Process)
    requires TypedProgram(prog, ty)
  {
    forall h :: h in p.fibers ==> FiberOk(prog, ty, p.fibers[h])
  }

  ghost predicate Safe(prog: Program, ty: Depths, p: Process, chain: seq<nat>)
    requires TypedProgram(prog, ty)
  {
    Scheduled(p, chain) && AllOk(prog, ty, p) && PointersOk(p)
  }

  /** The top value passes for the address of a function with signature `sig`. */
  predicate ClaimsSignature(prog: Program, s: seq<Word>, sig: Signature) {
    s != [] && FunctionInputs(s[0]) == sig.inputs && FunctionOutputs(s[0]) == sig.outputs
    && FunctionIndex(s[0]) < |prog.m.functions|
  }

  /** The address of an indirect call keeps the counts it claims, of the values above the caller's base,
      and a stack that grows at least doubles. */
  predicate Sound(prog: Program, p: Process, e: Event) {
    match e
    case RunOne(choice) =>
      && (p.current.Some? && p.current.value in p.fibers ==> choice.capacity >= 2 * p.fibers[p.current.value].capacity)
      && (match NextInst(prog, p)
          case Some(CallIndirect(sig)) =>
            var f := p.fibers[p.current.value];
            ClaimsSignature(prog, f.stack, sig) ==>
              KeepsCounts(prog.m, FunctionIndex(f.stack[0]), sig, |f.stack| - 1 - f.frames[0].base)
          case _ => true)
    case Create(_, capacity, _) => capacity >= SMALLEST_STACK
    case _ => true
  }

  // ----- frames -----

  /** The innermost function goes on at another place and depth. */
  lemma FramesGoOn(prog: Program, ty: Depths, f: Fiber, pc: int, height: int, a: Activation, pc': int, height': int)
    requires TypedProgram(prog, ty) && FramesOk(prog, ty, f.root, f.frames, pc, height, f.capacity)
    requires a.fn == f.frames[0].fn && a.base == f.frames[0].base
    requires a.base <= height' && 0 <= pc' && ty[a.fn](pc', height' - a.base)
    ensures FramesOk(prog, ty, f.root, [a] + f.frames[1..], pc', height', f.capacity)
    ensures height' <= f.capacity - HEADROOM
  {
    var frames' := [a] + f.frames[1..];
    assert frames'[1..] == f.frames[1..];
    if |frames'| > 1 {
      assert frames'[1] == f.frames[1];
    }
    assert Typed(prog.m, prog.code[a.fn], prog.m.functions[a.fn], prog.limits[a.fn], ty[a.fn]);
    assert HandsOn(prog.m, prog.code[a.fn], prog.m.functions[a.fn].outputs, prog.limits[a.fn], ty[a.fn], pc',
                   height' - a.base);
  }

  lemma {:induction false} FramesInLarger(prog: Program, ty: Depths, root: nat, frames: seq<Activation>, pc: int,
                                          height: int,
                                          capacity: nat, capacity': nat)
    requires TypedProgram(prog, ty) && FramesOk(prog, ty, root, frames, pc, height, capacity) && capacity <= capacity'
    ensures FramesOk(prog, ty, root, frames, pc, height, capacity')
  {
    if |frames| > 1 {
      FramesInLarger(prog, ty, root, frames[1..], frames[1].pc, frames[0].base + prog.m.functions[frames[0].fn].outputs,
                     capacity, capacity');
    }
  }

  /** What is known of the next instruction of a running fiber. */
  lemma NextHandsOn(prog: Program, ty: Depths, f: Fiber)
    requires TypedProgram(prog, ty) && FiberOk(prog, ty, f) && f.status == Running && f.phase == Inside
    ensures var a := f.frames[0];
            a.fn < |ty| && 0 <= a.base <= |f.stack| && 0 <= a.pc && ty[a.fn](a.pc, |f.stack| - a.base)
            && HandsOn(prog.m, prog.code[a.fn], prog.m.functions[a.fn].outputs, prog.limits[a.fn], ty[a.fn], a.pc,
                       |f.stack| - a.base)
  {
    var a := f.frames[0];
    assert Typed(prog.m, prog.code[a.fn], prog.m.functions[a.fn], prog.limits[a.fn], ty[a.fn]);
    assert ty[a.fn](a.pc, |f.stack| - a.base);
    assert HandsOn(prog.m, prog.code[a.fn], prog.m.functions[a.fn].outputs, prog.limits[a.fn], ty[a.fn], a.pc,
                   |f.stack| - a.base);
  }

  // ----- steps within one fiber -----

  /** Only fiber `c` changes. */
  predicate OnlyChanges(p: Process, c: nat, p': Process) {
    && c in p.fibers && p'.fibers.Keys == p.fibers.Keys
    && forall h :: h in p.fibers && h != c ==> p'.fibers[h] == p.fibers[h]
  }

  lemma SameFibersOk(prog: Program, ty: Depths, p: Process, q: Process)
    requires TypedProgram(prog, ty) && AllOk(prog, ty, p) && q.fibers == p.fibers
    ensures AllOk(prog, ty, q)
  {
  }

  lemma OneKeepsAll(prog: Program, ty: Depths, p: Process, c: nat, p': Process)
    requires TypedProgram(prog, ty) && AllOk(prog, ty, p) && OnlyChanges(p, c, p') && FiberOk(prog, ty, p'.fibers[c])
    ensures AllOk(prog, ty, p')
  {
  }

  lemma StopKeeps(prog: Program, ty: Depths, p: Process, c: nat, regs: Pointer, cause: Cause)
    requires TypedProgram(prog, ty) && AllOk(prog, ty, p) && c in p.fibers
    ensures AllOk(prog, ty, StopAt(p, c, regs, cause)) && !StopAt(p, c, regs, cause).executing
  {
  }

  lemma PanicKeeps(prog: Program, ty: Depths, p: Process, c: nat)
    requires TypedProgram(prog, ty) && AllOk(prog, ty, p) && c in p.fibers
    ensures AllOk(prog, ty, PanicAt(p, c)) && !PanicAt(p, c).executing
  {
    StopKeeps(prog, ty, p, c, Message, ByMachine);
  }

  /** Fiber `f` is inside a function whose next instruction is `i`. */
  predicate AtInst(prog: Program, f: Fiber, i: Inst) {
    f.status == Running && f.phase == Inside && f.frames != []
    && var a := f.frames[0]; a.fn < |prog.code| && 0 <= a.pc < |prog.code[a.fn]| && prog.code[a.fn][a.pc] == i
  }

  /** The innermost function at another place, with another stack. */
  lemma FiberGoesOn(prog: Program, ty: Depths, f: Fiber, a: Activation, stack: seq<Word>)
    requires TypedProgram(prog, ty) && FiberOk(prog, ty, f) && f.status == Running && f.phase == Inside
    requires a.fn == f.frames[0].fn < |ty| && a.base == f.frames[0].base
    requires 0 <= a.base <= |stack| && 0 <= a.pc && ty[a.fn](a.pc, |stack| - a.base)
    ensures FiberOk(prog, ty, f.(stack := stack, frames := [a] + f.frames[1..]))
  {
    FramesGoOn(prog, ty, f, f.frames[0].pc, |f.stack|, a, a.pc, |stack|);
  }

  lemma StraightGoesOn(prog: Program, ty: Depths, env: Environment, p: Process, c: nat, i: Inst, st: State)
    requires TypedProgram(prog, ty) && KeepsSignatures(env) && c in p.fibers
    requires FiberOk(prog, ty, p.fibers[c]) && AtInst(prog, p.fibers[c], i) && !Transfers(i)
    requires Vm.Execute(prog.m, env, i, State(p.fibers[c].stack, p.fibers[c].frames[0].frame, p.memory))
             == Outcome.Ok(st)
    ensures var f := p.fibers[c]; var a := f.frames[0];
            FiberOk(prog, ty, f.(stack := st.stack, frames := [a.(pc := a.pc + 1, frame := st.frame)] + f.frames[1..]))
  {
    var f := p.fibers[c];
    var a := f.frames[0];
    NextHandsOn(prog, ty, f);
    HandlerEffect(prog.m, env, i, State(f.stack, a.frame, p.memory), st);
    assert |st.stack| == |f.stack| - Consumes(prog.m, i) + Produces(prog.m, i);
    FiberGoesOn(prog, ty, f, a.(pc := a.pc + 1, frame := st.frame), st.stack);
  }

  lemma StraightKeeps(prog: Program, ty: Depths, env: Environment, p: Process, c: nat, i: Inst, stale: U32)
    requires TypedProgram(prog, ty) && AllOk(prog, ty, p) && KeepsSignatures(env)
    requires c in p.fibers && AtInst(prog, p.fibers[c], i) && !Transfers(i)
    ensures AllOk(prog, ty, StraightAt(prog, env, p, c, i, stale))
    ensures var p' := StraightAt(prog, env, p, c, i, stale);
            p'.executing ==> c in p'.fibers && p'.fibers[c].phase == Inside
  {
    hide Execute, FramesOk, FiberOk, StopAt;
    var env' := env.(stale := _ => stale);
    match Vm.Execute(prog.m, env', i, State(p.fibers[c].stack, p.fibers[c].frames[0].frame, p.memory)) {
      case Ok(st) =>
        StraightGoesOn(prog, ty, env', p, c, i, st);
        OneKeepsAll(prog, ty, p, c, StraightAt(prog, env, p, c, i, stale));
      case Panicked =>
        PanicKeeps(prog, ty, p, c);
        StopKeeps(prog, ty, p, c, InStack(c, |p.fibers[c].stack|), ByBuiltin);
        StopKeeps(prog, ty, p, c, p.regs, Leftover);
      case Fault =>
    }
  }

  lemma JumpKeeps(prog: Program, ty: Depths, p: Process, c: nat, target: int, drop: nat)
    requires TypedProgram(prog, ty) && AllOk(prog, ty, p)
    requires c in p.fibers && p.fibers[c].status == Running && p.fibers[c].phase == Inside
    requires var f := p.fibers[c]; var a := f.frames[0];
             drop <= |f.stack| && a.fn < |ty| && 0 <= a.base && a.base + drop <= |f.stack| && 0 <= target
             && ty[a.fn](target, |f.stack| - drop - a.base)
    ensures var p' := JumpAt(p, c, target, drop);
            AllOk(prog, ty, p') && c in p'.fibers && p'.fibers[c].phase == Inside
  {
    var f := p.fibers[c];
    FiberGoesOn(prog, ty, f, f.frames[0].(pc := target), f.stack[drop..]);
    OneKeepsAll(prog, ty, p, c, JumpAt(p, c, target, drop));
  }

  lemma ReturnKeeps(prog: Program, ty: Depths, p: Process, c: nat)
    requires TypedProgram(prog, ty) && AllOk(prog, ty, p)
    requires c in p.fibers && p.fibers[c].status == Running && p.fibers[c].phase == Inside
    requires var f := p.fibers[c]; var a := f.frames[0];
             a.fn < |ty| && |f.stack| - a.base == prog.m.functions[a.fn].outputs
    ensures AllOk(prog, ty, ReturnAt(p, c)) && c in ReturnAt(p, c).fibers && !ReturnAt(p, c).fibers[c].phase.Broken?
  {
    OneKeepsAll(prog, ty, p, c, ReturnAt(p, c));
  }

  // ----- calls -----

  lemma EntryTyped(prog: Program, ty: Depths, callee: nat)
    requires TypedProgram(prog, ty) && callee < |ty|
    ensures ty[callee](0, prog.m.functions[callee].inputs) && prog.m.functions[callee].inputs <= prog.limits[callee]
  {
    assert Typed(prog.m, prog.code[callee], prog.m.functions[callee], prog.limits[callee], ty[callee]);
    assert HandsOn(prog.m, prog.code[callee], prog.m.functions[callee].outputs, prog.limits[callee], ty[callee], 0,
                   prog.m.functions[callee].inputs);
  }

  /** A new activation on top of the caller's, which waits for the callee's outputs. */
  lemma EntryOk(prog: Program, ty: Depths, f: Fiber, callee: nat, height: int, base: Word)
    requires TypedProgram(prog, ty) && callee < |ty| && 0 <= height
    requires height + prog.limits[callee] <= f.capacity - HEADROOM
    requires var n := prog.m.functions[callee];
             f.frames != []
             && 0 <= f.frames[0].base <= height - n.inputs && f.frames[0].pc >= 0
             && FramesOk(prog, ty, f.root, [f.frames[0].(pc := f.frames[0].pc + 1)] + f.frames[1..], f.frames[0].pc + 1,
                         height - n.inputs + n.outputs, f.capacity)
    ensures var entry := Activation(callee, 0, height - prog.m.functions[callee].inputs, Frame(base, 0, 0, 32));
            FramesOk(prog, ty, f.root, [entry] + ([f.frames[0].(pc := f.frames[0].pc + 1)] + f.frames[1..]), 0, height,
                     f.capacity)
  {
    var entry := Activation(callee, 0, height - prog.m.functions[callee].inputs, Frame(base, 0, 0, 32));
    var callers := [f.frames[0].(pc := f.frames[0].pc + 1)] + f.frames[1..];
    var frames' := [entry] + callers;
    EntryTyped(prog, ty, callee);
    assert frames'[1..] == callers && frames'[1] == callers[0];
  }

  /** What a caller must have for a call: the arguments, and a depth to go on with after it. */
  ghost predicate CanCall(prog: Program, ty: Depths, f: Fiber, callee: nat, drop: nat)
    requires TypedProgram(prog, ty)
  {
    && callee < |ty| && drop <= |f.stack| && f.status == Running
    && var n, height := prog.m.functions[callee], |f.stack| - drop;
       if f.phase == Entering then callee == f.root && drop == 0
       else
         && f.phase == Inside && f.frames != []
         && var a := f.frames[0];
            && a.fn < |ty| && 0 <= a.base && a.base + n.inputs <= height && 0 <= a.pc
            && ty[a.fn](a.pc + 1, height - n.inputs + n.outputs - a.base)
  }

  lemma GrownOk(prog: Program, ty: Depths, f: Fiber, capacity: nat)
    requires TypedProgram(prog, ty) && FiberOk(prog, ty, f) && f.capacity <= capacity
    ensures FiberOk(prog, ty, f.(capacity := capacity))
  {
    if f.phase == Inside && f.status == Running {
      FramesInLarger(prog, ty, f.root, f.frames, f.frames[0].pc, |f.stack|, f.capacity, capacity);
    }
    if f.phase == Inside && f.status == Suspended {
      FramesInLarger(prog, ty, f.root, f.frames, f.frames[0].pc + 1, |f.stack| + f.expected, f.capacity, capacity);
    }
  }

  lemma EnteredOk(prog: Program, ty: Depths, f: Fiber, callee: nat, drop: nat, base: Word)
    requires TypedProgram(prog, ty) && FiberOk(prog, ty, f) && CanCall(prog, ty, f, callee, drop)
    requires f.capacity - HEADROOM - |f.stack| >= prog.limits[callee]
    ensures var stack := f.stack[drop..];
            var entry := Activation(callee, 0, |stack| - prog.m.functions[callee].inputs, Frame(base, 0, 0, 32));
            var callers := if f.frames == [] then [] else [f.frames[0].(pc := f.frames[0].pc + 1)] + f.frames[1..];
            FiberOk(prog, ty, f.(stack := stack, frames := [entry] + callers, phase := Inside))
  {
    var height := |f.stack| - drop;
    EntryTyped(prog, ty, callee);
    if f.phase == Inside {
      var a, n := f.frames[0], prog.m.functions[callee];
      FramesGoOn(prog, ty, f, a.pc, |f.stack|, a.(pc := a.pc + 1), a.pc + 1, height - n.inputs + n.outputs);
      EntryOk(prog, ty, f, callee, height, base);
    }
  }

  lemma CallKeeps(prog: Program, ty: Depths, p: Process, c: nat, callee: nat, drop: nat, choice: Choice)
    requires TypedProgram(prog, ty) && AllOk(prog, ty, p)
    requires c in p.fibers && CanCall(prog, ty, p.fibers[c], callee, drop)
             && choice.capacity >= 2 * p.fibers[c].capacity
    ensures AllOk(prog, ty, CallAt(prog, p, c, callee, drop, choice))
    ensures var p' := CallAt(prog, p, c, callee, drop, choice);
            p'.executing ==> c in p'.fibers && !p'.fibers[c].phase.Broken?
  {
    hide FiberOk, FramesOk;
    var f := p.fibers[c];
    if f.capacity - HEADROOM - |f.stack| < prog.limits[callee] {
      var grown := WithFiber(p, c, f.(capacity := choice.capacity));
      GrownOk(prog, ty, f, choice.capacity);
      OneKeepsAll(prog, ty, p, c, grown);
      PanicKeeps(prog, ty, grown, c);
    } else {
      PanicKeeps(prog, ty, p, c);
      if choice.placement.Fits? {
        EnteredOk(prog, ty, f, callee, drop, choice.placement.base);
        OneKeepsAll(prog, ty, p, c, CallAt(prog, p, c, callee, drop, choice));
      }
    }
  }

  /** Every instruction that stays within the fiber. */
  lemma InstKeeps(prog: Program, ty: Depths, env: Environment, p: Process, c: nat, i: Inst, choice: Choice)
    requires TypedProgram(prog, ty) && AllOk(prog, ty, p) && KeepsSignatures(env) && !i.Fiber?
    requires c in p.fibers && AtInst(prog, p.fibers[c], i) && choice.capacity >= 2 * p.fibers[c].capacity
    requires i.CallIndirect? && ClaimsSignature(prog, p.fibers[c].stack, i.sig) ==>
               KeepsCounts(prog.m, FunctionIndex(p.fibers[c].stack[0]), i.sig,
                           |p.fibers[c].stack| - 1 - p.fibers[c].frames[0].base)
    ensures AllOk(prog, ty, InstAt(prog, env, p, c, i, choice))
    ensures var p' := InstAt(prog, env, p, c, i, choice);
            p'.executing ==> c in p'.fibers && !p'.fibers[c].phase.Broken?
  {
    hide StraightAt, CallAt, JumpAt, ReturnAt, ReturnFreeAt, FramesOk, Holds, Signed;
    var f := p.fibers[c];
    var a := f.frames[0];
    NextHandsOn(prog, ty, f);
    PanicKeeps(prog, ty, p, c);
    if !Transfers(i) {
      StraightKeeps(prog, ty, env, p, c, i, choice.stale);
      assert InstAt(prog, env, p, c, i, choice) == StraightAt(prog, env, p, c, i, choice.stale);
    } else if i.Return? {
      ReturnKeeps(prog, ty, p, c);
    } else if i.ReturnFree? {
      ReturnFreeKeeps(prog, ty, p, c, i.count);
    } else if i.Jump? {
      JumpKeeps(prog, ty, p, c, a.pc + i.target, 0);
    } else if i.BranchIf? {
      JumpKeeps(prog, ty, p, c, if Holds(i.cc, Signed(f.stack[0])) then a.pc + i.target else a.pc + 1, 1);
    } else if i.Call? {
      if i.function_ < |prog.m.functions| {
        CallKeeps(prog, ty, p, c, i.function_, 0, choice);
      }
    } else if i.CallIndirect? {
      if ClaimsSignature(prog, f.stack, i.sig) {
        CallKeeps(prog, ty, p, c, FunctionIndex(f.stack[0]), 1, choice);
      }
    }
  }

  lemma ReturnFreeKeeps(prog: Program, ty: Depths, p: Process, c: nat, count: nat)
    requires TypedProgram(prog, ty) && AllOk(prog, ty, p)
    requires c in p.fibers && p.fibers[c].status == Running && p.fibers[c].phase == Inside
    requires var f := p.fibers[c]; var a := f.frames[0];
             a.fn < |ty| && |f.stack| - a.base == prog.m.functions[a.fn].outputs
    ensures AllOk(prog, ty, ReturnFreeAt(p, c, count))
    ensures var p' := ReturnFreeAt(p, c, count);
            p'.executing ==> c in p'.fibers && !p'.fibers[c].phase.Broken?
  {
    PanicKeeps(prog, ty, p, c);
    match FreeLocals(p.memory.allocations, p.fibers[c].frames[0].frame.firstLocal, count)
    case None =>
    case Some(table) => ReturnKeeps(prog, ty, p.(memory := RemoveFreed(p.memory.(allocations := table))), c);
  }

  // ----- switches -----

  /** A fiber that gives up control will go on with what it waits for. */
  lemma SuspendedOk(prog: Program, ty: Depths, c: nat, f: Fiber, taken: nat, expected: U8)
    requires TypedProgram(prog, ty) && FiberOk(prog, ty, f) && f.status == Running && f.phase == Inside
    requires var a := f.frames[0];
             a.fn < |ty| && 0 <= a.base && a.base + taken <= |f.stack| && 0 <= a.pc
             && ty[a.fn](a.pc + 1, |f.stack| - taken + expected - a.base)
    ensures FiberOk(prog, ty, SuspendedFiber(c, f, f.stack[taken..], expected))
  {
    FramesGoOn(prog, ty, f, f.frames[0].pc, |f.stack|, f.frames[0], f.frames[0].pc + 1, |f.stack| - taken + expected);
    assert [f.frames[0]] + f.frames[1..] == f.frames;
  }

  /** A fiber that gets what it waits for can run. */
  lemma ResumedOk(prog: Program, ty: Depths, f: Fiber, values: seq<Word>, parent: Option<nat>)
    requires TypedProgram(prog, ty) && FiberOk(prog, ty, f) && Resumable(f) && !f.phase.Broken?
             && |values| == f.expected
    ensures FiberOk(prog, ty, ResumedFiber(f, values, parent)) && ResumedFiber(f, values, parent).phase == f.phase
  {
    if f.phase == Inside {
      var a := f.frames[0];
      FramesGoOn(prog, ty, f, a.pc + 1, |f.stack| + f.expected, a.(pc := a.pc + 1), a.pc + 1, |f.stack| + f.expected);
    }
  }

  lemma TwoKeepAll(prog: Program, ty: Depths, p: Process, c: nat, h: nat, p': Process)
    requires TypedProgram(prog, ty) && AllOk(prog, ty, p) && c in p.fibers && h in p.fibers
    requires p'.fibers.Keys == p.fibers.Keys
    requires forall k :: k in p.fibers && k != c && k != h ==> p'.fibers[k] == p.fibers[k]
    requires FiberOk(prog, ty, p'.fibers[c]) && FiberOk(prog, ty, p'.fibers[h])
    ensures AllOk(prog, ty, p')
  {
  }

  /** The next instruction of the running fiber is a switch that its depth suits. */
  ghost predicate AtSwitch(prog: Program, ty: Depths, f: Fiber, taken: nat, expected: U8)
    requires TypedProgram(prog, ty)
  {
    && f.status == Running && f.phase == Inside && f.frames != []
    && var a := f.frames[0];
       a.fn < |ty| && 0 <= a.base && a.base + taken <= |f.stack| && 0 <= a.pc
       && ty[a.fn](a.pc + 1, |f.stack| - taken + expected - a.base)
  }

  lemma SwitchKeeps(prog: Program, ty: Depths, p: Process, c: nat, kind: FiberKind, sig: Signature)
    requires TypedProgram(prog, ty) && AllOk(prog, ty, p) && c in p.fibers && kind != Suspend
    requires AtSwitch(prog, ty, p.fibers[c], sig.inputs + 1, sig.outputs)
    requires var target := LookUp(p, p.fibers[c].stack[sig.inputs]);
             target.Some? ==> !p.fibers[target.value].phase.Broken?
    ensures AllOk(prog, ty, SwitchTo(p, c, kind, sig))
  {
    PanicKeeps(prog, ty, p, c);
    var f := p.fibers[c];
    match LookUp(p, f.stack[sig.inputs])
    case None =>
    case Some(h) =>
      if Resumable(p.fibers[h]) && p.fibers[h].expected == sig.inputs {
        SuspendedOk(prog, ty, c, f, sig.inputs + 1, sig.outputs);
        ResumedOk(prog, ty, p.fibers[h], f.stack[..sig.inputs], if kind == Resume then Some(c) else f.parent);
        TwoKeepAll(prog, ty, p, c, h, SwitchTo(p, c, kind, sig));
      }
  }

  lemma OkOf(prog: Program, ty: Depths, p: Process, h: nat)
    requires TypedProgram(prog, ty) && AllOk(prog, ty, p) && h in p.fibers
    ensures FiberOk(prog, ty, p.fibers[h])
  {
  }

  lemma SuspendToHostKeeps(prog: Program, ty: Depths, p: Process, c: nat, sig: Signature)
    requires TypedProgram(prog, ty) && AllOk(prog, ty, p) && c in p.fibers && p.fibers[c].parent == None
    requires AtSwitch(prog, ty, p.fibers[c], sig.inputs, sig.outputs)
    ensures AllOk(prog, ty, SuspendAt(p, c, sig))
  {
    hide FramesOk;
    SuspendedOk(prog, ty, c, p.fibers[c], sig.inputs, sig.outputs);
    OneKeepsAll(prog, ty, p, c, SuspendAt(p, c, sig));
  }

  lemma SuspendKeeps(prog: Program, ty: Depths, p: Process, c: nat, sig: Signature)
    requires TypedProgram(prog, ty) && AllOk(prog, ty, p) && c in p.fibers && ParentWaits(p, c)
    requires AtSwitch(prog, ty, p.fibers[c], sig.inputs, sig.outputs)
    ensures AllOk(prog, ty, SuspendAt(p, c, sig))
  {
    hide AllOk, FiberOk, FramesOk, LookUp, MakeAddress, StopAt;
    var f := p.fibers[c];
    var parent := LookUpParent(p, f.parent);
    if f.parent == None {
      SuspendToHostKeeps(prog, ty, p, c, sig);
    } else if parent == None {
      PanicKeeps(prog, ty, p, c);
    } else {
      var h := parent.value;
      if p.fibers[h].expected != sig.inputs {
        var asserted := p.(asserts := p.asserts && Resumable(p.fibers[h]));
        SameFibersOk(prog, ty, p, asserted);
        PanicKeeps(prog, ty, asserted, c);
      } else {
        OkOf(prog, ty, p, c);
        OkOf(prog, ty, p, h);
        SuspendedOk(prog, ty, c, f, sig.inputs, sig.outputs);
        ResumedOk(prog, ty, p.fibers[h], f.stack[..sig.inputs], p.fibers[h].parent);
        TwoKeepAll(prog, ty, p, c, h, SuspendAt(p, c, sig));
      }
    }
  }

  lemma DoneOk(prog: Program, ty: Depths, f: Fiber)
    requires TypedProgram(prog, ty) && FiberOk(prog, ty, f) && f.phase == Leaving && f.status == Running
    ensures FiberOk(prog, ty, f.(status := Done)) && FiberOk(prog, ty, f.(status := Done, stack := []))
    ensures f.root < |prog.m.functions|
  {
  }

  lemma ExitKeeps(prog: Program, ty: Depths, p: Process, c: nat)
    requires TypedProgram(prog, ty) && AllOk(prog, ty, p) && c in p.fibers && ParentWaits(p, c)
    requires p.fibers[c].phase == Leaving && p.fibers[c].status == Running
    ensures p.fibers[c].root < |prog.m.functions| && AllOk(prog, ty, ExitAt(prog, p, c))
  {
    hide AllOk, FiberOk, LookUp, MakeAddress, StopAt;
    var f := p.fibers[c];
    var done := WithFiber(p, c, f.(status := Done));
    OkOf(prog, ty, p, c);
    DoneOk(prog, ty, f);
    DoneLooksUp(p, c, f.(status := Done), f.parent);
    OneKeepsAll(prog, ty, p, c, done);
    var parent := LookUpParent(p, f.parent);
    if parent == None {
      SameFibersOk(prog, ty, done, done.(regs := Nowhere));
      StopKeeps(prog, ty, done.(regs := Nowhere), c, Nowhere, Leftover);
      SameFibersOk(prog, ty, done, done.(regs := Nowhere, executing := false));
    } else {
      var h := parent.value;
      var asserted := done.(asserts := p.asserts && Resumable(done.fibers[h]));
      SameFibersOk(prog, ty, done, asserted);
      PanicKeeps(prog, ty, asserted, c);
      if p.fibers[h].expected == |f.stack| % 0x100 {
        SmallStack(prog, ty, f);
        assert f.stack[..|f.stack| % 0x100] == f.stack;
        OkOf(prog, ty, p, h);
        ResumedOk(prog, ty, p.fibers[h], f.stack, p.fibers[h].parent);
        TwoKeepAll(prog, ty, p, c, h, ExitAt(prog, p, c));
      }
    }
  }

  lemma SmallStack(prog: Program, ty: Depths, f: Fiber)
    requires TypedProgram(prog, ty) && FiberOk(prog, ty, f) && f.phase == Leaving && f.status == Running
    ensures |f.stack| < 0x100
  {
  }

  // ----- the theorem -----

  /** A running fiber that is about to switch has what the switch takes. */
  lemma NextIsSwitch(prog: Program, ty: Depths, p: Process, c: nat, kind: FiberKind, sig: Signature)
    requires TypedProgram(prog, ty) && AllOk(prog, ty, p) && p.executing && p.current == Some(c) && c in p.fibers
    requires p.fibers[c].status == Running && p.fibers[c].phase == Inside
             && NextInst(prog, p) == Some(Inst.Fiber(kind, sig))
    ensures AtSwitch(prog, ty, p.fibers[c], FiberArguments(kind, sig), sig.outputs)
  {
    NextHandsOn(prog, ty, p.fibers[c]);
  }

  lemma RunOneKeeps(prog: Program, ty: Depths, env: Environment, p: Process, chain: seq<nat>, choice: Choice)
    requires TypedProgram(prog, ty) && Safe(prog, ty, p, chain) && KeepsSignatures(env)
    requires Permitted(prog, p, chain, RunOne(choice)) && Sound(prog, p, RunOne(choice))
    ensures AllOk(prog, ty, Execute1(prog, env, p, choice))
  {
    hide CallAt, ExitAt, SuspendAt, SwitchTo, StraightAt, ReturnAt, ReturnFreeAt, JumpAt, CallIndirectAt, FramesOk;
    if p.executing {
      var c := chain[0];
      var f := p.fibers[c];
      ParentIsNext(p, chain);
      if f.frames == [] {
        if f.phase == Entering {
          CallKeeps(prog, ty, p, c, f.root, 0, choice);
        } else {
          ExitKeeps(prog, ty, p, c);
        }
      } else {
        NextHandsOn(prog, ty, f);
        var i := prog.code[f.frames[0].fn][f.frames[0].pc];
        if i.Fiber? {
          NextIsSwitch(prog, ty, p, c, i.kind, i.sig);
          if i.kind == Suspend {
            SuspendKeeps(prog, ty, p, c, i.sig);
          } else {
            SwitchKeeps(prog, ty, p, c, i.kind, i.sig);
          }
        } else {
          InstKeeps(prog, ty, env, p, c, i, choice);
        }
      }
    }
  }

  lemma HostKeeps(prog: Program, ty: Depths, p: Process, h: nat, values: seq<Word>, outputs: nat)
    requires TypedProgram(prog, ty) && AllOk(prog, ty, p)
    requires h in p.fibers && Resumable(p.fibers[h]) && !p.fibers[h].phase.Broken?
    ensures AllOk(prog, ty, HostResumeAt(p, h, values, outputs))
  {
    if p.fibers[h].expected == |values| {
      ResumedOk(prog, ty, p.fibers[h], values, None);
    }
    OneKeepsAll(prog, ty, p, h, HostResumeAt(p, h, values, outputs));
  }

  lemma DestroyKeeps(prog: Program, ty: Depths, p: Process, h: nat)
    requires TypedProgram(prog, ty) && AllOk(prog, ty, p) && h in p.fibers
    ensures AllOk(prog, ty, DestroyAt(prog, p, h))
  {
    var t := Cancelled(prog, p, h).table;
    var asserted := p.(asserts := p.asserts && p.fibers[h].status != Running, memory := p.memory.(allocations := t));
    if p.current.Some? && p.current.value in p.fibers {
      var c := p.current.value;
      StopKeeps(prog, ty, asserted, c, InStack(c, |p.fibers[c].stack|), ByBuiltin);
      StopKeeps(prog, ty, asserted, c, p.regs, Leftover);
    }
  }

  /** One step of the machine, the host or a builtin keeps every fiber's stack in order. */
  lemma StepKeeps(prog: Program, ty: Depths, env: Environment, p: Process, chain: seq<nat>, e: Event)
      returns (chain': seq<nat>)
    requires TypedProgram(prog, ty) && Safe(prog, ty, p, chain) && p.asserts && KeepsSignatures(env)
    requires Permitted(prog, p, chain, e) && Sound(prog, p, e)
    ensures Safe(prog, ty, Step1(prog, env, p, e), chain')
  {
    chain' := StepSchedules(prog, env, p, chain, e);
    StepPoints(prog, env, p, chain, e);
    match e {
      case RunOne(choice) => RunOneKeeps(prog, ty, env, p, chain, choice);
      case HostResume(h, values, outputs) => if h in p.fibers { HostKeeps(prog, ty, p, h, values, outputs); }
      case Create(fn, capacity, at) =>
      case Destroy(h) => if h in p.fibers { DestroyKeeps(prog, ty, p, h); }
    }
  }

  // ----- whole runs -----

  ghost function RunAll(prog: Program, env: Environment, p: Process, es: seq<Event>): Process
    requires WellShaped(prog)
    decreases |es|
  {
    if es == [] then p else RunAll(prog, env, Step1(prog, env, p, es[0]), es[1..])
  }

  /** At every step what is permitted happens, and nothing ends or suspends with a number of values
      its receiver does not wait for. */
  ghost predicate AllPermitted(prog: Program, env: Environment, p: Process, es: seq<Event>)
    requires WellShaped(prog)
    decreases |es|
  {
    es == []
    || ((forall chain :: Scheduled(p, chain) ==> Permitted(prog, p, chain, es[0]))
        && Sound(prog, p, es[0]) && !(es[0].RunOne? && EndsMismatched(prog, p)) && !RefusedOutside(prog, p, es[0])
        && AllPermitted(prog, env, Step1(prog, env, p, es[0]), es[1..]))
  }

  /** In every state of every run: one fiber runs at most, its chain of parents is finite, all status
      assertions held, and every fiber's stack is in order. */
  lemma {:induction false} EveryRunIsSafe(prog: Program, ty: Depths, env: Environment, p: Process, chain: seq<nat>,
                                          es: seq<Event>)
      returns (chain': seq<nat>)
    requires TypedProgram(prog, ty) && KeepsSignatures(env) && Safe(prog, ty, p, chain) && p.asserts
    requires AllPermitted(prog, env, p, es)
    ensures Safe(prog, ty, RunAll(prog, env, p, es), chain') && RunAll(prog, env, p, es).asserts
    decreases |es|
  {
    chain' := chain;
    if es != [] {
      assert Permitted(prog, p, chain, es[0]);
      var _ := StepSchedules(prog, env, p, chain, es[0]);
      var chain1 := StepKeeps(prog, ty, env, p, chain, es[0]);
      chain' := EveryRunIsSafe(prog, ty, env, Step1(prog, env, p, es[0]), chain1, es[1..]);
    }
  }

  /** A process without fibers is where every run starts. */
  lemma EmptyIsSafe(prog: Program, ty: Depths, memory: Memory)
    requires TypedProgram(prog, ty)
    ensures Safe(prog, ty, Process(map[], None, false, 0, memory, Nowhere, true, false), [])
  {
  }

  // ----- what safety means -----

  /** The running function's depth is one its next instruction is typed with: for a function the
      builder made, exactly the depth tracked there.  The operands are there, above the function's
      base, and the results fit above the limit. */
  lemma NoUnderflow(prog: Program, ty: Depths, p: Process, chain: seq<nat>)
    requires TypedProgram(prog, ty) && Safe(prog, ty, p, chain) && p.executing && p.fibers[chain[0]].frames != []
    ensures var f := p.fibers[chain[0]]; var a := f.frames[0];
            && 0 <= a.base <= |f.stack| && a.fn < |ty| && 0 <= a.pc < |prog.code[a.fn]|
            && ty[a.fn](a.pc, |f.stack| - a.base) && |f.stack| - a.base <= prog.limits[a.fn]
            && Consumes(prog.m, prog.code[a.fn][a.pc]) <= |f.stack| - a.base
  {
    NextHandsOn(prog, ty, p.fibers[chain[0]]);
  }

  /** The stack pointer of a fiber, in the machine's registers while it runs and saved otherwise, is in
      the fiber's own stack, with the values kept free for builtins below it. */
  predicate PointerInLimit(h: nat, f: Fiber) {
    if f.status == Running then |f.stack| + HEADROOM <= f.capacity
    else f.saved.InStack? && f.saved.fiber == h && f.saved.depth + HEADROOM <= f.capacity
  }

  /** No stack pointer ever gets below its limit.  The exception are fibers that a panic of the machine
      stopped: they have lost theirs. */
  lemma LimitExactly(prog: Program, ty: Depths, p: Process, chain: seq<nat>, h: nat)
    requires TypedProgram(prog, ty) && Safe(prog, ty, p, chain) && h in p.fibers
    requires p.fibers[h].status != Done && p.fibers[h].phase != Broken(Leftover)
    ensures PointerInLimit(h, p.fibers[h]) <==> p.fibers[h].phase != Broken(ByMachine)
  {
    var f := p.fibers[h];
    assert PointerOk(h, f);
    if f.status == Running {
      assert chain[0] == h;
    } else {
      SavedExactly(p, h);
    }
  }

  /** A call nets exactly minus its inputs plus its outputs: when a function returns, its caller finds
      the outputs where the inputs were, at the depth the instruction after the call is typed with. */
  lemma ReturnNets(prog: Program, ty: Depths, p: Process, chain: seq<nat>)
    requires TypedProgram(prog, ty) && Safe(prog, ty, p, chain) && p.executing && |p.fibers[chain[0]].frames| > 1
    requires NextInst(prog, p) == Some(Inst.Return)
    ensures var f, f' := p.fibers[chain[0]], ReturnAt(p, chain[0]).fibers[chain[0]];
            var callee, caller := f.frames[0], f'.frames[0];
            && f'.stack == f.stack && callee.fn < |ty| && caller.fn < |ty|
            && |f'.stack| == callee.base + prog.m.functions[callee.fn].outputs
            && 0 <= caller.base <= |f'.stack| && 0 <= caller.pc && ty[caller.fn](caller.pc, |f'.stack| - caller.base)
  {
    var f := p.fibers[chain[0]];
    NextHandsOn(prog, ty, f);
    assert f.frames[1..][0] == f.frames[1];
    assert FramesOk(prog, ty, f.root, f.frames[1..], f.frames[1].pc,
                    f.frames[0].base + prog.m.functions[f.frames[0].fn].outputs, f.capacity);
  }

  // ----- indirect calls -----

  /** Every instruction is reached with one depth only. */
  ghost predicate SingleDepths(ty: Depths) {
    forall f, pc, d, e :: 0 <= f < |ty| && ty[f](pc, d) && ty[f](pc, e) ==> d == e
  }

  /** An indirect call that the machine accepts, with room for the function, leaves all stacks in order
      if and only if the function keeps the counts the address claims for it. */
  lemma IndirectCallExact(prog: Program, ty: Depths, env: Environment, p: Process, chain: seq<nat>, sig: Signature,
                          choice: Choice)
    requires TypedProgram(prog, ty) && SingleDepths(ty) && Safe(prog, ty, p, chain) && p.asserts && KeepsSignatures(env)
    requires p.executing && NextInst(prog, p) == Some(Inst.CallIndirect(sig)) && choice.placement.Fits?
    requires var f := p.fibers[chain[0]];
             ClaimsSignature(prog, f.stack, sig)
             && f.capacity - HEADROOM - |f.stack| >= prog.limits[FunctionIndex(f.stack[0])]
    ensures var f := p.fibers[chain[0]];
            (exists chain' :: Safe(prog, ty, Step1(prog, env, p, RunOne(choice)), chain'))
            <==> KeepsCounts(prog.m, FunctionIndex(f.stack[0]), sig, |f.stack| - 1 - f.frames[0].base)
  {
    var c := chain[0];
    var f := p.fibers[c];
    var callee := FunctionIndex(f.stack[0]);
    var p' := Step1(prog, env, p, RunOne(choice));
    NextHandsOn(prog, ty, f);
    assert p' == CallAt(prog, p, c, callee, 1, choice);
    if KeepsCounts(prog.m, callee, sig, |f.stack| - 1 - f.frames[0].base) {
      var choice' := choice.(capacity := 2 * f.capacity);
      assert CallAt(prog, p, c, callee, 1, choice') == p';
      var chain' := StepKeeps(prog, ty, env, p, chain, RunOne(choice'));
      assert Step1(prog, env, p, RunOne(choice')) == p';
    } else {
      forall chain' ensures !Safe(prog, ty, p', chain') {
        if Safe(prog, ty, p', chain') {
          ForgedIsUnsafe(prog, ty, f, p'.fibers[c], sig, callee);
        }
      }
    }
  }

  /** The frame of a function that does not keep its counts does not suit the caller's. */
  lemma ForgedIsUnsafe(prog: Program, ty: Depths, f: Fiber, f': Fiber, sig: Signature, callee: nat)
    requires TypedProgram(prog, ty) && SingleDepths(ty) && FiberOk(prog, ty, f)
             && AtInst(prog, f, Inst.CallIndirect(sig))
    requires callee < |ty| && f.stack != [] && FiberOk(prog, ty, f') && f'.status == Running && f'.phase == Inside
    requires |f'.stack| == |f.stack| - 1 && |f'.frames| >= 2
    requires f'.frames[0].fn == callee && f'.frames[0].base == |f.stack| - 1 - prog.m.functions[callee].inputs
    requires f'.frames[1].fn == f.frames[0].fn && f'.frames[1].base == f.frames[0].base
             && f'.frames[1].pc == f.frames[0].pc + 1
    ensures KeepsCounts(prog.m, callee, sig, |f.stack| - 1 - f.frames[0].base)
  {
    NextHandsOn(prog, ty, f);
    var a, n := f.frames[0], prog.m.functions[callee];
    assert f'.frames[1..][0] == f'.frames[1];
    assert FramesOk(prog, ty, f'.root, f'.frames[1..], f'.frames[1].pc, f'.frames[0].base + n.outputs, f'.capacity);
    assert ty[a.fn](a.pc + 1, f'.frames[0].base + n.outputs - a.base);
    assert ty[a.fn](a.pc + 1, |f.stack| - a.base - (sig.inputs + 1) + sig.outputs);
  }

  // ----- programs the builder made -----

  /** A function as it was built: the calls of its builder, its blocks and locals. */
  datatype Built = Built(src: FunctionSource, body: Body, reach: seq<bool>, locals: seq<Local>, addrCount: nat)

  /** A function of the program is what its builder calls were compiled to, without an error. */
  ghost predicate IsBuilt(prog: Program, f: nat, b: Built)
    requires WellShaped(prog) && f < |prog.code|
  {
    var m := prog.m.(locals := b.locals);
    && Compiles(m, b.src, b.body, b.reach) && GenuineSource(m, b.src, b.reach) && ClosedReach(b.body, b.reach)
    && prog.code[f] == FlatCode(b.body, b.reach, Prologue(b.locals, b.addrCount))
    && prog.m.functions[f] == Signature(b.src.blocks[0].inputs, b.src.outputs)
    && prog.limits[f] == MaxDepth(m, b.src, |b.src.blocks|)
  }

  ghost function BuiltDepths(prog: Program, b: Built): (nat, nat) -> bool
    requires |b.src.blocks| == |b.body.blocks| == |b.reach| > 0
  {
    var m := prog.m.(locals := b.locals);
    Typing.Depths(m, b.src, b.body, b.reach, |Prologue(b.locals, b.addrCount)|, MaxDepth(m, b.src, |b.src.blocks|))
  }

  ghost predicate AllBuilt(prog: Program, bs: seq<Built>) {
    WellShaped(prog) && |bs| == |prog.code| && forall f :: 0 <= f < |bs| ==> IsBuilt(prog, f, bs[f])
  }

  lemma FunctionIsTyped(prog: Program, env: Environment, f: nat, b: Built)
    requires WellShaped(prog) && f < |prog.code| && IsBuilt(prog, f, b) && Refinement.FoldsAgree(prog.m, env)
    ensures Typed(prog.m, prog.code[f], prog.m.functions[f], prog.limits[f], BuiltDepths(prog, b))
  {
    var m := prog.m.(locals := b.locals);
    assert Refinement.FoldsAgree(m, env);
    CompiledIsTyped(m, env, b.src, b.body, b.reach, b.locals, b.addrCount);
    TypedAlike(m, prog.m, prog.code[f], prog.m.functions[f], prog.limits[f], BuiltDepths(prog, b));
  }

  /** A program whose functions were all built without an error is typed by the depths the builder
      tracked, so every run of it is safe. */
  lemma BuiltProgramsAreTyped(prog: Program, env: Environment, bs: seq<Built>) returns (ty: Depths)
    requires AllBuilt(prog, bs) && Refinement.FoldsAgree(prog.m, env)
    ensures TypedProgram(prog, ty) && SingleDepths(ty)
    ensures forall f :: 0 <= f < |bs| ==> IsBuilt(prog, f, bs[f]) && ty[f] == BuiltDepths(prog, bs[f])
  {
    forall f | 0 <= f < |bs|
      ensures IsBuilt(prog, f, bs[f]) && |bs[f].src.blocks| == |bs[f].body.blocks| == |bs[f].reach| > 0 {
      assert IsBuilt(prog, f, bs[f]);
    }
    ty := seq(|bs|, f requires 0 <= f < |bs| && AllBuilt(prog, bs) => BuiltDepths(prog, bs[f]));
    forall f | 0 <= f < |ty| ensures Typed(prog.m, prog.code[f], prog.m.functions[f], prog.limits[f], ty[f]) {
      FunctionIsTyped(prog, env, f, bs[f]);
    }
    forall f, pc: nat, d: nat, e: nat | 0 <= f < |ty| && ty[f](pc, d) && ty[f](pc, e) ensures d == e {
      BuiltIsSingle(prog, bs[f], pc, d, e);
    }
  }

  lemma BuiltIsSingle(prog: Program, b: Built, pc: nat, d: nat, e: nat)
    requires |b.src.blocks| == |b.body.blocks| == |b.reach| > 0
    requires BuiltDepths(prog, b)(pc, d) && BuiltDepths(prog, b)(pc, e)
    ensures d == e
  {
    var m := prog.m.(locals := b.locals);
    DepthsAreSingle(m, b.src, b.body, b.reach, |Prologue(b.locals, b.addrCount)|, MaxDepth(m, b.src, |b.src.blocks|),
                    pc, d, e);
  }

  /** From nothing, any run of a program the builder made: one fiber runs at most, all assertions on
      statuses hold, no stack pointer gets below its limit or out of its stack but by a panic of the
      machine, and the running function has at every instruction the depth its builder tracked, with
      the operands there. */
  lemma BuiltProgramsAreSafe(prog: Program, env: Environment, bs: seq<Built>, memory: Memory, es: seq<Event>)
    requires AllBuilt(prog, bs) && Refinement.FoldsAgree(prog.m, env) && KeepsSignatures(env)
    requires AllPermitted(prog, env, Process(map[], None, false, 0, memory, Nowhere, true, false), es)
    ensures var p := RunAll(prog, env, Process(map[], None, false, 0, memory, Nowhere, true, false), es);
            && p.asserts && OnlyCurrentRuns(p)
            && (forall h :: h in p.fibers && p.fibers[h].status != Done && p.fibers[h].phase != Broken(Leftover) ==>
                  (PointerInLimit(h, p.fibers[h]) <==> p.fibers[h].phase != Broken(ByMachine)))
            && (p.executing && p.current.Some? && p.current.value in p.fibers
                && p.fibers[p.current.value].frames != [] ==>
                  AtTrackedDepth(prog, bs, p.fibers[p.current.value]))
  {
    var ty := BuiltProgramsAreTyped(prog, env, bs);
    var p0 := Process(map[], None, false, 0, memory, Nowhere, true, false);
    EmptyIsSafe(prog, ty, memory);
    var chain := EveryRunIsSafe(prog, ty, env, p0, [], es);
    SafeIsTracked(prog, ty, bs, RunAll(prog, env, p0, es), chain);
  }

  lemma SafeIsTracked(prog: Program, ty: Depths, bs: seq<Built>, p: Process, chain: seq<nat>)
    requires TypedProgram(prog, ty) && Safe(prog, ty, p, chain) && AllBuilt(prog, bs)
    requires forall f :: 0 <= f < |bs| ==> IsBuilt(prog, f, bs[f]) && ty[f] == BuiltDepths(prog, bs[f])
    ensures forall h :: h in p.fibers && p.fibers[h].status != Done && p.fibers[h].phase != Broken(Leftover) ==>
              (PointerInLimit(h, p.fibers[h]) <==> p.fibers[h].phase != Broken(ByMachine))
    ensures p.executing && p.current.Some? && p.current.value in p.fibers && p.fibers[p.current.value].frames != [] ==>
              AtTrackedDepth(prog, bs, p.fibers[p.current.value])
  {
    forall h | h in p.fibers && p.fibers[h].status != Done && p.fibers[h].phase != Broken(Leftover)
      ensures PointerInLimit(h, p.fibers[h]) <==> p.fibers[h].phase != Broken(ByMachine)
    {
      LimitExactly(prog, ty, p, chain, h);
    }
    if p.executing && p.fibers[chain[0]].frames != [] {
      NoUnderflow(prog, ty, p, chain);
    }
  }

  ghost predicate AtTrackedDepth(prog: Program, bs: seq<Built>, f: Fiber)
    requires AllBuilt(prog, bs) && f.frames != []
  {
    var a := f.frames[0];
    && a.fn < |bs| && 0 <= a.base <= |f.stack| && 0 <= a.pc < |prog.code[a.fn]| && IsBuilt(prog, a.fn, bs[a.fn])
    && BuiltDepths(prog, bs[a.fn])(a.pc, |f.stack| - a.base)
    && Consumes(prog.m, prog.code[a.fn][a.pc]) <= |f.stack| - a.base <= prog.limits[a.fn]
  }

  // ----- a root function with another number of outputs than the host waits for -----

  /** A program of one function that returns at once. */
  function ReturningProgram(): Program {
    Program(Module([Signature(0, 0)], [], [], (_, _) => None), [[Inst.Return]], [0], 1000)
  }

  /** The host starts it, waiting for one value. */
  function MismatchedRun(choice: Choice): seq<Event> {
    [Create(0, SMALLEST_STACK, 0), HostResume(0, [], 1), RunOne(choice), RunOne(choice)]
  }

  function NewProcess(): Process {
    Process(map[], None, false, 0, Memory([], 0, map[]), Nowhere, true, false)
  }

  lemma RunAllOfFour(prog: Program, env: Environment, p: Process, es: seq<Event>)
    requires WellShaped(prog) && |es| == 4
    ensures RunAll(prog, env, p, es)
         == Step1(prog, env, Step1(prog, env, Step1(prog, env, Step1(prog, env, p, es[0]), es[1]), es[2]), es[3])
  {
    var p1 := Step1(prog, env, p, es[0]);
    var p2 := Step1(prog, env, p1, es[1]);
    var p3 := Step1(prog, env, p2, es[2]);
    assert es[1..][1..] == es[2..] && es[2..][1..] == es[3..] && es[3..][1..] == [];
    assert RunAll(prog, env, p, es) == RunAll(prog, env, p1, es[1..]);
    assert RunAll(prog, env, p1, es[1..]) == RunAll(prog, env, p2, es[2..]);
    assert RunAll(prog, env, p2, es[2..]) == RunAll(prog, env, p3, es[3..]);
    assert RunAll(prog, env, p3, es[3..]) == RunAll(prog, env, Step1(prog, env, p3, es[3]), []);
  }

  /** Every assertion holds until the function has returned, and in the next step one fails. */
  lemma MismatchExample(env: Environment, choice: Choice)
    requires choice.placement.Fits?
    ensures var p := RunAll(ReturningProgram(), env, NewProcess(), MismatchedRun(choice));
            p.asserts && EndsMismatched(ReturningProgram(), p)
            && !Step1(ReturningProgram(), env, p, RunOne(choice)).asserts
  {
    var prog := ReturningProgram();
    RunAllOfFour(prog, env, NewProcess(), MismatchedRun(choice));
    var p1 := Step1(prog, env, NewProcess(), Create(0, SMALLEST_STACK, 0));
    assert p1.fibers == map[0 := NewFiber(prog, 0, 0, SMALLEST_STACK)];
    var p2 := Step1(prog, env, p1, HostResume(0, [], 1));
    assert p2.executing && p2.current == Some(0) && p2.fibers[0].status == Running && p2.fibers[0].frames == [];
    var p3 := Step1(prog, env, p2, RunOne(choice));
    assert p3.fibers[0].frames == [Activation(0, 0, 0, Frame(choice.placement.base, 0, 0, 32))];
    var p4 := Step1(prog, env, p3, RunOne(choice));
    assert p4.fibers[0].frames == [] && p4.fibers[0].phase == Leaving && p4.fibers[0].parent == None;
  }
}
