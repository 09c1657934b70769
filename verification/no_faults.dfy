// No handler ever leaves its stack, its table or its code: the machine does not fault on programs that
// the builder made.

module NoFaults {
  import opened Words
  import opened Allocations
  import opened Bytecode
  import opened Vm
  import opened Blocks
  import opened Flat
  import opened Builder
  import opened Compiler
  import opened Depth
  import opened Emission
  import opened FrameLocals
  import opened CompiledFunctions
  import opened Typing
  import opened EmittedCode
  import Refinement
  import opened Machine
  import opened Scheduling
  import opened SavedStacks
  import opened StackSafety

  // ----- instructions -----

  /** What an instruction needs besides its operands. */
  predicate SafeInst(m: Module, i: Inst) {
    match i
    case Exit => false
    case FunctionAddr(f) => f < |m.functions|
    case Call(f) => f < |m.functions|
    case CallBuiltin(b, _) => ValidBuiltin(b)
    case DerefConst(layout) => layout.alignment > 0
    case DerefMut(layout) => layout.alignment > 0
    case LocalAllocAligned(layout) => layout.alignment > 0
    case LoadGlobalValue(g) => g < |m.globals|
    case StoreGlobalValue(g) => g < |m.globals|
    case _ => true
  }

  /** The slots of the globals are there, and stay. */
  predicate Statics(m: Module, memory: Memory) {
    |m.globals| <= |memory.allocations|
    && forall g :: 0 <= g < |m.globals| ==> memory.allocations[g].status != Freed
  }

  lemma ExecuteIsSafe(m: Module, env: Environment, i: Inst, st: State)
    requires SafeInst(m, i) && Statics(m, st.memory) && Consumes(m, i) <= |st.stack| && !Transfers(i)
    ensures !Execute(m, env, i, st).Fault?
  {
  }

  lemma EmittedIsSafe(m: Module, i: Inst)
    requires MayEmit(m, i)
    ensures SafeInst(m, i) && !i.ReturnFree? && !i.SetupLocalAlloc?
  {
  }

  // ----- the code of a function -----

  /** A function as it was built, with locals that are laid out and freed if they were allocated. */
  ghost predicate IsFinished(prog: Program, f: nat, b: Built)
    requires WellShaped(prog) && f < |prog.code|
  {
    IsBuilt(prog, f, b) && LaidOut(b.locals) && b.body.freeCount == FreeCount(b.locals, b.addrCount)
  }

  ghost predicate AllFinished(prog: Program, bs: seq<Built>) {
    AllBuilt(prog, bs) && forall f :: 0 <= f < |bs| ==> IsFinished(prog, f, bs[f])
  }

  lemma {:induction false} PrologueIsSafe(m: Module, locals: seq<Local>, addrCount: nat, pc: nat)
    requires LaidOut(locals) && pc < |Prologue(locals, addrCount)|
    ensures SafeInst(m, Prologue(locals, addrCount)[pc]) && !Prologue(locals, addrCount)[pc].ReturnFree?
    ensures addrCount == 0 ==> !Prologue(locals, addrCount)[pc].SetupLocalAlloc?
  {
    if addrCount > 0 {
      if pc > 0 {
        AllocsAreSafe(m, locals, pc - 1);
      }
    } else {
      StoragesAreSafe(m, locals, pc);
    }
  }

  lemma LaidOutPrefix(locals: seq<Local>)
    requires LaidOut(locals) && locals != []
    ensures LaidOut(locals[..|locals| - 1])
  {
    var init := locals[..|locals| - 1];
    assert locals == init + [locals[|locals| - 1]];
    forall l | 0 <= l < |init| ensures IsLaidOut(init, l) {
      assert IsLaidOut(locals, l);
      SpaceOfPrefix(init, [locals[|locals| - 1]], l);
    }
  }

  lemma {:induction false} AllocsAreSafe(m: Module, locals: seq<Local>, k: nat)
    requires LaidOut(locals) && k < |locals|
    ensures SafeInst(m, LocalAllocs(locals)[k]) && !LocalAllocs(locals)[k].ReturnFree?
  {
    assert IsLaidOut(locals, |locals| - 1);
    if k < |locals| - 1 {
      LaidOutPrefix(locals);
      AllocsAreSafe(m, locals[..|locals| - 1], k);
    }
  }

  lemma {:induction false} StoragesAreSafe(m: Module, locals: seq<Local>, k: nat)
    requires k < |LocalStorages(locals)|
    ensures LocalStorages(locals)[k].LocalStorage?
  {
    var init := locals[..|locals| - 1];
    if k < |LocalStorages(init)| {
      StoragesAreSafe(m, init, k);
    }
  }

  /** The code of a block: its marker, what the builder emitted, and its terminator. */
  lemma BlockIsSafe(prog: Program, f: nat, b: Built, i: nat, t: nat)
    requires WellShaped(prog) && f < |prog.code| && IsFinished(prog, f, b)
    requires i < |b.reach| && b.reach[i] && t < |BlockCode(b.body, b.reach, i)|
    ensures SafeInst(prog.m, BlockCode(b.body, b.reach, i)[t]) && !BlockCode(b.body, b.reach, i)[t].SetupLocalAlloc?
    ensures BlockCode(b.body, b.reach, i)[t].ReturnFree? ==> b.addrCount > 0
  {
    hide GenuineSource, MaxDepth, FlatCode, ClosedReach, LaidOut;
    var m := prog.m.(locals := b.locals);
    var insts := b.body.blocks[i].insts;
    if 0 < t <= |insts| {
      BlockEmitted(m, b.src, i);
      assert insts == Compiled(m, b.src, i).0.insts;
      assert MayEmit(m, insts[t - 1]);
      EmittedIsSafe(m, insts[t - 1]);
      assert BlockCode(b.body, b.reach, i)[t] == insts[t - 1];
    }
  }

  /** Where in a block an instruction behind the prologue is. */
  lemma InSomeBlock(m: Module, src: FunctionSource, body: Body, reach: seq<bool>, prologue: seq<Inst>, limit: nat,
                    pc: nat, d: nat)
      returns (i: nat, t: nat)
    requires |src.blocks| == |body.blocks| == |reach| > 0 && |prologue| <= pc
    requires Typing.Depths(m, src, body, reach, |prologue|, limit)(pc, d)
    ensures i < |reach| && reach[i] && t < |BlockCode(body, reach, i)| && pc < |FlatCode(body, reach, prologue)|
    ensures FlatCode(body, reach, prologue)[pc] == Patched(body, reach, |prologue|, BlockCode(body, reach, i)[t], pc)
  {
    i :| 0 <= i < |reach| && InBlock(m, src, body, reach, |prologue|, limit, i, pc, d);
    t := pc - OffsetOf(body, reach, |prologue|, i);
    BlockIsPlaced(body, reach, prologue, i, t);
  }

  lemma PatchedIsSafe(m: Module, body: Body, reach: seq<bool>, base: nat, i: Inst, at: nat)
    requires |body.blocks| == |reach| && SafeInst(m, i)
    ensures SafeInst(m, Patched(body, reach, base, i, at))
            && Patched(body, reach, base, i, at).ReturnFree? == i.ReturnFree?
  {
  }

  /** Any instruction that is reached is safe. */
  lemma ReachedIsSafe(prog: Program, f: nat, b: Built, pc: nat, d: nat)
    requires WellShaped(prog) && f < |prog.code| && IsFinished(prog, f, b) && pc < |prog.code[f]|
    requires BuiltDepths(prog, b)(pc, d)
    ensures SafeInst(prog.m, prog.code[f][pc])
    ensures prog.code[f][pc].ReturnFree? ==> prog.code[f][0].SetupLocalAlloc?
  {
    hide DepthAt, InBlock, MaxDepth, BlockCode, Patched;
    var m := prog.m.(locals := b.locals);
    var prologue := Prologue(b.locals, b.addrCount);
    assert prog.code[f] == FlatCode(b.body, b.reach, prologue) && prologue <= prog.code[f];
    if pc < |prologue| {
      PrologueIsSafe(prog.m, b.locals, b.addrCount, pc);
    } else {
      var i, t := InSomeBlock(m, b.src, b.body, b.reach, prologue, MaxDepth(m, b.src, |b.src.blocks|), pc, d);
      BlockIsSafe(prog, f, b, i, t);
      PatchedIsSafe(prog.m, b.body, b.reach, |prologue|, BlockCode(b.body, b.reach, i)[t], pc);
    }
  }

  // ----- what is kept -----

  /** Every instruction that is reached is safe, and one that frees locals is in a function that starts by
      setting up their slots. */
  ghost predicate SaneProgram(prog: Program, ty: Depths)
    requires TypedProgram(prog, ty)
  {
    forall f, pc: nat, d: nat :: 0 <= f < |ty| && ty[f](pc, d) ==>
      pc < |prog.code[f]| && SafeInst(prog.m, prog.code[f][pc])
      && (prog.code[f][pc].ReturnFree? ==> prog.code[f][0].SetupLocalAlloc?)
  }

  /** Builtins never free the slots of globals. */
  ghost predicate KeepsStatics(m: Module, env: Environment) {
    forall b: Builtin, ins, memory :: Statics(m, memory) && env.builtin(b, ins, memory).Some? ==>
      Statics(m, env.builtin(b, ins, memory).value.1)
  }

  /** The slots of a call's locals are none of a global. */
  predicate Owns(prog: Program, a: Activation) {
    a.fn < |prog.code| && prog.code[a.fn] != [] && prog.code[a.fn][0].SetupLocalAlloc? ==>
      a.frame.firstLocal >= |prog.m.globals|
  }

  /** That holds of all calls of a fiber; only the running one may not have set up its slots yet. */
  predicate FiberTame(prog: Program, f: Fiber) {
    && (forall k :: 1 <= k < |f.frames| ==> Owns(prog, f.frames[k]))
    && (f.frames != [] ==> Owns(prog, f.frames[0]) || (f.status == Running && f.frames[0].pc == 0))
  }

  ghost predicate Tame(prog: Program, p: Process) {
    && !p.fault && Statics(prog.m, p.memory)
    && forall h :: h in p.fibers ==> h >= |prog.m.globals| && FiberTame(prog, p.fibers[h])
  }

  /** The table still has addresses for new slots, and while the machine runs fibers are only destroyed by
      builtins. */
  predicate TameEvent(prog: Program, p: Process, e: Event) {
    match e
    case RunOne(_) => |p.memory.allocations| < TWO_30
    case Destroy(_) => p.executing ==> NextInst(prog, p).Some? && NextInst(prog, p).value.CallBuiltin?
    case _ => true
  }

  // ----- the table -----

  lemma {:induction false} DropKeepsLive(t: seq<Allocation>, g: nat)
    requires g < |t| && t[g].status != Freed
    ensures g < |DropFreed(t)|
  {
    if t[|t| - 1].status == Freed {
      DropKeepsLive(t[..|t| - 1], g);
    }
  }

  lemma RemoveKeepsStatics(m: Module, memory: Memory)
    requires Statics(m, memory)
    ensures Statics(m, RemoveFreed(memory))
  {
    if |m.globals| > 0 {
      DropKeepsLive(memory.allocations, |m.globals| - 1);
    }
  }

  lemma ExecuteKeepsStatics(m: Module, env: Environment, i: Inst, st: State)
    requires Statics(m, st.memory) && KeepsStatics(m, env) && Execute(m, env, i, st).Ok? && !Transfers(i)
    ensures Statics(m, Execute(m, env, i, st).state.memory)
    ensures var frame := Execute(m, env, i, st).state.frame;
            frame.firstLocal == if i.SetupLocalAlloc? then |st.memory.allocations| % TWO_30 else st.frame.firstLocal
  {
  }

  lemma {:induction false} FreeSlotsSpares(t: seq<Allocation>, first: nat, count: nat, g: nat)
    requires g < |t| && (count > 0 ==> g < first)
    ensures FreeSlots(t, first, count).table[g] == t[g]
    decreases count
  {
    if count > 0 && first < |t| && t[first].split == Unsplit {
      FreeSlotsSpares(t[first := t[first].(status := Freed)], first + 1, count - 1, g);
    }
  }

  lemma {:induction false} FreeFramesSpares(prog: Program, t: seq<Allocation>, frames: seq<Activation>, g: nat)
    requires g < |t| && g < |prog.m.globals| && forall k :: 0 <= k < |frames| ==> Owns(prog, frames[k])
    ensures FreeFrames(prog, t, frames).table[g] == t[g]
    decreases |frames|
  {
    if frames != [] {
      var count := SlotCount(prog, frames[0].fn);
      assert Owns(prog, frames[0]);
      FreeSlotsSpares(t, frames[0].frame.firstLocal, count, g);
      FreeFramesSpares(prog, FreeSlots(t, frames[0].frame.firstLocal, count).table, frames[1..], g);
    }
  }

  // ----- steps within one fiber -----

  /** Fiber `c` changes, or panics. */
  ghost predicate TameChange(prog: Program, p: Process, c: nat, p': Process)
    requires c in p.fibers
  {
    && OnlyChanges(p, c, p') && FiberTame(prog, p'.fibers[c]) && !p'.fault && Statics(prog.m, p'.memory)
  }

  lemma ChangeStaysTame(prog: Program, p: Process, c: nat, p': Process)
    requires Tame(prog, p) && c in p.fibers && TameChange(prog, p, c, p')
    ensures Tame(prog, p')
  {
  }

  /** The running function's next instruction, and what is known of it. */
  ghost predicate AtSafe(prog: Program, p: Process, c: nat, i: Inst) {
    && c in p.fibers && AtInst(prog, p.fibers[c], i) && SafeInst(prog.m, i)
    && Consumes(prog.m, i) <= |p.fibers[c].stack| && (i.BranchIf? || i.Panic? ==> p.fibers[c].stack != [])
    && (i.ReturnFree? ==> prog.code[p.fibers[c].frames[0].fn][0].SetupLocalAlloc?)
  }

  /** Unless it is about to, the running function has set up its slots. */
  lemma OwnsNow(prog: Program, p: Process, c: nat, i: Inst)
    requires c in p.fibers && AtInst(prog, p.fibers[c], i) && FiberTame(prog, p.fibers[c]) && !i.SetupLocalAlloc?
    ensures forall k :: 0 <= k < |p.fibers[c].frames| ==> Owns(prog, p.fibers[c].frames[k])
  {
  }

  lemma StopIsTame(prog: Program, p: Process, c: nat, regs: Pointer, cause: Cause)
    requires Tame(prog, p) && c in p.fibers
    requires forall k :: 0 <= k < |p.fibers[c].frames| ==> Owns(prog, p.fibers[c].frames[k])
    ensures Tame(prog, StopAt(p, c, regs, cause))
  {
  }

  lemma StraightIsTame(prog: Program, env: Environment, p: Process, c: nat, i: Inst, stale: U32)
    requires Tame(prog, p) && AtSafe(prog, p, c, i) && !Transfers(i) && KeepsStatics(prog.m, env)
    requires |p.memory.allocations| < TWO_30
    ensures Tame(prog, StraightAt(prog, env, p, c, i, stale))
  {
    var f := p.fibers[c];
    var st, env' := State(f.stack, f.frames[0].frame, p.memory), env.(stale := _ => stale);
    ExecuteIsSafe(prog.m, env', i, st);
    match Execute(prog.m, env', i, st) {
      case Ok(st') =>
        ExecuteKeepsStatics(prog.m, env', i, st);
        if !i.SetupLocalAlloc? { OwnsNow(prog, p, c, i); }
        ChangeStaysTame(prog, p, c, StraightAt(prog, env, p, c, i, stale));
      case Panicked =>
        if !i.SetupLocalAlloc? {
          OwnsNow(prog, p, c, i);
          StopIsTame(prog, p, c, Message, ByMachine);
          StopIsTame(prog, p, c, InStack(c, |f.stack|), ByBuiltin);
          StopIsTame(prog, p, c, p.regs, Leftover);
        }
      case Fault => assert false;
    }
  }

  lemma CallIsTame(prog: Program, p: Process, c: nat, callee: nat, drop: nat, choice: Choice)
    requires Tame(prog, p) && c in p.fibers && p.fibers[c].status == Running
    requires callee < |prog.limits| && callee < |prog.m.functions| && drop <= |p.fibers[c].stack|
    requires forall k :: 0 <= k < |p.fibers[c].frames| ==> Owns(prog, p.fibers[c].frames[k])
    ensures Tame(prog, CallAt(prog, p, c, callee, drop, choice))
  {
    var f := p.fibers[c];
    if f.capacity - HEADROOM - |f.stack| < prog.limits[callee] {
      var grown := WithFiber(p, c, f.(capacity := choice.capacity));
      ChangeStaysTame(prog, p, c, grown);
      StopIsTame(prog, grown, c, Message, ByMachine);
    } else if choice.placement.Overflows? {
      StopIsTame(prog, p, c, Message, ByMachine);
    } else if choice.placement.Fits? {
      ChangeStaysTame(prog, p, c, CallAt(prog, p, c, callee, drop, choice));
    }
  }

  lemma ReturnFreeIsTame(prog: Program, p: Process, c: nat, count: nat)
    requires Tame(prog, p) && c in p.fibers && p.fibers[c].frames != []
    requires forall k :: 0 <= k < |p.fibers[c].frames| ==> Owns(prog, p.fibers[c].frames[k])
    requires p.fibers[c].frames[0].frame.firstLocal >= |prog.m.globals|
    ensures Tame(prog, ReturnFreeAt(p, c, count))
  {
    var first := p.fibers[c].frames[0].frame.firstLocal;
    StopIsTame(prog, p, c, Message, ByMachine);
    match FreeLocals(p.memory.allocations, first, count)
    case None =>
    case Some(t) =>
      FreedBelow(p.memory.allocations, first, count);
      var memory := p.memory.(allocations := t);
      assert Statics(prog.m, memory);
      RemoveKeepsStatics(prog.m, memory);
      ChangeStaysTame(prog, p, c, ReturnFreeAt(p, c, count));
  }

  lemma {:induction false} FreedBelow(t: seq<Allocation>, first: nat, count: nat)
    requires FreeLocals(t, first, count).Some?
    ensures |FreeLocals(t, first, count).value| == |t|
    ensures forall g :: 0 <= g < first && g < |t| ==> FreeLocals(t, first, count).value[g] == t[g]
    decreases count
  {
    if count > 0 {
      FreedBelow(t[first := t[first].(status := Freed)], first + 1, count - 1);
    }
  }

  /** Every instruction that stays within the fiber. */
  lemma InstIsTame(prog: Program, env: Environment, p: Process, c: nat, i: Inst, choice: Choice)
    requires WellShaped(prog) && Tame(prog, p) && AtSafe(prog, p, c, i) && !i.Fiber? && KeepsStatics(prog.m, env)
    requires |p.memory.allocations| < TWO_30
    ensures Tame(prog, InstAt(prog, env, p, c, i, choice))
  {
    var f := p.fibers[c];
    if !Transfers(i) {
      StraightIsTame(prog, env, p, c, i, choice.stale);
      assert InstAt(prog, env, p, c, i, choice) == StraightAt(prog, env, p, c, i, choice.stale);
    } else {
      OwnsNow(prog, p, c, i);
      StopIsTame(prog, p, c, Message, ByMachine);
      if i.Call? {
        CallIsTame(prog, p, c, i.function_, 0, choice);
      } else if i.CallIndirect? {
        if FunctionIndex(f.stack[0]) < |prog.m.functions| {
          CallIsTame(prog, p, c, FunctionIndex(f.stack[0]), 1, choice);
        }
      } else if i.ReturnFree? {
        ReturnFreeIsTame(prog, p, c, i.count);
      } else if i.Return? || i.Jump? || i.BranchIf? {
        ChangeStaysTame(prog, p, c, InstAt(prog, env, p, c, i, choice));
      }
    }
  }

  // ----- switches -----

  ghost predicate AllOwn(prog: Program, f: Fiber) {
    forall k :: 0 <= k < |f.frames| ==> Owns(prog, f.frames[k])
  }

  /** A fiber that goes on after a switch. */
  lemma ResumedOwns(prog: Program, f: Fiber, values: seq<Word>, parent: Option<nat>)
    requires AllOwn(prog, f)
    ensures FiberTame(prog, ResumedFiber(f, values, parent))
  {
    if f.frames != [] {
      assert Owns(prog, f.frames[0]);
    }
  }

  lemma SwitchIsTame(prog: Program, p: Process, c: nat, kind: FiberKind, sig: Signature)
    requires Tame(prog, p) && PointersOk(p) && c in p.fibers && p.fibers[c].status == Running
             && !p.fibers[c].phase.Broken?
    requires AllOwn(prog, p.fibers[c]) && kind != Suspend && sig.inputs < |p.fibers[c].stack|
    requires var target := LookUp(p, p.fibers[c].stack[sig.inputs]);
             target.Some? ==> !p.fibers[target.value].phase.Broken? && p.fibers[target.value].status != Running
    ensures Tame(prog, SwitchTo(p, c, kind, sig))
  {
    SwitchPoints(p, c, kind, sig);
    StopIsTame(prog, p, c, Message, ByMachine);
    var f := p.fibers[c];
    match LookUp(p, f.stack[sig.inputs])
    case None =>
    case Some(h) => ResumedOwns(prog, p.fibers[h], f.stack[..sig.inputs], if kind == Resume then Some(c) else f.parent);
  }

  lemma SuspendIsTame(prog: Program, p: Process, c: nat, sig: Signature)
    requires Tame(prog, p) && PointersOk(p) && c in p.fibers && p.fibers[c].status == Running
             && !p.fibers[c].phase.Broken?
    requires AllOwn(prog, p.fibers[c]) && sig.inputs <= |p.fibers[c].stack| && ParentWaits(p, c)
    ensures Tame(prog, SuspendAt(p, c, sig))
  {
    SuspendPoints(p, c, sig);
    var f := p.fibers[c];
    match LookUpParent(p, f.parent)
    case None =>
    case Some(h) => ResumedOwns(prog, p.fibers[h], f.stack[..sig.inputs], p.fibers[h].parent);
  }

  lemma ExitIsTame(prog: Program, p: Process, c: nat)
    requires Tame(prog, p) && PointersOk(p) && c in p.fibers && p.fibers[c].status == Running
             && !p.fibers[c].phase.Broken?
    requires p.fibers[c].frames == [] && p.fibers[c].root < |prog.m.functions| && ParentWaits(p, c)
    ensures Tame(prog, ExitAt(prog, p, c))
  {
    ExitPoints(prog, p, c);
    var f := p.fibers[c];
    DoneLooksUp(p, c, f.(status := Done), f.parent);
    match LookUpParent(p, f.parent)
    case None =>
    case Some(h) => ResumedOwns(prog, p.fibers[h], f.stack[..|f.stack| % 0x100], p.fibers[h].parent);
  }

  // ----- whole steps -----

  /** The next instruction of the running function is safe. */
  lemma NextIsSafe(prog: Program, ty: Depths, p: Process, c: nat)
    requires TypedProgram(prog, ty) && SaneProgram(prog, ty) && AllOk(prog, ty, p)
    requires c in p.fibers && p.fibers[c].status == Running && p.fibers[c].phase == Inside
    ensures var a := p.fibers[c].frames[0];
            a.fn < |prog.code| && 0 <= a.pc < |prog.code[a.fn]| && AtSafe(prog, p, c, prog.code[a.fn][a.pc])
  {
    NextHandsOn(prog, ty, p.fibers[c]);
  }

  lemma RunOneIsTame(prog: Program, ty: Depths, env: Environment, p: Process, chain: seq<nat>, choice: Choice)
    requires TypedProgram(prog, ty) && SaneProgram(prog, ty) && Safe(prog, ty, p, chain) && Tame(prog, p)
    requires KeepsStatics(prog.m, env) && Permitted(prog, p, chain, RunOne(choice))
             && TameEvent(prog, p, RunOne(choice))
    ensures Tame(prog, Execute1(prog, env, p, choice))
  {
    hide CallAt, ExitAt, SuspendAt, SwitchTo, StraightAt, ReturnAt, ReturnFreeAt, JumpAt, CallIndirectAt, FramesOk,
      Typed, TryGet;
    if p.executing {
      var c := chain[0];
      var f := p.fibers[c];
      ParentIsNext(p, chain);
      if f.frames == [] {
        if f.phase == Entering {
          CallIsTame(prog, p, c, f.root, 0, choice);
        } else {
          ExitIsTame(prog, p, c);
        }
      } else {
        NextIsSafe(prog, ty, p, c);
        var i := prog.code[f.frames[0].fn][f.frames[0].pc];
        if i.Fiber? {
          OwnsNow(prog, p, c, i);
          if i.kind == Suspend { SuspendIsTame(prog, p, c, i.sig); } else { SwitchIsTame(prog, p, c, i.kind, i.sig); }
        } else {
          InstIsTame(prog, env, p, c, i, choice);
        }
      }
    }
  }

  lemma HostIsTame(prog: Program, p: Process, h: nat, values: seq<Word>, outputs: nat)
    requires Tame(prog, p) && PointersOk(p) && h in p.fibers && Resumable(p.fibers[h]) && !p.fibers[h].phase.Broken?
    ensures Tame(prog, HostResumeAt(p, h, values, outputs))
  {
    ResumedOwns(prog, p.fibers[h], values, None);
    assert PointerOk(h, p.fibers[h]);
  }

  lemma CreateIsTame(prog: Program, p: Process, fn: nat, capacity: nat, at: Word)
    requires Tame(prog, p) && fn < |prog.m.functions|
    ensures Tame(prog, CreateAt(prog, p, fn, capacity, at))
  {
  }

  lemma DestroyIsTame(prog: Program, p: Process, h: nat)
    requires Tame(prog, p) && h in p.fibers && AllOwn(prog, p.fibers[h])
    requires p.current.Some? && p.current.value in p.fibers ==> AllOwn(prog, p.fibers[p.current.value])
    ensures Tame(prog, DestroyAt(prog, p, h))
  {
    var Freeing(t, ok) := Cancelled(prog, p, h);
    forall g | 0 <= g < |prog.m.globals| ensures t[g] == p.memory.allocations[g] {
      FreeFramesSpares(prog, p.memory.allocations, p.fibers[h].frames, g);
    }
    var asserted := p.(asserts := p.asserts && p.fibers[h].status != Running, memory := p.memory.(allocations := t));
    assert Tame(prog, asserted);
    if ok {
      var t' := if h < |t| then t[h := t[h].(status := Freed)] else t;
      assert Statics(prog.m, p.memory.(allocations := t'));
      RemoveKeepsStatics(prog.m, p.memory.(allocations := t'));
    } else if p.current.Some? && p.current.value in p.fibers {
      var c := p.current.value;
      StopIsTame(prog, asserted, c, InStack(c, |p.fibers[c].stack|), ByBuiltin);
      StopIsTame(prog, asserted, c, p.regs, Leftover);
    }
  }

  /** Every fiber that does not run owns the slots of its calls, and so does the one that is in a builtin. */
  lemma OwnsInBuiltin(prog: Program, p: Process, chain: seq<nat>, h: nat)
    requires Tame(prog, p) && Scheduled(p, chain) && h in p.fibers
    requires p.fibers[h].status == Running ==> NextInst(prog, p).Some? && NextInst(prog, p).value.CallBuiltin?
    ensures AllOwn(prog, p.fibers[h])
  {
    assert FiberTame(prog, p.fibers[h]);
  }

  /** No permitted step faults: no handler reads below its stack, outside its code or of a slot that is not
      there, and no fiber goes on with a stack pointer that is not its own. */
  lemma StepIsTame(prog: Program, ty: Depths, env: Environment, p: Process, chain: seq<nat>, e: Event)
    requires TypedProgram(prog, ty) && SaneProgram(prog, ty) && Safe(prog, ty, p, chain) && Tame(prog, p)
    requires KeepsStatics(prog.m, env) && Permitted(prog, p, chain, e) && TameEvent(prog, p, e)
    ensures Tame(prog, Step1(prog, env, p, e))
  {
    match e {
      case RunOne(choice) => RunOneIsTame(prog, ty, env, p, chain, choice);
      case HostResume(h, values, outputs) => if h in p.fibers { HostIsTame(prog, p, h, values, outputs); }
      case Create(fn, capacity, at) => if fn < |prog.m.functions| { CreateIsTame(prog, p, fn, capacity, at); }
      case Destroy(h) =>
        if h in p.fibers {
          OwnsInBuiltin(prog, p, chain, h);
          if p.current.Some? && p.current.value in p.fibers { OwnsInBuiltin(prog, p, chain, p.current.value); }
          DestroyIsTame(prog, p, h);
        }
    }
  }

  // ----- whole runs -----

  ghost predicate AllTame(prog: Program, env: Environment, p: Process, es: seq<Event>)
    requires WellShaped(prog)
    decreases |es|
  {
    es == [] || (TameEvent(prog, p, es[0]) && AllTame(prog, env, Step1(prog, env, p, es[0]), es[1..]))
  }

  lemma {:induction false} EveryRunIsTame(prog: Program, ty: Depths, env: Environment, p: Process, chain: seq<nat>,
                                          es: seq<Event>)
    requires TypedProgram(prog, ty) && SaneProgram(prog, ty) && Safe(prog, ty, p, chain) && p.asserts && Tame(prog, p)
    requires KeepsSignatures(env) && KeepsStatics(prog.m, env) && AllPermitted(prog, env, p, es)
             && AllTame(prog, env, p, es)
    ensures Tame(prog, RunAll(prog, env, p, es))
    decreases |es|
  {
    if es != [] {
      assert Permitted(prog, p, chain, es[0]);
      var _ := StepSchedules(prog, env, p, chain, es[0]);
      StepIsTame(prog, ty, env, p, chain, es[0]);
      var chain1 := StepKeeps(prog, ty, env, p, chain, es[0]);
      EveryRunIsTame(prog, ty, env, Step1(prog, env, p, es[0]), chain1, es[1..]);
    }
  }

  lemma FinishedIsSane(prog: Program, bs: seq<Built>, ty: Depths)
    requires AllFinished(prog, bs) && TypedProgram(prog, ty)
    requires forall f :: 0 <= f < |bs| ==> IsBuilt(prog, f, bs[f]) && ty[f] == BuiltDepths(prog, bs[f])
    ensures SaneProgram(prog, ty)
  {
    forall f, pc: nat, d: nat | 0 <= f < |ty| && ty[f](pc, d)
      ensures pc < |prog.code[f]| && SafeInst(prog.m, prog.code[f][pc])
      ensures prog.code[f][pc].ReturnFree? ==> prog.code[f][0].SetupLocalAlloc?
    {
      assert Typed(prog.m, prog.code[f], prog.m.functions[f], prog.limits[f], ty[f]);
      assert HandsOn(prog.m, prog.code[f], prog.m.functions[f].outputs, prog.limits[f], ty[f], pc, d);
      assert IsFinished(prog, f, bs[f]);
      ReachedIsSafe(prog, f, bs[f], pc, d);
    }
  }

  /** A program all of whose functions the builder finished never faults, in any run in which builtins
      keep their signatures and the globals. */
  lemma BuiltProgramsNeverFault(prog: Program, env: Environment, bs: seq<Built>, memory: Memory, es: seq<Event>)
    requires AllFinished(prog, bs) && Refinement.FoldsAgree(prog.m, env) && KeepsSignatures(env)
    requires KeepsStatics(prog.m, env) && Statics(prog.m, memory)
    requires var p := Process(map[], None, false, 0, memory, Nowhere, true, false);
             AllPermitted(prog, env, p, es) && AllTame(prog, env, p, es)
    ensures !RunAll(prog, env, Process(map[], None, false, 0, memory, Nowhere, true, false), es).fault
  {
    var ty := BuiltProgramsAreTyped(prog, env, bs);
    FinishedIsSane(prog, bs, ty);
    EmptyIsSafe(prog, ty, memory);
    EveryRunIsTame(prog, ty, env, Process(map[], None, false, 0, memory, Nowhere, true, false), [], es);
  }
}
