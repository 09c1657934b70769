// The virtual machine across functions and fibers: calls, returns, stack growth, fiber switches,
// and what the host does with fibers.

module Machine {
  import opened Words
  import opened Allocations
  import opened Bytecode
  import opened Vm
  import opened Blocks
  import opened Flat

  datatype FiberStatus = Ready | Suspended | Running | Done

  /** Where the registers come from that a panic saves: the machine gives those of the panicking
      instruction, but with the message in place of the stack pointer; a builtin saved its own when it
      was called; and otherwise they are what was saved last, by whatever fiber. */
  datatype Cause = ByMachine | ByBuiltin | Leftover

  /** Where the trampoline of a fiber is: about to call the root function, inside it, about to exit
      after it, or cut short by a panic. */
  datatype Phase = Entering | Inside | Leaving | Broken(cause: Cause)

  /** Where a saved stack pointer points: so many values deep into a fiber's stack, to the message of a
      panic, or nowhere. */
  datatype Pointer = InStack(fiber: nat, depth: nat) | Message | Nowhere

  /** A call in progress.  `pc` is the next instruction; under another call it is the one after the
      call.  `base` is how many values lie below the function's own. */
  datatype Activation = Activation(fn: nat, pc: int, base: int, frame: Frame)

  /** The innermost activation is the first.  While a fiber is suspended, its innermost `pc` is that
      of the instruction that switched away.  `saved` is the stack pointer it was suspended with. */
  datatype Fiber = Fiber(
    status: FiberStatus,
    expected: U8,
    parent: Option<nat>,
    root: nat,
    phase: Phase,
    stack: seq<Word>,
    frames: seq<Activation>,
    capacity: nat,
    saved: Pointer)

  /** Functions with their code and recorded maximum depth, and the largest value stack allowed. */
  datatype Program = Program(m: Module, code: seq<seq<Inst>>, limits: seq<nat>, maxStack: nat)

  /** `executing` while the machine runs; `outputs` is how many values the host waits for; `regs` is
      the stack pointer in the registers saved last.  `asserts` says that every assertion on a fiber's
      status held so far, `fault` that a handler left its table or stack, or that a fiber went on with
      a stack pointer that is not its own. */
  datatype Process = Process(
    fibers: map<nat, Fiber>,
    current: Option<nat>,
    executing: bool,
    outputs: nat,
    memory: Memory,
    regs: Pointer,
    asserts: bool,
    fault: bool)

  /** What the call stack does with a new frame. */
  datatype Placement = Fits(base: Word) | Grows | Overflows

  /** The parts of a step decided outside: the size a grown stack gets, the place of a new frame, and
      what the cell above the stack happens to hold in its upper half. */
  datatype Choice = Choice(capacity: nat, placement: Placement, stale: U32)

  /** The values kept free below a function's reach, so that builtins can always be called. */
  const HEADROOM := 255

  predicate Resumable(f: Fiber) { f.status == Suspended || f.status == Ready }

  /** `get_fiber`. */
  function LookUp(p: Process, handle: Word): (r: Option<nat>)
    ensures r.Some? ==> r.value in p.fibers
  {
    match TryGet(p.memory.allocations, handle)
    case None => None
    case Some(i) =>
      if p.memory.allocations[i].status == Freed || p.memory.allocations[i].source != FiberMemory || i !in p.fibers
      then None else Some(i)
  }

  function LookUpParent(p: Process, parent: Option<nat>): (r: Option<nat>)
    ensures r.Some? ==> r.value in p.fibers
  {
    match parent
    case None => None
    case Some(h) => LookUp(p, MakeAddress(h, 0, 0))
  }

  function WithFiber(p: Process, h: nat, f: Fiber): Process {
    p.(fibers := p.fibers[h := f])
  }

  /** Fiber `c`, that is running, gives up control. */
  function SuspendedFiber(c: nat, f: Fiber, rest: seq<Word>, expected: U8): Fiber {
    f.(status := Suspended, stack := rest, expected := expected, saved := InStack(c, |rest|))
  }

  /** The saved stack pointer, after values were pushed through it. */
  function Above(saved: Pointer, n: nat): Pointer {
    if saved.InStack? then saved.(depth := saved.depth + n) else saved
  }

  /** The fiber's saved stack pointer is not the top of its own stack. */
  predicate IsWild(p: Process, h: nat)
    requires h in p.fibers
  {
    p.fibers[h].saved != InStack(h, |p.fibers[h].stack|)
  }

  /** A fiber gets `values` and control, and goes on after the instruction it stopped at. */
  function ResumedFiber(f: Fiber, values: seq<Word>, parent: Option<nat>): Fiber {
    f.(status := Running, stack := values + f.stack, parent := parent, saved := Above(f.saved, |values|),
       frames := if f.frames == [] then [] else [f.frames[0].(pc := f.frames[0].pc + 1)] + f.frames[1..])
  }

  /** `lauf_runtime_panic` for current fiber `c`, once `regs` are saved. */
  function StopAt(p: Process, c: nat, regs: Pointer, cause: Cause): Process
    requires c in p.fibers
  {
    var f := p.fibers[c];
    WithFiber(p, c, f.(status := Suspended, expected := 0, phase := Broken(cause), saved := regs))
      .(current := None, executing := false, regs := regs,
        asserts := p.asserts && (f.status == Running || f.status == Ready))
  }

  /** A panic of the machine: its message is passed on in place of the stack pointer. */
  function PanicAt(p: Process, c: nat): Process
    requires c in p.fibers
  {
    StopAt(p, c, Message, ByMachine)
  }

  /** A panic of a builtin that was called with fiber `c`'s registers saved. */
  function BuiltinPanicAt(p: Process, c: nat): Process
    requires c in p.fibers
  {
    StopAt(p, c, InStack(c, |p.fibers[c].stack|), ByBuiltin)
  }

  /** A panic without any registers of its own. */
  function HostPanicAt(p: Process, c: nat): Process
    requires c in p.fibers
  {
    StopAt(p, c, p.regs, Leftover)
  }

  // ----- calls and returns -----

  /** `LAUF_DO_CALL`, for a callee whose arguments are on top once `drop` values are dropped. */
  function CallAt(prog: Program, p: Process, c: nat, callee: nat, drop: nat, choice: Choice): Process
    requires c in p.fibers && callee < |prog.limits| && callee < |prog.m.functions| && drop <= |p.fibers[c].stack|
  {
    var f := p.fibers[c];
    if f.capacity - HEADROOM - |f.stack| < prog.limits[callee] then
      var grown := WithFiber(p, c, f.(capacity := choice.capacity));
      if choice.capacity > prog.maxStack then PanicAt(grown, c) else grown
    else
      match choice.placement
      case Grows => p
      case Overflows => PanicAt(p, c)
      case Fits(base) =>
        var stack := f.stack[drop..];
        var entry := Activation(callee, 0, |stack| - prog.m.functions[callee].inputs, Frame(base, 0, 0, 32));
        var callers := if f.frames == [] then [] else [f.frames[0].(pc := f.frames[0].pc + 1)] + f.frames[1..];
        WithFiber(p, c, f.(stack := stack, frames := [entry] + callers, phase := Inside))
  }

  function ReturnAt(p: Process, c: nat): Process
    requires c in p.fibers && p.fibers[c].frames != []
  {
    var f := p.fibers[c];
    WithFiber(p, c, f.(frames := f.frames[1..], phase := if |f.frames| == 1 then Leaving else Inside))
  }

  // ----- fiber switches -----

  /** `fiber_resume` and `fiber_transfer`. */
  function SwitchTo(p: Process, c: nat, kind: FiberKind, sig: Signature): Process
    requires c in p.fibers && kind != Suspend && sig.inputs < |p.fibers[c].stack|
  {
    var f := p.fibers[c];
    match LookUp(p, f.stack[sig.inputs])
    case None => PanicAt(p, c)
    case Some(h) =>
      if !Resumable(p.fibers[h]) || p.fibers[h].expected != sig.inputs then PanicAt(p, c)
      else
        var left := WithFiber(p, c, SuspendedFiber(c, f, f.stack[sig.inputs + 1..], sig.outputs));
        var parent := if kind == Resume then Some(c) else f.parent;
        WithFiber(left, h, ResumedFiber(left.fibers[h], f.stack[..sig.inputs], parent))
          .(current := Some(h), fault := p.fault || IsWild(p, h))
  }

  /** `fiber_suspend`: back to the parent, or to the host if there is none. */
  function SuspendAt(p: Process, c: nat, sig: Signature): Process
    requires c in p.fibers && sig.inputs <= |p.fibers[c].stack|
  {
    var f := p.fibers[c];
    if f.parent == None then
      if sig.inputs > 0 && sig.inputs != p.outputs then
        HostPanicAt(WithFiber(p, c, SuspendedFiber(c, f, f.stack, sig.outputs)), c)
      else WithFiber(p, c, SuspendedFiber(c, f, f.stack[sig.inputs..], sig.outputs)).(executing := false)
    else
      match LookUpParent(p, f.parent)
      case None => PanicAt(p, c)
      case Some(h) =>
        var asserted := p.(asserts := p.asserts && Resumable(p.fibers[h]));
        if p.fibers[h].expected != sig.inputs then PanicAt(asserted, c)
        else
          var left := WithFiber(asserted, c, SuspendedFiber(c, f, f.stack[sig.inputs..], sig.outputs));
          WithFiber(left, h, ResumedFiber(left.fibers[h], f.stack[..sig.inputs], left.fibers[h].parent))
            .(current := Some(h), fault := p.fault || IsWild(p, h))
  }

  /** `exit`: the root function has returned. */
  function ExitAt(prog: Program, p: Process, c: nat): Process
    requires c in p.fibers && p.fibers[c].root < |prog.m.functions|
  {
    var f := p.fibers[c];
    var done := WithFiber(p, c, f.(status := Done));
    var parent := LookUpParent(done, f.parent);
    if parent == None || done.fibers[parent.value].status == Done then
      if prog.m.functions[f.root].outputs != p.outputs then HostPanicAt(done.(regs := Nowhere), c)
      else done.(regs := Nowhere, executing := false)
    else
      var h := parent.value;
      var asserted := done.(asserts := p.asserts && Resumable(done.fibers[h]));
      var count := |f.stack| % 0x100;
      if done.fibers[h].expected != count then PanicAt(asserted, c)
      else
        var left := WithFiber(asserted.(asserts := asserted.asserts && done.fibers[h].status == Suspended), c,
                              f.(status := Done, stack := f.stack[count..]));
        WithFiber(left, h, ResumedFiber(left.fibers[h], f.stack[..count], left.fibers[h].parent))
          .(current := Some(h), fault := p.fault || IsWild(p, h))
  }

  // ----- one step of the machine -----

  /** A straight-line instruction, run by the handler on the fiber's whole stack. */
  function StraightAt(prog: Program, env: Environment, p: Process, c: nat, i: Inst, stale: U32): Process
    requires c in p.fibers && p.fibers[c].frames != []
  {
    var f := p.fibers[c];
    var a := f.frames[0];
    match Execute(prog.m, env.(stale := _ => stale), i, State(f.stack, a.frame, p.memory))
    case Panicked =>
      if !i.CallBuiltin? then PanicAt(p, c) else if i.saveRegisters then BuiltinPanicAt(p, c) else HostPanicAt(p, c)
    case Fault => p.(fault := true)
    case Ok(st) =>
      WithFiber(p, c, f.(stack := st.stack, frames := [a.(pc := a.pc + 1, frame := st.frame)] + f.frames[1..]))
        .(memory := st.memory, regs := if i.CallBuiltin? && i.saveRegisters then InStack(c, |f.stack|) else p.regs)
  }

  function JumpAt(p: Process, c: nat, target: int, drop: nat): Process
    requires c in p.fibers && p.fibers[c].frames != [] && drop <= |p.fibers[c].stack|
  {
    var f := p.fibers[c];
    WithFiber(p, c, f.(stack := f.stack[drop..], frames := [f.frames[0].(pc := target)] + f.frames[1..]))
  }

  function CallIndirectAt(prog: Program, p: Process, c: nat, sig: Signature, choice: Choice): Process
    requires c in p.fibers && p.fibers[c].stack != [] && |prog.limits| == |prog.m.functions|
  {
    var w := p.fibers[c].stack[0];
    if FunctionInputs(w) != sig.inputs || FunctionOutputs(w) != sig.outputs || FunctionIndex(w) >= |prog.m.functions|
    then PanicAt(p, c)
    else CallAt(prog, p, c, FunctionIndex(w), 1, choice)
  }

  function ReturnFreeAt(p: Process, c: nat, count: nat): Process
    requires c in p.fibers && p.fibers[c].frames != []
  {
    match FreeLocals(p.memory.allocations, p.fibers[c].frames[0].frame.firstLocal, count)
    case None => PanicAt(p, c)
    case Some(table) => ReturnAt(p.(memory := RemoveFreed(p.memory.(allocations := table))), c)
  }

  /** The instructions that are more than a handler on the fiber's stack. */
  predicate Transfers(i: Inst) {
    IsControl(i) || i.Call? || i.CallIndirect? || i.Fiber?
  }

  /** One instruction of the innermost function of fiber `c`. */
  function InstAt(prog: Program, env: Environment, p: Process, c: nat, i: Inst, choice: Choice): Process
    requires c in p.fibers && p.fibers[c].frames != [] && |prog.limits| == |prog.m.functions|
  {
    var f := p.fibers[c];
    var pc := f.frames[0].pc;
    match i
    case Return => ReturnAt(p, c)
    case ReturnFree(count) => ReturnFreeAt(p, c, count)
    case Jump(t) => JumpAt(p, c, pc + t, 0)
    case BranchIf(cc, t) =>
      if f.stack == [] then p.(fault := true)
      else JumpAt(p, c, if Holds(cc, Signed(f.stack[0])) then pc + t else pc + 1, 1)
    case Panic => if f.stack == [] then p.(fault := true) else PanicAt(p, c)
    case Exit => p.(fault := true)
    case Call(g) => if g < |prog.m.functions| then CallAt(prog, p, c, g, 0, choice) else p.(fault := true)
    case CallIndirect(sig) => if f.stack == [] then p.(fault := true) else CallIndirectAt(prog, p, c, sig, choice)
    case Fiber(kind, sig) =>
      if FiberArguments(kind, sig) > |f.stack| then p.(fault := true)
      else if kind == Suspend then SuspendAt(p, c, sig)
      else SwitchTo(p, c, kind, sig)
    case _ => StraightAt(prog, env, p, c, i, choice.stale)
  }

  predicate WellShaped(prog: Program) {
    |prog.code| == |prog.limits| == |prog.m.functions|
  }

  /** One step of the running fiber. */
  function Execute1(prog: Program, env: Environment, p: Process, choice: Choice): Process
    requires WellShaped(prog)
  {
    if !p.executing || p.current == None || p.current.value !in p.fibers then p
    else
      var c := p.current.value;
      var f := p.fibers[c];
      if f.frames == [] then
        if f.root >= |prog.m.functions| then p.(fault := true)
        else if f.phase == Entering then CallAt(prog, p, c, f.root, 0, choice)
        else ExitAt(prog, p, c)
      else
        var a := f.frames[0];
        if a.fn >= |prog.code| || a.pc < 0 || a.pc >= |prog.code[a.fn]| then p.(fault := true)
        else InstAt(prog, env, p, c, prog.code[a.fn][a.pc], choice)
  }

  // ----- what the host and builtins do -----

  datatype Event =
    | RunOne(choice: Choice)
    | Create(fn: nat, capacity: nat, at: Word)
    | Destroy(handle: nat)
    | HostResume(handle: nat, values: seq<Word>, outputs: nat)

  function NewFiber(prog: Program, h: nat, fn: nat, capacity: nat): Fiber
    requires fn < |prog.m.functions|
  {
    Fiber.Fiber(Ready, prog.m.functions[fn].inputs, None, fn, Entering, [], [], capacity, InStack(h, 0))
  }

  /** `lauf_runtime_fiber::create`, with the fiber's own memory at `at`: its handle is its slot. */
  function CreateAt(prog: Program, p: Process, fn: nat, capacity: nat, at: Word): Process
    requires fn < |prog.m.functions|
  {
    var h := |p.memory.allocations|;
    WithFiber(p, h, NewFiber(prog, h, fn, capacity))
      .(memory := p.memory.(allocations := p.memory.allocations + [MakeFiberAlloc(at)]))
  }

  /** How many slots the prologue of a function allocates. */
  function SlotCount(prog: Program, fn: nat): nat {
    if fn < |prog.code| && prog.code[fn] != [] && prog.code[fn][0].SetupLocalAlloc? then prog.code[fn][0].count else 0
  }

  /** A table with slots marked freed in turn, and whether all of them could be. */
  datatype Freeing = Freeing(table: seq<Allocation>, whole: bool)

  /** The slots of a frame's locals marked freed, up to one that cannot be. */
  function FreeSlots(t: seq<Allocation>, first: nat, count: nat): (r: Freeing)
    ensures |r.table| == |t|
    decreases count
  {
    if count == 0 then Freeing(t, true)
    else if first >= |t| || t[first].split != Unsplit then Freeing(t, false)
    else FreeSlots(t[first := t[first].(status := Freed)], first + 1, count - 1)
  }

  /** The same for all calls in progress, from the innermost one on. */
  function FreeFrames(prog: Program, t: seq<Allocation>, frames: seq<Activation>): (r: Freeing)
    ensures |r.table| == |t|
    decreases |frames|
  {
    if frames == [] then Freeing(t, true)
    else
      var r := FreeSlots(t, frames[0].frame.firstLocal, SlotCount(prog, frames[0].fn));
      if r.whole then FreeFrames(prog, r.table, frames[1..]) else r
  }

  /** The table once the locals of fiber `h` are freed, and whether they all could be. */
  function Cancelled(prog: Program, p: Process, h: nat): (r: Freeing)
    requires h in p.fibers
    ensures |r.table| == |p.memory.allocations|
  {
    var f := p.fibers[h];
    if f.status == Done || f.status == Ready then Freeing(p.memory.allocations, true)
    else FreeFrames(prog, p.memory.allocations, f.frames)
  }

  /** `lauf_runtime_destroy_fiber`: if a local is in pieces, the fiber that is current panics. */
  function DestroyAt(prog: Program, p: Process, h: nat): Process
    requires h in p.fibers
  {
    var Freeing(t, ok) := Cancelled(prog, p, h);
    var asserted := p.(asserts := p.asserts && p.fibers[h].status != Running, memory := p.memory.(allocations := t));
    if !ok then
      if p.current == None || p.current.value !in p.fibers then asserted
      else if p.executing then BuiltinPanicAt(asserted, p.current.value)
      else HostPanicAt(asserted, p.current.value)
    else
      var t' := if h < |t| then t[h := t[h].(status := Freed)] else t;
      asserted.(fibers := p.fibers - {h}, memory := RemoveFreed(p.memory.(allocations := t')))
  }

  /** `lauf_runtime_resume`, up to where the machine starts; `values` has the top one first. */
  function HostResumeAt(p: Process, h: nat, values: seq<Word>, outputs: nat): Process
    requires h in p.fibers
  {
    var f := p.fibers[h];
    var asserted := p.(asserts := p.asserts && !p.executing && Resumable(f), current := Some(h), outputs := outputs);
    if f.expected != |values| then HostPanicAt(WithFiber(asserted, h, f.(status := Running, parent := None)), h)
    else WithFiber(asserted, h, ResumedFiber(f, values, None)).(executing := true, fault := p.fault || IsWild(p, h))
  }

  function Step1(prog: Program, env: Environment, p: Process, e: Event): Process
    requires WellShaped(prog)
  {
    match e
    case RunOne(choice) => Execute1(prog, env, p, choice)
    case Create(fn, capacity, at) =>
      if fn >= |prog.m.functions| || |p.memory.allocations| in p.fibers then p else CreateAt(prog, p, fn, capacity, at)
    case Destroy(h) => if h in p.fibers then DestroyAt(prog, p, h) else p
    case HostResume(h, values, outputs) => if h in p.fibers then HostResumeAt(p, h, values, outputs) else p
  }
}
