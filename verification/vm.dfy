// The straight-line instructions of the virtual machine, one case per handler.  The top of the
// value stack is element 0, as it is for `vstack_ptr`.

module Vm {
  import opened Words
  import opened Allocations
  import opened Bytecode

  datatype Memory = Memory(allocations: seq<Allocation>, generation: U8, cells: map<Word, Word>)

  datatype Frame = Frame(base: Word, firstLocal: nat, localGeneration: U8, nextOffset: nat)

  datatype State = State(stack: seq<Word>, frame: Frame, memory: Memory)

  /** A handler continues, panics, or reads below the stack or outside the table. */
  datatype Outcome = Ok(state: State) | Panicked | Fault

  /** What the instructions that leave the function do: they consume `inputs` and give `outputs`,
      top first, and may change the memory; `None` is a panic.  `stale` is the upper half of the cell
      above the top of the stack, left there by whatever was in it last. */
  datatype Environment = Environment(
    call: (nat, seq<Word>, Memory) -> Option<(seq<Word>, Memory)>,
    builtin: (Builtin, seq<Word>, Memory) -> Option<(seq<Word>, Memory)>,
    fiber: (FiberKind, Signature, seq<Word>, Memory) -> Option<(seq<Word>, Memory)>,
    stale: State -> U32)

  function Load(memory: Memory, ptr: Word): Word {
    if ptr in memory.cells then memory.cells[ptr] else 0
  }

  function Store(memory: Memory, ptr: Word, w: Word): Memory {
    memory.(cells := memory.cells[ptr := w])
  }

  function Pushed(st: State, values: seq<Word>): State {
    st.(stack := values + st.stack)
  }

  /** Replaces the top `inputs` values by `outputs`. */
  function Replace(st: State, inputs: nat, outputs: seq<Word>): State
    requires inputs <= |st.stack|
  {
    st.(stack := outputs + st.stack[inputs..])
  }

  function Leave(st: State, inputs: nat, result: Option<(seq<Word>, Memory)>): Outcome
    requires inputs <= |st.stack|
  {
    match result
    case None => Panicked
    case Some((outputs, memory)) => Ok(Replace(st, inputs, outputs).(memory := memory))
  }

  function CallFunction(m: Module, env: Environment, f: nat, st: State): Outcome {
    if f >= |m.functions| || m.functions[f].inputs > |st.stack| then Fault
    else Leave(st, m.functions[f].inputs, env.call(f, st.stack[..m.functions[f].inputs], st.memory))
  }

  function CallBuiltinImpl(env: Environment, b: Builtin, st: State): Outcome {
    if b.sig.inputs > |st.stack| then Fault
    else if b.impl == LoadValue then
      if b.sig != Signature(2, 1) then Fault else Ok(Replace(st, 2, [Load(st.memory, st.stack[1])]))
    else if b.impl == StoreValue then
      if b.sig != Signature(3, 0) then Fault
      else Ok(Replace(st, 3, []).(memory := Store(st.memory, st.stack[1], st.stack[2])))
    else Leave(st, b.sig.inputs, env.builtin(b, st.stack[..b.sig.inputs], st.memory))
  }

  function LocalAddress(frame: Frame, index: nat): Word {
    MakeAddress(frame.firstLocal + index, frame.localGeneration, 0)
  }

  /** The handler writes the three fields of the address and leaves the rest of the cell alone. */
  function FunctionAddress(m: Module, env: Environment, f: nat, st: State): Word
    requires f < |m.functions|
  {
    WithHigh(AddressOfFunction(m, f), env.stale(st))
  }

  function Deref(st: State, layout: Layout, writing: bool): Outcome {
    if st.stack == [] || layout.alignment == 0 then Fault
    else
      match Dereference(st.memory.allocations, st.stack[0], layout, writing)
      case None => Panicked
      case Some(ptr) => Ok(Replace(st, 1, [ptr]))
  }

  function AllocateLocal(st: State, memory: Word, size: nat, advance: nat): State {
    st.(frame := st.frame.(nextOffset := st.frame.nextOffset + advance),
        memory := st.memory.(allocations := st.memory.allocations
                              + [MakeLocalAlloc(memory, size % 0x1_0000_0000, st.frame.localGeneration)]))
  }

  /** One straight-line instruction.  Control flow is not handled here. */
  function Execute(m: Module, env: Environment, i: Inst, st: State): Outcome {
    var s := st.stack;
    match i
    case Nop => Ok(st)
    case Block(_) => Ok(st)
    case CallBuiltinSig(_) => Ok(st)
    case PanicIf =>
      if |s| < 2 then Fault else if s[1] != 0 then Panicked else Ok(Replace(st, 2, []))
    case Call(f) => CallFunction(m, env, f, st)
    case CallIndirect(sig) =>
      if s == [] then Fault
      else if FunctionInputs(s[0]) != sig.inputs || FunctionOutputs(s[0]) != sig.outputs then Panicked
      else if FunctionIndex(s[0]) >= |m.functions| then Panicked
      else CallFunction(m, env, FunctionIndex(s[0]), Replace(st, 1, []))
    case CallBuiltin(b, _) => CallBuiltinImpl(env, b, st)
    case Fiber(kind, sig) =>
      if FiberArguments(kind, sig) > |s| then Fault
      else Leave(st, FiberArguments(kind, sig), env.fiber(kind, sig, s[..FiberArguments(kind, sig)], st.memory))
    case Push(v) => Ok(Pushed(st, [v]))
    case PushN(v) => Ok(Pushed(st, [ALL_ONES - v]))
    case Push2(v) => if s == [] then Fault else Ok(Replace(st, 1, [OrWord(s[0], v * 0x100_0000)]))
    case Push3(v) => if s == [] then Fault else Ok(Replace(st, 1, [OrWord(s[0], Wrap(v * 0x1_0000_0000_0000))]))
    case GlobalAddr(g) => Ok(Pushed(st, [MakeAddress(g, 0, 0)]))
    case FunctionAddr(f) => if f >= |m.functions| then Fault else Ok(Pushed(st, [FunctionAddress(m, env, f, st)]))
    case LocalAddr(index) => Ok(Pushed(st, [LocalAddress(st.frame, index)]))
    case Cc(cc) => if s == [] then Fault else Ok(Replace(st, 1, [Truth(Holds(cc, Signed(s[0])))]))
    case Pop(idx) => if idx >= |s| then Fault else Ok(st.(stack := s[..idx] + s[idx + 1..]))
    case PopTop => if s == [] then Fault else Ok(Replace(st, 1, []))
    case Pick(idx) => if idx >= |s| then Fault else Ok(Pushed(st, [s[idx]]))
    case Dup => if s == [] then Fault else Ok(Pushed(st, [s[0]]))
    case Roll(idx) => if idx >= |s| then Fault else Ok(st.(stack := [s[idx]] + s[..idx] + s[idx + 1..]))
    case Swap => if |s| < 2 then Fault else Ok(st.(stack := [s[1], s[0]] + s[2..]))
    case Select(idx) =>
      if |s| < idx + 2 then Fault
      else if s[0] > idx then Panicked
      else Ok(Replace(st, idx + 2, [s[1 + s[0]]]))
    case SetupLocalAlloc(_) =>
      Ok(st.(frame := st.frame.(firstLocal := |st.memory.allocations| % 0x4000_0000,
                                localGeneration := st.memory.generation % 4)))
    case LocalAlloc(layout) =>
      Ok(AllocateLocal(st, Wrap(st.frame.base + st.frame.nextOffset), layout.size, layout.size))
    case LocalAllocAligned(layout) =>
      if layout.alignment == 0 then Fault
      else
        var start := Wrap(st.frame.base + st.frame.nextOffset);
        Ok(AllocateLocal(st, Wrap(start + AlignOffset(start, layout.alignment)), layout.size,
                         layout.alignment + layout.size))
    case LocalStorage(size) => Ok(st.(frame := st.frame.(nextOffset := st.frame.nextOffset + size)))
    case DerefConst(layout) => Deref(st, layout, false)
    case DerefMut(layout) => Deref(st, layout, true)
    case ArrayElement(multiple) =>
      if |s| < 2 then Fault else Ok(Replace(st, 2, [AddToOffset(s[1], multiple * Signed(s[0]))]))
    case AggregateMember(offset) =>
      if s == [] then Fault else Ok(Replace(st, 1, [AddToOffset(s[0], offset)]))
    case LoadLocalValue(_, offset) => Ok(Pushed(st, [Load(st.memory, Wrap(st.frame.base + offset))]))
    case StoreLocalValue(_, offset) =>
      if s == [] then Fault
      else Ok(Replace(st, 1, []).(memory := Store(st.memory, Wrap(st.frame.base + offset), s[0])))
    case LoadGlobalValue(g) =>
      if g >= |st.memory.allocations| then Fault
      else Ok(Pushed(st, [Load(st.memory, st.memory.allocations[g].ptr)]))
    case StoreGlobalValue(g) =>
      if s == [] || g >= |st.memory.allocations| then Fault
      else Ok(Replace(st, 1, []).(memory := Store(st.memory, st.memory.allocations[g].ptr, s[0])))
    case _ => Fault
  }

  /** A straight-line instruction list, run from the front. */
  function Run(m: Module, env: Environment, insts: seq<Inst>, st: State): Outcome {
    if insts == [] then Ok(st)
    else
      match Execute(m, env, insts[0], st)
      case Ok(st') => Run(m, env, insts[1..], st')
      case other => other
  }

  /** Running a concatenation is running the two parts in turn. */
  lemma {:induction false} RunConcat(m: Module, env: Environment, a: seq<Inst>, b: seq<Inst>, st: State)
    ensures Run(m, env, a + b, st) == match Run(m, env, a, st) case Ok(st') => Run(m, env, b, st') case o => o
  {
    if a == [] {
      assert a + b == b;
    } else {
      assert (a + b)[1..] == a[1..] + b;
      match Execute(m, env, a[0], st)
      case Ok(st') => RunConcat(m, env, a[1..], b, st');
      case _ =>
    }
  }

  /** The last instruction of a list runs on what the others leave. */
  lemma RunLast(m: Module, env: Environment, init: seq<Inst>, last: Inst, st: State)
    ensures Run(m, env, init + [last], st)
         == match Run(m, env, init, st) case Ok(st') => Execute(m, env, last, st') case o => o
  {
    RunConcat(m, env, init, [last], st);
    match Run(m, env, init, st)
    case Ok(st') =>
      assert [last][1..] == [];
    case _ =>
  }
}
