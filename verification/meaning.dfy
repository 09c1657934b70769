// What a builder call promises, independently of the instructions the builder chooses for it.

module Meaning {
  import opened Words
  import opened Allocations
  import opened Bytecode
  import opened Layouts
  import opened Vm
  import opened Builder

  /** A load through a checked pointer.  `stack[0]` is the address. */
  function Loaded(env: Environment, ty: Type, field: nat, st: State): Outcome {
    match Deref(st, TypeLayout(ty), false)
    case Ok(at) =>
      if ty == ValueType then Ok(Replace(at, 1, [Load(at.memory, at.stack[0])]))
      else if ty.load == None || field >= TWO_64 then Fault
      else Leave(at, 1, env.builtin(FieldBuiltin(Other(ty.load.value), 2, 1), [field, at.stack[0]], at.memory))
    case other => other
  }

  /** A store through a checked pointer.  `stack[0]` is the address, `stack[1]` the value. */
  function Stored(env: Environment, ty: Type, field: nat, st: State): Outcome {
    match Deref(st, TypeLayout(ty), true)
    case Ok(at) =>
      if |at.stack| < 2 then Fault
      else if ty == ValueType then Ok(Replace(at, 2, []).(memory := Store(at.memory, at.stack[0], at.stack[1])))
      else if ty.store == None || field >= TWO_64 then Fault
      else
        Leave(at, 2, env.builtin(FieldBuiltin(Other(ty.store.value), 3, 0), [field, at.stack[0], at.stack[1]],
                                 at.memory))
    case other => other
  }

  predicate IsEmptyType(ty: Type, impl: Option<nat>) {
    ty.OpaqueType? && ty.layout.size == 0 && impl == None
  }

  /** An indirect call reaches the function of that index; it has no meaning if the address
      claims a signature the function does not have. */
  function CalledIndirectly(m: Module, env: Environment, sig: Signature, st: State): Outcome {
    if st.stack == [] then Fault
    else if FunctionInputs(st.stack[0]) != sig.inputs || FunctionOutputs(st.stack[0]) != sig.outputs then Panicked
    else if FunctionIndex(st.stack[0]) >= |m.functions| then Panicked
    else if m.functions[FunctionIndex(st.stack[0])] != sig then Fault
    else CallFunction(m, env, FunctionIndex(st.stack[0]), Replace(st, 1, []))
  }

  function Means(m: Module, env: Environment, op: Op, st: State): Outcome {
    var s := st.stack;
    match op
    case Uint(value) => Ok(Pushed(st, [value]))
    case Null => Ok(Pushed(st, [ALL_ONES]))
    case GlobalAddr(g) => Ok(Pushed(st, [MakeAddress(g, 0, 0)]))
    case LocalAddr(l) =>
      if l >= |m.locals| then Fault else Ok(Pushed(st, [Vm.LocalAddress(st.frame, m.locals[l].index)]))
    case FunctionAddr(f, _) =>
      if f >= |m.functions| then Fault else Ok(Pushed(st, [FunctionAddress(m, env, f, st)]))
    case Cc(cc) => if s == [] then Fault else Ok(Replace(st, 1, [Truth(Holds(cc, Signed(s[0])))]))
    case Pop(idx) => if idx >= |s| then Fault else Ok(st.(stack := s[..idx] + s[idx + 1..]))
    case Pick(idx) => if idx >= |s| then Fault else Ok(Pushed(st, [s[idx]]))
    case Roll(idx) => if idx >= |s| then Fault else Ok(st.(stack := Rolled(s, idx)))
    case Select(count) =>
      if |s| < count + 1 then Fault
      else if s[0] >= count then Panicked
      else Ok(Replace(st, count + 1, [s[1 + s[0]]]))
    case ArrayElement(element) =>
      if |s| < 2 || element.alignment == 0 then Fault
      else Ok(Replace(st, 2, [AddToOffset(s[1], RoundUp(element.size, element.alignment) * Signed(s[0]))]))
    case AggregateMember(members, member) =>
      if s == [] || member >= |members| || exists k :: 0 <= k < |members| && members[k].alignment == 0 then Fault
      else Ok(Replace(st, 1, [AddToOffset(s[0], MemberOffset(members, member))]))
    case LoadField(ty, field) =>
      if s == [] then Fault
      else if ty.OpaqueType? && IsEmptyType(ty, ty.load) then Ok(Replace(st, 1, [0]))
      else Loaded(env, ty, field, st)
    case StoreField(ty, field) =>
      if |s| < 2 then Fault
      else if ty.OpaqueType? && IsEmptyType(ty, ty.store) then Ok(Replace(st, 2, []))
      else Stored(env, ty, field, st)
    case Call(f) => CallFunction(m, env, f, st)
    case CallIndirect(sig) => CalledIndirectly(m, env, sig, st)
    case CallBuiltin(b) => CallBuiltinImpl(env, b, st)
    case PanicIf => if |s| < 2 then Fault else if s[1] != 0 then Panicked else Ok(Replace(st, 2, []))
    case Fiber(kind, sig) =>
      if FiberArguments(kind, sig) > |s| then Fault
      else Leave(st, FiberArguments(kind, sig), env.fiber(kind, sig, s[..FiberArguments(kind, sig)], st.memory))
  }

  /** A list of builder calls, in order. */
  function MeansAll(m: Module, env: Environment, ops: seq<Op>, st: State): Outcome {
    if ops == [] then Ok(st)
    else
      match MeansAll(m, env, ops[..|ops| - 1], st)
      case Ok(st') => Means(m, env, ops[|ops| - 1], st')
      case other => other
  }
}
