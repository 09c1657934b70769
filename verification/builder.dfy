// What each builder call does to the block under construction: the instructions it appends or
// deletes, and the abstract value stack it keeps.  The top of either stack is element 0.

module Builder {
  import opened Words
  import opened Allocations
  import opened Bytecode
  import opened Layouts

  /** How much of a constant on the abstract stack the machine really holds: all of it, the lower half
      (of a function address), or nothing of it, because it holds all ones (for `null`).  The builder
      itself keeps no such note and never looks at it. */
  datatype Faith = Exact | Lower | AllOnes

  /** What the builder knows of a value on the stack. */
  datatype Value = Unknown | Constant(w: Word, faith: Faith) | LocalAddress(local: nat)

  function Known(w: Word): Value { Constant(w, Exact) }

  /** `lauf.Value`, or a type with its own layout and optional load and store functions. */
  datatype Type = ValueType | OpaqueType(layout: Layout, fields: nat, load: Option<nat>, store: Option<nat>)

  /** One builder call other than a terminator. */
  datatype Op =
    | Uint(value: Word)
    | Null
    | GlobalAddr(global: nat)
    | LocalAddr(local: nat)
    | FunctionAddr(function_: nat, high: U32)
    | Cc(cc: Condition)
    | Pop(idx: U16)
    | Pick(idx: U16)
    | Roll(idx: U16)
    | Select(count: U16)
    | ArrayElement(element: Layout)
    | AggregateMember(members: seq<Layout>, member: nat)
    | LoadField(ty: Type, field: nat)
    | StoreField(ty: Type, field: nat)
    | Call(function_: nat)
    | CallIndirect(sig: Signature)
    | CallBuiltin(builtin: Builtin)
    | PanicIf
    | Fiber(kind: FiberKind, sig: Signature)

  datatype Build = Build(
    insts: seq<Inst>,
    vstack: seq<Value>,
    max: nat,
    addrCount: int,
    terminated: bool,
    errored: bool)

  // ----- the pieces emitters are made of -----

  function Error(b: Build): Build { b.(errored := true) }

  function Append(b: Build, insts: seq<Inst>): Build { b.(insts := b.insts + insts) }

  function Unknowns(n: nat): (vs: seq<Value>)
    ensures |vs| == n
  {
    seq(n, _ => Unknown)
  }

  function PushValues(b: Build, values: seq<Value>): Build {
    b.(vstack := values + b.vstack,
       max := if |values| > 0 then Max(b.max, |values| + |b.vstack|) else b.max)
  }

  function Discard(b: Build, n: nat): Build
    requires n <= |b.vstack|
  {
    b.(vstack := b.vstack[n..])
  }

  function Rolled<T>(s: seq<T>, idx: nat): seq<T>
    requires idx < |s|
  {
    [s[idx]] + s[..idx] + s[idx + 1..]
  }

  /** How deleting a block's last instruction changes what is left to pop. */
  datatype Removal = Pushes | Rewrites | Combines | Stays

  function RemovalOf(i: Inst): Removal {
    match i
    case LocalAddr(_) => Pushes
    case Push(_) => Pushes
    case PushN(_) => Pushes
    case GlobalAddr(_) => Pushes
    case FunctionAddr(_) => Pushes
    case Pick(_) => Pushes
    case Dup => Pushes
    case LoadLocalValue(_, _) => Pushes
    case LoadGlobalValue(_) => Pushes
    case Push2(_) => Rewrites
    case Push3(_) => Rewrites
    case DerefConst(_) => Rewrites
    case DerefMut(_) => Rewrites
    case AggregateMember(_) => Rewrites
    case Cc(_) => Rewrites
    case ArrayElement(_) => Combines
    case _ => Stays
  }

  /** An empty block ends like one that ends in an instruction that cannot be deleted. */
  function LastRemoval(b: Build): (r: Removal)
    ensures r != Stays ==> b.insts != []
  {
    if b.insts == [] then Stays else RemovalOf(b.insts[|b.insts| - 1])
  }

  /** How many values are left to pop once the instruction is deleted. */
  function LeftToPop(removal: Removal, n: nat): nat
    requires n > 0
  {
    match removal
    case Pushes => n - 1
    case Combines => n + 1
    case _ => n
  }

  function PopTops(n: nat): (insts: seq<Inst>)
    ensures |insts| == n
  {
    seq(n, _ => Inst.PopTop)
  }

  function DeleteLast(b: Build): Build
    requires b.insts != []
  {
    b.(insts := b.insts[..|b.insts| - 1],
       addrCount := if b.insts[|b.insts| - 1].LocalAddr? then b.addrCount - 1 else b.addrCount)
  }

  /** Removes the top `n` values, by deleting the instructions that made them as long as that
      can be done. */
  function PopTopN(b: Build, n: nat): (r: Build)
    ensures r == b.(insts := r.insts, addrCount := r.addrCount)
    decreases |b.insts|
  {
    if n == 0 then b
    else if LastRemoval(b) == Stays then Append(b, PopTops(n))
    else PopTopN(DeleteLast(b), LeftToPop(LastRemoval(b), n))
  }

  // ----- constants -----

  /** The shortest sequence of push instructions for a bit pattern. */
  function Immediate(value: Word): seq<Inst> {
    if value < 0x100_0000 then [Inst.Push(value)]
    else if value < 0x1_0000_0000_0000 then [Inst.Push(value % 0x100_0000), Inst.Push2(value / 0x100_0000)]
    else if value >= 0xFFFF_FFFF_FF00_0000 then [Inst.PushN(ALL_ONES - value)]
    else
      [Inst.Push(value % 0x100_0000)]
      + (if (value / 0x100_0000) % 0x100_0000 != 0 then [Inst.Push2((value / 0x100_0000) % 0x100_0000)] else [])
      + [Inst.Push3(value / 0x1_0000_0000_0000)]
  }

  function PushUint(b: Build, value: Word): Build {
    PushValues(Append(b, Immediate(value)), [Known(value)])
  }

  /** Pushes from the last element to the first, so that the first ends on top. */
  function PushUints(b: Build, values: seq<Word>): Build {
    if values == [] then b
    else PushUint(PushUints(b, values[1..]), values[0])
  }

  // ----- calls -----

  function AppendBuiltin(b: Build, builtin: Builtin): Build {
    PushValues(
      Append(b, [Inst.CallBuiltin(builtin, !(builtin.noProcess && builtin.noPanic)),
                 Inst.CallBuiltinSig(builtin.sig)]),
      Unknowns(builtin.sig.outputs))
  }

  /** A builtin with the implementation of `lauf.Value`'s load or store has that signature. */
  predicate ValidBuiltin(b: Builtin) {
    && (b.impl == LoadValue ==> b.sig == Signature(2, 1) && !b.constantFold && !b.alwaysPanic)
    && (b.impl == StoreValue ==> b.sig == Signature(3, 0) && !b.constantFold && !b.alwaysPanic)
  }

  predicate AllConstant(vs: seq<Value>) {
    forall k :: 0 <= k < |vs| ==> vs[k].Constant?
  }

  function ConstantsOf(vs: seq<Value>): seq<Word>
    requires AllConstant(vs)
  {
    seq(|vs|, k requires 0 <= k < |vs| => vs[k].w)
  }

  function EmitBuiltin(m: Module, builtin: Builtin, b: Build): Build {
    var n := builtin.sig.inputs;
    if !ValidBuiltin(builtin) || (builtin.vmDirective && builtin.sig.outputs != 0) || n > |b.vstack| then Error(b)
    else
      var popped := Discard(b, n);
      var called :=
        if AllConstant(b.vstack[..n]) && builtin.noProcess && builtin.constantFold then
          match m.fold(builtin, ConstantsOf(b.vstack[..n]))
          case Some(outputs) => PushUints(PopTopN(popped, n), outputs)
          case None => AppendBuiltin(popped, builtin)
        else AppendBuiltin(popped, builtin);
      called.(terminated := builtin.alwaysPanic)
  }

  /** The function a constant address names, if its counts agree with `sig`. */
  function ConstantFunction(m: Module, v: Value, sig: Signature): Option<nat> {
    if v.Constant? && FunctionInputs(v.w) == sig.inputs && FunctionOutputs(v.w) == sig.outputs
       && FunctionIndex(v.w) < |m.functions|
    then Some(FunctionIndex(v.w)) else None
  }

  // ----- loads and stores -----

  datatype Folding = Dynamic | ToLocal(local: nat) | ToGlobal(global: nat)

  /** Whether an access through `addr` can go straight to a local or a global. */
  function FoldAccess(m: Module, addr: Value, ty: Type, store: bool): Folding {
    if ty != ValueType then Dynamic
    else if addr.LocalAddress? && addr.local < |m.locals| then
      var layout := m.locals[addr.local].layout;
      if layout.alignment > POINTER_ALIGNMENT then Dynamic
      else if layout.size < VALUE_LAYOUT.size || layout.alignment < VALUE_LAYOUT.alignment then Dynamic
      else ToLocal(addr.local)
    else if addr.Constant? then
      var g := AddressAllocation(addr.w);
      if g >= |m.globals| && AddressGeneration(addr.w) != 0 && AddressOffset(addr.w) != 0 then Dynamic
      else if g >= |m.globals| || !m.globals[g].defined then Dynamic
      else if store && !m.globals[g].isMutable then Dynamic
      else if m.globals[g].size < VALUE_LAYOUT.size || m.globals[g].alignment < VALUE_LAYOUT.alignment then Dynamic
      else ToGlobal(g)
    else Dynamic
  }

  function FieldBuiltin(impl: Implementation, inputs: U8, outputs: U8): Builtin {
    Builtin(impl, Signature(inputs, outputs), false, false, false, false, false)
  }

  function TypeLayout(ty: Type): Layout { if ty == ValueType then VALUE_LAYOUT else ty.layout }

  function FieldCount(ty: Type): nat { if ty == ValueType then 1 else ty.fields }

  predicate FitsLayout(layout: Layout) {
    layout.size < 0x1_0000 && layout.alignment > 0
  }

  /** The access through a checked native pointer: dereference, field index, load or store function. */
  function EmitAccess(m: Module, b: Build, deref: Inst, field: nat, builtin: Builtin): Build {
    if field >= TWO_64 then Error(b)
    else EmitBuiltin(m, builtin, PushUint(PushValues(Append(b, [deref]), [Unknown]), field))
  }

  function EmitLoad(m: Module, ty: Type, field: nat, b: Build): Build {
    if field >= FieldCount(ty) || b.vstack == [] then Error(b)
    else
      var popped := Discard(b, 1);
      match FoldAccess(m, b.vstack[0], ty, false)
      case ToLocal(l) =>
        if m.locals[l].index >= 0x100 then Error(b)
        else
          PushValues(Append(PopTopN(popped, 1), [Inst.LoadLocalValue(m.locals[l].index, m.locals[l].offset)]),
                     [Unknown])
      case ToGlobal(g) =>
        if g >= TWO_24 then Error(b)
        else PushValues(Append(PopTopN(popped, 1), [Inst.LoadGlobalValue(g)]), [Unknown])
      case Dynamic =>
        if ty.OpaqueType? && ty.layout.size == 0 && ty.load == None then PushUint(PopTopN(popped, 1), 0)
        else if !FitsLayout(TypeLayout(ty)) || (ty.OpaqueType? && ty.load == None) then Error(b)
        else
          EmitAccess(m, popped, Inst.DerefConst(TypeLayout(ty)), field,
                     FieldBuiltin(if ty == ValueType then LoadValue else Other(ty.load.value), 2, 1))
  }

  function EmitStore(m: Module, ty: Type, field: nat, b: Build): Build {
    if field >= FieldCount(ty) || b.vstack == [] then Error(b)
    else
      var popped := Discard(b, 1);
      match FoldAccess(m, b.vstack[0], ty, true)
      case ToLocal(l) =>
        if m.locals[l].index >= 0x100 || |b.vstack| < 2 then Error(b)
        else
          Discard(Append(PopTopN(popped, 1), [Inst.StoreLocalValue(m.locals[l].index, m.locals[l].offset)]), 1)
      case ToGlobal(g) =>
        if g >= TWO_24 || |b.vstack| < 2 then Error(b)
        else Discard(Append(PopTopN(popped, 1), [Inst.StoreGlobalValue(g)]), 1)
      case Dynamic =>
        if ty.OpaqueType? && ty.layout.size == 0 && ty.store == None then
          if |b.vstack| < 2 then Error(b) else PopTopN(Discard(b, 2), 2)
        else if !FitsLayout(TypeLayout(ty)) || (ty.OpaqueType? && ty.store == None) then Error(b)
        else
          EmitAccess(m, popped, Inst.DerefMut(TypeLayout(ty)), field,
                     FieldBuiltin(if ty == ValueType then StoreValue else Other(ty.store.value), 3, 0))
  }

  // ----- addresses -----

  function EmitArrayElement(element: Layout, b: Build): Build {
    if |b.vstack| < 2 || element.alignment == 0 then Error(b)
    else
      var multiple := RoundUp(element.size, element.alignment);
      if b.vstack[0].Constant? then
        var offset := Signed(b.vstack[0].w) * multiple;
        if offset >= TWO_24 then Error(b)
        else
          PushValues(
            Append(PopTopN(Discard(b, 2), 1), if offset > 0 then [Inst.AggregateMember(offset)] else []),
            [Unknown])
      else if multiple >= TWO_24 then Error(b)
      else PushValues(Append(Discard(b, 2), [Inst.ArrayElement(multiple)]), [Unknown])
  }

  function EmitAggregateMember(members: seq<Layout>, member: nat, b: Build): Build {
    if member >= |members| || exists k :: 0 <= k < |members| && members[k].alignment == 0 then Error(b)
    else
      var offset := MemberOffset(members, member);
      if offset <= 0 then b
      else if b.vstack == [] || offset >= TWO_24 then Error(b)
      else PushValues(Append(Discard(b, 1), [Inst.AggregateMember(offset)]), [Unknown])
  }

  function EmitCc(cc: Condition, b: Build): Build {
    if b.vstack == [] then Error(b)
    else if b.vstack[0].Constant? then
      var value := Truth(Holds(cc, Signed(b.vstack[0].w)));
      PushValues(Append(PopTopN(Discard(b, 1), 1), [Inst.Push(value)]), [Known(value)])
    else PushValues(Append(Discard(b, 1), [Inst.Cc(cc)]), [Unknown])
  }

  // ----- the other calls -----

  function EmitNull(b: Build): Build {
    PushValues(Append(b, [Inst.PushN(0)]), [Constant(0, AllOnes)])
  }

  function EmitGlobalAddr(g: nat, b: Build): Build {
    if g >= TWO_24 then Error(b)
    else PushValues(Append(b, [Inst.GlobalAddr(g)]), [Known(MakeAddress(g, 0, 0))])
  }

  function EmitLocalAddr(m: Module, l: nat, b: Build): Build {
    if l >= |m.locals| || m.locals[l].index >= 0x100 then Error(b)
    else
      PushValues(Append(b.(addrCount := b.addrCount + 1), [Inst.LocalAddr(m.locals[l].index)]),
                 [LocalAddress(l)])
  }

  /** The value that is tracked is never initialised: its upper half `high` is whatever was there. */
  function EmitFunctionAddr(m: Module, f: nat, high: U32, b: Build): Build {
    if f >= |m.functions| then Error(b)
    else PushValues(Append(b, [Inst.FunctionAddr(f)]), [Constant(WithHigh(AddressOfFunction(m, f), high), Lower)])
  }

  function EmitPop(idx: U16, b: Build): Build {
    if idx >= |b.vstack| then Error(b)
    else
      var popped := b.(vstack := b.vstack[..idx] + b.vstack[idx + 1..]);
      if idx == 0 then PopTopN(popped, 1) else Append(popped, [Inst.Pop(idx)])
  }

  function EmitPick(idx: U16, b: Build): Build {
    if idx >= |b.vstack| then Error(b)
    else PushValues(Append(b, [if idx == 0 then Inst.Dup else Inst.Pick(idx)]), [b.vstack[idx]])
  }

  function RollCode(idx: U16): seq<Inst> {
    if idx == 0 then [] else if idx == 1 then [Inst.Swap] else [Inst.Roll(idx)]
  }

  function EmitRoll(idx: U16, b: Build): Build {
    if idx >= |b.vstack| then Error(b) else Append(b.(vstack := Rolled(b.vstack, idx)), RollCode(idx))
  }

  function EmitSelect(count: U16, b: Build): Build {
    if count < 2 || |b.vstack| < count + 1 then Error(b)
    else PushValues(Append(Discard(b, count + 1), [Inst.Select(count - 1)]), [Unknown])
  }

  function EmitCall(m: Module, f: nat, b: Build): Build {
    if f >= |m.functions| || m.functions[f].inputs > |b.vstack| then Error(b)
    else PushValues(Append(Discard(b, m.functions[f].inputs), [Inst.Call(f)]), Unknowns(m.functions[f].outputs))
  }

  function EmitCallIndirect(m: Module, sig: Signature, b: Build): Build {
    if |b.vstack| < sig.inputs + 1 then Error(b)
    else
      var popped := Discard(b, sig.inputs + 1);
      var called :=
        match ConstantFunction(m, b.vstack[0], sig) {
          case Some(f) => Append(PopTopN(popped, 1), [Inst.Call(f)])
          case None => Append(popped, [Inst.CallIndirect(sig)])
        };
      PushValues(called, Unknowns(sig.outputs))
  }

  function EmitPanicIf(b: Build): Build {
    if |b.vstack| < 2 then Error(b) else Append(Discard(b, 2), [Inst.PanicIf])
  }

  function EmitFiber(kind: FiberKind, sig: Signature, b: Build): Build {
    if |b.vstack| < FiberArguments(kind, sig) then Error(b)
    else PushValues(Append(Discard(b, FiberArguments(kind, sig)), [Inst.Fiber(kind, sig)]), Unknowns(sig.outputs))
  }

  // ----- one builder call -----

  function Emit(m: Module, op: Op, b: Build): Build {
    if b.terminated || b.errored then b
    else
      match op
      case Uint(value) => PushUint(b, value)
      case Null => EmitNull(b)
      case GlobalAddr(g) => EmitGlobalAddr(g, b)
      case LocalAddr(l) => EmitLocalAddr(m, l, b)
      case FunctionAddr(f, high) => EmitFunctionAddr(m, f, high, b)
      case Cc(cc) => EmitCc(cc, b)
      case Pop(idx) => EmitPop(idx, b)
      case Pick(idx) => EmitPick(idx, b)
      case Roll(idx) => EmitRoll(idx, b)
      case Select(count) => EmitSelect(count, b)
      case ArrayElement(element) => EmitArrayElement(element, b)
      case AggregateMember(members, member) => EmitAggregateMember(members, member, b)
      case LoadField(ty, field) => EmitLoad(m, ty, field, b)
      case StoreField(ty, field) => EmitStore(m, ty, field, b)
      case Call(f) => EmitCall(m, f, b)
      case CallIndirect(sig) => EmitCallIndirect(m, sig, b)
      case CallBuiltin(builtin) => EmitBuiltin(m, builtin, b)
      case PanicIf => EmitPanicIf(b)
      case Fiber(kind, sig) => EmitFiber(kind, sig, b)
  }

  /** A block before its first instruction. */
  function Fresh(inputs: nat, addrCount: int): Build {
    Build([], Unknowns(inputs), inputs, addrCount, false, false)
  }

  function EmitAll(m: Module, ops: seq<Op>, b: Build): Build {
    if ops == [] then b else Emit(m, ops[|ops| - 1], EmitAll(m, ops[..|ops| - 1], b))
  }
}
