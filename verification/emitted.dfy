// Which instructions the builder puts into blocks.

module EmittedCode {
  import opened Words
  import opened Allocations
  import opened Bytecode
  import opened Layouts
  import opened Flat
  import opened Builder
  import opened Compiler

  /** The index of one of the function's locals. */
  predicate IsLocalIndex(m: Module, index: nat) {
    exists l :: 0 <= l < |m.locals| && m.locals[l].index == index
  }

  /** No jumps and no instructions of the prologue; functions, globals and locals that exist; layouts that
      can be checked; and builtins with the signature of their implementation, called with the
      registers saved unless they need no process and never panic. */
  predicate MayEmit(m: Module, i: Inst) {
    match i
    case LocalAddr(index) => IsLocalIndex(m, index)
    case FunctionAddr(f) => f < |m.functions|
    case Call(f) => f < |m.functions|
    case CallBuiltin(b, saves) => ValidBuiltin(b) && saves == !(b.noProcess && b.noPanic)
    case DerefConst(layout) => layout.alignment > 0
    case DerefMut(layout) => layout.alignment > 0
    case LoadGlobalValue(g) => g < |m.globals|
    case StoreGlobalValue(g) => g < |m.globals|
    case Nop => false
    case Block(_) => false
    case SetupLocalAlloc(_) => false
    case LocalAlloc(_) => false
    case LocalAllocAligned(_) => false
    case LocalStorage(_) => false
    case _ => !IsControl(i)
  }

  predicate AllEmitted(m: Module, insts: seq<Inst>) {
    forall k :: 0 <= k < |insts| ==> MayEmit(m, insts[k])
  }

  lemma AppendEmitted(m: Module, insts: seq<Inst>, more: seq<Inst>)
    requires AllEmitted(m, insts) && AllEmitted(m, more)
    ensures AllEmitted(m, insts + more)
  {
  }

  lemma {:induction false} PopTopNEmitted(m: Module, b: Build, n: nat)
    requires AllEmitted(m, b.insts)
    ensures AllEmitted(m, PopTopN(b, n).insts)
    decreases |b.insts|
  {
    if n > 0 && LastRemoval(b) != Stays {
      PopTopNEmitted(m, DeleteLast(b), LeftToPop(LastRemoval(b), n));
    }
  }

  lemma ImmediateEmitted(m: Module, value: Word)
    ensures AllEmitted(m, Immediate(value))
  {
  }

  lemma {:induction false} UintsEmitted(m: Module, b: Build, values: seq<Word>)
    requires AllEmitted(m, b.insts)
    ensures AllEmitted(m, PushUints(b, values).insts)
  {
    if values != [] {
      UintsEmitted(m, b, values[1..]);
      ImmediateEmitted(m, values[0]);
      AppendEmitted(m, PushUints(b, values[1..]).insts, Immediate(values[0]));
    }
  }

  lemma BuiltinEmitted(m: Module, builtin: Builtin, b: Build)
    requires AllEmitted(m, b.insts)
    ensures AllEmitted(m, EmitBuiltin(m, builtin, b).insts)
  {
    hide PopTopN, PushUints;
    var n := builtin.sig.inputs;
    if ValidBuiltin(builtin) && n <= |b.vstack| {
      PopTopNEmitted(m, Discard(b, n), n);
      if AllConstant(b.vstack[..n]) && m.fold(builtin, ConstantsOf(b.vstack[..n])).Some? {
        UintsEmitted(m, PopTopN(Discard(b, n), n), m.fold(builtin, ConstantsOf(b.vstack[..n])).value);
      }
      AppendEmitted(m, b.insts, AppendBuiltin(Discard(b, n).(insts := []), builtin).insts);
    }
  }

  lemma AccessEmitted(m: Module, b: Build, deref: Inst, field: nat, builtin: Builtin)
    requires AllEmitted(m, b.insts) && MayEmit(m, deref)
    ensures AllEmitted(m, EmitAccess(m, b, deref, field, builtin).insts)
  {
    if field < TWO_64 {
      var b1 := PushValues(Append(b, [deref]), [Unknown]);
      ImmediateEmitted(m, field);
      AppendEmitted(m, b1.insts, Immediate(field));
      BuiltinEmitted(m, builtin, PushUint(b1, field));
    }
  }

  lemma LoadEmitted(m: Module, ty: Type, field: nat, b: Build)
    requires AllEmitted(m, b.insts)
    ensures AllEmitted(m, EmitLoad(m, ty, field, b).insts)
  {
    hide PopTopN, LastRemoval, EmitAccess, IsLocalIndex;
    if b.vstack != [] {
      var popped := Discard(b, 1);
      PopTopNEmitted(m, popped, 1);
      ImmediateEmitted(m, 0);
      if FoldAccess(m, b.vstack[0], ty, false).Dynamic? && FitsLayout(TypeLayout(ty))
          && (ty.OpaqueType? ==> ty.load.Some?) {
        AccessEmitted(m, popped, Inst.DerefConst(TypeLayout(ty)), field,
                      FieldBuiltin(if ty == ValueType then LoadValue else Other(ty.load.value), 2, 1));
      }
    }
  }

  lemma StoreEmitted(m: Module, ty: Type, field: nat, b: Build)
    requires AllEmitted(m, b.insts)
    ensures AllEmitted(m, EmitStore(m, ty, field, b).insts)
  {
    hide PopTopN, LastRemoval, PushUint, Immediate, EmitAccess, IsLocalIndex;
    if b.vstack != [] {
      var popped := Discard(b, 1);
      PopTopNEmitted(m, popped, 1);
      if |b.vstack| >= 2 {
        PopTopNEmitted(m, Discard(b, 2), 2);
      }
      if FoldAccess(m, b.vstack[0], ty, true).Dynamic? && FitsLayout(TypeLayout(ty))
          && (ty.OpaqueType? ==> ty.store.Some?) {
        AccessEmitted(m, popped, Inst.DerefMut(TypeLayout(ty)), field,
                      FieldBuiltin(if ty == ValueType then StoreValue else Other(ty.store.value), 3, 0));
      }
    }
  }

  /** The calls that push what is known at build time. */
  lemma PushEmitted(m: Module, op: Op, b: Build)
    requires AllEmitted(m, b.insts) && !b.errored && !b.terminated
    requires op.Uint? || op.Null? || op.GlobalAddr? || op.LocalAddr? || op.FunctionAddr?
    ensures AllEmitted(m, Emit(m, op, b).insts)
  {
    if op.Uint? {
      ImmediateEmitted(m, op.value);
      AppendEmitted(m, b.insts, Immediate(op.value));
    }
  }

  /** The calls that move values, or compare one. */
  lemma MoveEmitted(m: Module, op: Op, b: Build)
    requires AllEmitted(m, b.insts) && !b.errored && !b.terminated
    requires op.Cc? || op.Pop? || op.Pick? || op.Roll? || op.Select?
    ensures AllEmitted(m, Emit(m, op, b).insts)
  {
    hide PopTopN, LastRemoval, Signed, Holds, IsLocalIndex;
    if b.vstack != [] {
      PopTopNEmitted(m, Discard(b, 1), 1);
    }
    if op.Pop? && op.idx < |b.vstack| {
      PopTopNEmitted(m, b.(vstack := b.vstack[..op.idx] + b.vstack[op.idx + 1..]), 1);
    }
  }

  /** Addresses of elements and members, and the calls that leave the function. */
  lemma LeaveEmitted(m: Module, op: Op, b: Build)
    requires AllEmitted(m, b.insts) && !b.errored && !b.terminated
    requires op.ArrayElement? || op.AggregateMember? || op.Call? || op.CallIndirect? || op.PanicIf? || op.Fiber?
    ensures AllEmitted(m, Emit(m, op, b).insts)
  {
    hide PopTopN, LastRemoval, RoundUp, Signed, IsLocalIndex;
    if op.ArrayElement? && |b.vstack| >= 2 {
      PopTopNEmitted(m, Discard(b, 2), 1);
    }
    if op.CallIndirect? && op.sig.inputs < |b.vstack| {
      PopTopNEmitted(m, Discard(b, op.sig.inputs + 1), 1);
    }
  }

  /** Whatever a builder call deletes and appends, only such instructions are left. */
  lemma EmitEmitted(m: Module, op: Op, b: Build)
    requires AllEmitted(m, b.insts)
    ensures AllEmitted(m, Emit(m, op, b).insts)
  {
    if !b.errored && !b.terminated {
      match op
      case LoadField(ty, field) => LoadEmitted(m, ty, field, b);
      case StoreField(ty, field) => StoreEmitted(m, ty, field, b);
      case CallBuiltin(builtin) => BuiltinEmitted(m, builtin, b);
      case _ =>
        if op.Uint? || op.Null? || op.GlobalAddr? || op.LocalAddr? || op.FunctionAddr? {
          PushEmitted(m, op, b);
        } else if op.Cc? || op.Pop? || op.Pick? || op.Roll? || op.Select? {
          MoveEmitted(m, op, b);
        } else {
          LeaveEmitted(m, op, b);
        }
    }
  }

  lemma {:induction false} EmitAllEmitted(m: Module, ops: seq<Op>, b: Build)
    requires AllEmitted(m, b.insts)
    ensures AllEmitted(m, EmitAll(m, ops, b).insts)
  {
    if ops != [] {
      EmitAllEmitted(m, ops[..|ops| - 1], b);
      EmitEmitted(m, ops[|ops| - 1], EmitAll(m, ops[..|ops| - 1], b));
    }
  }

  lemma EndEmitted(m: Module, inputs: seq<U8>, outputs: U8, end: End, b: Build)
    requires AllEmitted(m, b.insts)
    ensures AllEmitted(m, EmitEnd(inputs, outputs, end, b).0.insts)
  {
    if end.Branch? && b.vstack != [] {
      PopTopNEmitted(m, Discard(b, 1), 1);
    }
  }

  /** Every block of a function consists of such instructions. */
  lemma BlockEmitted(m: Module, src: FunctionSource, i: nat)
    requires i < |src.blocks|
    ensures AllEmitted(m, Compiled(m, src, i).0.insts)
  {
    var b0 := Fresh(src.blocks[i].inputs, 0);
    EmitAllEmitted(m, src.blocks[i].ops, b0);
    EndEmitted(m, InputsOf(src), src.outputs, src.blocks[i].end, EmitAll(m, src.blocks[i].ops, b0));
  }
}
