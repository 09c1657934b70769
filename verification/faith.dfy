// What is noted about the constants on the abstract stack is a note only: no builder call depends on it.

module Faithless {
  import opened Words
  import opened Allocations
  import opened Bytecode
  import opened Layouts
  import opened Builder
  import opened Compiler
  import opened Refinement

  /** The value as the builder has it. */
  function Plain(v: Value): Value {
    if v.Constant? then Known(v.w) else v
  }

  predicate SameValues(vs: seq<Value>, ws: seq<Value>) {
    |vs| == |ws| && forall k :: 0 <= k < |vs| ==> Plain(vs[k]) == Plain(ws[k])
  }

  /** Two builds that differ only in the notes. */
  predicate Alike(b: Build, c: Build) {
    b.(vstack := c.vstack) == c && SameValues(b.vstack, c.vstack)
  }

  lemma PopAlike(b: Build, c: Build, n: nat)
    requires Alike(b, c)
    ensures Alike(PopTopN(b, n), PopTopN(c, n))
  {
    PopTopNIgnoresVstack(b, c, n);
  }

  lemma DiscardAlike(b: Build, c: Build, n: nat)
    requires Alike(b, c) && n <= |b.vstack|
    ensures Alike(Discard(b, n), Discard(c, n))
  {
  }

  lemma PushAlike(b: Build, c: Build, insts: seq<Inst>, vs: seq<Value>)
    requires Alike(b, c)
    ensures Alike(PushValues(Append(b, insts), vs), PushValues(Append(c, insts), vs))
  {
  }

  lemma {:induction false} UintsAlike(b: Build, c: Build, values: seq<Word>)
    requires Alike(b, c)
    ensures Alike(PushUints(b, values), PushUints(c, values))
  {
    if values != [] {
      UintsAlike(b, c, values[1..]);
      PushAlike(PushUints(b, values[1..]), PushUints(c, values[1..]), Immediate(values[0]), [Known(values[0])]);
    }
  }

  lemma BuiltinAlike(m: Module, builtin: Builtin, b: Build, c: Build)
    requires Alike(b, c)
    ensures Alike(EmitBuiltin(m, builtin, b), EmitBuiltin(m, builtin, c))
  {
    var n := builtin.sig.inputs;
    if n <= |b.vstack| {
      DiscardAlike(b, c, n);
      PopAlike(Discard(b, n), Discard(c, n), n);
      forall k | 0 <= k < n ensures b.vstack[..n][k].Constant? == c.vstack[..n][k].Constant? {
        assert Plain(b.vstack[k]) == Plain(c.vstack[k]);
      }
      if AllConstant(b.vstack[..n]) {
        assert AllConstant(c.vstack[..n]);
        forall k | 0 <= k < n ensures ConstantsOf(b.vstack[..n])[k] == ConstantsOf(c.vstack[..n])[k] {
          assert Plain(b.vstack[k]) == Plain(c.vstack[k]);
        }
        assert ConstantsOf(b.vstack[..n]) == ConstantsOf(c.vstack[..n]);
        match m.fold(builtin, ConstantsOf(b.vstack[..n]))
        case Some(outputs) => UintsAlike(PopTopN(Discard(b, n), n), PopTopN(Discard(c, n), n), outputs);
        case None =>
      } else {
        var k :| 0 <= k < n && !b.vstack[..n][k].Constant?;
        assert !c.vstack[..n][k].Constant?;
      }
      PushAlike(Discard(b, n), Discard(c, n),
                [Inst.CallBuiltin(builtin, !(builtin.noProcess && builtin.noPanic)), Inst.CallBuiltinSig(builtin.sig)],
                Unknowns(builtin.sig.outputs));
    }
  }

  lemma AccessAlike(m: Module, b: Build, c: Build, deref: Inst, field: nat, builtin: Builtin)
    requires Alike(b, c)
    ensures Alike(EmitAccess(m, b, deref, field, builtin), EmitAccess(m, c, deref, field, builtin))
  {
    if field < TWO_64 {
      PushAlike(b, c, [deref], [Unknown]);
      var b1, c1 := PushValues(Append(b, [deref]), [Unknown]), PushValues(Append(c, [deref]), [Unknown]);
      PushAlike(b1, c1, Immediate(field), [Known(field)]);
      BuiltinAlike(m, builtin, PushUint(b1, field), PushUint(c1, field));
    }
  }

  /** The top value decides about folding, by its bits alone. */
  lemma FoldingAlike(m: Module, v: Value, w: Value, ty: Type, store: bool, sig: Signature)
    requires Plain(v) == Plain(w)
    ensures FoldAccess(m, v, ty, store) == FoldAccess(m, w, ty, store)
    ensures ConstantFunction(m, v, sig) == ConstantFunction(m, w, sig)
  {
  }

  lemma LoadAlike(m: Module, ty: Type, field: nat, b: Build, c: Build)
    requires Alike(b, c)
    ensures Alike(EmitLoad(m, ty, field, b), EmitLoad(m, ty, field, c))
  {
    if field < FieldCount(ty) && b.vstack != [] {
      var b1, c1 := Discard(b, 1), Discard(c, 1);
      assert Plain(b.vstack[0]) == Plain(c.vstack[0]);
      FoldingAlike(m, b.vstack[0], c.vstack[0], ty, false, Signature(0, 0));
      DiscardAlike(b, c, 1);
      PopAlike(b1, c1, 1);
      PushAlike(PopTopN(b1, 1), PopTopN(c1, 1), Immediate(0), [Known(0)]);
      if FoldAccess(m, b.vstack[0], ty, false).Dynamic? && (ty.OpaqueType? ==> ty.load.Some?) {
        AccessAlike(m, b1, c1, Inst.DerefConst(TypeLayout(ty)), field,
                    FieldBuiltin(if ty == ValueType then LoadValue else Other(ty.load.value), 2, 1));
      }
    }
  }

  lemma StoreAlike(m: Module, ty: Type, field: nat, b: Build, c: Build)
    requires Alike(b, c)
    ensures Alike(EmitStore(m, ty, field, b), EmitStore(m, ty, field, c))
  {
    if field < FieldCount(ty) && b.vstack != [] {
      var b1, c1 := Discard(b, 1), Discard(c, 1);
      assert Plain(b.vstack[0]) == Plain(c.vstack[0]);
      FoldingAlike(m, b.vstack[0], c.vstack[0], ty, true, Signature(0, 0));
      DiscardAlike(b, c, 1);
      PopAlike(b1, c1, 1);
      if |b.vstack| >= 2 {
        DiscardAlike(b, c, 2);
        PopAlike(Discard(b, 2), Discard(c, 2), 2);
      }
      if FoldAccess(m, b.vstack[0], ty, true).Dynamic? && (ty.OpaqueType? ==> ty.store.Some?) {
        AccessAlike(m, b1, c1, Inst.DerefMut(TypeLayout(ty)), field,
                    FieldBuiltin(if ty == ValueType then StoreValue else Other(ty.store.value), 3, 0));
      }
    }
  }

  lemma CcAlike(cc: Condition, b: Build, c: Build)
    requires Alike(b, c)
    ensures Alike(EmitCc(cc, b), EmitCc(cc, c))
  {
    if b.vstack != [] {
      assert Plain(b.vstack[0]) == Plain(c.vstack[0]);
      DiscardAlike(b, c, 1);
      PopAlike(Discard(b, 1), Discard(c, 1), 1);
    }
  }

  lemma ElementAlike(element: Layout, b: Build, c: Build)
    requires Alike(b, c)
    ensures Alike(EmitArrayElement(element, b), EmitArrayElement(element, c))
  {
    if |b.vstack| >= 2 {
      assert Plain(b.vstack[0]) == Plain(c.vstack[0]);
      DiscardAlike(b, c, 2);
      PopAlike(Discard(b, 2), Discard(c, 2), 1);
    }
  }

  lemma IndirectAlike(m: Module, sig: Signature, b: Build, c: Build)
    requires Alike(b, c)
    ensures Alike(EmitCallIndirect(m, sig, b), EmitCallIndirect(m, sig, c))
  {
    if sig.inputs < |b.vstack| {
      assert Plain(b.vstack[0]) == Plain(c.vstack[0]);
      FoldingAlike(m, b.vstack[0], c.vstack[0], ValueType, false, sig);
      DiscardAlike(b, c, sig.inputs + 1);
      PopAlike(Discard(b, sig.inputs + 1), Discard(c, sig.inputs + 1), 1);
    }
  }

  lemma MoveAlike(m: Module, op: Op, b: Build, c: Build)
    requires Alike(b, c) && !b.errored && !b.terminated && (op.Pop? || op.Pick? || op.Roll?)
    ensures Alike(Emit(m, op, b), Emit(m, op, c))
  {
    if op.Pop? && op.idx < |b.vstack| {
      var b1 := b.(vstack := b.vstack[..op.idx] + b.vstack[op.idx + 1..]);
      var c1 := c.(vstack := c.vstack[..op.idx] + c.vstack[op.idx + 1..]);
      assert Alike(b1, c1);
      PopAlike(b1, c1, 1);
    }
  }

  lemma PlainAlike(m: Module, op: Op, b: Build, c: Build)
    requires Alike(b, c) && !b.errored && !b.terminated
    requires op.Uint? || op.Null? || op.GlobalAddr? || op.LocalAddr? || op.FunctionAddr?
    ensures Alike(Emit(m, op, b), Emit(m, op, c))
  {
    hide Immediate, MakeAddress, MakeFunctionAddress, WithHigh;
  }

  lemma ReplaceAlike(b: Build, c: Build, n: nat, insts: seq<Inst>, k: nat)
    requires Alike(b, c)
    ensures |b.vstack| == |c.vstack| && Alike(Error(b), Error(c))
    ensures n <= |b.vstack| ==>
              && Alike(Append(Discard(b, n), insts), Append(Discard(c, n), insts))
              && Alike(PushValues(Append(Discard(b, n), insts), Unknowns(k)),
                       PushValues(Append(Discard(c, n), insts), Unknowns(k)))
  {
    if n <= |b.vstack| {
      DiscardAlike(b, c, n);
      PushAlike(Discard(b, n), Discard(c, n), insts, Unknowns(k));
    }
  }

  lemma UseAlike(m: Module, op: Op, b: Build, c: Build)
    requires Alike(b, c) && !b.errored && !b.terminated
    requires op.Select? || op.AggregateMember? || op.Call? || op.PanicIf? || op.Fiber?
    ensures Alike(Emit(m, op, b), Emit(m, op, c))
  {
    hide SameValues, PushValues, Discard, Append, Error, MemberOffset, FiberArguments;
    assert Unknowns(1) == [Unknown];
    match op
    case Select(count) =>
      ReplaceAlike(b, c, 0, [], 0);
      if count >= 2 { ReplaceAlike(b, c, count + 1, [Inst.Select(count - 1)], 1); }
    case AggregateMember(members, member) =>
      ReplaceAlike(b, c, 0, [], 0);
      if member < |members| && (forall k :: 0 <= k < |members| ==> members[k].alignment > 0) {
        var offset := MemberOffset(members, member);
        if 0 < offset < TWO_24 { ReplaceAlike(b, c, 1, [Inst.AggregateMember(offset)], 1); }
      }
    case Call(f) =>
      ReplaceAlike(b, c, 0, [], 0);
      if f < |m.functions| { ReplaceAlike(b, c, m.functions[f].inputs, [Inst.Call(f)], m.functions[f].outputs); }
    case PanicIf => ReplaceAlike(b, c, 2, [Inst.PanicIf], 0);
    case Fiber(kind, sig) =>
      ReplaceAlike(b, c, FiberArguments(kind, sig), [Inst.Fiber(kind, sig)], sig.outputs);
  }

  /** Any builder call leaves the same instructions, and the same stack but for the notes. */
  lemma EmitAlike(m: Module, op: Op, b: Build, c: Build)
    requires Alike(b, c)
    ensures Alike(Emit(m, op, b), Emit(m, op, c))
  {
    hide EmitCc, EmitPop, EmitPick, EmitRoll, EmitArrayElement, EmitLoad, EmitStore, EmitCallIndirect, EmitBuiltin,
      PushUint, EmitNull, EmitGlobalAddr, EmitLocalAddr, EmitFunctionAddr, EmitSelect, EmitAggregateMember,
      EmitCall, EmitPanicIf, EmitFiber;
    if !b.errored && !b.terminated {
      match op
      case Cc(cc) => CcAlike(cc, b, c);
      case Pop(_) => MoveAlike(m, op, b, c);
      case Pick(_) => MoveAlike(m, op, b, c);
      case Roll(_) => MoveAlike(m, op, b, c);
      case ArrayElement(element) => ElementAlike(element, b, c);
      case LoadField(ty, field) => LoadAlike(m, ty, field, b, c);
      case StoreField(ty, field) => StoreAlike(m, ty, field, b, c);
      case CallIndirect(sig) => IndirectAlike(m, sig, b, c);
      case CallBuiltin(builtin) => BuiltinAlike(m, builtin, b, c);
      case _ =>
        if op.Select? || op.AggregateMember? || op.Call? || op.PanicIf? || op.Fiber? {
          UseAlike(m, op, b, c);
        } else {
          PlainAlike(m, op, b, c);
        }
    }
  }

  /** And so does the end of a block. */
  lemma EndAlike(inputs: seq<U8>, outputs: U8, end: End, b: Build, c: Build)
    requires Alike(b, c)
    ensures Alike(EmitEnd(inputs, outputs, end, b).0, EmitEnd(inputs, outputs, end, c).0)
    ensures EmitEnd(inputs, outputs, end, b).1 == EmitEnd(inputs, outputs, end, c).1
  {
    if b.vstack != [] {
      assert Plain(b.vstack[0]) == Plain(c.vstack[0]);
      DiscardAlike(b, c, 1);
      PopAlike(Discard(b, 1), Discard(c, 1), 1);
    }
  }
}
