// The stack depth the builder tracks is the depth the emitted instructions have, whatever is
// folded or deleted, and no instruction reaches below the block's own values.

module Depth {
  import opened Words
  import opened Allocations
  import opened Bytecode
  import opened Layouts
  import opened Vm
  import opened Flat
  import opened Builder
  import opened Refinement

  /** How many values a handler reads from the top of the stack, and how many are there after. */
  function Consumes(m: Module, i: Inst): nat {
    match i
    case PanicIf => 2
    case Call(f) => if f < |m.functions| then m.functions[f].inputs else 0
    case CallIndirect(sig) => sig.inputs + 1
    case CallBuiltin(b, _) => b.sig.inputs
    case Fiber(kind, sig) => FiberArguments(kind, sig)
    case Push2(_) => 1
    case Push3(_) => 1
    case Cc(_) => 1
    case Pop(idx) => idx + 1
    case PopTop => 1
    case Pick(idx) => idx + 1
    case Dup => 1
    case Roll(idx) => idx + 1
    case Swap => 2
    case Select(idx) => idx + 2
    case DerefConst(_) => 1
    case DerefMut(_) => 1
    case ArrayElement(_) => 2
    case AggregateMember(_) => 1
    case StoreLocalValue(_, _) => 1
    case StoreGlobalValue(_) => 1
    case _ => 0
  }

  function Produces(m: Module, i: Inst): nat {
    match i
    case Call(f) => if f < |m.functions| then m.functions[f].outputs else 0
    case CallIndirect(sig) => sig.outputs
    case CallBuiltin(b, _) => b.sig.outputs
    case Fiber(_, sig) => sig.outputs
    case Push(_) => 1
    case PushN(_) => 1
    case Push2(_) => 1
    case Push3(_) => 1
    case GlobalAddr(_) => 1
    case FunctionAddr(_) => 1
    case LocalAddr(_) => 1
    case Cc(_) => 1
    case Pop(idx) => idx
    case Pick(idx) => idx + 2
    case Dup => 2
    case Roll(idx) => idx + 1
    case Swap => 2
    case Select(_) => 1
    case DerefConst(_) => 1
    case DerefMut(_) => 1
    case ArrayElement(_) => 1
    case AggregateMember(_) => 1
    case LoadLocalValue(_, _) => 1
    case LoadGlobalValue(_) => 1
    case _ => 0
  }

  /** The depth after a straight-line list entered at depth `d`, if no instruction reads below it,
      the depth never exceeds `limit`, and there are no jumps. */
  function DepthAfter(m: Module, insts: seq<Inst>, d: nat, limit: nat): (depth: Option<nat>)
    ensures depth.Some? ==> depth.value <= limit
  {
    if insts == [] then if d <= limit then Some(d) else None
    else
      match DepthAfter(m, insts[..|insts| - 1], d, limit)
      case None => None
      case Some(e) => DepthStep(m, insts[|insts| - 1], e, limit)
  }

  function DepthStep(m: Module, i: Inst, e: nat, limit: nat): (depth: Option<nat>)
    ensures depth.Some? ==> depth.value <= limit
  {
    if !IsControl(i) && Consumes(m, i) <= e && e - Consumes(m, i) + Produces(m, i) <= limit
    then Some(e - Consumes(m, i) + Produces(m, i)) else None
  }

  lemma DepthAppend(m: Module, insts: seq<Inst>, i: Inst, d: nat, limit: nat)
    requires DepthAfter(m, insts, d, limit).Some?
    ensures DepthAfter(m, insts + [i], d, limit) == DepthStep(m, i, DepthAfter(m, insts, d, limit).value, limit)
  {
    assert (insts + [i])[..|insts|] == insts;
  }

  lemma {:induction false} DepthWeaken(m: Module, insts: seq<Inst>, d: nat, limit: nat, limit': nat)
    requires DepthAfter(m, insts, d, limit).Some? && limit <= limit'
    ensures DepthAfter(m, insts, d, limit') == DepthAfter(m, insts, d, limit)
  {
    if insts != [] {
      DepthWeaken(m, insts[..|insts| - 1], d, limit, limit');
    }
  }

  lemma {:induction false} DepthPrefix(m: Module, insts: seq<Inst>, k: nat, d: nat, limit: nat)
    requires DepthAfter(m, insts, d, limit).Some? && k <= |insts|
    ensures DepthAfter(m, insts[..k], d, limit).Some?
    ensures k < |insts| ==>
              DepthAfter(m, insts[..k + 1], d, limit)
                  == DepthStep(m, insts[k], DepthAfter(m, insts[..k], d, limit).value, limit)
              && DepthAfter(m, insts[..k + 1], d, limit).Some?
  {
    if k == |insts| {
      assert insts[..k] == insts;
    } else {
      var init := insts[..|insts| - 1];
      if k == |init| {
        assert insts[..k + 1] == insts;
      } else {
        DepthPrefix(m, init, k, d, limit);
        assert init[..k] == insts[..k] && init[..k + 1] == insts[..k + 1];
      }
    }
  }

  /** The builder's abstract stack has the depth of the instructions emitted so far, and its
      recorded maximum bounds the depth everywhere in them. */
  predicate Balanced(m: Module, b: Build, inputs: nat) {
    DepthAfter(m, b.insts, inputs, b.max) == Some(|b.vstack|)
  }

  // ----- deletion -----

  lemma DeletedEffect(m: Module, i: Inst)
    ensures match RemovalOf(i)
            case Pushes => Produces(m, i) == Consumes(m, i) + 1
            case Rewrites => Consumes(m, i) == Produces(m, i) == 1
            case Combines => Consumes(m, i) == 2 && Produces(m, i) == 1
            case Stays => true
  {
  }

  lemma PopTopsSnoc(insts: seq<Inst>, n: nat)
    requires n > 0
    ensures insts + PopTops(n) == (insts + PopTops(n - 1)) + [Inst.PopTop]
  {
  }

  lemma PopTopDepth(m: Module, insts: seq<Inst>, d: nat, limit: nat)
    requires DepthAfter(m, insts, d, limit).Some? && DepthAfter(m, insts, d, limit).value > 0
    ensures DepthAfter(m, insts + [Inst.PopTop], d, limit) == Some(DepthAfter(m, insts, d, limit).value - 1)
  {
    DepthAppend(m, insts, Inst.PopTop, d, limit);
  }

  lemma {:induction false} PopTopsDepth(m: Module, insts: seq<Inst>, n: nat, d: nat, limit: nat)
    requires DepthAfter(m, insts, d, limit).Some? && n <= DepthAfter(m, insts, d, limit).value
    ensures DepthAfter(m, insts + PopTops(n), d, limit) == Some(DepthAfter(m, insts, d, limit).value - n)
  {
    if n == 0 {
      assert insts + PopTops(0) == insts;
    } else {
      PopTopsDepth(m, insts, n - 1, d, limit);
      PopTopDepth(m, insts + PopTops(n - 1), d, limit);
      PopTopsSnoc(insts, n);
    }
  }

  /** Deleting the last instruction changes the depth by what is then left to pop. */
  lemma DeletedDepth(m: Module, b: Build, n: nat, d: nat, limit: nat)
    requires DepthAfter(m, b.insts, d, limit).Some? && 0 < n <= DepthAfter(m, b.insts, d, limit).value
    requires LastRemoval(b) != Stays
    ensures var before := DepthAfter(m, DeleteLast(b).insts, d, limit);
            before.Some? && LeftToPop(LastRemoval(b), n) <= before.value
            && before.value - LeftToPop(LastRemoval(b), n) == DepthAfter(m, b.insts, d, limit).value - n
  {
    DeletedEffect(m, b.insts[|b.insts| - 1]);
  }

  lemma {:induction false} PopTopNDepth(m: Module, b: Build, n: nat, d: nat, limit: nat)
    requires DepthAfter(m, b.insts, d, limit).Some? && n <= DepthAfter(m, b.insts, d, limit).value
    ensures DepthAfter(m, PopTopN(b, n).insts, d, limit) == Some(DepthAfter(m, b.insts, d, limit).value - n)
    decreases |b.insts|
  {
    if n == 0 {
    } else if LastRemoval(b) == Stays {
      PopTopsDepth(m, b.insts, n, d, limit);
    } else {
      DeletedDepth(m, b, n, d, limit);
      PopTopNDepth(m, DeleteLast(b), LeftToPop(LastRemoval(b), n), d, limit);
    }
  }

  // ----- one builder call -----

  lemma PopBalanced(m: Module, b: Build, n: nat, inputs: nat)
    requires Balanced(m, b, inputs) && n <= |b.vstack|
    ensures Balanced(m, PopTopN(Discard(b, n), n), inputs)
  {
    PopTopNDepth(m, Discard(b, n), n, inputs, b.max);
  }

  /** An instruction whose effect matches what is discarded and pushed abstractly. */
  lemma AppendBalanced(m: Module, b: Build, i: Inst, n: nat, values: seq<Value>, inputs: nat)
    requires Balanced(m, b, inputs) && n <= |b.vstack| && !IsControl(i)
    requires Consumes(m, i) <= |b.vstack| && Consumes(m, i) + |values| == Produces(m, i) + n
    ensures Balanced(m, PushValues(Append(Discard(b, n), [i]), values), inputs)
  {
    var b' := PushValues(Append(Discard(b, n), [i]), values);
    DepthWeaken(m, b.insts, inputs, b.max, b'.max);
    DepthAppend(m, b.insts, i, inputs, b'.max);
  }

  /** One more part of a word, or-ed into the one on top. */
  lemma RewriteDepth(m: Module, insts: seq<Inst>, i: Inst, d: nat, limit: nat)
    requires DepthAfter(m, insts, d, limit).Some? && DepthAfter(m, insts, d, limit).value > 0 && (i.Push2? || i.Push3?)
    ensures DepthAfter(m, insts + [i], d, limit) == DepthAfter(m, insts, d, limit)
  {
    DepthAppend(m, insts, i, d, limit);
  }

  lemma UintBalanced(m: Module, b: Build, value: Word, inputs: nat)
    requires Balanced(m, b, inputs)
    ensures Balanced(m, PushUint(b, value), inputs)
  {
    var insts := Immediate(value);
    AppendBalanced(m, b, insts[0], 0, [Known(value)], inputs);
    var limit := PushUint(b, value).max;
    var first := b.insts + [insts[0]];
    if |insts| == 1 {
      assert b.insts + insts == first;
    } else {
      RewriteDepth(m, first, insts[1], inputs, limit);
      if |insts| == 2 {
        assert b.insts + insts == first + [insts[1]];
      } else {
        RewriteDepth(m, first + [insts[1]], insts[2], inputs, limit);
        assert b.insts + insts == first + [insts[1]] + [insts[2]];
      }
    }
  }

  lemma {:induction false} UintsBalanced(m: Module, b: Build, values: seq<Word>, inputs: nat)
    requires Balanced(m, b, inputs)
    ensures Balanced(m, PushUints(b, values), inputs)
  {
    if values != [] {
      UintsBalanced(m, b, values[1..], inputs);
      UintBalanced(m, PushUints(b, values[1..]), values[0], inputs);
    }
  }

  lemma AppendedBuiltinBalanced(m: Module, builtin: Builtin, b: Build, inputs: nat)
    requires Balanced(m, b, inputs) && builtin.sig.inputs <= |b.vstack|
    ensures Balanced(m, AppendBuiltin(Discard(b, builtin.sig.inputs), builtin), inputs)
  {
    var n, i := builtin.sig.inputs, Inst.CallBuiltin(builtin, !(builtin.noProcess && builtin.noPanic));
    AppendBalanced(m, b, i, n, Unknowns(builtin.sig.outputs), inputs);
    var b' := PushValues(Append(Discard(b, n), [i]), Unknowns(builtin.sig.outputs));
    DepthAppend(m, b'.insts, Inst.CallBuiltinSig(builtin.sig), inputs, b'.max);
    assert b'.insts + [Inst.CallBuiltinSig(builtin.sig)] == b.insts + [i, Inst.CallBuiltinSig(builtin.sig)];
  }

  lemma BuiltinBalanced(m: Module, builtin: Builtin, b: Build, inputs: nat)
    requires Balanced(m, b, inputs) && !b.errored && !EmitBuiltin(m, builtin, b).errored
    ensures Balanced(m, EmitBuiltin(m, builtin, b), inputs)
  {
    var n := builtin.sig.inputs;
    if AllConstant(b.vstack[..n]) && builtin.noProcess && builtin.constantFold
       && m.fold(builtin, ConstantsOf(b.vstack[..n])).Some? {
      PopBalanced(m, b, n, inputs);
      UintsBalanced(m, PopTopN(Discard(b, n), n), m.fold(builtin, ConstantsOf(b.vstack[..n])).value, inputs);
    } else {
      AppendedBuiltinBalanced(m, builtin, b, inputs);
    }
  }

  lemma AccessBalanced(m: Module, b: Build, deref: Inst, field: nat, builtin: Builtin, inputs: nat)
    requires Balanced(m, b, inputs) && !b.errored && b.vstack != [] && (deref.DerefConst? || deref.DerefMut?)
    requires !EmitAccess(m, Discard(b, 1), deref, field, builtin).errored
    ensures Balanced(m, EmitAccess(m, Discard(b, 1), deref, field, builtin), inputs)
  {
    AppendBalanced(m, b, deref, 1, [Unknown], inputs);
    var b' := PushValues(Append(Discard(b, 1), [deref]), [Unknown]);
    UintBalanced(m, b', field, inputs);
    BuiltinBalanced(m, builtin, PushUint(b', field), inputs);
  }

  lemma LoadBalanced(m: Module, ty: Type, field: nat, b: Build, inputs: nat)
    requires Balanced(m, b, inputs) && !b.errored && !EmitLoad(m, ty, field, b).errored
    ensures Balanced(m, EmitLoad(m, ty, field, b), inputs)
  {
    PopBalanced(m, b, 1, inputs);
    var popped := PopTopN(Discard(b, 1), 1);
    assert Discard(popped, 0) == popped;
    match FoldAccess(m, b.vstack[0], ty, false)
    case ToLocal(l) =>
      AppendBalanced(m, popped, Inst.LoadLocalValue(m.locals[l].index, m.locals[l].offset), 0, [Unknown], inputs);
    case ToGlobal(g) => AppendBalanced(m, popped, Inst.LoadGlobalValue(g), 0, [Unknown], inputs);
    case Dynamic =>
      if ty.OpaqueType? && ty.layout.size == 0 && ty.load == None {
        UintBalanced(m, popped, 0, inputs);
      } else {
        AccessBalanced(m, b, Inst.DerefConst(TypeLayout(ty)), field,
                       FieldBuiltin(if ty == ValueType then LoadValue else Other(ty.load.value), 2, 1), inputs);
      }
  }

  lemma StoreBalanced(m: Module, ty: Type, field: nat, b: Build, inputs: nat)
    requires Balanced(m, b, inputs) && !b.errored && !EmitStore(m, ty, field, b).errored
    ensures Balanced(m, EmitStore(m, ty, field, b), inputs)
  {
    PopBalanced(m, b, 1, inputs);
    var popped := PopTopN(Discard(b, 1), 1);
    match FoldAccess(m, b.vstack[0], ty, true)
    case ToLocal(l) =>
      var i := Inst.StoreLocalValue(m.locals[l].index, m.locals[l].offset);
      AppendBalanced(m, popped, i, 1, [], inputs);
      assert [] + popped.vstack[1..] == popped.vstack[1..];
    case ToGlobal(g) =>
      AppendBalanced(m, popped, Inst.StoreGlobalValue(g), 1, [], inputs);
      assert [] + popped.vstack[1..] == popped.vstack[1..];
    case Dynamic =>
      if ty.OpaqueType? && ty.layout.size == 0 && ty.store == None {
        PopBalanced(m, b, 2, inputs);
      } else {
        AccessBalanced(m, b, Inst.DerefMut(TypeLayout(ty)), field,
                       FieldBuiltin(if ty == ValueType then StoreValue else Other(ty.store.value), 3, 0), inputs);
      }
  }

  /** Popping `k` of `n` values discards the rest of them only abstractly. */
  lemma PopThenDiscard(m: Module, b: Build, n: nat, inputs: nat)
    requires Balanced(m, b, inputs) && 1 <= n <= |b.vstack|
    ensures Balanced(m, PopTopN(Discard(b, 1), 1), inputs)
    ensures Discard(PopTopN(Discard(b, 1), 1), n - 1) == PopTopN(Discard(b, n), 1)
    ensures |PopTopN(Discard(b, 1), 1).vstack| == |b.vstack| - 1
  {
    PopBalanced(m, b, 1, inputs);
    PopTopNIgnoresVstack(Discard(b, 1), Discard(b, n), 1);
  }

  lemma ElementBalanced(m: Module, element: Layout, b: Build, inputs: nat)
    requires Balanced(m, b, inputs) && !b.errored && !EmitArrayElement(element, b).errored
    ensures Balanced(m, EmitArrayElement(element, b), inputs)
  {
    var multiple := RoundUp(element.size, element.alignment);
    if b.vstack[0].Constant? {
      PopThenDiscard(m, b, 2, inputs);
      OffsetBalanced(m, PopTopN(Discard(b, 1), 1), Signed(b.vstack[0].w) * multiple, inputs);
    } else {
      AppendBalanced(m, b, Inst.ArrayElement(multiple), 2, [Unknown], inputs);
    }
  }

  lemma OffsetBalanced(m: Module, b: Build, offset: int, inputs: nat)
    requires Balanced(m, b, inputs) && b.vstack != [] && offset < TWO_24
    ensures Balanced(m, PushValues(Append(Discard(b, 1), if offset > 0 then [Inst.AggregateMember(offset)] else []),
                                   [Unknown]),
                     inputs)
  {
    if offset > 0 {
      AppendBalanced(m, b, Inst.AggregateMember(offset), 1, [Unknown], inputs);
    } else {
      assert b.insts + [] == b.insts;
      DepthWeaken(m, b.insts, inputs, b.max, PushValues(Append(Discard(b, 1), []), [Unknown]).max);
    }
  }

  /** Function `f`, called as one of signature `sig` with `n` values to take its arguments from, finds
      them there and leaves as many as that signature would. */
  predicate KeepsCounts(m: Module, f: nat, sig: Signature, n: int)
    requires f < |m.functions|
  {
    m.functions[f].inputs <= n && m.functions[f].outputs - m.functions[f].inputs == sig.outputs - sig.inputs
  }

  /** A constant address given to an indirect call keeps the counts of the signature it claims. */
  predicate Genuine(m: Module, op: Op, b: Build) {
    op.CallIndirect? && !b.terminated && b.vstack != [] && ConstantFunction(m, b.vstack[0], op.sig).Some? ==>
      KeepsCounts(m, ConstantFunction(m, b.vstack[0], op.sig).value, op.sig, |b.vstack| - 1)
  }

  /** The depth after an indirect call that was made direct, which is a call of the function itself. */
  lemma FoldedIndirectDepth(m: Module, sig: Signature, b: Build, inputs: nat, f: nat)
    requires Balanced(m, b, inputs) && sig.inputs < |b.vstack| && f < |m.functions|
    requires ConstantFunction(m, b.vstack[0], sig) == Some(f)
    ensures Balanced(m, EmitCallIndirect(m, sig, b), inputs) <==> KeepsCounts(m, f, sig, |b.vstack| - 1)
  {
    hide PopTopN, DepthAfter, FunctionIndex, FunctionInputs, FunctionOutputs, ConstantFunction;
    var popped := PopTopN(Discard(b, 1), 1);
    var b' := EmitCallIndirect(m, sig, b);
    PopBalanced(m, b, 1, inputs);
    PopTopNIgnoresVstack(Discard(b, 1), Discard(b, sig.inputs + 1), 1);
    assert b'.insts == popped.insts + [Inst.Call(f)];
    DepthWeaken(m, popped.insts, inputs, b.max, b'.max);
    DepthAppend(m, popped.insts, Inst.Call(f), inputs, b'.max);
    assert |b'.vstack| == |b.vstack| - sig.inputs - 1 + sig.outputs;
    assert DepthAfter(m, b'.insts, inputs, b'.max) == DepthStep(m, Inst.Call(f), |b.vstack| - 1, b'.max);
  }

  /** An indirect call keeps the abstract depth equal to the real one if and only if it is genuine. */
  lemma IndirectBalanced(m: Module, sig: Signature, b: Build, inputs: nat)
    requires Balanced(m, b, inputs) && !b.errored && !b.terminated && sig.inputs < |b.vstack|
    ensures Balanced(m, EmitCallIndirect(m, sig, b), inputs) <==> Genuine(m, Op.CallIndirect(sig), b)
  {
    match ConstantFunction(m, b.vstack[0], sig)
    case Some(f) => FoldedIndirectDepth(m, sig, b, inputs, f);
    case None => AppendBalanced(m, b, Inst.CallIndirect(sig), sig.inputs + 1, Unknowns(sig.outputs), inputs);
  }

  lemma ConstantBalanced(m: Module, op: Op, b: Build, inputs: nat)
    requires op.Uint? || op.Null? || op.GlobalAddr? || op.LocalAddr? || op.FunctionAddr?
    requires Balanced(m, b, inputs) && !b.terminated && !b.errored && !Emit(m, op, b).errored
    ensures Balanced(m, Emit(m, op, b), inputs)
  {
    assert Discard(b, 0) == b;
    match op
    case Uint(value) => UintBalanced(m, b, value, inputs);
    case Null => AppendBalanced(m, b, Inst.PushN(0), 0, [Constant(0, AllOnes)], inputs);
    case GlobalAddr(g) => AppendBalanced(m, b, Inst.GlobalAddr(g), 0, [Known(MakeAddress(g, 0, 0))], inputs);
    case LocalAddr(l) =>
      var b' := b.(addrCount := b.addrCount + 1);
      assert Discard(b', 0) == b';
      AppendBalanced(m, b', Inst.LocalAddr(m.locals[l].index), 0, [Value.LocalAddress(l)], inputs);
    case FunctionAddr(f, high) =>
      AppendBalanced(m, b, Inst.FunctionAddr(f), 0, [Constant(WithHigh(AddressOfFunction(m, f), high), Lower)], inputs);
  }

  lemma PickBalanced(m: Module, idx: U16, b: Build, inputs: nat)
    requires Balanced(m, b, inputs) && idx < |b.vstack|
    ensures Balanced(m, EmitPick(idx, b), inputs)
  {
    assert Discard(b, 0) == b;
    AppendBalanced(m, b, if idx == 0 then Inst.Dup else Inst.Pick(idx), 0, [b.vstack[idx]], inputs);
  }

  lemma PopOpBalanced(m: Module, idx: U16, b: Build, inputs: nat)
    requires Balanced(m, b, inputs) && idx < |b.vstack|
    ensures Balanced(m, EmitPop(idx, b), inputs)
  {
    if idx == 0 {
      PopBalanced(m, b, 1, inputs);
      assert b.vstack[..0] + b.vstack[1..] == b.vstack[1..];
    } else {
      DepthAppend(m, b.insts, Inst.Pop(idx), inputs, b.max);
    }
  }

  /** An instruction that keeps the depth and needs no more values than there are. */
  lemma SameDepth(m: Module, insts: seq<Inst>, i: Inst, d: nat, limit: nat)
    requires DepthAfter(m, insts, d, limit).Some? && !IsControl(i)
    requires Consumes(m, i) == Produces(m, i) <= DepthAfter(m, insts, d, limit).value
    ensures DepthAfter(m, insts + [i], d, limit) == DepthAfter(m, insts, d, limit)
  {
    DepthAppend(m, insts, i, d, limit);
  }

  lemma RollBalanced(m: Module, idx: U16, b: Build, inputs: nat)
    requires Balanced(m, b, inputs) && idx < |b.vstack|
    ensures Balanced(m, EmitRoll(idx, b), inputs)
  {
    if idx == 0 {
      assert b.insts + [] == b.insts;
    } else {
      SameDepth(m, b.insts, RollCode(idx)[0], inputs, b.max);
      assert RollCode(idx) == [RollCode(idx)[0]];
    }
  }

  lemma CcBalanced(m: Module, cc: Condition, b: Build, inputs: nat)
    requires Balanced(m, b, inputs) && b.vstack != []
    ensures Balanced(m, EmitCc(cc, b), inputs)
  {
    if b.vstack[0].Constant? {
      PopBalanced(m, b, 1, inputs);
      var value := Truth(Holds(cc, Signed(b.vstack[0].w)));
      var popped := PopTopN(Discard(b, 1), 1);
      assert Discard(popped, 0) == popped;
      AppendBalanced(m, popped, Inst.Push(value), 0, [Known(value)], inputs);
    } else {
      AppendBalanced(m, b, Inst.Cc(cc), 1, [Unknown], inputs);
    }
  }

  lemma SelectBalanced(m: Module, count: U16, b: Build, inputs: nat)
    requires Balanced(m, b, inputs) && !b.errored && !EmitSelect(count, b).errored
    ensures Balanced(m, EmitSelect(count, b), inputs)
  {
    AppendBalanced(m, b, Inst.Select(count - 1), count + 1, [Unknown], inputs);
  }

  lemma MemberBalanced(m: Module, members: seq<Layout>, member: nat, b: Build, inputs: nat)
    requires Balanced(m, b, inputs) && !b.errored && !EmitAggregateMember(members, member, b).errored
    ensures Balanced(m, EmitAggregateMember(members, member, b), inputs)
  {
    if MemberOffset(members, member) > 0 {
      AppendBalanced(m, b, Inst.AggregateMember(MemberOffset(members, member)), 1, [Unknown], inputs);
    }
  }

  lemma CallBalanced(m: Module, f: nat, b: Build, inputs: nat)
    requires Balanced(m, b, inputs) && !b.errored && !EmitCall(m, f, b).errored
    ensures Balanced(m, EmitCall(m, f, b), inputs)
  {
    AppendBalanced(m, b, Inst.Call(f), m.functions[f].inputs, Unknowns(m.functions[f].outputs), inputs);
  }

  lemma PanicIfBalanced(m: Module, b: Build, inputs: nat)
    requires Balanced(m, b, inputs) && !b.errored && !EmitPanicIf(b).errored
    ensures Balanced(m, EmitPanicIf(b), inputs)
  {
    AppendBalanced(m, b, Inst.PanicIf, 2, [], inputs);
    assert [] + b.vstack[2..] == b.vstack[2..];
  }

  lemma FiberBalanced(m: Module, kind: FiberKind, sig: Signature, b: Build, inputs: nat)
    requires Balanced(m, b, inputs) && !b.errored && !EmitFiber(kind, sig, b).errored
    ensures Balanced(m, EmitFiber(kind, sig, b), inputs)
  {
    AppendBalanced(m, b, Inst.Fiber(kind, sig), FiberArguments(kind, sig), Unknowns(sig.outputs), inputs);
  }

  /** One builder call keeps the abstract depth equal to the real one, if and only if it is not an
      indirect call of a constant address that does not keep the counts it claims. */
  lemma EmitBalanced(m: Module, op: Op, b: Build, inputs: nat)
    requires Balanced(m, b, inputs) && !b.errored && !Emit(m, op, b).errored
    ensures Balanced(m, Emit(m, op, b), inputs) <==> Genuine(m, op, b)
  {
    if !b.terminated {
      match op
      case Pop(idx) => PopOpBalanced(m, idx, b, inputs);
      case Pick(idx) => PickBalanced(m, idx, b, inputs);
      case Roll(idx) => RollBalanced(m, idx, b, inputs);
      case Cc(cc) => CcBalanced(m, cc, b, inputs);
      case Select(count) => SelectBalanced(m, count, b, inputs);
      case ArrayElement(element) => ElementBalanced(m, element, b, inputs);
      case AggregateMember(members, member) => MemberBalanced(m, members, member, b, inputs);
      case LoadField(ty, field) => LoadBalanced(m, ty, field, b, inputs);
      case StoreField(ty, field) => StoreBalanced(m, ty, field, b, inputs);
      case Call(f) => CallBalanced(m, f, b, inputs);
      case CallIndirect(sig) => IndirectBalanced(m, sig, b, inputs);
      case CallBuiltin(builtin) => BuiltinBalanced(m, builtin, b, inputs);
      case PanicIf => PanicIfBalanced(m, b, inputs);
      case Fiber(kind, sig) => FiberBalanced(m, kind, sig, b, inputs);
      case _ => ConstantBalanced(m, op, b, inputs);
    }
  }

  predicate GenuineAll(m: Module, ops: seq<Op>, b: Build) {
    ops == []
    || (GenuineAll(m, ops[..|ops| - 1], b) && Genuine(m, ops[|ops| - 1], EmitAll(m, ops[..|ops| - 1], b)))
  }

  /** A whole block: the tracked depth is the depth of the emitted code, however it was optimised. */
  lemma {:induction false} BlockBalanced(m: Module, ops: seq<Op>, inputs: nat, count: int)
    requires !EmitAll(m, ops, Fresh(inputs, count)).errored && GenuineAll(m, ops, Fresh(inputs, count))
    ensures Balanced(m, EmitAll(m, ops, Fresh(inputs, count)), inputs)
  {
    var b0 := Fresh(inputs, count);
    if ops != [] {
      var before := EmitAll(m, ops[..|ops| - 1], b0);
      if before.errored {
        ErrorsStay(m, ops[|ops| - 1], before);
      }
      BlockBalanced(m, ops[..|ops| - 1], inputs, count);
      EmitBalanced(m, ops[|ops| - 1], before, inputs);
    }
  }

  // ----- a function called with fewer arguments than it takes -----

  function ForgedCall(): seq<Op> {
    [Op.Uint(0), Op.CallIndirect(Signature(0, 0))]
  }

  lemma ZeroNamesFirst()
    ensures FunctionIndex(0) == 0 && FunctionInputs(0) == 0 && FunctionOutputs(0) == 0
    ensures Immediate(0) == [Inst.Push(0)]
  {
  }

  /** A constant that one instruction pushed, called as a function of nothing. */
  lemma ForgedCode(m: Module, w: Word, i: Inst, f: nat)
    requires Immediate(w) == [i] && RemovalOf(i) == Pushes && ConstantFunction(m, Known(w), Signature(0, 0)) == Some(f)
    ensures var b := EmitCallIndirect(m, Signature(0, 0), PushUint(Fresh(0, 0), w));
            !b.errored && b.insts == [Inst.Call(f)] && b.vstack == []
  {
    var b := PushUint(Fresh(0, 0), w);
    assert b.insts == [i] && b.vstack == [Known(w)];
    var popped := Discard(b, 1);
    assert PopTopN(popped, 1) == PopTopN(DeleteLast(popped), 0);
    assert DeleteLast(popped).insts == [];
    assert [] + [Inst.Call(f)] == [Inst.Call(f)];
    assert Unknowns(0) == [];
  }

  /** The address of function 0, forged to claim that it takes and gives nothing, of a function that
      takes two arguments: the builder sees no error, and its code reads below the stack. */
  lemma ForgedCallUnderflows(m: Module, limit: nat)
    requires m.functions == [Signature(2, 0)]
    ensures var b := EmitAll(m, ForgedCall(), Fresh(0, 0));
            && !b.errored && b.insts == [Inst.Call(0)] && b.vstack == []
            && DepthAfter(m, b.insts, 0, limit) == None
  {
    hide PopTopN, Immediate, FunctionIndex, FunctionInputs, FunctionOutputs, EmitCallIndirect;
    var op1, op2 := Op.Uint(0), Op.CallIndirect(Signature(0, 0));
    assert ForgedCall()[..1] == [op1] && [op1][..0] == [];
    assert EmitAll(m, [], Fresh(0, 0)) == Fresh(0, 0);
    assert EmitAll(m, [op1], Fresh(0, 0)) == PushUint(Fresh(0, 0), 0);
    assert EmitAll(m, ForgedCall(), Fresh(0, 0)) == Emit(m, op2, PushUint(Fresh(0, 0), 0));
    ZeroNamesFirst();
    ForgedCode(m, 0, Inst.Push(0), 0);
    assert [Inst.Call(0)][..0] == [];
    assert DepthAfter(m, [], 0, limit) == Some(0);
  }
}
