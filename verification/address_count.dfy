// The builder's count of address-taking instructions, which decides whether a function allocates
// its locals: it stays the number of `local_addr` instructions in all blocks; the counter holds it modulo 2^16.

module AddressCount {
  import opened Words
  import opened Allocations
  import opened Bytecode
  import opened Layouts
  import opened Builder
  import opened Compiler
  import opened Refinement

  function Addrs(insts: seq<Inst>): nat {
    if insts == [] then 0
    else Addrs(insts[..|insts| - 1]) + if insts[|insts| - 1].LocalAddr? then 1 else 0
  }

  /** The count is off by `others`, the number of such instructions in the other blocks. */
  predicate Counted(b: Build, others: int) {
    b.addrCount == others + Addrs(b.insts)
  }

  predicate NoAddrs(insts: seq<Inst>) {
    forall k :: 0 <= k < |insts| ==> !insts[k].LocalAddr?
  }

  lemma {:induction false} AppendNoAddrs(insts: seq<Inst>, more: seq<Inst>)
    requires NoAddrs(more)
    ensures Addrs(insts + more) == Addrs(insts)
  {
    if more == [] {
      assert insts + more == insts;
    } else {
      var init := more[..|more| - 1];
      AppendNoAddrs(insts, init);
      assert (insts + more)[..|insts + more| - 1] == insts + init;
    }
  }

  lemma AppendCounted(b: Build, more: seq<Inst>, others: int)
    requires Counted(b, others) && NoAddrs(more)
    ensures Counted(Append(b, more), others)
  {
    AppendNoAddrs(b.insts, more);
  }

  lemma {:induction false} PopTopNCounted(b: Build, n: nat, others: int)
    requires Counted(b, others)
    ensures Counted(PopTopN(b, n), others)
    decreases |b.insts|
  {
    if n > 0 {
      if LastRemoval(b) == Stays {
        AppendCounted(b, PopTops(n), others);
      } else {
        PopTopNCounted(DeleteLast(b), LeftToPop(LastRemoval(b), n), others);
      }
    }
  }

  lemma UintCounted(b: Build, value: Word, others: int)
    requires Counted(b, others)
    ensures Counted(PushUint(b, value), others)
  {
    AppendCounted(b, Immediate(value), others);
  }

  lemma {:induction false} UintsCounted(b: Build, values: seq<Word>, others: int)
    requires Counted(b, others)
    ensures Counted(PushUints(b, values), others)
  {
    if values != [] {
      UintsCounted(b, values[1..], others);
      UintCounted(PushUints(b, values[1..]), values[0], others);
    }
  }

  lemma BuiltinCounted(m: Module, builtin: Builtin, b: Build, others: int)
    requires Counted(b, others) && !b.errored && !EmitBuiltin(m, builtin, b).errored
    ensures Counted(EmitBuiltin(m, builtin, b), others)
  {
    var n := builtin.sig.inputs;
    if ValidBuiltin(builtin) && n <= |b.vstack| {
      var popped := Discard(b, n);
      PopTopNCounted(popped, n, others);
      AppendCounted(popped, [Inst.CallBuiltin(builtin, !(builtin.noProcess && builtin.noPanic)),
                             Inst.CallBuiltinSig(builtin.sig)], others);
      if AllConstant(b.vstack[..n]) && m.fold(builtin, ConstantsOf(b.vstack[..n])).Some? {
        UintsCounted(PopTopN(popped, n), m.fold(builtin, ConstantsOf(b.vstack[..n])).value, others);
      }
    }
  }

  lemma AccessCounted(m: Module, b: Build, deref: Inst, field: nat, builtin: Builtin, others: int)
    requires Counted(b, others) && !b.errored && !deref.LocalAddr? && !EmitAccess(m, b, deref, field, builtin).errored
    ensures Counted(EmitAccess(m, b, deref, field, builtin), others)
  {
    if field < TWO_64 {
      AppendCounted(b, [deref], others);
      UintCounted(PushValues(Append(b, [deref]), [Unknown]), field, others);
      BuiltinCounted(m, builtin, PushUint(PushValues(Append(b, [deref]), [Unknown]), field), others);
    }
  }

  /** Popping a value and going on with one instruction that takes no address. */
  lemma PoppedThen(b: Build, k: nat, n: nat, i: Inst, others: int)
    requires Counted(b, others) && k <= |b.vstack| && !i.LocalAddr?
    ensures Counted(PopTopN(Discard(b, k), n), others)
    ensures Counted(Append(PopTopN(Discard(b, k), n), [i]), others)
    ensures Counted(Append(Discard(b, k), [i]), others)
  {
    PopTopNCounted(Discard(b, k), n, others);
    AppendCounted(PopTopN(Discard(b, k), n), [i], others);
    AppendCounted(Discard(b, k), [i], others);
  }

  /** An access folded to one instruction, or dropped. */
  lemma FoldedCounted(b: Build, i: Inst, others: int)
    requires Counted(b, others) && b.vstack != [] && !i.LocalAddr?
    ensures Counted(Append(PopTopN(Discard(b, 1), 1), [i]), others)
  {
    PoppedThen(b, 1, 1, i, others);
  }

  lemma LoadCounted(m: Module, ty: Type, field: nat, b: Build, others: int)
    requires Counted(b, others) && !b.errored && !EmitLoad(m, ty, field, b).errored
    ensures Counted(EmitLoad(m, ty, field, b), others)
  {
    if b.vstack != [] {
      match FoldAccess(m, b.vstack[0], ty, false)
      case ToLocal(l) =>
        if m.locals[l].index < 0x100 {
          FoldedCounted(b, Inst.LoadLocalValue(m.locals[l].index, m.locals[l].offset), others);
        }
      case ToGlobal(g) =>
        if g < TWO_24 {
          FoldedCounted(b, Inst.LoadGlobalValue(g), others);
        }
      case Dynamic =>
        PopTopNCounted(Discard(b, 1), 1, others);
        if ty.OpaqueType? && ty.layout.size == 0 && ty.load == None {
          UintCounted(PopTopN(Discard(b, 1), 1), 0, others);
        } else if ty == ValueType || ty.load.Some? {
          AccessCounted(m, Discard(b, 1), Inst.DerefConst(TypeLayout(ty)), field,
                        FieldBuiltin(if ty == ValueType then LoadValue else Other(ty.load.value), 2, 1), others);
        }
    }
  }

  lemma StoreCounted(m: Module, ty: Type, field: nat, b: Build, others: int)
    requires Counted(b, others) && !b.errored && !EmitStore(m, ty, field, b).errored
    ensures Counted(EmitStore(m, ty, field, b), others)
  {
    if b.vstack != [] {
      match FoldAccess(m, b.vstack[0], ty, true)
      case ToLocal(l) =>
        if m.locals[l].index < 0x100 {
          FoldedCounted(b, Inst.StoreLocalValue(m.locals[l].index, m.locals[l].offset), others);
        }
      case ToGlobal(g) =>
        if g < TWO_24 {
          FoldedCounted(b, Inst.StoreGlobalValue(g), others);
        }
      case Dynamic =>
        if ty.OpaqueType? && ty.layout.size == 0 && ty.store == None {
          PopTopNCounted(Discard(b, 2), 2, others);
        } else if ty == ValueType || ty.store.Some? {
          AccessCounted(m, Discard(b, 1), Inst.DerefMut(TypeLayout(ty)), field,
                        FieldBuiltin(if ty == ValueType then StoreValue else Other(ty.store.value), 3, 0), others);
        }
    }
  }

  lemma ElementCounted(element: Layout, b: Build, others: int)
    requires Counted(b, others) && !EmitArrayElement(element, b).errored
    ensures Counted(EmitArrayElement(element, b), others)
  {
    hide RoundUp, Signed, PopTopN;
    if |b.vstack| >= 2 && element.alignment > 0 {
      var multiple := RoundUp(element.size, element.alignment);
      if b.vstack[0].Constant? {
        PopTopNCounted(Discard(b, 2), 1, others);
        var offset := Signed(b.vstack[0].w) * multiple;
        var insts := if 0 < offset < TWO_24 then [Inst.AggregateMember(offset)] else [];
        AppendCounted(PopTopN(Discard(b, 2), 1), insts, others);
      } else if multiple < TWO_24 {
        AppendCounted(Discard(b, 2), [Inst.ArrayElement(multiple)], others);
      }
    }
  }

  lemma LocalAddrCounted(m: Module, l: nat, b: Build, others: int)
    requires Counted(b, others) && l < |m.locals| && m.locals[l].index < 0x100
    ensures Counted(EmitLocalAddr(m, l, b), others)
  {
    var i := Inst.LocalAddr(m.locals[l].index);
    assert (b.insts + [i])[..|b.insts|] == b.insts;
  }

  lemma IndirectCounted(m: Module, sig: Signature, b: Build, others: int)
    requires Counted(b, others) && sig.inputs < |b.vstack|
    ensures Counted(EmitCallIndirect(m, sig, b), others)
  {
    match ConstantFunction(m, b.vstack[0], sig)
    case Some(f) => PoppedThen(b, sig.inputs + 1, 1, Inst.Call(f), others);
    case None => PoppedThen(b, sig.inputs + 1, 1, Inst.CallIndirect(sig), others);
  }

  lemma CcCounted(cc: Condition, b: Build, others: int)
    requires Counted(b, others) && b.vstack != []
    ensures Counted(EmitCc(cc, b), others)
  {
    var w: Word := if b.vstack[0].Constant? then b.vstack[0].w else 0;
    PoppedThen(b, 1, 1, Inst.Cc(cc), others);
    PoppedThen(b, 1, 1, Inst.Push(Truth(Holds(cc, Signed(w)))), others);
  }

  lemma PopCounted(idx: U16, b: Build, others: int)
    requires Counted(b, others) && idx < |b.vstack|
    ensures Counted(EmitPop(idx, b), others)
  {
    var popped := b.(vstack := b.vstack[..idx] + b.vstack[idx + 1..]);
    PopTopNCounted(popped, 1, others);
    AppendCounted(popped, [Inst.Pop(idx)], others);
  }

  lemma AppendedCounted(m: Module, op: Op, b: Build, others: int)
    requires op.Uint? || op.Null? || op.GlobalAddr? || op.FunctionAddr? || op.Pick? || op.Roll?
    requires Counted(b, others) && !b.terminated && !b.errored && !Emit(m, op, b).errored
    ensures Counted(Emit(m, op, b), others)
  {
    hide Immediate, MakeAddress, WithHigh, MakeFunctionAddress;
    match op
    case Uint(value) => UintCounted(b, value, others);
    case Null => AppendCounted(b, [Inst.PushN(0)], others);
    case GlobalAddr(g) => AppendCounted(b, [Inst.GlobalAddr(g)], others);
    case FunctionAddr(f, _) => AppendCounted(b, [Inst.FunctionAddr(f)], others);
    case Pick(idx) => AppendCounted(b, [if idx == 0 then Inst.Dup else Inst.Pick(idx)], others);
    case Roll(idx) => AppendCounted(b.(vstack := Rolled(b.vstack, idx)), RollCode(idx), others);
  }

  lemma ConsumingCounted(m: Module, op: Op, b: Build, others: int)
    requires op.Select? || op.AggregateMember? || op.Call? || op.PanicIf? || op.Fiber?
    requires Counted(b, others) && !b.terminated && !b.errored && !Emit(m, op, b).errored
    ensures Counted(Emit(m, op, b), others)
  {
    match op
    case Select(count) =>
      assert count >= 2;
      PoppedThen(b, count + 1, 0, Inst.Select(count - 1), others);
    case AggregateMember(members, member) =>
      if MemberOffset(members, member) > 0 {
        PoppedThen(b, 1, 0, Inst.AggregateMember(MemberOffset(members, member)), others);
      }
    case Call(f) => PoppedThen(b, m.functions[f].inputs, 0, Inst.Call(f), others);
    case PanicIf => PoppedThen(b, 2, 0, Inst.PanicIf, others);
    case Fiber(kind, sig) => PoppedThen(b, FiberArguments(kind, sig), 0, Inst.Fiber(kind, sig), others);
  }

  /** Every builder call keeps the count exact, also when it deletes instructions. */
  lemma EmitCounted(m: Module, op: Op, b: Build, others: int)
    requires Counted(b, others) && !Emit(m, op, b).errored
    ensures Counted(Emit(m, op, b), others)
  {
    if !b.terminated && !b.errored {
      match op
      case LocalAddr(l) => LocalAddrCounted(m, l, b, others);
      case Cc(cc) => CcCounted(cc, b, others);
      case Pop(idx) => PopCounted(idx, b, others);
      case ArrayElement(element) => ElementCounted(element, b, others);
      case LoadField(ty, field) => LoadCounted(m, ty, field, b, others);
      case StoreField(ty, field) => StoreCounted(m, ty, field, b, others);
      case CallIndirect(sig) => IndirectCounted(m, sig, b, others);
      case CallBuiltin(builtin) => BuiltinCounted(m, builtin, b, others);
      case _ =>
        if op.Select? || op.AggregateMember? || op.Call? || op.PanicIf? || op.Fiber? {
          ConsumingCounted(m, op, b, others);
        } else {
          AppendedCounted(m, op, b, others);
        }
    }
  }

  // ----- all blocks of a function -----

  /** A builder that may switch between its blocks at any time; they share one count. */
  datatype Session = Session(builds: seq<Build>, count: int)

  /** A call on one of the blocks; the last one ends it. */
  datatype Action = Make(block: nat, op: Op) | Finish(block: nat, inputs: seq<U8>, outputs: U8, end: End)

  function Total(builds: seq<Build>): nat {
    if builds == [] then 0 else Total(builds[..|builds| - 1]) + Addrs(builds[|builds| - 1].insts)
  }

  lemma {:induction false} TotalUpdate(builds: seq<Build>, i: nat, b: Build)
    requires i < |builds|
    ensures Total(builds) >= Addrs(builds[i].insts)
    ensures Total(builds[i := b]) == Total(builds) - Addrs(builds[i].insts) + Addrs(b.insts)
  {
    var last := |builds| - 1;
    if i == last {
      assert builds[i := b][..last] == builds[..last];
    } else {
      assert builds[i := b][..last] == builds[..last][i := b];
      TotalUpdate(builds[..last], i, b);
    }
  }

  function PerformOn(m: Module, c: Action, b: Build): Build {
    match c
    case Make(_, op) => Emit(m, op, b)
    case Finish(_, inputs, outputs, end) => EmitEnd(inputs, outputs, end, b).0
  }

  function Perform(m: Module, s: Session, c: Action): Session
    requires c.block < |s.builds|
  {
    var b := PerformOn(m, c, s.builds[c.block].(addrCount := s.count));
    Session(s.builds[c.block := b], b.addrCount)
  }

  function PerformAll(m: Module, s: Session, calls: seq<Action>): (r: Session)
    requires forall k :: 0 <= k < |calls| ==> calls[k].block < |s.builds|
    ensures |r.builds| == |s.builds|
  {
    if calls == [] then s else Perform(m, PerformAll(m, s, calls[..|calls| - 1]), calls[|calls| - 1])
  }

  predicate Healthy(s: Session) { forall k :: 0 <= k < |s.builds| ==> !s.builds[k].errored }

  /** So does the end of a block, which may delete the instructions of the value it branches on. */
  lemma EndCounted(inputs: seq<U8>, outputs: U8, end: End, b: Build, others: int)
    requires Counted(b, others) && !EmitEnd(inputs, outputs, end, b).0.errored
    ensures Counted(EmitEnd(inputs, outputs, end, b).0, others)
  {
    if end.Branch? && !b.errored && !b.terminated {
      PopTopNCounted(Discard(b, 1), 1, others);
    }
  }

  lemma PerformCounted(m: Module, s: Session, c: Action)
    requires c.block < |s.builds| && Healthy(Perform(m, s, c)) && s.count == Total(s.builds)
    ensures Perform(m, s, c).count == Total(Perform(m, s, c).builds)
  {
    var b := s.builds[c.block].(addrCount := s.count);
    var after := PerformOn(m, c, b);
    assert Perform(m, s, c).builds[c.block] == after;
    TotalUpdate(s.builds, c.block, after);
    match c
    case Make(_, op) => EmitCounted(m, op, b, Total(s.builds) - Addrs(b.insts));
    case Finish(_, inputs, outputs, end) => EndCounted(inputs, outputs, end, b, Total(s.builds) - Addrs(b.insts));
  }

  lemma ErrorRemains(m: Module, s: Session, c: Action)
    requires c.block < |s.builds| && Healthy(Perform(m, s, c))
    ensures Healthy(s)
  {
    var after := Perform(m, s, c);
    forall k | 0 <= k < |s.builds| ensures !s.builds[k].errored {
      assert !after.builds[k].errored;
    }
  }

  /** Whatever the order in which a function's blocks are built, the shared count is the number of
      `local_addr` instructions in all of them. */
  lemma {:induction false} CountIsTotal(m: Module, s: Session, calls: seq<Action>)
    requires s.count == Total(s.builds)
    requires forall k :: 0 <= k < |calls| ==> calls[k].block < |s.builds|
    requires Healthy(PerformAll(m, s, calls))
    ensures PerformAll(m, s, calls).count == Total(PerformAll(m, s, calls).builds)
  {
    if calls != [] {
      var before := PerformAll(m, s, calls[..|calls| - 1]);
      ErrorRemains(m, before, calls[|calls| - 1]);
      CountIsTotal(m, s, calls[..|calls| - 1]);
      PerformCounted(m, before, calls[|calls| - 1]);
    }
  }

  /** The counter itself has 16 bits. */
  function Counter16(s: Session): U16 { s.count % 0x1_0000 }

  /** So a function that takes the address of a local is given allocations for its locals exactly when
      the number of such instructions is not a multiple of 2^16. */
  lemma AllocatesWhenNeeded(m: Module, s: Session, calls: seq<Action>)
    requires s.count == Total(s.builds)
    requires forall k :: 0 <= k < |calls| ==> calls[k].block < |s.builds|
    requires Healthy(PerformAll(m, s, calls))
    requires Total(PerformAll(m, s, calls).builds) > 0
    ensures Counter16(PerformAll(m, s, calls)) > 0 <==> Total(PerformAll(m, s, calls).builds) % 0x1_0000 != 0
    ensures Total(PerformAll(m, s, calls).builds) < 0x1_0000 ==> Counter16(PerformAll(m, s, calls)) > 0
  {
    CountIsTotal(m, s, calls);
  }

  // ----- the counter at its limit -----

  /** One local address taken in the entry block, and `n` in another block. */
  function ManyCalls(n: nat): (calls: seq<Action>)
    ensures forall k :: 0 <= k < |calls| ==> calls[k].block < 2
  {
    if n == 0 then [Make(0, Op.LocalAddr(0))] else ManyCalls(n - 1) + [Make(1, Op.LocalAddr(0))]
  }

  function TwoFresh(): Session { Session([Fresh(0, 0), Fresh(0, 0)], 0) }

  ghost predicate AfterMany(m: Module, s: Session, n: nat)
    requires m.locals != []
  {
    && |s.builds| == 2 && s.count == n + 1 && Healthy(s)
    && s.builds[0].insts == [Inst.LocalAddr(m.locals[0].index % 0x100)]
    && s.builds[0].max == 1 && !s.builds[0].terminated
    && Addrs(s.builds[1].insts) == n && |s.builds[1].vstack| == s.builds[1].max == n && !s.builds[1].terminated
  }

  lemma OneMore(m: Module, s: Session, n: nat)
    requires m.locals != [] && m.locals[0].index < 0x100 && AfterMany(m, s, n)
    ensures AfterMany(m, Perform(m, s, Make(1, Op.LocalAddr(0))), n + 1)
  {
    var b, i := s.builds[1], Inst.LocalAddr(m.locals[0].index);
    var b' := Emit(m, Op.LocalAddr(0), b.(addrCount := s.count));
    assert !b.errored;
    assert b'.insts == b.insts + [i] && (b.insts + [i])[..|b.insts|] == b.insts;
    var s' := Perform(m, s, Make(1, Op.LocalAddr(0)));
    assert s'.builds == [s.builds[0], b'];
  }

  lemma NonePerformed(m: Module)
    requires m.locals != [] && m.locals[0].index < 0x100
    ensures AfterMany(m, PerformAll(m, TwoFresh(), ManyCalls(0)), 0)
  {
    var calls, b := ManyCalls(0), Emit(m, Op.LocalAddr(0), Fresh(0, 0));
    assert calls[..0] == [];
    assert b.insts == [Inst.LocalAddr(m.locals[0].index)];
    assert PerformAll(m, TwoFresh(), []) == TwoFresh();
    assert PerformAll(m, TwoFresh(), calls).builds == [b, Fresh(0, 0)];
  }

  lemma OneMorePerformed(m: Module, n: nat)
    requires n > 0
    ensures PerformAll(m, TwoFresh(), ManyCalls(n))
         == Perform(m, PerformAll(m, TwoFresh(), ManyCalls(n - 1)), Make(1, Op.LocalAddr(0)))
  {
    hide Perform;
    var calls := ManyCalls(n);
    assert calls[..|calls| - 1] == ManyCalls(n - 1);
  }

  lemma {:induction false} ManyPerformed(m: Module, n: nat)
    requires m.locals != [] && m.locals[0].index < 0x100
    ensures AfterMany(m, PerformAll(m, TwoFresh(), ManyCalls(n)), n)
  {
    hide AfterMany, Perform, PerformAll, ManyCalls;
    if n == 0 {
      NonePerformed(m);
    } else {
      ManyPerformed(m, n - 1);
      OneMorePerformed(m, n);
      OneMore(m, PerformAll(m, TwoFresh(), ManyCalls(n - 1)), n - 1);
    }
  }

  /** 2^16 local addresses in two blocks, no more in either than its stack may hold: the counter is 0, so
      the locals get no slots, and the entry block still takes the address of one. */
  lemma CounterOverflows(m: Module)
    requires m.locals != [] && m.locals[0].index < 0x100
    ensures var s := PerformAll(m, TwoFresh(), ManyCalls(0xFFFF));
            && Healthy(s) && |s.builds| == 2 && s.builds[0].max <= 0xFFFF && s.builds[1].max <= 0xFFFF
            && Total(s.builds) == 0x1_0000 && Counter16(s) == 0
            && s.builds[0].insts == [Inst.LocalAddr(m.locals[0].index)]
  {
    hide PerformAll, ManyCalls, Perform, Emit;
    ManyPerformed(m, 0xFFFF);
    CountIsTotal(m, TwoFresh(), ManyCalls(0xFFFF));
  }
}
