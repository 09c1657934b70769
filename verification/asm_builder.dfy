// The builder as the object it is: calls push to and pop from the current block, and change the
// abstract stack and the counters in place.  Each call is proved to do what `Builder.Emit` says.

module AsmBuilders {
  import opened Words
  import opened Allocations
  import opened Bytecode
  import opened Layouts
  import opened Blocks
  import opened Builder
  import opened Compiler

  class AsmBlock {
    const inputs: U8
    var outputs: nat
    var insts: seq<Inst>
    var vstack: seq<Value>
    var max: nat
    var terminator: Terminator

    constructor (inputs: U8)
      ensures this.inputs == inputs && insts == [] && vstack == Unknowns(inputs) && max == inputs
      ensures terminator == Unterminated
    {
      this.inputs := inputs;
      outputs, insts, vstack, max, terminator := 0, [], Unknowns(inputs), inputs, Unterminated;
    }

    // ----- the abstract stack, as `builder_vstack` keeps it -----

    method Push(v: Value)
      modifies this`vstack, this`max
      ensures vstack == [v] + old(vstack) && max == Max(old(max), |old(vstack)| + 1)
    {
      vstack := [v] + vstack;
      if |vstack| > max {
        max := |vstack|;
      }
    }

    method PushOutput(n: nat)
      modifies this`vstack, this`max
      ensures vstack == Unknowns(n) + old(vstack)
      ensures max == if n > 0 then Max(old(max), n + |old(vstack)|) else old(max)
    {
      for i := 0 to n
        invariant vstack == Unknowns(i) + old(vstack)
        invariant max == if i > 0 then Max(old(max), i + |old(vstack)|) else old(max)
      {
        Push(Unknown);
      }
    }

    /** Pops `n` values; fails, with the stack emptied, if there are not that many. */
    method PopValues(n: nat) returns (ok: bool)
      modifies this`vstack
      ensures ok <==> n <= |old(vstack)|
      ensures vstack == if ok then old(vstack)[n..] else []
    {
      for i := 0 to n
        invariant i <= |old(vstack)| && vstack == old(vstack)[i..]
      {
        if vstack == [] {
          return false;
        }
        vstack := vstack[1..];
      }
      return true;
    }

    /** The values above position `idx` move down by one, and the value there goes to the top. */
    method RollValue(idx: nat)
      requires idx < |vstack|
      modifies this`vstack
      ensures vstack == Rolled(old(vstack), idx)
    {
      var saved := vstack[idx];
      var cur := idx;
      while cur > 0
        invariant cur <= idx && vstack == RolledFrom(old(vstack), idx, cur)
      {
        vstack := vstack[cur := vstack[cur - 1]];
        cur := cur - 1;
      }
      vstack := vstack[0 := saved];
    }
  }

  /** The stack while a value is rolled: everything from `cur` up to `idx` has moved. */
  function RolledFrom<T>(s: seq<T>, idx: nat, cur: nat): seq<T>
    requires cur <= idx < |s|
  {
    s[..cur + 1] + s[cur..idx] + s[idx + 1..]
  }

  class AsmBuilder {
    const m: Module
    var blocks: seq<AsmBlock>
    var cur: AsmBlock?
    var localAddrCount: U16
    ghost var addrTotal: int
    var errored: bool

    /** The counter wraps around at 16 bits, and only a block that is still open is built. */
    ghost predicate Valid()
      reads this, cur
    {
      localAddrCount == addrTotal % 0x1_0000
      && (cur != null && !errored ==> cur.terminator == Unterminated)
    }

    constructor (m: Module, inputs: U8)
      ensures this.m == m && Valid() && !errored
      ensures cur != null && fresh(cur) && blocks == [cur] && cur.inputs == inputs && ViewOf(cur) == Fresh(inputs, 0)
    {
      this.m := m;
      var entry := new AsmBlock(inputs);
      blocks, cur, localAddrCount, addrTotal, errored := [entry], entry, 0, 0, false;
    }

    /** The block and the counters as one value. */
    ghost function ViewOf(b: AsmBlock): Build
      reads this, b
    {
      Build(b.insts, b.vstack, b.max, addrTotal, b.terminator == Terminated, errored)
    }

    /** What a call leaves behind is `spec`; after an error, nothing is promised about the block. */
    ghost predicate Leaves(b: AsmBlock, spec: Build)
      reads this, b
    {
      errored == spec.errored && (!errored ==> ViewOf(b) == spec)
    }

    method DeclareBlock(inputs: U8) returns (b: AsmBlock)
      modifies this`blocks
      ensures fresh(b) && blocks == old(blocks) + [b] && b.inputs == inputs
      ensures ViewOf(b) == Fresh(inputs, addrTotal).(errored := errored)
    {
      b := new AsmBlock(inputs);
      blocks := blocks + [b];
    }

    /** Continues building a block; blocks need not be built one after the other. */
    method BuildBlock(b: AsmBlock)
      requires Valid()
      modifies this`cur, this`errored
      ensures Valid() && cur == b && (errored <==> old(errored) || b.terminator != Unterminated)
    {
      if b.terminator != Unterminated {
        errored := true;
      }
      cur := b;
    }

    method Append(insts: seq<Inst>)
      requires cur != null
      modifies cur`insts
      ensures cur.insts == old(cur.insts) + insts
    {
      cur.insts := cur.insts + insts;
    }

    /** `add_pop_top_n`: deletes from the back as long as that removes values, then pops the rest. */
    method AddPopTopN(count: nat)
      requires cur != null && Valid()
      modifies cur`insts, this`localAddrCount, this`addrTotal
      ensures Valid() && ViewOf(cur) == PopTopN(old(ViewOf(cur)), count)
    {
      var n := count;
      while n > 0
        invariant Valid() && PopTopN(ViewOf(cur), n) == PopTopN(old(ViewOf(cur)), count)
        decreases if n > 0 then 1 + |cur.insts| else 0
      {
        var removal := if cur.insts == [] then Stays else RemovalOf(cur.insts[|cur.insts| - 1]);
        if removal == Stays {
          ghost var before := ViewOf(cur);
          for i := 0 to n
            invariant cur.insts == before.insts + PopTops(i)
            invariant Valid() && ViewOf(cur) == before.(insts := cur.insts)
          {
            Append([Inst.PopTop]);
            assert before.insts + PopTops(i) + [Inst.PopTop] == before.insts + PopTops(i + 1);
          }
          assert ViewOf(cur) == Builder.Append(before, PopTops(n));
          n := 0;
        } else {
          if cur.insts[|cur.insts| - 1].LocalAddr? {
            localAddrCount := (localAddrCount + 0xFFFF) % 0x1_0000;
            addrTotal := addrTotal - 1;
          }
          cur.insts := cur.insts[..|cur.insts| - 1];
          n := LeftToPop(removal, n);
        }
      }
    }

    method Fail()
      modifies this`errored
      ensures errored
    {
      errored := true;
    }

    /** Emits the push instructions for a word and pushes it as a constant. */
    method EmitUint(value: Word)
      requires cur != null && Valid()
      modifies cur`insts, cur`vstack, cur`max
      ensures Valid() && ViewOf(cur) == PushUint(old(ViewOf(cur)), value)
    {
      if value < 0x100_0000 {
        Append([Inst.Push(value)]);
      } else if value < 0x1_0000_0000_0000 {
        Append([Inst.Push(value % 0x100_0000)]);
        Append([Inst.Push2(value / 0x100_0000)]);
      } else if value >= 0xFFFF_FFFF_FF00_0000 {
        Append([Inst.PushN(ALL_ONES - value)]);
      } else {
        Append([Inst.Push(value % 0x100_0000)]);
        if (value / 0x100_0000) % 0x100_0000 != 0 {
          Append([Inst.Push2((value / 0x100_0000) % 0x100_0000)]);
        }
        Append([Inst.Push3(value / 0x1_0000_0000_0000)]);
      }
      assert cur.insts == old(cur.insts) + Immediate(value);
      cur.Push(Known(value));
    }

    // ----- values -----

    method Uint(value: Word)
      requires Valid()
      modifies this`localAddrCount, this`addrTotal, this`errored, cur
      ensures Valid() && cur == old(cur)
      ensures cur != null ==> Leaves(cur, Emit(m, Op.Uint(value), old(ViewOf(cur))))
    {
      if cur == null || errored {
        return;
      }
      EmitUint(value);
    }

    method Null()
      requires Valid()
      modifies this`localAddrCount, this`addrTotal, this`errored, cur
      ensures Valid() && cur == old(cur)
      ensures cur != null ==> Leaves(cur, Emit(m, Op.Null, old(ViewOf(cur))))
    {
      if cur == null || errored {
        return;
      }
      Append([Inst.PushN(0)]);
      cur.Push(Constant(0, AllOnes));
    }

    method GlobalAddr(g: nat)
      requires Valid()
      modifies this`localAddrCount, this`addrTotal, this`errored, cur
      ensures Valid() && cur == old(cur)
      ensures cur != null ==> Leaves(cur, Emit(m, Op.GlobalAddr(g), old(ViewOf(cur))))
    {
      if cur == null || errored {
        return;
      }
      if g >= TWO_24 {
        Fail();
        return;
      }
      Append([Inst.GlobalAddr(g)]);
      cur.Push(Known(MakeAddress(g, 0, 0)));
    }

    method LocalAddr(l: nat)
      requires Valid()
      modifies this`localAddrCount, this`addrTotal, this`errored, cur
      ensures Valid() && cur == old(cur)
      ensures cur != null ==> Leaves(cur, Emit(m, Op.LocalAddr(l), old(ViewOf(cur))))
    {
      if cur == null || errored {
        return;
      }
      if l >= |m.locals| || m.locals[l].index >= 0x100 {
        Fail();
        return;
      }
      localAddrCount, addrTotal := (localAddrCount + 1) % 0x1_0000, addrTotal + 1;
      Append([Inst.LocalAddr(m.locals[l].index)]);
      cur.Push(Value.LocalAddress(l));
    }

    method FunctionAddr(f: nat, high: U32)
      requires Valid()
      modifies this`localAddrCount, this`addrTotal, this`errored, cur
      ensures Valid() && cur == old(cur)
      ensures cur != null ==> Leaves(cur, Emit(m, Op.FunctionAddr(f, high), old(ViewOf(cur))))
    {
      if cur == null || errored {
        return;
      }
      if f >= |m.functions| {
        Fail();
        return;
      }
      Append([Inst.FunctionAddr(f)]);
      cur.Push(Constant(WithHigh(AddressOfFunction(m, f), high), Lower));
    }

    method Cc(cc: Condition)
      requires Valid()
      modifies this`localAddrCount, this`addrTotal, this`errored, cur
      ensures Valid() && cur == old(cur)
      ensures cur != null ==> Leaves(cur, Emit(m, Op.Cc(cc), old(ViewOf(cur))))
    {
      if cur == null || errored {
        return;
      }
      if cur.vstack == [] {
        Fail();
        return;
      }
      var cmp := cur.vstack[0];
      cur.vstack := cur.vstack[1..];
      if cmp.Constant? {
        var value := Truth(Holds(cc, Signed(cmp.w)));
        AddPopTopN(1);
        Append([Inst.Push(value)]);
        cur.Push(Known(value));
      } else {
        Append([Inst.Cc(cc)]);
        cur.Push(Unknown);
      }
    }

    // ----- stack -----

    method Pop(idx: U16)
      requires Valid()
      modifies this`localAddrCount, this`addrTotal, this`errored, cur
      ensures Valid() && cur == old(cur)
      ensures cur != null ==> Leaves(cur, Emit(m, Op.Pop(idx), old(ViewOf(cur))))
    {
      if cur == null || errored {
        return;
      }
      if idx >= |cur.vstack| {
        Fail();
        return;
      }
      ghost var before := ViewOf(cur);
      cur.RollValue(idx);
      cur.vstack := cur.vstack[1..];
      assert cur.vstack == before.vstack[..idx] + before.vstack[idx + 1..];
      if idx == 0 {
        AddPopTopN(1);
      } else {
        Append([Inst.Pop(idx)]);
      }
    }

    method Pick(idx: U16)
      requires Valid()
      modifies this`localAddrCount, this`addrTotal, this`errored, cur
      ensures Valid() && cur == old(cur)
      ensures cur != null ==> Leaves(cur, Emit(m, Op.Pick(idx), old(ViewOf(cur))))
    {
      if cur == null || errored {
        return;
      }
      if idx >= |cur.vstack| {
        Fail();
        return;
      }
      Append([if idx == 0 then Inst.Dup else Inst.Pick(idx)]);
      cur.Push(cur.vstack[idx]);
    }

    method Roll(idx: U16)
      requires Valid()
      modifies this`localAddrCount, this`addrTotal, this`errored, cur
      ensures Valid() && cur == old(cur)
      ensures cur != null ==> Leaves(cur, Emit(m, Op.Roll(idx), old(ViewOf(cur))))
    {
      if cur == null || errored {
        return;
      }
      if idx >= |cur.vstack| {
        Fail();
        return;
      }
      if idx == 0 {
      } else if idx == 1 {
        Append([Inst.Swap]);
      } else {
        Append([Inst.Roll(idx)]);
      }
      cur.RollValue(idx);
    }

    method Select(count: U16)
      requires Valid()
      modifies this`localAddrCount, this`addrTotal, this`errored, cur
      ensures Valid() && cur == old(cur)
      ensures cur != null ==> Leaves(cur, Emit(m, Op.Select(count), old(ViewOf(cur))))
    {
      if cur == null || errored {
        return;
      }
      var ok := count >= 2;
      if ok {
        ok := cur.PopValues(1 + count);
      }
      if !ok {
        Fail();
        return;
      }
      Append([Inst.Select(count - 1)]);
      cur.PushOutput(1);
      assert Unknowns(1) == [Unknown];
    }

    // ----- memory -----

    method ArrayElement(element: Layout)
      requires Valid()
      modifies this`localAddrCount, this`addrTotal, this`errored, cur
      ensures Valid() && cur == old(cur)
      ensures cur != null ==> Leaves(cur, Emit(m, Op.ArrayElement(element), old(ViewOf(cur))))
    {
      if cur == null || errored {
        return;
      }
      if |cur.vstack| < 2 || element.alignment == 0 {
        Fail();
        return;
      }
      var multiple := RoundUp(element.size, element.alignment);
      var index := cur.vstack[0];
      cur.vstack := cur.vstack[2..];
      if index.Constant? {
        var offset := Signed(index.w) * multiple;
        if offset >= TWO_24 {
          Fail();
          return;
        }
        AddPopTopN(1);
        if offset > 0 {
          Append([Inst.AggregateMember(offset)]);
        }
      } else {
        if multiple >= TWO_24 {
          Fail();
          return;
        }
        Append([Inst.ArrayElement(multiple)]);
      }
      cur.Push(Unknown);
    }

    method AggregateMember(members: seq<Layout>, member: nat)
      requires Valid()
      modifies this`localAddrCount, this`addrTotal, this`errored, cur
      ensures Valid() && cur == old(cur)
      ensures cur != null ==> Leaves(cur, Emit(m, Op.AggregateMember(members, member), old(ViewOf(cur))))
    {
      if cur == null || errored {
        return;
      }
      if member >= |members| || exists k :: 0 <= k < |members| && members[k].alignment == 0 {
        Fail();
        return;
      }
      var layout := AggregateLayout(members[..member + 1]);
      var offset := layout.size - members[member].size;
      if offset > 0 {
        if cur.vstack == [] || offset >= TWO_24 {
          Fail();
          return;
        }
        cur.vstack := cur.vstack[1..];
        Append([Inst.AggregateMember(offset)]);
        cur.Push(Unknown);
      }
    }

    // ----- calls -----

    /** Appends the call of a builtin whose arguments have been popped. */
    method AddCallBuiltin(builtin: Builtin)
      requires cur != null && Valid()
      modifies cur`insts, cur`vstack, cur`max
      ensures Valid() && ViewOf(cur) == AppendBuiltin(old(ViewOf(cur)), builtin)
    {
      Append([Inst.CallBuiltin(builtin, !(builtin.noProcess && builtin.noPanic))]);
      Append([Inst.CallBuiltinSig(builtin.sig)]);
      assert cur.insts == old(cur.insts) + [Inst.CallBuiltin(builtin, !(builtin.noProcess && builtin.noPanic)),
                                            Inst.CallBuiltinSig(builtin.sig)];
      cur.PushOutput(builtin.sig.outputs);
    }

    /** Pushes the results of a folded call, from the last to the first. */
    method PushResults(values: seq<Word>)
      requires cur != null && Valid()
      modifies cur`insts, cur`vstack, cur`max
      ensures Valid() && ViewOf(cur) == PushUints(old(ViewOf(cur)), values)
    {
      var i: nat := |values|;
      assert values[i..] == [];
      while i > 0
        invariant i <= |values| && Valid() && ViewOf(cur) == PushUints(old(ViewOf(cur)), values[i..])
      {
        i := i - 1;
        assert values[i..][1..] == values[i + 1..];
        EmitUint(values[i]);
      }
      assert values[0..] == values;
    }

    /** Pops the arguments of a call, top first, and collects them as long as they are constants. */
    method PopArguments(n: nat) returns (ok: bool, allConstant: bool, constants: seq<Word>)
      requires cur != null
      modifies cur`vstack
      ensures ok <==> n <= |old(cur.vstack)|
      ensures ok ==> cur.vstack == old(cur.vstack)[n..] && (allConstant <==> AllConstant(old(cur.vstack)[..n]))
      ensures ok && allConstant ==> constants == ConstantsOf(old(cur.vstack)[..n])
    {
      ghost var before := cur.vstack;
      allConstant, constants := true, [];
      for i := 0 to n
        invariant i <= |before| && cur.vstack == before[i..]
        invariant allConstant <==> AllConstant(before[..i])
        invariant allConstant ==> constants == ConstantsOf(before[..i])
      {
        if cur.vstack == [] {
          return false, allConstant, constants;
        }
        var value := cur.vstack[0];
        assert before[..i + 1] == before[..i] + [value];
        cur.vstack := cur.vstack[1..];
        if value.Constant? {
          constants := constants + [value.w];
        } else {
          assert !before[..i + 1][i].Constant?;
          allConstant := false;
        }
      }
      ok := true;
    }

    /** The call of a builtin, folded if it can be. */
    method EmitCallBuiltin(builtin: Builtin)
      requires cur != null && Valid() && !errored
      modifies this`localAddrCount, this`addrTotal, this`errored, this`cur, cur
      ensures Valid() && Leaves(old(cur), EmitBuiltin(m, builtin, old(ViewOf(cur))))
      ensures cur == if builtin.alwaysPanic && !errored then null else old(cur)
    {
      if !ValidBuiltin(builtin) || (builtin.vmDirective && builtin.sig.outputs != 0) {
        Fail();
        return;
      }
      var ok, allConstant, constants := PopArguments(builtin.sig.inputs);
      if !ok {
        Fail();
        return;
      }
      var folded :=
        if allConstant && builtin.noProcess && builtin.constantFold then m.fold(builtin, constants) else None;
      match folded {
        case Some(results) =>
          AddPopTopN(builtin.sig.inputs);
          PushResults(results);
        case None =>
          AddCallBuiltin(builtin);
      }
      if builtin.alwaysPanic {
        cur.terminator := Terminated;
        cur := null;
      }
    }

    method CallBuiltin(builtin: Builtin)
      requires Valid()
      modifies this`localAddrCount, this`addrTotal, this`errored, this`cur, cur
      ensures Valid() && (cur == null || cur == old(cur))
      ensures old(cur) != null ==> Leaves(old(cur), Emit(m, Op.CallBuiltin(builtin), old(ViewOf(cur))))
    {
      if cur != null && !errored {
        EmitCallBuiltin(builtin);
      }
    }

    method Call(f: nat)
      requires Valid()
      modifies this`localAddrCount, this`addrTotal, this`errored, cur
      ensures Valid() && cur == old(cur)
      ensures cur != null ==> Leaves(cur, Emit(m, Op.Call(f), old(ViewOf(cur))))
    {
      if cur == null || errored {
        return;
      }
      var ok := f < |m.functions|;
      if ok {
        ok := cur.PopValues(m.functions[f].inputs);
      }
      if !ok {
        Fail();
        return;
      }
      Append([Inst.Call(f)]);
      cur.PushOutput(m.functions[f].outputs);
    }

    method CallIndirect(sig: Signature)
      requires Valid()
      modifies this`localAddrCount, this`addrTotal, this`errored, cur
      ensures Valid() && cur == old(cur)
      ensures cur != null ==> Leaves(cur, Emit(m, Op.CallIndirect(sig), old(ViewOf(cur))))
    {
      if cur == null || errored {
        return;
      }
      if |cur.vstack| < sig.inputs + 1 {
        Fail();
        return;
      }
      var address := cur.vstack[0];
      cur.vstack := cur.vstack[sig.inputs + 1..];
      match ConstantFunction(m, address, sig) {
        case Some(f) =>
          AddPopTopN(1);
          Append([Inst.Call(f)]);
        case None =>
          Append([Inst.CallIndirect(sig)]);
      }
      cur.PushOutput(sig.outputs);
    }

    method PanicIf()
      requires Valid()
      modifies this`localAddrCount, this`addrTotal, this`errored, cur
      ensures Valid() && cur == old(cur)
      ensures cur != null ==> Leaves(cur, Emit(m, Op.PanicIf, old(ViewOf(cur))))
    {
      if cur == null || errored {
        return;
      }
      var ok := cur.PopValues(2);
      if !ok {
        Fail();
        return;
      }
      Append([Inst.PanicIf]);
    }

    method Fiber(kind: FiberKind, sig: Signature)
      requires Valid()
      modifies this`localAddrCount, this`addrTotal, this`errored, cur
      ensures Valid() && cur == old(cur)
      ensures cur != null ==> Leaves(cur, Emit(m, Op.Fiber(kind, sig), old(ViewOf(cur))))
    {
      if cur == null || errored {
        return;
      }
      var ok := cur.PopValues(FiberArguments(kind, sig));
      if !ok {
        Fail();
        return;
      }
      Append([Inst.Fiber(kind, sig)]);
      cur.PushOutput(sig.outputs);
    }

    // ----- loads and stores -----

    /** The path through a checked pointer, once the address has been popped. */
    method EmitCheckedAccess(deref: Inst, field: nat, builtin: Builtin)
      requires cur != null && Valid() && !errored && !builtin.alwaysPanic
      modifies this`localAddrCount, this`addrTotal, this`errored, this`cur, cur
      ensures Valid() && cur == old(cur)
      ensures Leaves(cur, EmitAccess(m, old(ViewOf(cur)), deref, field, builtin))
    {
      if field >= TWO_64 {
        Fail();
        return;
      }
      Append([deref]);
      cur.PushOutput(1);
      assert Unknowns(1) == [Unknown];
      EmitUint(field);
      EmitCallBuiltin(builtin);
    }

    method LoadField(ty: Type, field: nat)
      requires Valid()
      modifies this`localAddrCount, this`addrTotal, this`errored, this`cur, cur
      ensures Valid() && cur == old(cur)
      ensures cur != null ==> Leaves(cur, Emit(m, Op.LoadField(ty, field), old(ViewOf(cur))))
    {
      if cur == null || errored {
        return;
      }
      if field >= FieldCount(ty) || cur.vstack == [] {
        Fail();
        return;
      }
      var address := cur.vstack[0];
      cur.vstack := cur.vstack[1..];
      match FoldAccess(m, address, ty, false) {
        case ToLocal(l) =>
          if m.locals[l].index >= 0x100 {
            Fail();
            return;
          }
          AddPopTopN(1);
          Append([Inst.LoadLocalValue(m.locals[l].index, m.locals[l].offset)]);
          cur.Push(Unknown);
        case ToGlobal(g) =>
          if g >= TWO_24 {
            Fail();
            return;
          }
          AddPopTopN(1);
          Append([Inst.LoadGlobalValue(g)]);
          cur.Push(Unknown);
        case Dynamic =>
          if ty.OpaqueType? && ty.layout.size == 0 && ty.load == None {
            AddPopTopN(1);
            EmitUint(0);
          } else if !FitsLayout(TypeLayout(ty)) || (ty.OpaqueType? && ty.load == None) {
            Fail();
          } else {
            EmitCheckedAccess(Inst.DerefConst(TypeLayout(ty)), field,
                              FieldBuiltin(if ty == ValueType then LoadValue else Other(ty.load.value), 2, 1));
          }
      }
    }

    method StoreField(ty: Type, field: nat)
      requires Valid()
      modifies this`localAddrCount, this`addrTotal, this`errored, this`cur, cur
      ensures Valid() && cur == old(cur)
      ensures cur != null ==> Leaves(cur, Emit(m, Op.StoreField(ty, field), old(ViewOf(cur))))
    {
      if cur == null || errored {
        return;
      }
      if field >= FieldCount(ty) || cur.vstack == [] {
        Fail();
        return;
      }
      var address := cur.vstack[0];
      cur.vstack := cur.vstack[1..];
      match FoldAccess(m, address, ty, true) {
        case ToLocal(l) =>
          if m.locals[l].index >= 0x100 || cur.vstack == [] {
            Fail();
            return;
          }
          AddPopTopN(1);
          Append([Inst.StoreLocalValue(m.locals[l].index, m.locals[l].offset)]);
          cur.vstack := cur.vstack[1..];
        case ToGlobal(g) =>
          if g >= TWO_24 || cur.vstack == [] {
            Fail();
            return;
          }
          AddPopTopN(1);
          Append([Inst.StoreGlobalValue(g)]);
          cur.vstack := cur.vstack[1..];
        case Dynamic =>
          if ty.OpaqueType? && ty.layout.size == 0 && ty.store == None {
            if cur.vstack == [] {
              Fail();
              return;
            }
            cur.vstack := cur.vstack[1..];
            AddPopTopN(2);
          } else if !FitsLayout(TypeLayout(ty)) || (ty.OpaqueType? && ty.store == None) {
            Fail();
          } else {
            EmitCheckedAccess(Inst.DerefMut(TypeLayout(ty)), field,
                              FieldBuiltin(if ty == ValueType then StoreValue else Other(ty.store.value), 3, 0));
          }
      }
    }

    // ----- terminators -----

    /** The input counts of the declared blocks. */
    function Inputs(): (inputs: seq<U8>)
      reads this
      ensures |inputs| == |blocks|
    {
      seq(|blocks|, i requires 0 <= i < |blocks| reads this => blocks[i].inputs)
    }

    /** What ending a block leaves behind: the block's last instructions and its terminator. */
    ghost predicate Ends(b: AsmBlock, spec: (Build, Terminator))
      reads this, b
    {
      errored == spec.0.errored
      && (!errored ==> ViewOf(b) == spec.0 && b.terminator == spec.1)
    }

    /** Gives the current block its terminator; nothing is the current block then. */
    method Terminate(t: Terminator)
      requires cur != null && Valid() && t != Terminated
      modifies this`cur, cur`terminator, cur`outputs
      ensures Valid() && cur == null && old(cur).terminator == t
              && ViewOf(old(cur)) == old(ViewOf(cur)).(terminated := false)
    {
      cur.outputs := |cur.vstack|;
      cur.terminator := t;
      cur := null;
    }

    method Return(outputs: U8)
      requires Valid()
      modifies this`errored, this`cur, cur
      ensures Valid()
      ensures old(cur) != null && !old(errored)
              ==> Ends(old(cur), EmitEnd(old(Inputs()), outputs, End.Return, old(ViewOf(cur))))
    {
      if cur == null || errored {
        return;
      }
      if |cur.vstack| != outputs {
        Fail();
        return;
      }
      Terminate(ReturnTo);
    }

    method Jump(dest: nat, outputs: U8)
      requires Valid()
      modifies this`errored, this`cur, cur
      ensures Valid()
      ensures old(cur) != null && !old(errored) ==>
                Ends(old(cur), EmitEnd(old(Inputs()), outputs, End.Jump(dest), old(ViewOf(cur))))
    {
      if cur == null || errored {
        return;
      }
      if dest >= |blocks| || |cur.vstack| != blocks[dest].inputs {
        Fail();
        return;
      }
      Terminate(JumpTo(dest));
    }

    /** A branch; if its direction is known, the block it leads to is returned. */
    method Branch(ifTrue: nat, ifFalse: nat, outputs: U8) returns (taken: Option<nat>)
      requires Valid()
      modifies this`localAddrCount, this`addrTotal, this`errored, this`cur, cur
      ensures Valid()
      ensures old(cur) != null && !old(errored) ==>
                Ends(old(cur), EmitEnd(old(Inputs()), outputs, End.Branch(ifTrue, ifFalse), old(ViewOf(cur))))
      ensures old(cur) != null && !errored ==> (taken.Some? <==> old(cur).terminator.JumpTo?)
      ensures old(cur) != null && !errored && taken.Some? ==> old(cur).terminator == JumpTo(taken.value)
    {
      taken := None;
      if cur == null || errored {
        return;
      }
      if cur.vstack == [] || ifTrue >= |blocks| || ifFalse >= |blocks|
         || |cur.vstack| - 1 != blocks[ifTrue].inputs || |cur.vstack| - 1 != blocks[ifFalse].inputs {
        Fail();
        return;
      }
      var condition := cur.vstack[0];
      cur.vstack := cur.vstack[1..];
      if ifTrue == ifFalse {
        AddPopTopN(1);
        taken := Some(ifTrue);
        Terminate(JumpTo(ifTrue));
      } else if condition.Constant? {
        AddPopTopN(1);
        taken := Some(if condition.w != 0 then ifTrue else ifFalse);
        Terminate(JumpTo(taken.value));
      } else if cur.insts != [] && cur.insts[|cur.insts| - 1].Cc? {
        var cc := cur.insts[|cur.insts| - 1].cc;
        cur.insts := cur.insts[..|cur.insts| - 1];
        Terminate(FusedBranch(cc, ifTrue, ifFalse));
      } else {
        Terminate(BranchTo(NeEq, ifTrue, ifFalse));
      }
    }

    method Panic(outputs: U8)
      requires Valid()
      modifies this`errored, this`cur, cur
      ensures Valid()
      ensures old(cur) != null && !old(errored)
              ==> Ends(old(cur), EmitEnd(old(Inputs()), outputs, End.Panic, old(ViewOf(cur))))
    {
      if cur == null || errored {
        return;
      }
      if cur.vstack == [] {
        Fail();
        return;
      }
      cur.vstack := cur.vstack[1..];
      Terminate(PanicOut);
    }
  }
}
