// Integer constants: the push instructions chosen for a word push exactly it, and no shorter
// sequence does.

module Immediates {
  import opened Words
  import opened Allocations
  import opened Bytecode
  import opened Vm
  import opened Builder

  predicate IsPush(i: Inst) { i.Push? || i.PushN? || i.Push2? || i.Push3? }

  lemma OrAdds(a: Word, high: nat)
    ensures a < TWO_24 && high < TWO_24 ==> OrWord(a, high * TWO_24) == a + high * TWO_24
    ensures a < TWO_48 && high < 0x1_0000 ==> OrWord(a, high * TWO_48) == a + high * TWO_48
  {
    Pow2At24();
    Pow2At48();
    if a < TWO_24 && high < TWO_24 {
      OrDisjoint(a, high, 24);
    }
    if a < TWO_48 && high < 0x1_0000 {
      OrDisjoint(a, high, 48);
    }
  }

  lemma PushPush2(m: Module, env: Environment, x: U24, y: U24, st: State)
    ensures Run(m, env, [Inst.Push(x), Inst.Push2(y)], st) == Ok(Pushed(st, [x + y * TWO_24]))
  {
    RunTwo(m, env, Inst.Push(x), Inst.Push2(y), st);
    OrAdds(x, y);
    var st0 := Pushed(st, [x]);
    assert st0.stack[0] == x && st0.stack[1..] == st.stack;
    assert Replace(st0, 1, [x + y * TWO_24]) == Pushed(st, [x + y * TWO_24]);
  }

  lemma ThenPush3(m: Module, env: Environment, x: Word, z: U16, st: State)
    requires x < TWO_48
    ensures Execute(m, env, Inst.Push3(z), Pushed(st, [x])) == Ok(Pushed(st, [x + z * TWO_48]))
  {
    OrAdds(x, z);
    var st0 := Pushed(st, [x]);
    assert st0.stack[0] == x && st0.stack[1..] == st.stack;
    assert Replace(st0, 1, [x + z * TWO_48]) == Pushed(st, [x + z * TWO_48]);
  }

  /** The three 24-, 24- and 16-bit parts a word is pushed in. */
  lemma ImmediateParts(value: Word)
    ensures var x, y, z := value % 0x100_0000, (value / 0x100_0000) % 0x100_0000, value / 0x1_0000_0000_0000;
            && x < TWO_24 && y < TWO_24 && z < 0x1_0000 && value == x + y * TWO_24 + z * TWO_48
            && (Immediate(value) == [Inst.Push(x), Inst.Push2(y), Inst.Push3(z)]
                || (Immediate(value) == [Inst.Push(x), Inst.Push3(z)] && y == 0)
                || (Immediate(value) == [Inst.Push(x), Inst.Push2(y)] && z == 0)
                || |Immediate(value)| == 1)
    ensures |Immediate(value)| == 1 ==>
              (value < TWO_24 && Immediate(value) == [Inst.Push(value)])
              || (ALL_ONES - value < TWO_24 && Immediate(value) == [Inst.PushN(ALL_ONES - value)])
  {
  }

  lemma RunOne(m: Module, env: Environment, i: Inst, st: State)
    ensures Run(m, env, [i], st) == Execute(m, env, i, st)
  {
    RunLast(m, env, [], i, st);
    assert [] + [i] == [i];
  }

  lemma RunThree(m: Module, env: Environment, x: U24, y: U24, z: U16, st: State)
    ensures Run(m, env, [Inst.Push(x), Inst.Push2(y), Inst.Push3(z)], st)
         == Ok(Pushed(st, [x + y * TWO_24 + z * TWO_48]))
  {
    PushPush2(m, env, x, y, st);
    assert [Inst.Push(x), Inst.Push2(y), Inst.Push3(z)] == [Inst.Push(x), Inst.Push2(y)] + [Inst.Push3(z)];
    RunLast(m, env, [Inst.Push(x), Inst.Push2(y)], Inst.Push3(z), st);
    ThenPush3(m, env, x + y * TWO_24, z, st);
  }

  /** The immediate of any word, run on any stack, pushes exactly that word. */
  lemma ImmediatePushes(m: Module, env: Environment, value: Word, st: State)
    ensures Run(m, env, Immediate(value), st) == Ok(Pushed(st, [value]))
  {
    var x, y, z := value % 0x100_0000, (value / 0x100_0000) % 0x100_0000, value / 0x1_0000_0000_0000;
    ImmediateParts(value);
    if |Immediate(value)| == 1 {
      RunOne(m, env, Immediate(value)[0], st);
    } else if |Immediate(value)| == 3 {
      RunThree(m, env, x, y, z, st);
    } else if Immediate(value)[1].Push2? {
      PushPush2(m, env, x, y, st);
    } else {
      RunTwo(m, env, Inst.Push(x), Inst.Push3(z), st);
      ThenPush3(m, env, x, z, st);
    }
  }

  lemma RunTwo(m: Module, env: Environment, i: Inst, j: Inst, st: State)
    ensures Run(m, env, [i, j], st)
         == match Execute(m, env, i, st) case Ok(st') => Execute(m, env, j, st') case o => o
  {
    assert [i, j] == [i] + [j];
    RunLast(m, env, [i], j, st);
    assert [i][1..] == [];
  }

  /** Any sequence of the four push instructions that pushes the word and nothing else is at
      least as long. */
  lemma ImmediateIsShortest(m: Module, env: Environment, value: Word, st: State, other: seq<Inst>)
    requires forall k :: 0 <= k < |other| ==> IsPush(other[k])
    requires Run(m, env, other, st) == Ok(Pushed(st, [value]))
    ensures |Immediate(value)| <= |other|
  {
    var result := Pushed(st, [value]);
    assert result.stack[0] == value && |result.stack| == |st.stack| + 1;
    if |other| == 1 {
      assert other == [other[0]] && other[1..] == [];
      assert Execute(m, env, other[0], st) == Ok(result);
      assert other[0].Push? || other[0].PushN?;
    } else if |other| == 2 {
      assert other == [other[0], other[1]];
      RunTwo(m, env, other[0], other[1], st);
      TwoPushes(m, env, value, st, other[0], other[1]);
    }
  }

  lemma TwoPushes(m: Module, env: Environment, value: Word, st: State, i: Inst, j: Inst)
    requires IsPush(i) && IsPush(j)
    requires Run(m, env, [i, j], st) == Ok(Pushed(st, [value]))
    ensures |Immediate(value)| <= 2
  {
    RunTwo(m, env, i, j, st);
    var st1 := Execute(m, env, i, st).state;
    var result := Pushed(st, [value]);
    assert |result.stack| == |st.stack| + 1 && result.stack[0] == value;
    if j.Push2? || j.Push3? {
      assert i.Push? || i.PushN?;
      if j.Push2? {
        SecondPart(st1.stack[0], j.value, value);
      } else {
        assert Wrap(j.value * TWO_48) == (j.value % 0x1_0000) * TWO_48;
        ThirdPart(st1.stack[0], j.value % 0x1_0000, value);
      }
    }
  }

  /** What or-ing a second or a third part into a first push can give. */
  lemma SecondPart(first: Word, part: U24, value: Word)
    requires first < TWO_24 || first >= 0xFFFF_FFFF_FF00_0000
    requires value == OrWord(first, part * TWO_24)
    ensures value < TWO_48 || value >= 0xFFFF_FFFF_FF00_0000
  {
    if first < TWO_24 {
      OrAdds(first, part);
    } else {
      OrAtLeast(first, part * TWO_24);
    }
  }

  lemma ThirdPart(first: Word, part: U16, value: Word)
    requires first < TWO_24 || first >= 0xFFFF_FFFF_FF00_0000
    requires value == OrWord(first, part * TWO_48)
    ensures (value / 0x100_0000) % 0x100_0000 == 0 || value >= 0xFFFF_FFFF_FF00_0000
  {
    if first < TWO_24 {
      OrAdds(first, part);
      assert value / 0x100_0000 == part * 0x100_0000;
    } else {
      OrAtLeast(first, part * TWO_48);
    }
  }
}
