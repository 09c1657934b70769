// The handlers as they work: on a value stack that grows down in an array, changed in place.

module Interpreters {
  import opened Words
  import opened Allocations
  import opened Bytecode
  import opened Vm
  import opened Flat
  import opened Depth
  import opened Machine

  /** How a handler ends. */
  datatype Progress = Continue | PanicNow | FaultNow

  class Interpreter {
    var cells: array<Word>
    var top: nat
    var frame: Frame
    var memory: Memory

    ghost predicate Valid()
      reads this
    {
      top <= cells.Length
    }

    /** The values from the top to the base. */
    function Contents(): seq<Word>
      requires Valid()
      reads this, cells
    {
      cells[top..]
    }

    function View(): State
      requires Valid()
      reads this, cells
    {
      State(Contents(), frame, memory)
    }

    constructor (capacity: nat, frame: Frame, memory: Memory)
      ensures Valid() && fresh(cells) && cells.Length == capacity && View() == State([], frame, memory)
    {
      cells := new Word[capacity](_ => 0);
      top := capacity;
      this.frame, this.memory := frame, memory;
    }

    // ----- the stack -----

    method Push(w: Word)
      requires Valid() && top > 0
      modifies this`top, cells
      ensures Valid() && top == old(top) - 1
      ensures Contents() == [w] + old(Contents())
    {
      top := top - 1;
      cells[top] := w;
    }

    method SetTop(w: Word)
      requires Valid() && top < cells.Length
      modifies cells
      ensures Contents() == [w] + old(Contents())[1..]
    {
      cells[top] := w;
    }

    /** `memmove` of the `n` top values one slot towards the base. */
    method MoveUp(n: nat)
      requires Valid() && top + n < cells.Length
      modifies cells
      ensures cells[top + 1..] == old(Contents())[..n] + old(Contents())[n + 1..]
    {
      ghost var values := Contents();
      var k := n;
      while k > 0
        invariant 0 <= k <= n
        invariant forall j :: top + k < j <= top + n ==> cells[j] == old(cells[j - 1])
        invariant forall j :: 0 <= j <= top + k ==> cells[j] == old(cells[j])
        invariant forall j :: top + n < j < cells.Length ==> cells[j] == old(cells[j])
      {
        cells[top + k] := cells[top + k - 1];
        k := k - 1;
      }
      assert cells[top + 1..] == values[..n] + values[n + 1..];
    }

    /** `vstack::grow`: a block of twice the size or more, the values at its end. */
    method Grow(size: nat)
      requires Valid() && size >= 2 * cells.Length
      modifies this`cells, this`top
      ensures Valid() && fresh(cells) && cells.Length == size
      ensures View() == old(View()) && top == old(top) + size - old(cells.Length)
    {
      ghost var values := Contents();
      var count := cells.Length - top;
      var grown := new Word[size](_ => 0);
      var k := 0;
      while k < count
        invariant 0 <= k <= count && cells == old(cells) && top == old(top)
        invariant forall j :: size - count <= j < size - count + k ==> grown[j] == cells[j - (size - count) + top]
      {
        grown[size - count + k] := cells[top + k];
        k := k + 1;
      }
      assert grown[size - count..] == values;
      cells, top := grown, size - count;
      assert Contents() == values;
    }

    // ----- handlers -----

    method Pop(idx: U16)
      requires Valid() && idx < |Contents()|
      modifies this`top, cells
      ensures Valid() && Contents() == old(Contents())[..idx] + old(Contents())[idx + 1..]
    {
      MoveUp(idx);
      top := top + 1;
    }

    method Roll(idx: U16)
      requires Valid() && idx < |Contents()|
      modifies cells
      ensures Contents() == [old(Contents())[idx]] + old(Contents())[..idx] + old(Contents())[idx + 1..]
    {
      ghost var was := Contents();
      var value := cells[top + idx];
      MoveUp(idx);
      ghost var moved := cells[top + 1..];
      assert moved == was[..idx] + was[idx + 1..];
      cells[top] := value;
      assert Contents() == [value] + moved;
    }

    method Select(idx: U16) returns (r: Progress)
      requires Valid() && idx + 2 <= |Contents()|
      modifies this`top, cells
      ensures Valid()
      ensures r == if old(Contents())[0] > idx then PanicNow else Continue
      ensures r == Continue ==> Contents() == [old(Contents())[1 + old(Contents())[0]]] + old(Contents())[idx + 2..]
    {
      var i := cells[top];
      top := top + 1;
      if i > idx {
        return PanicNow;
      }
      var value := cells[top + i];
      top := top + idx;
      cells[top] := value;
      r := Continue;
    }

    /** `deref_const` and `deref_mut`. */
    method Deref(layout: Layout, writing: bool) returns (r: Progress)
      requires Valid() && layout.alignment > 0 && top < cells.Length
      modifies cells
      ensures var ptr := Dereference(memory.allocations, old(Contents())[0], layout, writing);
              && r == (if ptr.None? then PanicNow else Continue)
              && (r == Continue ==> Contents() == [ptr.value] + old(Contents())[1..])
    {
      var address := cells[top];
      match TryGet(memory.allocations, address) {
        case None => r := PanicNow;
        case Some(i) =>
          if writing && IsConst(memory.allocations[i].source) {
            return PanicNow;
          }
          match CheckedOffset(memory.allocations[i], AddressOffset(address), layout) {
            case None => r := PanicNow;
            case Some(ptr) =>
              cells[top] := ptr;
              r := Continue;
          }
      }
    }

    /** The results of a call take the place of its arguments, the last one on top. */
    method ReplaceValues(inputs: nat, outputs: seq<Word>)
      requires Valid() && inputs <= |Contents()| && |outputs| <= top + inputs
      modifies this`top, cells
      ensures Valid() && Contents() == outputs + old(Contents())[inputs..]
    {
      top := top + inputs;
      ghost var below := cells[top..];
      var k := |outputs|;
      while k > 0
        invariant 0 <= k <= |outputs|
        invariant Valid() && top == old(top) + inputs - (|outputs| - k)
        invariant cells[top..] == outputs[k..] + below
      {
        k := k - 1;
        Push(outputs[k]);
      }
    }

    /** What an instruction needs of the stack: its operands, and room for what it adds. */
    ghost predicate HasRoom(m: Module, i: Inst)
      requires Valid()
      reads this, cells
    {
      Consumes(m, i) <= |Contents()| && Produces(m, i) <= top + Consumes(m, i)
    }

    /** The upper half of the cell above the top of the stack, which a function address will keep. */
    ghost predicate KnowsStale(env: Environment, i: Inst)
      requires Valid()
      reads this, cells
    {
      i.FunctionAddr? && top > 0 ==> env.stale(View()) == AddressOffset(cells[top - 1])
    }

    /** The instructions that put a value on the stack. */
    method ExecutePush(m: Module, env: Environment, i: Inst) returns (r: Progress)
      requires Valid() && HasRoom(m, i)
      requires i.Push? || i.PushN? || i.GlobalAddr? || i.FunctionAddr? || i.LocalAddr? || i.Pick? || i.Dup?
      requires KnowsStale(env, i)
      modifies this`top, cells
      ensures Valid() && Agrees(r, Execute(m, env, i, old(View())))
    {
      r := Continue;
      match i {
        case Push(v) => Push(v);
        case PushN(v) => Push(ALL_ONES - v);
        case GlobalAddr(g) => Push(MakeAddress(g, 0, 0));
        case FunctionAddr(f) =>
          if f >= |m.functions| { return FaultNow; }
          Push(WithHigh(AddressOfFunction(m, f), AddressOffset(cells[top - 1])));
        case LocalAddr(index) => Push(MakeAddress(frame.firstLocal + index, frame.localGeneration, 0));
        case Pick(idx) => Push(cells[top + idx]);
        case Dup => Push(cells[top]);
        case _ =>
      }
    }

    method ExecuteLoad(m: Module, env: Environment, i: Inst) returns (r: Progress)
      requires Valid() && HasRoom(m, i) && (i.LoadLocalValue? || i.LoadGlobalValue?)
      modifies this`top, cells
      ensures Valid() && Agrees(r, Execute(m, env, i, old(View())))
    {
      r := Continue;
      match i {
        case LoadLocalValue(_, offset) => Push(Load(memory, Wrap(frame.base + offset)));
        case LoadGlobalValue(g) =>
          if g >= |memory.allocations| { return FaultNow; }
          Push(Load(memory, memory.allocations[g].ptr));
        case _ =>
      }
    }

    /** The instructions that rewrite the top of the stack. */
    method ExecuteRewrite(m: Module, env: Environment, i: Inst) returns (r: Progress)
      requires Valid() && HasRoom(m, i)
      requires i.Push2? || i.Push3? || i.Cc? || i.DerefConst? || i.DerefMut? || i.AggregateMember? || i.Swap?
               || i.ArrayElement?
      modifies this`top, cells
      ensures Valid() && Agrees(r, Execute(m, env, i, old(View())))
    {
      r := Continue;
      match i {
        case Push2(v) => SetTop(OrWord(cells[top], v * 0x100_0000));
        case Push3(v) => SetTop(OrWord(cells[top], Wrap(v * 0x1_0000_0000_0000)));
        case Cc(cc) => SetTop(if Holds(cc, Signed(cells[top])) then 1 else 0);
        case DerefConst(layout) => if layout.alignment == 0 { r := FaultNow; } else { r := Deref(layout, false); }
        case DerefMut(layout) => if layout.alignment == 0 { r := FaultNow; } else { r := Deref(layout, true); }
        case AggregateMember(offset) => SetTop(AddToOffset(cells[top], offset));
        case Swap =>
          cells[top], cells[top + 1] := cells[top + 1], cells[top];
        case ArrayElement(multiple) =>
          var address, index := cells[top + 1], Signed(cells[top]);
          top := top + 1;
          SetTop(AddToOffset(address, multiple * index));
        case _ =>
      }
    }

    /** The instructions that take values off the stack or move them. */
    method ExecutePop(m: Module, env: Environment, i: Inst) returns (r: Progress)
      requires Valid() && HasRoom(m, i)
      requires i.Pop? || i.PopTop? || i.Roll?
      modifies this`top, cells
      ensures Valid() && Agrees(r, Execute(m, env, i, old(View())))
    {
      r := Continue;
      match i {
        case Pop(idx) => Pop(idx);
        case PopTop => top := top + 1;
        case Roll(idx) => Roll(idx);
        case _ =>
      }
    }

    /** The instructions that look at a value and may panic. */
    method ExecuteGuard(m: Module, env: Environment, i: Inst) returns (r: Progress)
      requires Valid() && HasRoom(m, i) && (i.Select? || i.PanicIf?)
      modifies this`top, cells
      ensures Valid() && Agrees(r, Execute(m, env, i, old(View())))
    {
      r := Continue;
      match i {
        case Select(idx) => r := Select(idx);
        case PanicIf =>
          if cells[top + 1] != 0 { return PanicNow; }
          top := top + 2;
        case _ =>
      }
    }

    method ExecuteStore(m: Module, env: Environment, i: Inst) returns (r: Progress)
      requires Valid() && HasRoom(m, i) && (i.StoreLocalValue? || i.StoreGlobalValue?)
      modifies this`top, this`memory
      ensures Valid() && Agrees(r, Execute(m, env, i, old(View())))
    {
      r := Continue;
      match i {
        case StoreLocalValue(_, offset) =>
          memory := Store(memory, Wrap(frame.base + offset), cells[top]);
          top := top + 1;
        case StoreGlobalValue(g) =>
          if g >= |memory.allocations| { return FaultNow; }
          memory := Store(memory, memory.allocations[g].ptr, cells[top]);
          top := top + 1;
        case _ =>
      }
    }

    /** The instructions of the prologue, and those that do nothing. */
    method ExecutePrologue(m: Module, env: Environment, i: Inst) returns (r: Progress)
      requires Valid()
      requires i.Nop? || i.Block? || i.CallBuiltinSig? || i.SetupLocalAlloc? || i.LocalAlloc? || i.LocalAllocAligned?
               || i.LocalStorage?
      modifies this`frame, this`memory
      ensures Agrees(r, Execute(m, env, i, old(View())))
    {
      r := Continue;
      match i {
        case SetupLocalAlloc(_) =>
          frame := frame.(firstLocal := |memory.allocations| % 0x4000_0000, localGeneration := memory.generation % 4);
        case LocalAlloc(layout) =>
          var place := Wrap(frame.base + frame.nextOffset);
          frame := frame.(nextOffset := frame.nextOffset + layout.size);
          memory := memory.(allocations := memory.allocations
                              + [MakeLocalAlloc(place, layout.size % 0x1_0000_0000, frame.localGeneration)]);
        case LocalAllocAligned(layout) =>
          if layout.alignment == 0 { return FaultNow; }
          var place := Wrap(frame.base + frame.nextOffset);
          place := Wrap(place + AlignOffset(place, layout.alignment));
          frame := frame.(nextOffset := frame.nextOffset + (layout.alignment + layout.size));
          memory := memory.(allocations := memory.allocations
                              + [MakeLocalAlloc(place, layout.size % 0x1_0000_0000, frame.localGeneration)]);
        case LocalStorage(size) => frame := frame.(nextOffset := frame.nextOffset + size);
        case _ =>
      }
    }

    /** A builtin, with the values it takes and gives. */
    method ExecuteBuiltin(m: Module, env: Environment, i: Inst) returns (r: Progress)
      requires Valid() && HasRoom(m, i) && i.CallBuiltin?
      requires forall b: Builtin, ins, mem :: env.builtin(b, ins, mem).Some? ==>
                 |env.builtin(b, ins, mem).value.0| == b.sig.outputs
      modifies this, cells
      ensures cells == old(cells) && Valid() && Agrees(r, Execute(m, env, i, old(View())))
    {
      r := Continue;
      var b := i.builtin;
      match b.impl {
        case LoadValue =>
          if b.sig != Signature(2, 1) { return FaultNow; }
          var value := Load(memory, cells[top + 1]);
          top := top + 1;
          SetTop(value);
        case StoreValue =>
          if b.sig != Signature(3, 0) { return FaultNow; }
          memory := Store(memory, cells[top + 1], cells[top + 2]);
          top := top + 3;
        case Other(_) =>
          match env.builtin(b, Contents()[..b.sig.inputs], memory) {
            case None => r := PanicNow;
            case Some((outputs, after)) =>
              ReplaceValues(b.sig.inputs, outputs);
              memory := after;
          }
      }
    }

    /** One straight-line instruction.  With its operands there and room for its results, which holds
        of every function the builder made, it does what its specification says. */
    method ExecuteInst(m: Module, env: Environment, i: Inst) returns (r: Progress)
      requires Valid() && HasRoom(m, i) && !Transfers(i) && KnowsStale(env, i)
      requires forall b: Builtin, ins, mem :: env.builtin(b, ins, mem).Some? ==>
                 |env.builtin(b, ins, mem).value.0| == b.sig.outputs
      modifies this, cells
      ensures cells == old(cells) && Valid() && Agrees(r, Execute(m, env, i, old(View())))
    {
      if i.CallBuiltin? {
        r := ExecuteBuiltin(m, env, i);
      } else if i.Push? || i.PushN? || i.GlobalAddr? || i.FunctionAddr? || i.LocalAddr? || i.Pick? || i.Dup? {
        r := ExecutePush(m, env, i);
      } else if i.LoadLocalValue? || i.LoadGlobalValue? {
        r := ExecuteLoad(m, env, i);
      } else if i.Push2? || i.Push3? || i.Cc? || i.DerefConst? || i.DerefMut? || i.AggregateMember? || i.Swap?
                || i.ArrayElement? {
        r := ExecuteRewrite(m, env, i);
      } else if i.Pop? || i.PopTop? || i.Roll? {
        r := ExecutePop(m, env, i);
      } else if i.Select? || i.PanicIf? {
        r := ExecuteGuard(m, env, i);
      } else if i.StoreLocalValue? || i.StoreGlobalValue? {
        r := ExecuteStore(m, env, i);
      } else {
        r := ExecutePrologue(m, env, i);
      }
    }

    /** A handler ended the way its specification says, and where it goes on it left the state it says. */
    ghost predicate Agrees(r: Progress, o: Outcome)
      requires Valid()
      reads this, cells
    {
      match o
      case Ok(st) => r == Continue && View() == st
      case Panicked => r == PanicNow
      case Fault => r == FaultNow
    }
  }
}
