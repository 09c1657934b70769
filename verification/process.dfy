// Fibers and the process they belong to, changed in place by the switches between them.

module Processes {
  import opened Words
  import opened Allocations
  import opened Bytecode
  import opened Vm
  import Blocks
  import opened Machine

  class RunningProcess {
    var fibers: map<nat, Fiber>
    var current: Option<nat>
    var executing: bool
    var outputs: nat
    var memory: Memory
    var regs: Pointer
    var asserts: bool
    var fault: bool

    function View(): Process
      reads this
    {
      Process(fibers, current, executing, outputs, memory, regs, asserts, fault)
    }

    constructor (memory: Memory)
      ensures View() == Process(map[], None, false, 0, memory, Nowhere, true, false)
    {
      fibers, current, executing, outputs := map[], None, false, 0;
      this.memory, regs, asserts, fault := memory, Nowhere, true, false;
    }

    // ----- one fiber -----

    method AssertThat(condition: bool)
      modifies this`asserts
      ensures asserts == (old(asserts) && condition)
    {
      asserts := asserts && condition;
    }

    method SetFiber(h: nat, f: Fiber)
      modifies this`fibers
      ensures fibers == old(fibers)[h := f]
    {
      fibers := fibers[h := f];
    }

    /** `lauf_runtime_fiber::suspend`. */
    method SuspendFiber(h: nat, rest: seq<Word>, expected: U8)
      requires h in fibers
      modifies this`fibers, this`asserts
      ensures fibers == old(fibers)[h := SuspendedFiber(h, old(fibers)[h], rest, expected)]
      ensures asserts == (old(asserts) && (old(fibers)[h].status == Running || old(fibers)[h].status == Ready))
    {
      AssertThat(fibers[h].status == Running || fibers[h].status == Ready);
      SetFiber(h, fibers[h].(status := Suspended, stack := rest, expected := expected, saved := InStack(h, |rest|)));
    }

    /** `lauf_runtime_fiber::transfer_arguments`: the top values move over, if they are as many as
        the fiber waits for. */
    method TransferArguments(h: nat, count: nat, values: seq<Word>) returns (ok: bool)
      requires h in fibers && count <= |values|
      modifies this`fibers, this`asserts
      ensures ok == (count == old(fibers)[h].expected)
      ensures asserts == (old(asserts) && Resumable(old(fibers)[h]))
      ensures fibers == if ok then old(fibers)[h := Handed(old(fibers)[h], values[..count])] else old(fibers)
    {
      AssertThat(Resumable(fibers[h]));
      ok := count == fibers[h].expected;
      if ok {
        SetFiber(h, fibers[h].(stack := values[..count] + fibers[h].stack, saved := Above(fibers[h].saved, count)));
      }
    }

    /** `lauf_runtime_fiber::resume_by`, and going on after the instruction it stopped at, with the stack
        pointer it was suspended with. */
    method GoOn(h: nat, parent: Option<nat>)
      requires h in fibers
      modifies this`fibers, this`asserts, this`current, this`fault
      ensures fault == (old(fault) || old(IsWild(View(), h)))
      ensures asserts == (old(asserts) && Resumable(old(fibers)[h]))
      ensures fibers == old(fibers)[h := ResumedFiber(old(fibers)[h], [], parent)]
      ensures current == Some(h)
    {
      AssertThat(Resumable(fibers[h]));
      var f := fibers[h];
      fault := fault || f.saved != InStack(h, |f.stack|);
      var frames := if f.frames == [] then [] else [f.frames[0].(pc := f.frames[0].pc + 1)] + f.frames[1..];
      SetFiber(h, f.(status := Running, parent := parent, frames := frames));
      assert [] + f.stack == f.stack;
      current := Some(h);
    }

    /** `lauf_runtime_panic` while fiber `c` is current: it is suspended with the registers saved last. */
    method Stop(c: nat, cause: Cause)
      requires c in fibers
      modifies this
      ensures View() == StopAt(old(View()), c, old(regs), cause)
    {
      AssertThat(fibers[c].status == Running || fibers[c].status == Ready);
      SetFiber(c, fibers[c].(status := Suspended, expected := 0, phase := Broken(cause), saved := regs));
      current, executing := None, false;
    }

    /** `do_panic`: the message is saved for the stack pointer. */
    method Panic(c: nat)
      requires c in fibers
      modifies this
      ensures View() == PanicAt(old(View()), c)
    {
      regs := Message;
      Stop(c, ByMachine);
    }

    // ----- switches -----

    method FiberSwitch(c: nat, kind: FiberKind, sig: Signature)
      requires c in fibers && fibers[c].status == Running && kind != Suspend && sig.inputs < |fibers[c].stack|
      modifies this
      ensures View() == SwitchTo(old(View()), c, kind, sig)
    {
      hide LookUp, ResumedFiber, StopAt;
      var stack, parent := fibers[c].stack, fibers[c].parent;
      var found := LookUp(View(), stack[sig.inputs]);
      if found == None || !Resumable(fibers[found.value]) {
        Panic(c);
        return;
      }
      var h := found.value;
      var ok := TransferArguments(h, sig.inputs, stack);
      if !ok {
        Panic(c);
        return;
      }
      SuspendFiber(c, stack[sig.inputs + 1..], sig.outputs);
      GoOn(h, if kind == Resume then Some(c) else parent);
      assert View().fibers == SwitchTo(old(View()), c, kind, sig).fibers by {
        Moved(h, old(fibers)[h], stack[..sig.inputs], if kind == Resume then Some(c) else parent);
      }
    }

    method FiberSuspend(c: nat, sig: Signature)
      requires c in fibers && fibers[c].status == Running && sig.inputs <= |fibers[c].stack|
      requires LookUpParent(View(), fibers[c].parent) != Some(c)
      modifies this
      ensures View() == SuspendAt(old(View()), c, sig)
    {
      hide LookUpParent, ResumedFiber, StopAt;
      var stack, parent := fibers[c].stack, fibers[c].parent;
      if parent == None {
        SuspendFiber(c, stack, sig.outputs);
        // From here on it is the host that goes on.
        if sig.inputs > 0 {
          if sig.inputs != outputs {
            Stop(c, Leftover);
            return;
          }
          SetFiber(c, fibers[c].(stack := stack[sig.inputs..], saved := InStack(c, |stack| - sig.inputs)));
        }
        executing := false;
      } else {
        var found := LookUpParent(View(), parent);
        if found == None {
          Panic(c);
          return;
        }
        var h := found.value;
        var ok := TransferArguments(h, sig.inputs, stack);
        if !ok {
          Panic(c);
          return;
        }
        SuspendFiber(c, stack[sig.inputs..], sig.outputs);
        GoOn(h, fibers[h].parent);
        assert View().fibers == SuspendAt(old(View()), c, sig).fibers by {
          Moved(h, old(fibers)[h], stack[..sig.inputs], old(fibers)[h].parent);
        }
      }
    }

    /** The root function of fiber `c` has returned. */
    method Exit(prog: Program, c: nat)
      requires c in fibers && fibers[c].status == Running && fibers[c].root < |prog.m.functions| && executing
      requires LookUpParent(View(), fibers[c].parent) != Some(c)
      modifies this
      ensures View() == ExitAt(prog, old(View()), c)
    {
      hide LookUpParent, ResumedFiber, StopAt, ExitAt;
      ExitStops(prog, View(), c);
      var f := fibers[c];
      SetFiber(c, f.(status := Done));
      var found := LookUpParent(View(), f.parent);
      if found == None || fibers[found.value].status == Done {
        // From here on it is the host that goes on.
        regs := Nowhere;
        if prog.m.functions[f.root].outputs != outputs {
          Stop(c, Leftover);
        } else {
          executing := false;
        }
      } else {
        var h, count := found.value, |f.stack| % 0x100;
        var ok := TransferArguments(h, count, f.stack);
        if !ok {
          Panic(c);
          return;
        }
        Moved(h, old(fibers)[h], f.stack[..count], old(fibers)[h].parent);
        AssertThat(fibers[h].status == Suspended);
        SetFiber(c, fibers[c].(stack := f.stack[count..]));
        GoOn(h, fibers[h].parent);
        ExitHandsOver(prog, old(View()), c, h);
        ghost var left := old(fibers)[c := f.(status := Done, stack := f.stack[count..])];
        assert fibers == left[h := ResumedFiber(left[h], f.stack[..count], left[h].parent)];
      }
    }

    // ----- the host -----

    /** `lauf_runtime_fiber::create`. */
    method CreateFiber(prog: Program, fn: nat, capacity: nat, at: Word) returns (h: nat)
      requires fn < |prog.m.functions| && |memory.allocations| !in fibers
      modifies this`fibers, this`memory
      ensures View() == CreateAt(prog, old(View()), fn, capacity, at) && h == |old(memory).allocations|
    {
      h := |memory.allocations|;
      memory := memory.(allocations := memory.allocations + [MakeFiberAlloc(at)]);
      SetFiber(h, Fiber.Fiber(Ready, prog.m.functions[fn].inputs, None, fn, Entering, [], [], capacity, InStack(h, 0)));
    }

    /** The slots of one frame's locals are marked freed. */
    method FreeLocalsOf(first: nat, count: nat) returns (ok: bool)
      modifies this`memory
      ensures memory == old(memory).(allocations := FreeSlots(old(memory).allocations, first, count).table)
      ensures ok == FreeSlots(old(memory).allocations, first, count).whole
    {
      ok := true;
      ghost var t := memory.allocations;
      for i := 0 to count
        invariant memory == old(memory).(allocations := memory.allocations)
        invariant FreeSlots(t, first, count) == FreeSlots(memory.allocations, first + i, count - i)
      {
        var index := first + i;
        if index >= |memory.allocations| || memory.allocations[index].split != Unsplit {
          return false;
        }
        memory := memory.(allocations := memory.allocations[index := memory.allocations[index].(status := Freed)]);
      }
    }

    /** The loop over the frames of a fiber that is cancelled. */
    method FreeFramesOf(prog: Program, frames: seq<Activation>) returns (ok: bool)
      modifies this`memory
      ensures memory == old(memory).(allocations := FreeFrames(prog, old(memory).allocations, frames).table)
      ensures ok == FreeFrames(prog, old(memory).allocations, frames).whole
    {
      ok := true;
      ghost var t := memory.allocations;
      assert frames[0..] == frames;
      for i := 0 to |frames|
        invariant memory == old(memory).(allocations := memory.allocations)
        invariant FreeFrames(prog, t, frames) == FreeFrames(prog, memory.allocations, frames[i..])
      {
        assert frames[i..][1..] == frames[i + 1..];
        ok := FreeLocalsOf(frames[i].frame.firstLocal, SlotCount(prog, frames[i].fn));
        if !ok {
          return;
        }
      }
      ok := true;
    }

    /** `lauf_runtime_destroy_fiber`. */
    method DestroyFiber(prog: Program, h: nat)
      requires h in fibers
      modifies this
      ensures View() == DestroyAt(prog, old(View()), h)
    {
      var ok := true;
      if fibers[h].status != Done && fibers[h].status != Ready {
        AssertThat(fibers[h].status == Suspended);
        ok := FreeFramesOf(prog, fibers[h].frames);
      }
      if !ok {
        if current.Some? && current.value in fibers {
          if executing {
            // The builtin that destroys the fiber was called with the registers saved.
            regs := InStack(current.value, |fibers[current.value].stack|);
            Stop(current.value, ByBuiltin);
          } else {
            Stop(current.value, Leftover);
          }
        }
        return;
      }
      if h < |memory.allocations| {
        memory := memory.(allocations := memory.allocations[h := memory.allocations[h].(status := Freed)]);
      }
      fibers := fibers - {h};
      memory := Blocks.RemoveFreed(memory);
    }

    /** `lauf_runtime_resume`, up to where the machine starts. */
    method HostResume(h: nat, values: seq<Word>, count: nat)
      requires h in fibers
      modifies this
      ensures View() == HostResumeAt(old(View()), h, values, count)
    {
      hide TryGet, MakeAddress, LookUp;
      AssertThat(!executing);
      AssertThat(Resumable(fibers[h]));
      SetFiber(h, fibers[h].(status := Running, parent := None));
      current, outputs := Some(h), count;
      if fibers[h].expected != |values| {
        Stop(h, Leftover);
        return;
      }
      var f := fibers[h];
      fault := fault || f.saved != InStack(h, |f.stack|);
      var frames := if f.frames == [] then [] else [f.frames[0].(pc := f.frames[0].pc + 1)] + f.frames[1..];
      SetFiber(h, f.(stack := values + f.stack, frames := frames, saved := Above(f.saved, |values|)));
      executing := true;
      assert fibers == old(fibers)[h := ResumedFiber(old(fibers)[h], values, None)];
    }
  }

  /** A fiber that values were moved to, through its saved stack pointer. */
  function Handed(f: Fiber, values: seq<Word>): Fiber {
    f.(stack := values + f.stack, saved := Above(f.saved, |values|))
  }

  /** Values that moved before the fiber went on are where they are when it gets them on going on. */
  lemma ExitHandsOver(prog: Program, p: Process, c: nat, h: nat)
    requires c in p.fibers && p.fibers[c].root < |prog.m.functions| && h in p.fibers && h != c
    requires LookUpParent(WithFiber(p, c, p.fibers[c].(status := Done)), p.fibers[c].parent) == Some(h)
    requires p.fibers[h].status != Done && p.fibers[h].expected == |p.fibers[c].stack| % 0x100
    ensures var f, count := p.fibers[c], p.fibers[h].expected;
            var left := p.fibers[c := f.(status := Done, stack := f.stack[count..])];
            ExitAt(prog, p, c) ==
            p.(fibers := left[h := ResumedFiber(p.fibers[h], f.stack[..count], p.fibers[h].parent)],
               current := Some(h), fault := p.fault || IsWild(p, h),
               asserts := p.asserts && Resumable(p.fibers[h]) && p.fibers[h].status == Suspended)
  {
  }

  lemma ExitStops(prog: Program, p: Process, c: nat)
    requires c in p.fibers && p.fibers[c].root < |prog.m.functions|
    ensures var done := WithFiber(p, c, p.fibers[c].(status := Done));
            var parent := LookUpParent(done, p.fibers[c].parent);
            if parent == None || done.fibers[parent.value].status == Done then
              ExitAt(prog, p, c) ==
              if prog.m.functions[p.fibers[c].root].outputs != p.outputs then HostPanicAt(done.(regs := Nowhere), c)
              else done.(regs := Nowhere, executing := false)
            else if done.fibers[parent.value].expected != |p.fibers[c].stack| % 0x100 then
              ExitAt(prog, p, c) == PanicAt(done.(asserts := p.asserts && Resumable(done.fibers[parent.value])), c)
            else true
  {
  }

  lemma Moved(h: nat, f: Fiber, values: seq<Word>, parent: Option<nat>)
    ensures ResumedFiber(Handed(f, values), [], parent) == ResumedFiber(f, values, parent)
    ensures Handed(f, values).saved == InStack(h, |Handed(f, values).stack|) <==> f.saved == InStack(h, |f.stack|)
    ensures Handed(f, values).status == f.status && Handed(f, values).parent == f.parent
  {
    assert [] + (values + f.stack) == values + f.stack;
  }
}
