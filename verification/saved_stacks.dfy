// Where the saved stack pointers of fibers point: into their own stacks, unless the machine panicked.

module SavedStacks {
  import opened Words
  import opened Allocations
  import opened Bytecode
  import opened Vm
  import opened Machine
  import opened Scheduling

  /** The saved stack pointer of fiber `h`, if it has one that matters. */
  predicate PointerOk(h: nat, f: Fiber) {
    match f.phase
    case Broken(ByMachine) => f.saved == Message
    case Broken(ByBuiltin) => f.saved == InStack(h, |f.stack|)
    case Broken(Leftover) => true
    case _ => Resumable(f) ==> f.saved == InStack(h, |f.stack|)
  }

  ghost predicate PointersOk(p: Process) {
    forall h :: h in p.fibers ==> PointerOk(h, p.fibers[h])
  }

  /** No permitted switch goes on with a stack pointer that is not the fiber's own. */
  predicate StaysTame(p: Process, p': Process) { p'.fault == p.fault }

  // ----- steps within one fiber -----

  /** The running fiber goes on, or it was stopped by a panic of its own. */
  ghost predicate GoesOnOrStops(p: Process, c: nat, p': Process)
    requires c in p.fibers
  {
    && p'.fibers.Keys == p.fibers.Keys && (forall h :: h in p.fibers && h != c ==> p'.fibers[h] == p.fibers[h])
    && ((p'.fibers[c].status == p.fibers[c].status && !p'.fibers[c].phase.Broken?) || PointerOk(c, p'.fibers[c]))
  }

  lemma StopPoints(p: Process, c: nat)
    requires c in p.fibers
    ensures GoesOnOrStops(p, c, PanicAt(p, c)) && GoesOnOrStops(p, c, BuiltinPanicAt(p, c))
            && GoesOnOrStops(p, c, HostPanicAt(p, c))
  {
  }

  lemma OneGoesOn(p: Process, c: nat, f: Fiber, p': Process)
    requires c in p.fibers && p'.fibers == p.fibers[c := f] && f.status == p.fibers[c].status && !f.phase.Broken?
    ensures GoesOnOrStops(p, c, p')
  {
  }

  lemma NothingChanges(p: Process, c: nat, p': Process)
    requires c in p.fibers && p'.fibers == p.fibers && !p.fibers[c].phase.Broken?
    ensures GoesOnOrStops(p, c, p')
  {
  }

  lemma StraightPoints(prog: Program, env: Environment, p: Process, c: nat, i: Inst, stale: U32)
    requires c in p.fibers && p.fibers[c].frames != [] && !p.fibers[c].phase.Broken?
    ensures GoesOnOrStops(p, c, StraightAt(prog, env, p, c, i, stale))
  {
    hide Execute, GoesOnOrStops, StopAt;
    StopPoints(p, c);
    var f, a := p.fibers[c], p.fibers[c].frames[0];
    var p' := StraightAt(prog, env, p, c, i, stale);
    match Execute(prog.m, env.(stale := _ => stale), i, State(f.stack, a.frame, p.memory))
    case Ok(st) =>
      OneGoesOn(p, c, f.(stack := st.stack, frames := [a.(pc := a.pc + 1, frame := st.frame)] + f.frames[1..]), p');
    case Fault => NothingChanges(p, c, p');
    case Panicked =>
  }

  lemma CallPoints(prog: Program, p: Process, c: nat, callee: nat, drop: nat, choice: Choice)
    requires c in p.fibers && callee < |prog.limits| && callee < |prog.m.functions| && drop <= |p.fibers[c].stack|
    requires !p.fibers[c].phase.Broken?
    ensures GoesOnOrStops(p, c, CallAt(prog, p, c, callee, drop, choice))
  {
    hide GoesOnOrStops, StopAt;
    var f, p' := p.fibers[c], CallAt(prog, p, c, callee, drop, choice);
    if f.capacity - HEADROOM - |f.stack| < prog.limits[callee] {
      var grown := WithFiber(p, c, f.(capacity := choice.capacity));
      if choice.capacity > prog.maxStack {
        GrownStops(p, c, choice.capacity);
      } else {
        OneGoesOn(p, c, grown.fibers[c], p');
      }
    } else if choice.placement.Overflows? {
      StopPoints(p, c);
    } else if choice.placement.Grows? {
      NothingChanges(p, c, p');
    } else {
      OneGoesOn(p, c, p'.fibers[c], p');
    }
  }

  lemma GrownStops(p: Process, c: nat, capacity: nat)
    requires c in p.fibers
    ensures GoesOnOrStops(p, c, PanicAt(WithFiber(p, c, p.fibers[c].(capacity := capacity)), c))
  {
  }

  lemma ReturnPoints(p: Process, c: nat, count: nat)
    requires c in p.fibers && p.fibers[c].frames != [] && !p.fibers[c].phase.Broken?
    ensures GoesOnOrStops(p, c, ReturnAt(p, c)) && GoesOnOrStops(p, c, ReturnFreeAt(p, c, count))
  {
    StopPoints(p, c);
  }

  lemma InstPoints(prog: Program, env: Environment, p: Process, c: nat, i: Inst, choice: Choice)
    requires c in p.fibers && p.fibers[c].frames != [] && !p.fibers[c].phase.Broken? && WellShaped(prog) && !i.Fiber?
    ensures GoesOnOrStops(p, c, InstAt(prog, env, p, c, i, choice))
  {
    hide GoesOnOrStops, StraightAt, CallAt, ReturnAt, ReturnFreeAt, StopAt, Holds;
    StopPoints(p, c);
    NothingChanges(p, c, p.(fault := true));
    if !Transfers(i) {
      StraightPoints(prog, env, p, c, i, choice.stale);
      assert InstAt(prog, env, p, c, i, choice) == StraightAt(prog, env, p, c, i, choice.stale);
    } else if i.Return? || i.ReturnFree? {
      ReturnPoints(p, c, if i.Return? then 0 else i.count);
    } else if i.Jump? || i.BranchIf? {
      var p' := InstAt(prog, env, p, c, i, choice);
      if p'.fibers == p.fibers { NothingChanges(p, c, p'); } else { OneGoesOn(p, c, p'.fibers[c], p'); }
    } else if i.Call? {
      if i.function_ < |prog.m.functions| { CallPoints(prog, p, c, i.function_, 0, choice); }
    } else if i.CallIndirect? {
      if p.fibers[c].stack != [] && FunctionIndex(p.fibers[c].stack[0]) < |prog.m.functions| {
        CallPoints(prog, p, c, FunctionIndex(p.fibers[c].stack[0]), 1, choice);
      }
    }
  }

  lemma OneKeepsPointers(p: Process, c: nat, p': Process)
    requires PointersOk(p) && c in p.fibers && p.fibers[c].status == Running && GoesOnOrStops(p, c, p')
    ensures PointersOk(p')
  {
  }

  // ----- switches -----

  lemma SwitchPoints(p: Process, c: nat, kind: FiberKind, sig: Signature)
    requires PointersOk(p) && c in p.fibers && p.fibers[c].status == Running && !p.fibers[c].phase.Broken?
    requires kind != Suspend && sig.inputs < |p.fibers[c].stack|
    requires var target := LookUp(p, p.fibers[c].stack[sig.inputs]);
             target.Some? ==> !p.fibers[target.value].phase.Broken?
    ensures PointersOk(SwitchTo(p, c, kind, sig)) && StaysTame(p, SwitchTo(p, c, kind, sig))
  {
    StopPoints(p, c);
    OneKeepsPointers(p, c, PanicAt(p, c));
  }

  lemma HandedPoints(p: Process, c: nat, f: Fiber, h: nat, values: seq<Word>, parent: Option<nat>, p': Process)
    requires PointersOk(p) && c in p.fibers && h in p.fibers && c != h && PointerOk(c, f)
    requires p'.fibers == p.fibers[c := f][h := ResumedFiber(p.fibers[h], values, parent)]
    requires !p.fibers[h].phase.Broken?
    ensures PointersOk(p')
    ensures Resumable(p.fibers[h]) ==> !IsWild(p, h)
  {
  }

  lemma StoppedPoints(p: Process, c: nat, f: Fiber, q: Process)
    requires PointersOk(p) && c in p.fibers && q.fibers == p.fibers[c := f]
    ensures PointersOk(PanicAt(q, c)) && PointersOk(HostPanicAt(q, c))
    ensures PanicAt(q, c).fault == q.fault == HostPanicAt(q, c).fault
  {
  }

  lemma SameFibersPoints(p: Process, q: Process)
    requires PointersOk(p) && q.fibers == p.fibers
    ensures PointersOk(q)
  {
  }

  lemma LeftPoints(p: Process, c: nat, f: Fiber, q: Process)
    requires PointersOk(p) && c in p.fibers && q.fibers == p.fibers[c := f] && PointerOk(c, f)
    ensures PointersOk(q)
  {
  }

  lemma SuspendPoints(p: Process, c: nat, sig: Signature)
    requires PointersOk(p) && c in p.fibers && p.fibers[c].status == Running && !p.fibers[c].phase.Broken?
    requires sig.inputs <= |p.fibers[c].stack| && ParentWaits(p, c)
    ensures PointersOk(SuspendAt(p, c, sig)) && StaysTame(p, SuspendAt(p, c, sig))
  {
    hide TryGet, MakeAddress, LookUp, PointersOk, PanicAt, HostPanicAt, IsWild;
    var f, p' := p.fibers[c], SuspendAt(p, c, sig);
    var parent := LookUpParent(p, f.parent);
    if f.parent == None {
      var whole := SuspendedFiber(c, f, f.stack, sig.outputs);
      StoppedPoints(p, c, whole, WithFiber(p, c, whole));
      LeftPoints(p, c, SuspendedFiber(c, f, f.stack[sig.inputs..], sig.outputs),
                 WithFiber(p, c, SuspendedFiber(c, f, f.stack[sig.inputs..], sig.outputs)).(executing := false));
    } else if parent == None {
      StoppedPoints(p, c, f, p);
    } else {
      var h := parent.value;
      var asserted := p.(asserts := p.asserts && Resumable(p.fibers[h]));
      if p.fibers[h].expected != sig.inputs {
        StoppedPoints(p, c, f, asserted);
      } else {
        HandedPoints(p, c, SuspendedFiber(c, f, f.stack[sig.inputs..], sig.outputs), h, f.stack[..sig.inputs],
                     p.fibers[h].parent, p');
      }
    }
  }

  lemma ExitPoints(prog: Program, p: Process, c: nat)
    requires PointersOk(p) && c in p.fibers && p.fibers[c].status == Running && !p.fibers[c].phase.Broken?
    requires p.fibers[c].root < |prog.m.functions| && ParentWaits(p, c)
    ensures PointersOk(ExitAt(prog, p, c)) && StaysTame(p, ExitAt(prog, p, c))
  {
    hide TryGet, MakeAddress, LookUp, PointersOk, PanicAt, HostPanicAt, IsWild;
    var f, p' := p.fibers[c], ExitAt(prog, p, c);
    DoneLooksUp(p, c, f.(status := Done), f.parent);
    var done := WithFiber(p, c, f.(status := Done));
    var parent := LookUpParent(p, f.parent);
    if parent == None {
      StoppedPoints(p, c, f.(status := Done), done.(regs := Nowhere));
      LeftPoints(p, c, f.(status := Done), done.(regs := Nowhere, executing := false));
    } else {
      var h, count := parent.value, |f.stack| % 0x100;
      if p.fibers[h].expected != count {
        StoppedPoints(p, c, f.(status := Done), done.(asserts := p.asserts && Resumable(done.fibers[h])));
      } else {
        HandedPoints(p, c, f.(status := Done, stack := f.stack[count..]), h, f.stack[..count], p.fibers[h].parent, p');
      }
    }
  }

  lemma RunOnePoints(prog: Program, env: Environment, p: Process, chain: seq<nat>, choice: Choice)
    requires WellShaped(prog) && PointersOk(p) && Scheduled(p, chain) && Permitted(prog, p, chain, RunOne(choice))
    ensures PointersOk(Execute1(prog, env, p, choice))
  {
    hide TryGet, GoesOnOrStops, PointersOk, CallAt, ExitAt, StraightAt, ReturnFreeAt, SwitchTo, SuspendAt;
    if p.executing {
      var c := chain[0];
      ParentIsNext(p, chain);
      match NextInst(prog, p) {
        case Some(Fiber(kind, sig)) =>
          if FiberArguments(kind, sig) <= |p.fibers[c].stack| {
            if kind == Suspend { SuspendPoints(p, c, sig); } else { SwitchPoints(p, c, kind, sig); }
          } else {
            SameFibersPoints(p, p.(fault := true));
          }
        case Some(i) =>
          InstPoints(prog, env, p, c, i, choice);
          OneKeepsPointers(p, c, InstAt(prog, env, p, c, i, choice));
        case None => StartPoints(prog, env, p, chain, choice);
      }
    }
  }

  /** A fiber about to call its root function, or back from it. */
  lemma StartPoints(prog: Program, env: Environment, p: Process, chain: seq<nat>, choice: Choice)
    requires WellShaped(prog) && PointersOk(p) && Scheduled(p, chain) && p.executing && NextInst(prog, p) == None
    ensures PointersOk(Execute1(prog, env, p, choice))
  {
    var c := chain[0];
    var f := p.fibers[c];
    ParentIsNext(p, chain);
    if f.frames == [] && f.root < |prog.m.functions| {
      if f.phase == Entering {
        CallPoints(prog, p, c, f.root, 0, choice);
        OneKeepsPointers(p, c, CallAt(prog, p, c, f.root, 0, choice));
      } else {
        ExitPoints(prog, p, c);
      }
    }
  }

  // ----- whole steps -----

  lemma HostResumePoints(p: Process, h: nat, values: seq<Word>, outputs: nat)
    requires PointersOk(p) && h in p.fibers && Resumable(p.fibers[h]) && !p.fibers[h].phase.Broken?
    ensures PointersOk(HostResumeAt(p, h, values, outputs)) && StaysTame(p, HostResumeAt(p, h, values, outputs))
  {
  }

  /** Every permitted step keeps the saved stack pointers where they belong. */
  lemma StepPoints(prog: Program, env: Environment, p: Process, chain: seq<nat>, e: Event)
    requires WellShaped(prog) && PointersOk(p) && Scheduled(p, chain) && Permitted(prog, p, chain, e)
    ensures PointersOk(Step1(prog, env, p, e))
    ensures e.HostResume? ==> StaysTame(p, Step1(prog, env, p, e))
  {
    hide Execute1, TryGet, MakeAddress, Cancelled, HostResumeAt;
    match e {
      case RunOne(choice) => RunOnePoints(prog, env, p, chain, choice);
      case HostResume(h, values, outputs) => if h in p.fibers { HostResumePoints(p, h, values, outputs); }
      case Create(fn, capacity, at) =>
      case Destroy(h) =>
    }
  }

  /** The saved stack pointer of a fiber that does not run points into its own stack if and only if the
      fiber was not stopped by a panic of the machine. */
  lemma SavedExactly(p: Process, h: nat)
    requires PointersOk(p) && h in p.fibers && Resumable(p.fibers[h]) && p.fibers[h].phase != Broken(Leftover)
    ensures (exists d :: p.fibers[h].saved == InStack(h, d)) <==> p.fibers[h].phase != Broken(ByMachine)
    ensures IsWild(p, h) <==> p.fibers[h].phase == Broken(ByMachine)
  {
    assert PointerOk(h, p.fibers[h]);
    assert p.fibers[h].phase != Broken(ByMachine) ==> p.fibers[h].saved == InStack(h, |p.fibers[h].stack|);
  }

  /** A fiber that has panicked can be switched to if it is handed nothing.  It then goes on after the
      instruction that panicked, with the message of the panic for its stack. */
  lemma ResumingPanicked(p: Process, c: nat, kind: FiberKind, sig: Signature, h: nat)
    requires PointersOk(p) && c in p.fibers && kind != Suspend && sig.inputs < |p.fibers[c].stack| && !p.fault
    requires LookUp(p, p.fibers[c].stack[sig.inputs]) == Some(h) && h != c
    requires Resumable(p.fibers[h]) && p.fibers[h].expected == sig.inputs && p.fibers[h].phase != Broken(Leftover)
    ensures SwitchTo(p, c, kind, sig).fault <==> p.fibers[h].phase == Broken(ByMachine)
  {
    SavedExactly(p, h);
  }
}
