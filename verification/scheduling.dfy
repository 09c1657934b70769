// Which fiber runs: exactly one, with a chain of suspended parents.

module Scheduling {
  import opened Words
  import opened Allocations
  import opened Bytecode
  import opened Vm
  import opened Machine

  /** Only the current fiber runs, and only while the machine does. */
  ghost predicate OnlyCurrentRuns(p: Process) {
    forall h :: h in p.fibers ==> (p.fibers[h].status == Running <==> p.executing && p.current == Some(h))
  }

  /** The parents of a fiber up to one without a parent, none twice, all suspended, and none that has
      panicked. */
  predicate IsChain(p: Process, chain: seq<nat>) {
    && chain != []
    && (forall k :: 0 <= k < |chain| ==> chain[k] in p.fibers)
    && (forall j, k :: 0 <= j < k < |chain| ==> chain[j] != chain[k])
    && (forall k :: 0 <= k < |chain| - 1 ==> p.fibers[chain[k]].parent == Some(chain[k + 1]))
    && p.fibers[chain[|chain| - 1]].parent == None
    && (forall k :: 1 <= k < |chain| ==> p.fibers[chain[k]].status == Suspended)
    && (forall k :: 0 <= k < |chain| ==> !p.fibers[chain[k]].phase.Broken?)
  }

  ghost predicate Scheduled(p: Process, chain: seq<nat>) {
    && OnlyCurrentRuns(p)
    && (forall h :: h in p.fibers ==> h < TWO_30)
    && (p.executing ==> IsChain(p, chain) && p.current == Some(chain[0]))
  }

  // ----- what may happen -----

  /** The instruction the running fiber is about to execute. */
  function NextInst(prog: Program, p: Process): Option<Inst> {
    if !p.executing || p.current == None || p.current.value !in p.fibers then None
    else
      var f := p.fibers[p.current.value];
      if f.frames == [] then None
      else
        var a := f.frames[0];
        if a.fn >= |prog.code| || a.pc < 0 || a.pc >= |prog.code[a.fn]| then None else Some(prog.code[a.fn][a.pc])
  }

  /** The fiber a resume or transfer is about to switch to. */
  function SwitchTarget(prog: Program, p: Process): Option<nat> {
    match NextInst(prog, p)
    case Some(Fiber(kind, sig)) =>
      var f := p.fibers[p.current.value];
      if kind == Suspend || sig.inputs >= |f.stack| then None else LookUp(p, f.stack[sig.inputs])
    case _ => None
  }

  predicate MaySwitchTo(p: Process, chain: seq<nat>, h: nat) {
    h !in chain && (h in p.fibers ==> !p.fibers[h].phase.Broken?)
  }

  /** Nobody resumes, transfers to or destroys a fiber on the running fiber's chain of parents, or
      resumes a fiber that has panicked; the host resumes only what can be resumed, from outside the
      machine. */
  predicate Permitted(prog: Program, p: Process, chain: seq<nat>, e: Event) {
    match e
    case RunOne(_) => p.executing && SwitchTarget(prog, p).Some? ==> MaySwitchTo(p, chain, SwitchTarget(prog, p).value)
    case Destroy(h) => p.executing ==> h !in chain
    case HostResume(h, _, _) => !p.executing && (h in p.fibers ==> Resumable(p.fibers[h]) && !p.fibers[h].phase.Broken?)
    case Create(_, _, _) => |p.memory.allocations| < TWO_30
  }

  /** A root function that ends, or a fiber that suspends to the host, with another number of values
      than the receiver waits for. */
  predicate EndsMismatched(prog: Program, p: Process) {
    && p.executing && p.current.Some? && p.current.value in p.fibers
    && var f := p.fibers[p.current.value];
       if f.frames == [] then
         && f.root < |prog.m.functions| && f.phase != Entering
         && var parent := LookUpParent(p, f.parent);
            if parent == None || p.fibers[parent.value].status == Done then
              prog.m.functions[f.root].outputs != p.outputs
            else p.fibers[parent.value].expected != |f.stack| % 0x100
       else
         match NextInst(prog, p)
         case Some(Fiber(Suspend, sig)) =>
           f.parent == None && 0 < sig.inputs <= |f.stack| && sig.inputs != p.outputs
         case _ => false
  }

  /** A fiber with a local in pieces is destroyed by the host, while the fiber that was current last no
      longer runs. */
  predicate RefusedOutside(prog: Program, p: Process, e: Event) {
    && e.Destroy? && e.handle in p.fibers && !Cancelled(prog, p, e.handle).whole
    && !p.executing && p.current.Some? && p.current.value in p.fibers && p.fibers[p.current.value].status != Ready
  }

  // ----- panics and steps within one fiber -----

  lemma PanicSchedules(p: Process, c: nat, regs: Pointer, cause: Cause, chain: seq<nat>)
    requires c in p.fibers && forall h :: h in p.fibers && h != c ==> p.fibers[h].status != Running
    requires forall h :: h in p.fibers ==> h < TWO_30
    ensures Scheduled(StopAt(p, c, regs, cause), chain)
  {
  }

  /** A step that changes neither status nor parent of any fiber, and in which none panics. */
  predicate SameSchedule(p: Process, p': Process) {
    && p'.current == p.current && p'.executing == p.executing && p'.asserts == p.asserts
    && p'.fibers.Keys == p.fibers.Keys
    && forall h :: h in p.fibers ==>
          && p'.fibers[h].status == p.fibers[h].status && p'.fibers[h].parent == p.fibers[h].parent
          && (p'.fibers[h].phase.Broken? ==> p.fibers[h].phase.Broken?)
  }

  lemma SameStaysScheduled(p: Process, p': Process, chain: seq<nat>)
    requires Scheduled(p, chain) && SameSchedule(p, p')
    ensures Scheduled(p', chain)
  {
  }

  /** Either nothing changed in the schedule, or the running fiber panicked. */
  predicate SameOrPanicked(p: Process, c: nat, p': Process)
    requires c in p.fibers
  {
    SameSchedule(p, p')
    || (p'.current == None && !p'.executing
        && p'.asserts == (p.asserts && (p.fibers[c].status == Running || p.fibers[c].status == Ready))
        && p'.fibers.Keys == p.fibers.Keys && p'.fibers[c].status == Suspended
        && forall h :: h in p.fibers && h != c ==> p'.fibers[h] == p.fibers[h])
  }

  lemma StopSchedule(p: Process, q: Process, c: nat, f: Fiber, regs: Pointer, cause: Cause)
    requires c in p.fibers && q.fibers == p.fibers[c := f] && f.status == p.fibers[c].status && q.asserts == p.asserts
    ensures SameOrPanicked(p, c, StopAt(q, c, regs, cause))
  {
  }

  lemma OneSameSchedule(p: Process, c: nat, f: Fiber, p': Process)
    requires c in p.fibers && p'.fibers == p.fibers[c := f]
    requires p'.current == p.current && p'.executing == p.executing && p'.asserts == p.asserts
    requires f.status == p.fibers[c].status && f.parent == p.fibers[c].parent
    requires f.phase.Broken? ==> p.fibers[c].phase.Broken?
    ensures SameOrPanicked(p, c, p')
  {
  }

  lemma CallSchedule(prog: Program, p: Process, c: nat, callee: nat, drop: nat, choice: Choice)
    requires c in p.fibers && callee < |prog.limits| && callee < |prog.m.functions| && drop <= |p.fibers[c].stack|
    ensures SameOrPanicked(p, c, CallAt(prog, p, c, callee, drop, choice))
  {
    hide SameOrPanicked, StopAt;
    var f, p' := p.fibers[c], CallAt(prog, p, c, callee, drop, choice);
    if f.capacity - HEADROOM - |f.stack| < prog.limits[callee] {
      var grown := f.(capacity := choice.capacity);
      StopSchedule(p, WithFiber(p, c, grown), c, grown, Message, ByMachine);
      OneSameSchedule(p, c, grown, WithFiber(p, c, grown));
    } else if choice.placement.Overflows? {
      StopSchedule(p, p, c, f, Message, ByMachine);
    } else {
      OneSameSchedule(p, c, p'.fibers[c], p');
    }
  }

  lemma StraightSchedule(prog: Program, env: Environment, p: Process, c: nat, i: Inst, stale: U32)
    requires c in p.fibers && p.fibers[c].frames != []
    ensures SameOrPanicked(p, c, StraightAt(prog, env, p, c, i, stale))
  {
    hide SameOrPanicked, Execute, StopAt;
    var f, p' := p.fibers[c], StraightAt(prog, env, p, c, i, stale);
    match Vm.Execute(prog.m, env.(stale := _ => stale), i, State(f.stack, f.frames[0].frame, p.memory))
    case Ok(_) => OneSameSchedule(p, c, p'.fibers[c], p');
    case Fault => OneSameSchedule(p, c, f, p');
    case Panicked =>
      StopSchedule(p, p, c, f, Message, ByMachine);
      StopSchedule(p, p, c, f, InStack(c, |f.stack|), ByBuiltin);
      StopSchedule(p, p, c, f, p.regs, Leftover);
  }

  lemma ReturnSchedule(p: Process, c: nat, count: nat)
    requires c in p.fibers && p.fibers[c].frames != []
    ensures SameOrPanicked(p, c, ReturnAt(p, c)) && SameOrPanicked(p, c, ReturnFreeAt(p, c, count))
  {
    hide TryGet;
  }

  lemma CallIndirectSchedule(prog: Program, p: Process, c: nat, sig: Signature, choice: Choice)
    requires c in p.fibers && p.fibers[c].stack != [] && |prog.limits| == |prog.m.functions|
    ensures SameOrPanicked(p, c, CallIndirectAt(prog, p, c, sig, choice))
  {
    if FunctionIndex(p.fibers[c].stack[0]) < |prog.m.functions| {
      CallSchedule(prog, p, c, FunctionIndex(p.fibers[c].stack[0]), 1, choice);
    }
  }

  lemma InstSchedule(prog: Program, env: Environment, p: Process, c: nat, i: Inst, choice: Choice)
    requires c in p.fibers && p.fibers[c].frames != [] && |prog.limits| == |prog.m.functions| && !i.Fiber?
    ensures SameOrPanicked(p, c, InstAt(prog, env, p, c, i, choice))
  {
    hide StraightAt, CallAt, ReturnAt, ReturnFreeAt, CallIndirectAt, StopAt, Execute, Holds, Signed, SameOrPanicked;
    var f, p' := p.fibers[c], InstAt(prog, env, p, c, i, choice);
    StopSchedule(p, p, c, f, Message, ByMachine);
    OneSameSchedule(p, c, f, p.(fault := true));
    if !Transfers(i) {
      StraightSchedule(prog, env, p, c, i, choice.stale);
      assert InstAt(prog, env, p, c, i, choice) == StraightAt(prog, env, p, c, i, choice.stale);
    } else if i.Return? || i.ReturnFree? {
      ReturnSchedule(p, c, if i.Return? then 0 else i.count);
    } else if (i.Jump? || i.BranchIf?) && p'.fibers != p.fibers {
      OneSameSchedule(p, c, p'.fibers[c], p');
    } else if i.Jump? || i.BranchIf? {
      OneSameSchedule(p, c, f, p');
    } else if i.Call? {
      if i.function_ < |prog.m.functions| { CallSchedule(prog, p, c, i.function_, 0, choice); }
    } else if i.CallIndirect? {
      if p.fibers[c].stack != [] { CallIndirectSchedule(prog, p, c, i.sig, choice); }
    }
  }

  lemma WithinOne(p: Process, chain: seq<nat>, p': Process)
    requires Scheduled(p, chain) && p.executing && SameOrPanicked(p, chain[0], p')
    ensures Scheduled(p', chain) && p'.asserts == p.asserts
  {
    if SameSchedule(p, p') {
      SameStaysScheduled(p, p', chain);
    }
  }

  // ----- switches -----

  /** Control goes to a fiber that was not on the chain. */
  lemma OverSchedules(p: Process, chain: seq<nat>, h: nat, tail: seq<nat>, p': Process)
    requires Scheduled(p, chain) && p.executing && h in p.fibers && h !in chain && !p.fibers[h].phase.Broken?
    requires tail == chain || tail == chain[1..]
    requires p'.fibers.Keys == p.fibers.Keys && p'.executing && p'.current == Some(h)
    requires p'.fibers[chain[0]].status == Suspended && p'.fibers[chain[0]].parent == p.fibers[chain[0]].parent
    requires p'.fibers[chain[0]].phase == p.fibers[chain[0]].phase && p'.fibers[h].phase == p.fibers[h].phase
    requires p'.fibers[h].status == Running && p'.fibers[h].parent == (if tail == [] then None else Some(tail[0]))
    requires forall h' :: h' in p.fibers && h' != chain[0] && h' != h ==> p'.fibers[h'] == p.fibers[h']
    ensures Scheduled(p', [h] + tail)
  {
    var chain' := [h] + tail;
    forall k | 0 <= k < |tail|
      ensures tail[k] != h && p'.fibers[tail[k]].status == Suspended
              && p'.fibers[tail[k]].parent == p.fibers[tail[k]].parent
      ensures !p'.fibers[tail[k]].phase.Broken?
      ensures k < |tail| - 1 ==> p.fibers[tail[k]].parent == Some(tail[k + 1])
    {
      var k' := if tail == chain then k else k + 1;
      assert tail[k] == chain[k'] && chain[k'] in chain;
      assert k < |tail| - 1 ==> p.fibers[chain[k']].parent == Some(chain[k' + 1]);
    }
    assert tail != [] ==> tail[|tail| - 1] == chain[|chain| - 1];
  }

  lemma SwitchSchedules(p: Process, chain: seq<nat>, kind: FiberKind, sig: Signature) returns (chain': seq<nat>)
    requires Scheduled(p, chain) && p.executing && kind != Suspend && sig.inputs < |p.fibers[chain[0]].stack|
    requires LookUp(p, p.fibers[chain[0]].stack[sig.inputs]).Some? ==>
               MaySwitchTo(p, chain, LookUp(p, p.fibers[chain[0]].stack[sig.inputs]).value)
    ensures Scheduled(SwitchTo(p, chain[0], kind, sig), chain') && SwitchTo(p, chain[0], kind, sig).asserts == p.asserts
  {
    var c := chain[0];
    chain' := chain;
    match LookUp(p, p.fibers[c].stack[sig.inputs])
    case None => PanicSchedules(p, c, Message, ByMachine, chain');
    case Some(h) =>
      if !Resumable(p.fibers[h]) || p.fibers[h].expected != sig.inputs {
        PanicSchedules(p, c, Message, ByMachine, chain');
      } else {
        ParentIsNext(p, chain);
        var tail := if kind == Resume then chain else chain[1..];
        chain' := [h] + tail;
        OverSchedules(p, chain, h, tail, SwitchTo(p, c, kind, sig));
      }
  }

  /** Going back to the parent. */
  lemma BackSchedules(p: Process, chain: seq<nat>, p': Process)
    requires Scheduled(p, chain) && p.executing && |chain| > 1
    requires p'.fibers.Keys == p.fibers.Keys && p'.executing && p'.current == Some(chain[1])
    requires p'.fibers[chain[0]].status != Running && p'.fibers[chain[1]].status == Running
    requires p'.fibers[chain[1]].parent == p.fibers[chain[1]].parent
    requires p'.fibers[chain[1]].phase == p.fibers[chain[1]].phase
    requires forall h :: h in p.fibers && h != chain[0] && h != chain[1] ==> p'.fibers[h] == p.fibers[h]
    ensures Scheduled(p', chain[1..])
  {
  }

  /** A parent that is found can be resumed, and is another fiber. */
  predicate ParentWaits(p: Process, c: nat)
    requires c in p.fibers
  {
    var parent := LookUpParent(p, p.fibers[c].parent);
    parent.Some? ==>
      && parent.value != c && p.fibers[parent.value].status == Suspended
      && !p.fibers[parent.value].phase.Broken?
  }

  lemma ParentIsNext(p: Process, chain: seq<nat>)
    requires Scheduled(p, chain) && p.executing
    ensures p.fibers[chain[0]].parent == (if |chain| == 1 then None else Some(chain[1]))
    ensures LookUpParent(p, p.fibers[chain[0]].parent).Some? ==>
              |chain| > 1 && LookUpParent(p, p.fibers[chain[0]].parent).value == chain[1]
              && p.fibers[chain[1]].status == Suspended && chain[1] != chain[0]
    ensures ParentWaits(p, chain[0])
  {
    if |chain| > 1 {
      assert p.fibers[chain[0]].parent == Some(chain[0 + 1]);
      ParentHandle(p, chain[1]);
    }
  }

  lemma ParentHandle(p: Process, h: nat)
    ensures LookUp(p, MakeAddress(h, 0, 0)).Some? && h < TWO_30 ==> LookUp(p, MakeAddress(h, 0, 0)).value == h
  {
    if h < TWO_30 {
      AddressRoundTrip(h, 0, 0);
    }
  }

  lemma SuspendSchedules(p: Process, chain: seq<nat>, sig: Signature) returns (chain': seq<nat>)
    requires Scheduled(p, chain) && p.executing && p.asserts && sig.inputs <= |p.fibers[chain[0]].stack|
    ensures Scheduled(SuspendAt(p, chain[0], sig), chain')
    ensures SuspendAt(p, chain[0], sig).asserts
            <==> !(p.fibers[chain[0]].parent == None && 0 < sig.inputs && sig.inputs != p.outputs)
  {
    var c := chain[0];
    chain' := chain;
    ParentIsNext(p, chain);
    if p.fibers[c].parent == None {
    } else if LookUpParent(p, p.fibers[c].parent) == None || p.fibers[chain[1]].expected != sig.inputs {
    } else {
      chain' := chain[1..];
      BackSchedules(p, chain, SuspendAt(p, c, sig));
    }
  }

  lemma DoneLooksUp(p: Process, c: nat, f: Fiber, parent: Option<nat>)
    requires c in p.fibers
    ensures LookUpParent(WithFiber(p, c, f), parent) == LookUpParent(p, parent)
  {
  }

  lemma ExitSchedules(prog: Program, p: Process, chain: seq<nat>) returns (chain': seq<nat>)
    requires Scheduled(p, chain) && p.executing && p.asserts && p.fibers[chain[0]].root < |prog.m.functions|
    requires p.fibers[chain[0]].frames == [] && p.fibers[chain[0]].phase != Entering
    ensures Scheduled(ExitAt(prog, p, chain[0]), chain')
    ensures ExitAt(prog, p, chain[0]).asserts <==> !EndsMismatched(prog, p)
  {
    var c := chain[0];
    var f := p.fibers[c];
    chain' := chain;
    ParentIsNext(p, chain);
    DoneLooksUp(p, c, f.(status := Done), f.parent);
    if LookUpParent(p, f.parent).Some? && p.fibers[chain[1]].expected == |f.stack| % 0x100 {
      chain' := chain[1..];
      BackSchedules(p, chain, ExitAt(prog, p, c));
    }
  }

  // ----- the theorem -----

  lemma RunOneSchedules(prog: Program, env: Environment, p: Process, chain: seq<nat>, choice: Choice)
      returns (chain': seq<nat>)
    requires WellShaped(prog) && Scheduled(p, chain) && p.asserts && Permitted(prog, p, chain, RunOne(choice))
    ensures Scheduled(Execute1(prog, env, p, choice), chain')
    ensures Execute1(prog, env, p, choice).asserts <==> !EndsMismatched(prog, p)
  {
    hide CallAt, ExitAt, SuspendAt, SwitchTo, StraightAt, ReturnAt, ReturnFreeAt, JumpAt, CallIndirectAt,
      SameOrPanicked;
    chain' := chain;
    if p.executing {
      var c := chain[0];
      var f := p.fibers[c];
      if f.frames == [] {
        if f.root < |prog.m.functions| {
          if f.phase == Entering {
            CallSchedule(prog, p, c, f.root, 0, choice);
            WithinOne(p, chain, Execute1(prog, env, p, choice));
          } else {
            chain' := ExitSchedules(prog, p, chain);
          }
        }
      } else {
        match NextInst(prog, p) {
          case Some(Fiber(kind, sig)) =>
            if FiberArguments(kind, sig) <= |f.stack| {
              if kind == Suspend {
                chain' := SuspendSchedules(p, chain, sig);
              } else {
                chain' := SwitchSchedules(p, chain, kind, sig);
              }
            }
          case Some(i) =>
            InstSchedule(prog, env, p, c, i, choice);
            WithinOne(p, chain, Execute1(prog, env, p, choice));
          case None =>
        }
      }
    }
  }

  lemma HostSchedules(p: Process, chain: seq<nat>, h: nat, values: seq<Word>, outputs: nat) returns (chain': seq<nat>)
    requires Scheduled(p, chain) && !p.executing && h in p.fibers && Resumable(p.fibers[h])
             && !p.fibers[h].phase.Broken?
    ensures Scheduled(HostResumeAt(p, h, values, outputs), chain')
    ensures HostResumeAt(p, h, values, outputs).asserts == p.asserts
  {
    chain' := [h];
  }

  lemma DestroySchedules(prog: Program, p: Process, chain: seq<nat>, h: nat)
    requires Scheduled(p, chain) && p.asserts && (p.executing ==> h !in chain) && h in p.fibers
    ensures Scheduled(DestroyAt(prog, p, h), chain)
    ensures DestroyAt(prog, p, h).asserts <==> !RefusedOutside(prog, p, Destroy(h))
  {
    var p' := DestroyAt(prog, p, h);
    assert p.fibers[h].status != Running by {
      if p.executing {
        assert chain[0] in chain;
      }
    }
    if Cancelled(prog, p, h).whole && p.executing {
      forall k | 0 <= k < |chain| ensures chain[k] in p'.fibers && p'.fibers[chain[k]] == p.fibers[chain[k]] {
        assert chain[k] in chain;
      }
    }
  }

  /** Every step keeps exactly one fiber running, the current one, with a finite chain of different
      suspended parents; and every assertion on a fiber's status holds, except where a fiber ends or
      suspends with a number of values its receiver does not wait for, or the host destroys a fiber
      that has a local in pieces. */
  lemma StepSchedules(prog: Program, env: Environment, p: Process, chain: seq<nat>, e: Event) returns (chain': seq<nat>)
    requires WellShaped(prog) && Scheduled(p, chain) && p.asserts && Permitted(prog, p, chain, e)
    ensures Scheduled(Step1(prog, env, p, e), chain')
    ensures Step1(prog, env, p, e).asserts
            <==> !(e.RunOne? && EndsMismatched(prog, p)) && !RefusedOutside(prog, p, e)
  {
    chain' := chain;
    match e {
      case RunOne(choice) => chain' := RunOneSchedules(prog, env, p, chain, choice);
      case HostResume(h, values, outputs) =>
        if h in p.fibers { chain' := HostSchedules(p, chain, h, values, outputs); }
      case Destroy(h) =>
        if h in p.fibers { DestroySchedules(prog, p, chain, h); }
      case Create(fn, capacity, at) =>
    }
  }

  // ----- what switching to a parent does -----

  /** As far as parents are unchanged, a chain of the new process runs along the old one. */
  lemma {:induction false} RunsAlong(p: Process, p': Process, chain: seq<nat>, chain': seq<nat>, from: nat, start: nat,
                                     n: nat)
    requires IsChain(p, chain) && IsChain(p', chain') && from + n < |chain| && start < |chain'|
    requires chain'[start] == chain[from]
    requires forall k :: from <= k < from + n ==>
               chain[k] in p'.fibers && p'.fibers[chain[k]].parent == p.fibers[chain[k]].parent
    ensures start + n < |chain'| && chain'[start + n] == chain[from + n]
  {
    if n > 0 {
      RunsAlong(p, p', chain, chain', from, start, n - 1);
      assert p.fibers[chain[from + n - 1]].parent == Some(chain[from + n - 1 + 1]);
      assert p'.fibers[chain'[start + n - 1]].parent.Some?;
      assert p'.fibers[chain'[start + n - 1]].parent == Some(chain'[start + n - 1 + 1]);
    }
  }

  /** A parent that is switched to becomes its own ancestor. */
  lemma AncestorLoops(p: Process, chain: seq<nat>, k: nat, kind: FiberKind, p': Process, chain': seq<nat>)
    requires Scheduled(p, chain) && p.executing && 1 <= k < |chain| && kind != Suspend
    requires p'.fibers.Keys == p.fibers.Keys && p'.executing && p'.current == Some(chain[k])
    requires p'.fibers[chain[k]].parent == if kind == Resume then Some(chain[0]) else p.fibers[chain[0]].parent
    requires forall j :: 0 <= j < k ==> p'.fibers[chain[j]].parent == p.fibers[chain[j]].parent
    ensures !Scheduled(p', chain')
  {
    if Scheduled(p', chain') {
      var from := if kind == Resume then 0 else 1;
      assert p.fibers[chain[0]].parent == Some(chain[0 + 1]);
      assert chain'[0] == chain[k] && p'.fibers[chain'[0]].parent == Some(chain[from]);
      assert p'.fibers[chain'[0]].parent == Some(chain'[0 + 1]);
      RunsAlong(p, p', chain, chain', from, 1, k - from);
    }
  }

  /** A switch that is not refused keeps a chain of parents if and only if its target is not on the
      running fiber's chain. */
  lemma SwitchKeepsChain(p: Process, chain: seq<nat>, kind: FiberKind, sig: Signature)
    requires Scheduled(p, chain) && p.executing && kind != Suspend && sig.inputs < |p.fibers[chain[0]].stack|
    requires LookUp(p, p.fibers[chain[0]].stack[sig.inputs]).Some?
    requires var h := LookUp(p, p.fibers[chain[0]].stack[sig.inputs]).value;
             Resumable(p.fibers[h]) && p.fibers[h].expected == sig.inputs && !p.fibers[h].phase.Broken?
    ensures (exists chain' :: Scheduled(SwitchTo(p, chain[0], kind, sig), chain'))
            <==> LookUp(p, p.fibers[chain[0]].stack[sig.inputs]).value !in chain
  {
    var c := chain[0];
    var h := LookUp(p, p.fibers[c].stack[sig.inputs]).value;
    if h !in chain {
      var chain' := SwitchSchedules(p, chain, kind, sig);
    } else {
      var k :| 0 <= k < |chain| && chain[k] == h;
      assert k > 0;
      var p' := SwitchTo(p, c, kind, sig);
      forall chain' ensures !Scheduled(p', chain') {
        AncestorLoops(p, chain, k, kind, p', chain');
      }
    }
  }

  // ----- the values that are moved -----

  /** A resume or transfer moves exactly the values the target waits for, in their order, and takes
      the handle away. */
  lemma SwitchMoves(p: Process, c: nat, kind: FiberKind, sig: Signature)
    requires c in p.fibers && p.fibers[c].status == Running && kind != Suspend && sig.inputs < |p.fibers[c].stack|
    requires LookUp(p, p.fibers[c].stack[sig.inputs]).Some?
    requires var h := LookUp(p, p.fibers[c].stack[sig.inputs]).value;
             Resumable(p.fibers[h]) && p.fibers[h].expected == sig.inputs
    ensures var p', s := SwitchTo(p, c, kind, sig), p.fibers[c].stack;
            var h := LookUp(p, s[sig.inputs]).value;
            && s == p'.fibers[h].stack[..p.fibers[h].expected] + [s[sig.inputs]] + p'.fibers[c].stack
            && p'.fibers[h].stack[p.fibers[h].expected..] == p.fibers[h].stack
  {
  }

  /** A suspend moves exactly the values the parent waits for. */
  lemma SuspendMoves(p: Process, c: nat, sig: Signature, h: nat)
    requires c in p.fibers && h in p.fibers && h != c && LookUpParent(p, p.fibers[c].parent) == Some(h)
    requires sig.inputs <= |p.fibers[c].stack| && p.fibers[h].expected == sig.inputs
    ensures var p', s := SuspendAt(p, c, sig), p.fibers[c].stack;
            && c in p'.fibers && h in p'.fibers && sig.inputs <= |p'.fibers[h].stack|
            && s == p'.fibers[h].stack[..sig.inputs] + p'.fibers[c].stack
            && p'.fibers[h].stack[sig.inputs..] == p.fibers[h].stack
  {
  }

  /** An exit moves all the values there are, which must be those the parent waits for. */
  lemma ExitMoves(prog: Program, p: Process, c: nat, h: nat)
    requires c in p.fibers && h in p.fibers && h != c && LookUpParent(p, p.fibers[c].parent) == Some(h)
    requires p.fibers[c].root < |prog.m.functions| && p.fibers[h].status == Suspended
    requires p.fibers[h].expected == |p.fibers[c].stack|
    ensures var p' := ExitAt(prog, p, c);
            c in p'.fibers && h in p'.fibers && p'.fibers[c].status == Done
            && p'.fibers[h].stack == p.fibers[c].stack + p.fibers[h].stack
  {
    DoneLooksUp(p, c, p.fibers[c].(status := Done), p.fibers[c].parent);
    assert p.fibers[c].stack[..|p.fibers[c].stack| % 0x100] == p.fibers[c].stack;
  }
}
