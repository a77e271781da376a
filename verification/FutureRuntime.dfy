/** The code of one thread: fulfil, install, continueChain and setResult as methods that update the
    shared nodes, while any number of other threads, executors and users act between its lock sections.
    Each is one schedule of the machine, so the machine's theorems apply to it. */
module FutureRuntime {
  import opened Wrappers
  import opened FutureMachine
  import opened FutureLaws
  import opened FutureSafety
  import opened FutureSteps
  import opened FutureTheorems

  lemma {:induction false} ReachesTrans(p: Program, a: State, x: seq<Step>, b: State, y: seq<Step>, c: State)
    requires Reaches(p, a, x, b) && Reaches(p, b, y, c)
    ensures Reaches(p, a, x + y, c)
    decreases |x|
  {
    hide Do, Enabled, ValidProgram;
    if x == [] {
      assert x + y == y;
    } else {
      assert (x + y)[0] == x[0] && (x + y)[1..] == x[1..] + y;
      ReachesTrans(p, Do(p, a, x[0]), x[1..], b, y, c);
    }
  }

  // ---------------------------------------------------------------------------------------------
  // What is left to run
  // ---------------------------------------------------------------------------------------------

  /** Nodes whose continuation has not run: nobody can make this grow. */
  function Unrun(nodes: seq<Node>): nat {
    if nodes == [] then 0 else Bit(nodes[0].runs == 0) + Unrun(nodes[1..])
  }

  lemma {:induction false} UnrunShrinks(nodes: seq<Node>, nodes': seq<Node>)
    requires |nodes| == |nodes'| && forall i :: 0 <= i < |nodes| ==> nodes[i].runs <= nodes'[i].runs
    ensures Unrun(nodes') <= Unrun(nodes)
  {
    if nodes != [] {
      forall i | 0 <= i < |nodes[1..]| ensures nodes[1..][i].runs <= nodes'[1..][i].runs {
        assert nodes[1..][i] == nodes[i + 1] && nodes'[1..][i] == nodes'[i + 1];
      }
      UnrunShrinks(nodes[1..], nodes'[1..]);
    }
  }

  lemma {:induction false} UnrunDrops(nodes: seq<Node>, nodes': seq<Node>, n: nat)
    requires |nodes| == |nodes'| && forall i :: 0 <= i < |nodes| ==> nodes[i].runs <= nodes'[i].runs
    requires n < |nodes| && nodes[n].runs == 0 < nodes'[n].runs
    ensures Unrun(nodes') < Unrun(nodes)
  {
    forall i | 0 <= i < |nodes[1..]| ensures nodes[1..][i].runs <= nodes'[1..][i].runs {
      assert nodes[1..][i] == nodes[i + 1] && nodes'[1..][i] == nodes'[i + 1];
    }
    if n == 0 { UnrunShrinks(nodes[1..], nodes'[1..]); } else { UnrunDrops(nodes[1..], nodes'[1..], n - 1); }
  }

  lemma StepRuns(p: Program, s: State, a: Step)
    requires Inv(p, s) && Enabled(p, s, a)
    ensures |Do(p, s, a).nodes| == |s.nodes|
    ensures forall i :: 0 <= i < |s.nodes| ==> s.nodes[i].runs <= Do(p, s, a).nodes[i].runs
  {
    InvShape(p, s);
    hide Inv, Shape, ValidProgram, Unreferenced;
    if a.Run? {
      RunParts(p, s, a.t, a.status);
      FrameExtends(p, s.nodes, s.threads[a.t].stack[0], a.status);
    }
  }

  /** Whatever anybody does, no continuation is un-run. */
  lemma {:induction false} RunsOnlyGrow(p: Program, s: State, steps: seq<Step>, s': State)
    requires Inv(p, s) && Reaches(p, s, steps, s')
    ensures Unrun(s'.nodes) <= Unrun(s.nodes)
    decreases |steps|
  {
    InvShape(p, s);
    if steps != [] {
      StepRuns(p, s, steps[0]);
      StepKeepsInv(p, s, steps[0]);
      UnrunShrinks(s.nodes, Do(p, s, steps[0]).nodes);
      RunsOnlyGrow(p, Do(p, s, steps[0]), steps[1..], s');
    }
    hide Inv, Shape, Do, Enabled, ValidProgram;
  }

  // ---------------------------------------------------------------------------------------------
  // One thread
  // ---------------------------------------------------------------------------------------------

  /** The shared states, the other threads and the handles, seen by the thread that is running. */
  class Runtime {
    const p: Program
    var nodes: seq<Node>
    ghost var others: seq<Thread>
    ghost var handles: seq<Option<nat>>

    constructor (p: Program, nodes: seq<Node>, ghost others: seq<Thread>, ghost handles: seq<Option<nat>>)
      ensures this.p == p && this.nodes == nodes && this.others == others && this.handles == handles
    {
      this.p, this.nodes, this.others, this.handles := p, nodes, others, handles;
    }

    /** The machine state in which this thread still has to execute `stack`. */
    ghost function At(stack: seq<Frame>): State
      reads this
    {
      State(nodes, [Thread(stack, false)] + others, handles)
    }

    /** Everybody else: other threads, executors and users take any number of steps.  A caller knows no
        more than that, so what is proved of it holds under any interference between its lock sections. */
    method Others(ghost stack: seq<Frame>) returns (ghost steps: seq<Step>)
      requires Inv(p, At(stack))
      modifies this
      ensures Inv(p, At(stack)) && Reaches(p, old(At(stack)), steps, At(stack))
      ensures forall k :: 0 <= k < |steps| ==> !(steps[k].Run? && steps[k].t == 0)
    {
      steps := [];
      InvShape(p, At(stack));
    }

    /** Executing the top frame of this thread is one step of the machine. */
    lemma TopStep(nodes: seq<Node>, others: seq<Thread>, handles: seq<Option<nat>>, f: Frame, rest: seq<Frame>, status: Status)
      requires var s := State(nodes, [Thread([f] + rest, false)] + others, handles); Inv(p, s)
      ensures ValidProgram(p) && |nodes| == p.size && FrameOk(p, nodes, f) && f.n < |nodes|
      ensures FrameInRange(p, |nodes|, f) && (f.Notify? ==> nodes[f.n].result.Some? && nodes[f.n].runs == 0)
      ensures var s := State(nodes, [Thread([f] + rest, false)] + others, handles);
              var e := Exec(p, nodes, f, status);
              var s' := State(e.nodes, [Thread(e.push + rest, false)] + Spawn(others, e.job, true), handles);
              Reaches(p, s, [Run(0, status)], s') && Inv(p, s') && Unrun(e.nodes) <= Unrun(nodes)
    {
      var s := State(nodes, [Thread([f] + rest, false)] + others, handles);
      TopEnabled(s, f, rest, status);
      InvShape(p, s);
      RunParts(p, s, 0, status);
      StepKeepsInv(p, s, Run(0, status));
      StepRuns(p, s, Run(0, status));
      TopResult(nodes, others, handles, f, rest, status);
      OneStep(s, Run(0, status));
      UnrunShrinks(nodes, Exec(p, nodes, f, status).nodes);
      if f.Notify? { ClaimedNotRun(s, f); }
      hide Inv, Shape, Do, Exec, Enabled, ValidProgram, FrameOk, Executable, Reaches;
    }

    lemma TopEnabled(s: State, f: Frame, rest: seq<Frame>, status: Status)
      requires Inv(p, s) && s.threads != [] && s.threads[0] == Thread([f] + rest, false)
      ensures |s.nodes| == p.size && ValidProgram(p) && Enabled(p, s, Run(0, status))
      ensures FrameOk(p, s.nodes, f) && f.n < p.size && s.threads[0].stack[0] == f && s.threads[0].stack[1..] == rest
    {
      assert ThreadOk(p, s.nodes, s.threads[0]);
      assert FrameOk(p, s.nodes, s.threads[0].stack[0]);
      hide ValidProgram;
    }

    lemma TopResult(nodes: seq<Node>, others: seq<Thread>, handles: seq<Option<nat>>, f: Frame, rest: seq<Frame>, status: Status)
      requires var s := State(nodes, [Thread([f] + rest, false)] + others, handles);
               ValidProgram(p) && |nodes| == p.size && Enabled(p, s, Run(0, status))
      ensures var s := State(nodes, [Thread([f] + rest, false)] + others, handles);
              var e := Exec(p, nodes, f, status);
              Do(p, s, Run(0, status)) == State(e.nodes, [Thread(e.push + rest, false)] + Spawn(others, e.job, true), handles)
    {
      var s := State(nodes, [Thread([f] + rest, false)] + others, handles);
      var e := Exec(p, nodes, f, status);
      assert ([f] + rest)[1..] == rest;
      var threads := s.threads[0 := Thread(e.push + rest, false)];
      assert threads == [Thread(e.push + rest, false)] + others;
      assert Spawn(threads, e.job, true) == [Thread(e.push + rest, false)] + Spawn(others, e.job, true);
      hide Exec, ValidProgram;
    }

    lemma OneStep(s: State, a: Step)
      requires ValidProgram(p) && |s.nodes| == p.size && Enabled(p, s, a) && |Do(p, s, a).nodes| == p.size
      ensures Reaches(p, s, [a], Do(p, s, a))
    {
      assert [a][1..] == [];
      assert Reaches(p, Do(p, s, a), [], Do(p, s, a));
      hide Do, Enabled, ValidProgram;
    }

    lemma ClaimedNotRun(s: State, f: Frame)
      requires Inv(p, s) && s.threads != [] && s.threads[0].stack != [] && s.threads[0].stack[0] == f && f.Notify?
      requires f.n < p.size
      ensures |s.nodes| == p.size && s.nodes[f.n].runs == 0
    {
      CountMember(QClaim(f.n), s.threads, 0, 0);
      InvAt(p, s, f.n);
    }

    /** Lock section of fulfilValue / fulfilExc / fulfilVoid. */
    method Fulfil(n: nat, r: Res, ghost rest: seq<Frame>) returns (first: bool, ghost steps: seq<Step>)
      requires Inv(p, At([Resolve(n, r)] + rest))
      modifies this`nodes
      ensures Reaches(p, old(At([Resolve(n, r)] + rest)), steps, At(rest)) && Inv(p, At(rest))
      ensures n < |old(nodes)| && (first <==> old(nodes)[n].result.None?)
      ensures nodes == if first then old(nodes)[n := old(nodes)[n].(result := Some(r), wins := old(nodes)[n].wins + 1)]
                       else old(nodes)
      ensures Unrun(nodes) <= Unrun(old(nodes))
    {
      hide Inv, Reaches, Exec;
      TopStep(nodes, others, handles, Resolve(n, r), rest, Done);
      ResolveEffect(nodes, n, r);
      assert [] + rest == rest;
      steps := [Run(0, Done)];
      first := nodes[n].result.None?;
      if first {
        nodes := nodes[n := nodes[n].(result := Some(r), wins := nodes[n].wins + 1)];
      }
    }

    lemma ResolveEffect(nodes: seq<Node>, n: nat, r: Res)
      requires FrameInRange(p, |nodes|, Resolve(n, r))
      ensures n < |nodes|
      ensures Exec(p, nodes, Resolve(n, r), Done)
              == Effect(if nodes[n].result.None? then nodes[n := nodes[n].(result := Some(r), wins := nodes[n].wins + 1)] else nodes,
                        [], [])
    {}

    lemma DriveEffect(nodes: seq<Node>, n: nat)
      requires FrameInRange(p, |nodes|, Drive(n))
      ensures n < |nodes|
      ensures var (e, x) := (Exec(p, nodes, Drive(n), Done), nodes[n]);
              if x.result.None? || x.notify.None? then e == Effect(nodes, [], [])
              else e == Effect(nodes[n := x.(notify := None)],
                               if x.exec then [Dispatch(n, x.notify.value, x.chain)]
                               else [Notify(n, x.notify.value, x.chain)] + DriveChain(x.chain), [])
    {}

    lemma DispatchEffect(nodes: seq<Node>, n: nat, c: Cont, next: Option<nat>, status: Status)
      requires FrameInRange(p, |nodes|, Dispatch(n, c, next))
      ensures n < |nodes|
      ensures var (e, job) := (Exec(p, nodes, Dispatch(n, c, next), status), [Notify(n, c, next)] + DriveChain(next));
              match status
              case Done => e == Effect(nodes, job, [])
              case Defer => e == Effect(nodes, [], job)
              case Cancel => e == Effect(nodes[n := nodes[n].(drops := nodes[n].drops + 1)],
                                         if c == Functor then [Free(n)] else [], [])
    {}

    lemma NotifyEffect(nodes: seq<Node>, n: nat, c: Cont, next: Option<nat>)
      requires FrameInRange(p, |nodes|, Notify(n, c, next)) && nodes[n].result.Some?
      ensures n < |nodes| && (c == Functor ==> n in p.links) && (c == Forward ==> next.Some?)
      ensures var e := Exec(p, nodes, Notify(n, c, next), Done);
              var (ran, r) := (nodes[n := nodes[n].(runs := nodes[n].runs + 1)], nodes[n].result.value);
              if c == Forward then e == Effect(ran, [Resolve(next.value, r)], [])
              else if next.None? then e == Effect(ran, [Free(n)], [])
              else match Eval(p, n, r)
                   case Returns(r') => e == Effect(ran, [Resolve(next.value, r'), Free(n)], [])
                   case ReturnsFuture(k) =>
                     e == Effect(if k < |nodes| then ran[k := ran[k].(future := false)] else ran,
                                 [Splice(k, next.value), Drive(k), Free(n)], [])
    {}

    lemma SpliceEffect(nodes: seq<Node>, k: nat, m: nat)
      requires FrameInRange(p, |nodes|, Splice(k, m))
      ensures k < |nodes|
      ensures Exec(p, nodes, Splice(k, m), Done) == Effect(nodes[k := nodes[k].(notify := Some(Forward), chain := Some(m))], [], [])
    {}

    lemma FreeEffect(nodes: seq<Node>, n: nat)
      requires FrameInRange(p, |nodes|, Free(n))
      ensures n < |nodes| && Exec(p, nodes, Free(n), Done) == Effect(nodes[n := nodes[n].(frees := nodes[n].frees + 1)], [], [])
    {}

    /** Lock section of install: publish the continuation, or throw because there is one already. */
    method Install(n: nat) returns (ok: bool)
      requires ValidProgram(p) && |nodes| == p.size && n in p.links
      requires nodes[n].future && nodes[n].alive
      modifies this`nodes
      ensures ok <==> old(nodes)[n].notify.None?
      ensures var s := old(At([])); var a := if ok then Attach(n) else Reattach(n);
              Enabled(p, s, a) && nodes == Do(p, s, a).nodes
    {
      var x := nodes[n].(allocs := nodes[n].allocs + 1);
      ok := x.notify.None?;
      if ok {
        nodes := nodes[n := x.(exec := p.links[n].onExecutor, chain := ChainOf(p, n),
                               notify := Some(Functor), future := false)];
      } else {
        nodes := nodes[n := x.(frees := x.frees + 1)];
      }
    }

    /** continueChain: turn after turn along the chain.  It ends because every turn that goes on has run
        a continuation, and none runs twice. */
    method ContinueChain(start: Option<nat>, ghost rest: seq<Frame>) returns (ghost steps: seq<Step>)
      requires Inv(p, At(DriveChain(start) + rest))
      modifies this
      ensures Reaches(p, old(At(DriveChain(start) + rest)), steps, At(rest)) && Inv(p, At(rest))
      ensures Unrun(nodes) <= Unrun(old(nodes))
      decreases Unrun(nodes), 4
    {
      hide Inv, Reaches;
      var data := start;
      ghost var s0 := At(DriveChain(start) + rest);
      steps := [];
      Stay(s0);
      while data.Some?
        invariant Reaches(p, s0, steps, At(DriveChain(data) + rest)) && Inv(p, At(DriveChain(data) + rest))
        invariant Unrun(nodes) <= Unrun(s0.nodes)
        decreases Unrun(nodes), Bit(data.Some?)
      {
        ghost var s1 := At(DriveChain(data) + rest);
        ghost var noise := Others(DriveChain(data) + rest);
        RunsOnlyGrow(p, s1, noise, At(DriveChain(data) + rest));
        ReachesTrans(p, s0, steps, s1, noise, At(DriveChain(data) + rest));
        steps := steps + noise;
        ghost var s2 := At([Drive(data.value)] + rest);
        ghost var turn;
        data, turn := Turn(data.value, rest);
        ReachesTrans(p, s0, steps, s2, turn, At(DriveChain(data) + rest));
        steps := steps + turn;
      }
      assert DriveChain(data) + rest == rest;
    }

    lemma Stay(s: State)
      requires Inv(p, s)
      ensures Reaches(p, s, [], s)
    {}

    /** One turn: claim under the lock, then run the continuation here, or hand it to the executor, which
        runs it at once, defers it, or drops it. */
    method Turn(n: nat, ghost rest: seq<Frame>) returns (data: Option<nat>, ghost steps: seq<Step>)
      requires Inv(p, At([Drive(n)] + rest))
      modifies this
      ensures Reaches(p, old(At([Drive(n)] + rest)), steps, At(DriveChain(data) + rest))
      ensures Inv(p, At(DriveChain(data) + rest))
      ensures Unrun(nodes) <= Unrun(old(nodes)) && (data.Some? ==> Unrun(nodes) < Unrun(old(nodes)))
      decreases Unrun(nodes), 3
    {
      hide Inv, Reaches, Exec;
      ghost var s0 := At([Drive(n)] + rest);
      TopStep(nodes, others, handles, Drive(n), rest, Done);
      DriveEffect(nodes, n);
      steps := [Run(0, Done)];
      if nodes[n].result.None? || nodes[n].notify.None? {
        assert [] + rest == DriveChain(None) + rest;
        return None, steps;
      }
      var c, chain, exec := nodes[n].notify.value, nodes[n].chain, nodes[n].exec;
      nodes := nodes[n := nodes[n].(notify := None)];
      var inlined := true;
      ghost var more: seq<Step> := [];
      if exec {
        ghost var s1 := At([Dispatch(n, c, chain)] + rest);
        inlined, more := Execute(n, c, chain, rest);
        ReachesTrans(p, s0, steps, s1, more, At((if inlined then [Notify(n, c, chain)] + DriveChain(chain) else []) + rest));
        steps := steps + more;
        if !inlined {
          assert [] + rest == DriveChain(None) + rest;
          return None, steps;
        }
      }
      assert [Notify(n, c, chain)] + DriveChain(chain) + rest == [Notify(n, c, chain)] + (DriveChain(chain) + rest);
      ghost var s2 := At([Notify(n, c, chain)] + (DriveChain(chain) + rest));
      more := RunContinuation(n, c, chain, DriveChain(chain) + rest);
      ReachesTrans(p, s0, steps, s2, more, At(DriveChain(chain) + rest));
      steps := steps + more;
      data := chain;
    }

    /** exec->Execute with the claimed job: it runs inline, waits on another thread, or is dropped, and
        then its destructor deletes the functor. */
    method Execute(n: nat, c: Cont, next: Option<nat>, ghost rest: seq<Frame>) returns (inlined: bool, ghost steps: seq<Step>)
      requires Inv(p, At([Dispatch(n, c, next)] + rest))
      modifies this
      ensures var left := (if inlined then [Notify(n, c, next)] + DriveChain(next) else []) + rest;
              Reaches(p, old(At([Dispatch(n, c, next)] + rest)), steps, At(left)) && Inv(p, At(left))
      ensures Unrun(nodes) <= Unrun(old(nodes))
    {
      hide Inv, Reaches, Exec;
      ghost var s0 := At([Dispatch(n, c, next)] + rest);
      steps := Others([Dispatch(n, c, next)] + rest);
      RunsOnlyGrow(p, s0, steps, At([Dispatch(n, c, next)] + rest));
      var status: Status := *;
      TopStep(nodes, others, handles, Dispatch(n, c, next), rest, status);
      DispatchEffect(nodes, n, c, next, status);
      ghost var s1 := At([Dispatch(n, c, next)] + rest);
      inlined := status == Done;
      if status == Defer {
        others := Spawn(others, [Notify(n, c, next)] + DriveChain(next), true);
      } else if status == Cancel {
        nodes := nodes[n := nodes[n].(drops := nodes[n].drops + 1)];
      }
      ghost var left := (if inlined then [Notify(n, c, next)] + DriveChain(next)
                         else if status == Cancel && c == Functor then [Free(n)] else []) + rest;
      ReachesTrans(p, s0, steps, s1, [Run(0, status)], At(left));
      steps := steps + [Run(0, status)];
      if status == Cancel && c == Functor {
        ghost var s2 := At([Free(n)] + rest);
        ghost var more := DeleteFunctor(n, rest);
        ReachesTrans(p, s0, steps, s2, more, At(rest));
        steps := steps + more;
        assert [] + rest == rest;
      }
    }

    method DeleteFunctor(n: nat, ghost rest: seq<Frame>) returns (ghost steps: seq<Step>)
      requires Inv(p, At([Free(n)] + rest))
      modifies this
      ensures Reaches(p, old(At([Free(n)] + rest)), steps, At(rest)) && Inv(p, At(rest))
      ensures Unrun(nodes) <= Unrun(old(nodes))
    {
      hide Inv, Reaches, Exec;
      ghost var s0 := At([Free(n)] + rest);
      steps := Others([Free(n)] + rest);
      RunsOnlyGrow(p, s0, steps, At([Free(n)] + rest));
      ghost var s1 := At([Free(n)] + rest);
      TopStep(nodes, others, handles, Free(n), rest, Done);
      FreeEffect(nodes, n);
      nodes := nodes[n := nodes[n].(frees := nodes[n].frees + 1)];
      assert [] + rest == rest;
      ReachesTrans(p, s0, steps, s1, [Run(0, Done)], At(rest));
      steps := steps + [Run(0, Done)];
    }

    /** Others act, then the lock section of fulfil. */
    method FulfilLater(n: nat, r: Res, ghost rest: seq<Frame>) returns (ghost steps: seq<Step>)
      requires Inv(p, At([Resolve(n, r)] + rest))
      modifies this
      ensures Reaches(p, old(At([Resolve(n, r)] + rest)), steps, At(rest)) && Inv(p, At(rest))
      ensures Unrun(nodes) <= Unrun(old(nodes))
    {
      hide Inv, Reaches, Exec;
      ghost var s0 := At([Resolve(n, r)] + rest);
      steps := Others([Resolve(n, r)] + rest);
      RunsOnlyGrow(p, s0, steps, At([Resolve(n, r)] + rest));
      ghost var s1 := At([Resolve(n, r)] + rest);
      var _, more := Fulfil(n, r, rest);
      ReachesTrans(p, s0, steps, s1, more, At(rest));
      steps := steps + more;
    }

    /** setResult with a returned future: make it forward to the next state, then look at it. */
    method SpliceReturned(k: nat, m: nat, ghost below: seq<Frame>) returns (ghost steps: seq<Step>)
      requires Inv(p, At([Splice(k, m)] + ([Drive(k)] + below)))
      modifies this
      ensures Reaches(p, old(At([Splice(k, m)] + ([Drive(k)] + below))), steps, At(below)) && Inv(p, At(below))
      ensures Unrun(nodes) <= Unrun(old(nodes))
      decreases Unrun(nodes), 5
    {
      hide Inv, Reaches, Exec;
      ghost var s0 := At([Splice(k, m)] + ([Drive(k)] + below));
      steps := Others([Splice(k, m)] + ([Drive(k)] + below));
      RunsOnlyGrow(p, s0, steps, At([Splice(k, m)] + ([Drive(k)] + below)));
      ghost var s1 := At([Splice(k, m)] + ([Drive(k)] + below));
      TopStep(nodes, others, handles, Splice(k, m), [Drive(k)] + below, Done);
      SpliceEffect(nodes, k, m);
      nodes := nodes[k := nodes[k].(notify := Some(Forward), chain := Some(m))];
      assert [] + ([Drive(k)] + below) == DriveChain(Some(k)) + below;
      ghost var s2 := At(DriveChain(Some(k)) + below);
      ReachesTrans(p, s0, steps, s1, [Run(0, Done)], s2);
      steps := steps + [Run(0, Done)];
      ghost var more := ContinueChain(Some(k), below);
      ReachesTrans(p, s0, steps, s2, more, At(below));
      steps := steps + more;
    }

    /** notif(self, true): notifyForward, notifyLastImpl, or setResult followed by delete fn. */
    method RunContinuation(n: nat, c: Cont, next: Option<nat>, ghost rest: seq<Frame>) returns (ghost steps: seq<Step>)
      requires Inv(p, At([Notify(n, c, next)] + rest))
      modifies this
      ensures Reaches(p, old(At([Notify(n, c, next)] + rest)), steps, At(rest)) && Inv(p, At(rest))
      ensures Unrun(nodes) < Unrun(old(nodes))
      decreases Unrun(nodes), 2
    {
      hide Inv, Reaches, Leaves;
      ghost var s0 := At([Notify(n, c, next)] + rest);
      steps := Others([Notify(n, c, next)] + rest);
      RunsOnlyGrow(p, s0, steps, At([Notify(n, c, next)] + rest));
      ghost var s1 := At([Notify(n, c, next)] + rest);
      var r, call := CallFunctor(n, c, next, rest);
      ghost var s2 := At(Leaves(n, c, next, r) + rest);
      ReachesTrans(p, s0, steps, s1, call, s2);
      steps := steps + call;
      ghost var more := Finish(n, c, next, r, rest);
      ReachesTrans(p, s0, steps, s2, more, At(rest));
      steps := steps + more;
    }

    /** The call itself, outside the lock: the functor sees the stored result, and a future that it
        returns is its own no longer. */
    method CallFunctor(n: nat, c: Cont, next: Option<nat>, ghost rest: seq<Frame>) returns (r: Res, ghost steps: seq<Step>)
      requires Inv(p, At([Notify(n, c, next)] + rest))
      modifies this`nodes
      ensures (c == Functor ==> n in p.links) && (c == Forward ==> next.Some?)
      ensures n < |old(nodes)| && old(nodes)[n].result == Some(r)
      ensures Reaches(p, old(At([Notify(n, c, next)] + rest)), steps, At(Leaves(n, c, next, r) + rest))
      ensures Inv(p, At(Leaves(n, c, next, r) + rest)) && Unrun(nodes) < Unrun(old(nodes))
    {
      hide Inv, Reaches, Exec, Unrun;
      TopStep(nodes, others, handles, Notify(n, c, next), rest, Done);
      NotifyEffect(nodes, n, c, next);
      r := nodes[n].result.value;
      steps := [Run(0, Done)];
      ghost var was := nodes;
      nodes := nodes[n := nodes[n].(runs := nodes[n].runs + 1)];
      if c == Functor && next.Some? && Eval(p, n, r).ReturnsFuture? {
        var k := Eval(p, n, r).inner;
        if k < |nodes| { nodes := nodes[k := nodes[k].(future := false)]; }
      }
      UnrunDrops(was, nodes, n);
    }

    /** What running a continuation leaves to do. */
    function Leaves(n: nat, c: Cont, next: Option<nat>, r: Res): seq<Frame>
      requires c == Functor ==> n in p.links
      requires c == Forward ==> next.Some?
    {
      if c == Forward then [Resolve(next.value, r)]
      else if next.None? then [Free(n)]
      else match Eval(p, n, r)
           case Returns(r') => [Resolve(next.value, r'), Free(n)]
           case ReturnsFuture(k) => [Splice(k, next.value), Drive(k), Free(n)]
    }

    /** Storing what the functor gave, and deleting the functor. */
    method Finish(n: nat, c: Cont, next: Option<nat>, r: Res, ghost rest: seq<Frame>) returns (ghost steps: seq<Step>)
      requires (c == Functor ==> n in p.links) && (c == Forward ==> next.Some?)
      requires Inv(p, At(Leaves(n, c, next, r) + rest))
      modifies this
      ensures Reaches(p, old(At(Leaves(n, c, next, r) + rest)), steps, At(rest)) && Inv(p, At(rest))
      ensures Unrun(nodes) <= Unrun(old(nodes))
      decreases Unrun(nodes), 6
    {
      hide Inv, Reaches, Exec;
      ghost var s0 := At(Leaves(n, c, next, r) + rest);
      if c == Forward {
        steps := FulfilLater(next.value, r, rest);
        return;
      }
      ghost var below := [Free(n)] + rest;
      if next.None? {
        steps := DeleteFunctor(n, rest);
        return;
      }
      var o := Eval(p, n, r);
      if o.Returns? {
        assert Leaves(n, c, next, r) + rest == [Resolve(next.value, o.res)] + below;
        steps := FulfilLater(next.value, o.res, below);
      } else {
        assert Leaves(n, c, next, r) + rest == [Splice(o.inner, next.value)] + ([Drive(o.inner)] + below);
        steps := SpliceReturned(o.inner, next.value, below);
      }
      ghost var s1 := At(below);
      ghost var more := DeleteFunctor(n, rest);
      ReachesTrans(p, s0, steps, s1, more, At(rest));
      steps := steps + more;
    }
  }
}
