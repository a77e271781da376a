/** Every step of every thread, of the executors and of the user keeps the laws of the engine. */
module FutureSafety {
  import opened Wrappers
  import opened FutureMachine
  import opened FutureLaws

  ghost predicate Inv(p: Program, s: State) {
    Shape(p, s) && Laws(p, s)
  }

  lemma InvAt(p: Program, s: State, i: nat)
    requires Inv(p, s) && i < p.size
    ensures Shape(p, s) && ValidProgram(p) && |s.nodes| == p.size && LawsAt(p, s, i) && NodeOk(p, s.nodes, i)
  {}

  lemma InvFrom(p: Program, s: State)
    requires Shape(p, s) && forall i :: 0 <= i < p.size ==> LawsAt(p, s, i)
    ensures Inv(p, s)
  {}

  lemma InvShape(p: Program, s: State)
    requires Inv(p, s)
    ensures Shape(p, s) && ValidProgram(p) && |s.nodes| == p.size && HandlesOk(p, s.handles)
  {}

  ghost predicate SameProgress(nodes: seq<Node>, nodes': seq<Node>) {
    |nodes| == |nodes'|
    && forall i :: 0 <= i < |nodes| ==> nodes'[i].runs == nodes[i].runs && nodes'[i].result == nodes[i].result
  }

  /** A slot whose progress is as it was, and whose continuation is gone, the same, or its own functor. */
  predicate SlotKept(p: Program, x: Node, x': Node, i: nat) {
    && x'.result == x.result && x'.runs == x.runs
    && (x'.notify.None? || (x'.notify == x.notify && x'.chain == x.chain && x'.exec == x.exec)
        || (x'.notify == Some(Functor) && i in p.links && x'.chain == ChainOf(p, i) && x'.exec == p.links[i].onExecutor))
  }

  ghost predicate Quiet(p: Program, nodes: seq<Node>, nodes': seq<Node>) {
    |nodes| == |nodes'| && forall i :: 0 <= i < |nodes| ==> SlotKept(p, nodes[i], nodes'[i], i)
  }

  lemma QuietExtends(p: Program, nodes: seq<Node>, nodes': seq<Node>)
    requires Quiet(p, nodes, nodes')
    ensures Extends(nodes, nodes') && SameProgress(nodes, nodes')
  {}

  lemma QuietNode(p: Program, nodes: seq<Node>, nodes': seq<Node>, i: nat)
    requires ValidProgram(p) && |nodes| == p.size && i < p.size && Quiet(p, nodes, nodes') && NodeOk(p, nodes, i)
    ensures NodeOk(p, nodes', i)
  {
    QuietExtends(p, nodes, nodes');
    assert SlotKept(p, nodes[i], nodes'[i], i);
    hide Quiet, ValidProgram, ChainOf;
  }

  ghost predicate HandlesOk(p: Program, handles: seq<Option<nat>>) {
    forall h :: 0 <= h < |handles| && handles[h].Some? ==> handles[h].value < p.size && handles[h].value !in p.pred
  }

  lemma ShapeParts(p: Program, s: State)
    requires Shape(p, s)
    ensures ValidProgram(p) && |s.nodes| == p.size && HandlesOk(p, s.handles)
    ensures forall i :: 0 <= i < p.size ==> NodeOk(p, s.nodes, i)
  {}

  // ---------------------------------------------------------------------------------------------
  // One frame of one thread
  // ---------------------------------------------------------------------------------------------

  /** The frame about to be executed is well-formed and counted. */
  lemma TopFrame(p: Program, s: State, t: nat, status: Status)
    requires Shape(p, s) && Enabled(p, s, Run(t, status))
    ensures FrameOk(p, s.nodes, s.threads[t].stack[0])
    ensures forall q: Query :: Count(q, s.threads) >= Weight(q, s.threads[t].stack[0])
  {
    assert ThreadOk(p, s.nodes, s.threads[t]);
    forall q: Query ensures Count(q, s.threads) >= Weight(q, s.threads[t].stack[0]) {
      CountMember(q, s.threads, t, 0);
    }
  }

  lemma ExecExtends(p: Program, s: State, t: nat, status: Status)
    requires Inv(p, s) && Enabled(p, s, Run(t, status))
    ensures Extends(s.nodes, Exec(p, s.nodes, s.threads[t].stack[0], status).nodes)
  {
    RunParts(p, s, t, status);
    hide Inv, Enabled, FrameOk, Executable, Do;
    FrameExtends(p, s.nodes, s.threads[t].stack[0], status);
  }

  lemma FrameExtends(p: Program, nodes: seq<Node>, f: Frame, status: Status)
    requires Executable(p, nodes, f)
    ensures Extends(nodes, Exec(p, nodes, f, status).nodes)
  {}

  /** What the proofs about one frame need to know of the step. */
  lemma RunParts(p: Program, s: State, t: nat, status: Status)
    requires Inv(p, s) && Enabled(p, s, Run(t, status))
    ensures t < |s.threads| && s.threads[t].stack != []
    ensures var (f, s') := (s.threads[t].stack[0], Do(p, s, Run(t, status)));
            && Executable(p, s.nodes, f) && FrameOk(p, s.nodes, f) && f.n < p.size
            && s'.nodes == Exec(p, s.nodes, f, status).nodes && |s'.nodes| == p.size && s'.handles == s.handles
  {
    TopFrame(p, s, t, status);
  }

  lemma ClaimExtends(p: Program, nodes: seq<Node>, nodes': seq<Node>, n: nat, c: Cont, next: Option<nat>)
    requires ValidProgram(p) && |nodes| == p.size && Extends(nodes, nodes') && ClaimOk(p, nodes, n, c, next)
    ensures ClaimOk(p, nodes', n, c, next)
    ensures StackOk(p, nodes', [Notify(n, c, next)] + DriveChain(next))
  {
    if c == Functor { assert n in p.links; } else { assert p.owner[n] in p.links; }
    assert next.Some? ==> next.value in p.pred;
  }

  /** Stack discipline: what the pushed frames wake is looked at by a frame below them. */
  lemma FollowedExec(p: Program, nodes: seq<Node>, st: seq<Frame>, status: Status)
    requires st != [] && Followed(st) && FrameInRange(p, |nodes|, st[0])
    requires st[0].Notify? ==> nodes[st[0].n].result.Some?
    ensures var e := Exec(p, nodes, st[0], status); Followed(e.push + st[1..]) && Followed(e.job)
  {
    var e := Exec(p, nodes, st[0], status);
    if st[0].Notify? {
      NotifyWoken(p, nodes, st[0], status, st[1..]);
    } else if st[0].Dispatch? {
      DispatchWoken(p, nodes, st[0], status, st[1..]);
      FollowedShort(e.job, []);
      assert e.job + [] == e.job;
    }
    FollowedShort(e.push, st[1..]);
  }

  lemma NotifyWoken(p: Program, nodes: seq<Node>, f: Frame, status: Status, rest: seq<Frame>)
    requires f.Notify? && FrameInRange(p, |nodes|, f) && nodes[f.n].result.Some?
    requires f.next.Some? ==> Drive(f.next.value) in rest
    ensures var e := Exec(p, nodes, f, status);
            |e.push| <= 3 && e.job == [] && forall i :: 0 <= i < |e.push| ==> WokenBy(e.push, rest, i)
  {}

  lemma DispatchWoken(p: Program, nodes: seq<Node>, f: Frame, status: Status, rest: seq<Frame>)
    requires f.Dispatch? && FrameInRange(p, |nodes|, f)
    ensures var e := Exec(p, nodes, f, status);
            && |e.push| <= 2 && |e.job| <= 2
            && (forall i :: 0 <= i < |e.push| ==> WokenBy(e.push, rest, i))
            && (forall i :: 0 <= i < |e.job| ==> WokenBy(e.job, [], i))
  {}

  ghost predicate WokenBy(push: seq<Frame>, rest: seq<Frame>, i: nat)
    requires i < |push|
  {
    Wakes(push[i]).Some? ==> Drive(Wakes(push[i]).value) in rest
                             || (i + 1 < |push| && push[i + 1] == Drive(Wakes(push[i]).value))
  }

  lemma FollowedShort(push: seq<Frame>, rest: seq<Frame>)
    requires |push| <= 3 && Followed(rest)
    requires |push| > 0 ==> WokenBy(push, rest, 0)
    requires |push| > 1 ==> WokenBy(push, rest, 1)
    requires |push| > 2 ==> WokenBy(push, rest, 2)
    ensures Followed(push + rest)
  {
    if push == [] {
      assert push + rest == rest;
    } else {
      var f, tail := push[0], push[1..];
      FollowedShort(tail, rest);
      assert |push| > 1 ==> push[1] in tail + rest;
      assert (push + rest)[1..] == tail + rest;
    }
  }

  /** The frames that a frame leaves behind are well-formed, and a deferred job has its form. */
  ghost predicate PushesOk(p: Program, nodes: seq<Node>, f: Frame, status: Status)
    requires ValidProgram(p) && Executable(p, nodes, f)
  {
    var e := Exec(p, nodes, f, status);
    && |e.nodes| == p.size && StackOk(p, e.nodes, e.push) && StackOk(p, e.nodes, e.job)
    && (e.job == [] || exists n, c, next :: e.job == [Notify(n, c, next)] + DriveChain(next))
  }

  lemma DrivePushes(p: Program, nodes: seq<Node>, f: Frame, status: Status)
    requires ValidProgram(p) && Executable(p, nodes, f) && FrameOk(p, nodes, f) && f.Drive? && NodeOk(p, nodes, f.n)
    ensures PushesOk(p, nodes, f, status)
  {
    var (x, e) := (nodes[f.n], Exec(p, nodes, f, status));
    FrameExtends(p, nodes, f, status);
    if x.result.Some? && x.notify.Some? {
      ClaimExtends(p, nodes, e.nodes, f.n, x.notify.value, x.chain);
    }
    hide ValidProgram;
  }

  lemma DispatchPushes(p: Program, nodes: seq<Node>, f: Frame, status: Status)
    requires ValidProgram(p) && Executable(p, nodes, f) && FrameOk(p, nodes, f) && f.Dispatch?
    ensures PushesOk(p, nodes, f, status)
  {
    var e := Exec(p, nodes, f, status);
    FrameExtends(p, nodes, f, status);
    ClaimExtends(p, nodes, e.nodes, f.n, f.c, f.next);
    if status == Defer { assert e.job == [Notify(f.n, f.c, f.next)] + DriveChain(f.next); }
    hide ValidProgram;
  }

  lemma NotifyPushes(p: Program, nodes: seq<Node>, f: Frame, status: Status)
    requires ValidProgram(p) && Executable(p, nodes, f) && FrameOk(p, nodes, f) && f.Notify?
    ensures PushesOk(p, nodes, f, status)
  {
    var e := Exec(p, nodes, f, status);
    FrameExtends(p, nodes, f, status);
    if f.c == Functor && f.next.Some? {
      assert p.links[f.n].next in p.pred;
      var o := Eval(p, f.n, nodes[f.n].result.value);
      if o.ReturnsFuture? {
        assert o == p.call(f.n, nodes[f.n].result.value);
        assert Spliced(p, e.nodes, o.inner, f.next);
      }
    } else if f.c == Forward {
      assert p.links[p.owner[f.n]].next in p.pred;
    }
  }

  lemma OtherPushes(p: Program, nodes: seq<Node>, f: Frame, status: Status)
    requires ValidProgram(p) && Executable(p, nodes, f) && FrameOk(p, nodes, f) && !f.Drive? && !f.Dispatch? && !f.Notify?
    ensures PushesOk(p, nodes, f, status)
  {}

  lemma ExecPushes(p: Program, s: State, t: nat, status: Status)
    requires Inv(p, s) && Enabled(p, s, Run(t, status))
    ensures var f := s.threads[t].stack[0]; Executable(p, s.nodes, f) && PushesOk(p, s.nodes, f, status)
  {
    RunParts(p, s, t, status);
    var f := s.threads[t].stack[0];
    InvAt(p, s, f.n);
    hide Inv, Shape, Do, Enabled, ValidProgram, Executable, FrameOk, NodeOk, PushesOk;
    if f.Drive? {
      DrivePushes(p, s.nodes, f, status);
    } else if f.Dispatch? {
      DispatchPushes(p, s.nodes, f, status);
    } else if f.Notify? {
      NotifyPushes(p, s.nodes, f, status);
    } else {
      OtherPushes(p, s.nodes, f, status);
    }
  }

  predicate QuietFrame(f: Frame) { f.Drive? || f.Dispatch? || f.Free? || f.CheckBroken? }

  lemma FrameIsQuiet(p: Program, nodes: seq<Node>, f: Frame, status: Status)
    requires Executable(p, nodes, f) && QuietFrame(f)
    ensures Quiet(p, nodes, Exec(p, nodes, f, status).nodes)
  {}

  lemma ResolveNode(p: Program, nodes: seq<Node>, n: nat, r: Res, status: Status, i: nat)
    requires ValidProgram(p) && |nodes| == p.size && i < p.size && FrameOk(p, nodes, Resolve(n, r)) && NodeOk(p, nodes, i)
    ensures NodeOk(p, Exec(p, nodes, Resolve(n, r), status).nodes, i)
  {
    FrameExtends(p, nodes, Resolve(n, r), status);
    hide ValidProgram;
  }

  lemma SpliceNode(p: Program, nodes: seq<Node>, k: nat, m: nat, status: Status, i: nat)
    requires ValidProgram(p) && |nodes| == p.size && i < p.size && FrameOk(p, nodes, Splice(k, m)) && NodeOk(p, nodes, i)
    ensures NodeOk(p, Exec(p, nodes, Splice(k, m), status).nodes, i)
  {
    FrameExtends(p, nodes, Splice(k, m), status);
    hide ValidProgram;
  }

  lemma NotifyNode(p: Program, nodes: seq<Node>, f: Frame, status: Status, i: nat)
    requires ValidProgram(p) && i < p.size && Executable(p, nodes, f) && f.Notify? && NodeOk(p, nodes, i)
    ensures NodeOk(p, Exec(p, nodes, f, status).nodes, i)
  {
    FrameExtends(p, nodes, f, status);
    var x' := Exec(p, nodes, f, status).nodes[i];
    assert x'.result == nodes[i].result && x'.notify == nodes[i].notify && x'.chain == nodes[i].chain && x'.exec == nodes[i].exec;
    assert x'.runs >= 1 ==> x'.result.Some?;
    hide ValidProgram, Exec;
  }

  lemma ExecNodes(p: Program, s: State, t: nat, status: Status, i: nat)
    requires Inv(p, s) && Enabled(p, s, Run(t, status)) && i < p.size
    ensures var e := Exec(p, s.nodes, s.threads[t].stack[0], status);
            |e.nodes| == p.size && NodeOk(p, e.nodes, i)
  {
    RunParts(p, s, t, status);
    InvAt(p, s, i);
    var f := s.threads[t].stack[0];
    hide Inv, Shape, Exec, FrameOk, Do, Enabled, ValidProgram, Quiet;
    if f.Resolve? {
      ResolveNode(p, s.nodes, f.n, f.r, status, i);
    } else if f.Splice? {
      SpliceNode(p, s.nodes, f.n, f.m, status, i);
    } else if f.Notify? {
      NotifyNode(p, s.nodes, f, status, i);
    } else {
      FrameIsQuiet(p, s.nodes, f, status);
      QuietNode(p, s.nodes, Exec(p, s.nodes, f, status).nodes, i);
    }
  }

  lemma ShapeFrames(p: Program, s: State)
    requires Shape(p, s)
    ensures forall t :: 0 <= t < |s.threads| ==> ThreadOk(p, s.nodes, s.threads[t])
  {}

  lemma ThreadExtends(p: Program, nodes: seq<Node>, nodes': seq<Node>, th: Thread)
    requires ValidProgram(p) && |nodes| == p.size && Extends(nodes, nodes') && ThreadOk(p, nodes, th)
    ensures ThreadOk(p, nodes', th)
  {
    assert |nodes'| == p.size;
    hide ValidProgram, FrameOk, Followed, Extends;
    forall i | 0 <= i < |th.stack| ensures FrameOk(p, nodes', th.stack[i]) { FrameOkExtends(p, nodes, nodes', th.stack[i]); }
  }

  lemma StackConcat(p: Program, nodes: seq<Node>, a: seq<Frame>, b: seq<Frame>)
    requires ValidProgram(p) && |nodes| == p.size && StackOk(p, nodes, a) && StackOk(p, nodes, b)
    ensures StackOk(p, nodes, a + b)
  {
    hide ValidProgram, FrameOk;
    var all := a + b;
    forall i | 0 <= i < |all| ensures FrameOk(p, nodes, all[i]) {
      if i < |a| { assert all[i] == a[i]; } else { assert all[i] == b[i - |a|]; }
    }
  }

  lemma StackTail(p: Program, nodes: seq<Node>, th: Thread)
    requires ValidProgram(p) && |nodes| == p.size && ThreadOk(p, nodes, th) && th.stack != []
    ensures StackOk(p, nodes, th.stack[1..]) && Followed(th.stack)
  {
    hide ValidProgram, FrameOk;
  }

  lemma JobThread(p: Program, nodes: seq<Node>, job: seq<Frame>)
    requires ValidProgram(p) && |nodes| == p.size && StackOk(p, nodes, job) && Followed(job)
    requires exists n, c, next :: job == [Notify(n, c, next)] + DriveChain(next)
    ensures ThreadOk(p, nodes, Thread(job, true))
  {}

  /** The stack of the thread that ran, and the job that it may have spawned. */
  lemma RunStacks(p: Program, s: State, t: nat, status: Status)
    requires Inv(p, s) && Enabled(p, s, Run(t, status))
    ensures t < |s.threads| && s.threads[t].stack != []
    ensures var st := s.threads[t].stack;
            FrameInRange(p, |s.nodes|, st[0]) && (st[0].Notify? ==> s.nodes[st[0].n].result.Some?)
            && var e := Exec(p, s.nodes, st[0], status);
               && |e.nodes| == p.size && ThreadOk(p, e.nodes, Thread(e.push + st[1..], false))
               && (e.job != [] ==> ThreadOk(p, e.nodes, Thread(e.job, true)))
  {
    RunParts(p, s, t, status);
    InvShape(p, s);
    var st := s.threads[t].stack;
    var e := Exec(p, s.nodes, st[0], status);
    ShapeFrames(p, s);
    StackTail(p, s.nodes, s.threads[t]);
    ExecExtends(p, s, t, status);
    ExecPushes(p, s, t, status);
    FollowedExec(p, s.nodes, st, status);
    hide Inv, Shape, Do, Exec, Enabled, ValidProgram, FrameOk, Followed, StackOk;
    TailExtends(p, s.nodes, e.nodes, st[1..]);
    StackConcat(p, e.nodes, e.push, st[1..]);
    if e.job != [] { JobThread(p, e.nodes, e.job); }
  }

  lemma TailExtends(p: Program, nodes: seq<Node>, nodes': seq<Node>, st: seq<Frame>)
    requires ValidProgram(p) && |nodes| == p.size && Extends(nodes, nodes') && StackOk(p, nodes, st)
    ensures StackOk(p, nodes', st)
  {
    assert |nodes'| == p.size;
    hide ValidProgram, FrameOk, Extends;
    forall i | 0 <= i < |st| ensures FrameOk(p, nodes', st[i]) { FrameOkExtends(p, nodes, nodes', st[i]); }
  }

  /** The thread that ran, the threads that did not, and the job that was spawned are well-formed. */
  lemma RunKeepsThreads(p: Program, s: State, t: nat, status: Status, u: nat)
    requires Inv(p, s) && Enabled(p, s, Run(t, status)) && u < |Do(p, s, Run(t, status)).threads|
    ensures var s' := Do(p, s, Run(t, status)); |s'.nodes| == p.size && ThreadOk(p, s'.nodes, s'.threads[u])
  {
    RunParts(p, s, t, status);
    InvShape(p, s);
    RunStacks(p, s, t, status);
    ExecExtends(p, s, t, status);
    ShapeFrames(p, s);
    var s' := Do(p, s, Run(t, status));
    if u < |s.threads| && u != t {
      assert s'.threads[u] == s.threads[u];
      ThreadExtends(p, s.nodes, s'.nodes, s.threads[u]);
    }
    hide Inv, Shape, Exec, ValidProgram, FrameOk, Followed, ThreadOk;
  }

  lemma RunKeepsShape(p: Program, s: State, t: nat, status: Status)
    requires Inv(p, s) && Enabled(p, s, Run(t, status))
    ensures Shape(p, Do(p, s, Run(t, status)))
  {
    RunParts(p, s, t, status);
    InvShape(p, s);
    hide Inv, Do, Exec, Enabled, ValidProgram, FrameOk, Executable, NodeOk, ThreadOk;
    var s' := Do(p, s, Run(t, status));
    forall i | 0 <= i < p.size ensures NodeOk(p, s'.nodes, i) { ExecNodes(p, s, t, status, i); }
    forall u | 0 <= u < |s'.threads| ensures ThreadOk(p, s'.nodes, s'.threads[u]) { RunKeepsThreads(p, s, t, status, u); }
  }

  // ---------------------------------------------------------------------------------------------
  // What one frame adds to each count
  // ---------------------------------------------------------------------------------------------

  ghost predicate Executable(p: Program, nodes: seq<Node>, f: Frame) {
    && FrameInRange(p, |nodes|, f) && |nodes| == p.size
    && (f.Notify? ==> nodes[f.n].result.Some?)
  }

  /** The future a functor returns when frame f runs it. */
  ghost function Returned(p: Program, nodes: seq<Node>, f: Frame): Option<nat>
    requires Executable(p, nodes, f)
  {
    if f.Notify? && f.c == Functor && f.next.Some? && Eval(p, f.n, nodes[f.n].result.value).ReturnsFuture?
    then Some(Eval(p, f.n, nodes[f.n].result.value).inner) else None
  }

  ghost predicate Claims(p: Program, nodes: seq<Node>, f: Frame)
    requires Executable(p, nodes, f)
  {
    f.Drive? && nodes[f.n].result.Some? && nodes[f.n].notify.Some?
  }

  ghost function Gain(p: Program, nodes: seq<Node>, f: Frame, status: Status, q: Query): nat
    requires !q.QCost? && Executable(p, nodes, f)
  {
    match q
    case QDrive(i) =>
      Bit((Claims(p, nodes, f) && !nodes[f.n].exec && nodes[f.n].chain == Some(i))
          || (f.Dispatch? && status != Cancel && f.next == Some(i))
          || Returned(p, nodes, f) == Some(i)
          || (f == CheckBroken(i) && nodes[i].result.None?))
    case QClaim(i) => Bit(f.n == i && (Claims(p, nodes, f) || (f.Dispatch? && status != Cancel)))
    case QSplice(i) => Bit(Returned(p, nodes, f) == Some(i))
    case QFunctor(i) =>
      Bit(f.n == i && ((Claims(p, nodes, f) && nodes[i].notify == Some(Functor))
                       || (f.Dispatch? && f.c == Functor) || (f.Notify? && f.c == Functor)))
    case QResolve(i) =>
      Bit((f.Notify? && f.next == Some(i) && Returned(p, nodes, f).None?)
          || (f == CheckBroken(i) && nodes[i].result.None?))
    case QBroken(i) => 0
  }

  lemma ExecGain(p: Program, nodes: seq<Node>, f: Frame, status: Status, q: Query)
    requires !q.QCost? && Executable(p, nodes, f)
    ensures var e := Exec(p, nodes, f, status);
            CountStack(q, e.push) + CountStack(q, e.job) == Gain(p, nodes, f, status, q)
  {
    var e := Exec(p, nodes, f, status);
    CountShort(q, e.push);
    CountShort(q, e.job);
    if f.Drive? {
      ExecGainDrive(p, nodes, f, status, q);
    } else if f.Dispatch? {
      ExecGainDispatch(p, nodes, f, status, q);
    } else if f.Notify? {
      ExecGainNotify(p, nodes, f, status, q);
    }
  }

  lemma ExecGainDrive(p: Program, nodes: seq<Node>, f: Frame, status: Status, q: Query)
    requires !q.QCost? && Executable(p, nodes, f) && f.Drive?
    ensures CountStack(q, Exec(p, nodes, f, status).push) == Gain(p, nodes, f, status, q)
  {
    var e := Exec(p, nodes, f, status);
    CountShort(q, e.push);
  }

  lemma ExecGainDispatch(p: Program, nodes: seq<Node>, f: Frame, status: Status, q: Query)
    requires !q.QCost? && Executable(p, nodes, f) && f.Dispatch?
    ensures var e := Exec(p, nodes, f, status);
            CountStack(q, e.push) + CountStack(q, e.job) == Gain(p, nodes, f, status, q)
  {
    var e := Exec(p, nodes, f, status);
    CountShort(q, e.push);
    CountShort(q, e.job);
  }

  lemma ExecGainNotify(p: Program, nodes: seq<Node>, f: Frame, status: Status, q: Query)
    requires !q.QCost? && Executable(p, nodes, f) && f.Notify?
    ensures CountStack(q, Exec(p, nodes, f, status).push) == Gain(p, nodes, f, status, q)
  {
    var e := Exec(p, nodes, f, status);
    CountShort(q, e.push);
  }

  /** The balance of one count over one step. */
  lemma RunBalance(p: Program, s: State, t: nat, status: Status, q: Query)
    requires !q.QCost? && Shape(p, s) && Enabled(p, s, Run(t, status))
    ensures var f := s.threads[t].stack[0];
            && Executable(p, s.nodes, f) && FrameOk(p, s.nodes, f)
            && Count(q, s.threads) >= Weight(q, f)
            && Count(q, Do(p, s, Run(t, status)).threads) + Weight(q, f)
               == Count(q, s.threads) + Gain(p, s.nodes, f, status, q)
  {
    TopFrame(p, s, t, status);
    CountRun(p, s, t, status, q);
    ExecGain(p, s.nodes, s.threads[t].stack[0], status, q);
  }

  /** A returned future is a node other than the one whose functor ran, and is still held. */
  ghost predicate ReturnHeld(p: Program, nodes: seq<Node>, f: Frame)
    requires Executable(p, nodes, f) && ValidProgram(p)
  {
    Returned(p, nodes, f).Some? ==>
      var k := Returned(p, nodes, f).value;
      k < p.size && k != f.n && k in p.owner && p.owner[k] == f.n
      && nodes[f.n].runs == 0 && nodes[k].future && nodes[k].runs == 0
  }

  lemma ReturnedIsHeld(p: Program, s: State, t: nat, status: Status)
    requires Inv(p, s) && Enabled(p, s, Run(t, status))
    ensures Executable(p, s.nodes, s.threads[t].stack[0]) && ReturnHeld(p, s.nodes, s.threads[t].stack[0])
  {
    var f := s.threads[t].stack[0];
    RunBalance(p, s, t, status, QClaim(f.n));
    if Returned(p, s.nodes, f).Some? {
      assert LawsAt(p, s, f.n);
      assert Eval(p, f.n, s.nodes[f.n].result.value) == p.call(f.n, s.nodes[f.n].result.value);
      assert LawsAt(p, s, Returned(p, s.nodes, f).value);
    }
  }

  /** The stage law of node i around one frame, with the counts the frame leaves and takes. */
  ghost predicate StageBefore(p: Program, nodes: seq<Node>, f: Frame, i: nat, splices: nat, claims: nat)
    requires Executable(p, nodes, f) && i < p.size
  {
    && splices >= Weight(QSplice(i), f) && claims >= Weight(QClaim(i), f)
    && Bit(nodes[i].future) + splices + Bit(nodes[i].notify.Some?) + claims + nodes[i].runs + nodes[i].drops == 1
  }

  ghost predicate StageAfter(p: Program, nodes: seq<Node>, f: Frame, status: Status, i: nat, splices: nat, claims: nat)
    requires Executable(p, nodes, f) && i < p.size
  {
    var nodes' := Exec(p, nodes, f, status).nodes;
    |nodes'| == p.size
    && Bit(nodes'[i].future) + splices + Gain(p, nodes, f, status, QSplice(i)) - Weight(QSplice(i), f)
       + Bit(nodes'[i].notify.Some?) + claims + Gain(p, nodes, f, status, QClaim(i)) - Weight(QClaim(i), f)
       + nodes'[i].runs + nodes'[i].drops == 1
  }

  lemma StageNotify(p: Program, nodes: seq<Node>, f: Frame, status: Status, i: nat, splices: nat, claims: nat)
    requires Executable(p, nodes, f) && ValidProgram(p) && ReturnHeld(p, nodes, f) && f.Notify? && i < p.size
    requires StageBefore(p, nodes, f, i, splices, claims)
    ensures StageAfter(p, nodes, f, status, i, splices, claims)
  {
    hide ValidProgram;
  }

  lemma StageQuiet(p: Program, nodes: seq<Node>, f: Frame, status: Status, i: nat, splices: nat, claims: nat)
    requires Executable(p, nodes, f) && (f.Drive? || f.Dispatch?) && i < p.size
    requires StageBefore(p, nodes, f, i, splices, claims)
    ensures StageAfter(p, nodes, f, status, i, splices, claims)
  {
    if f.Dispatch? && status == Cancel {}
  }

  lemma StageOther(p: Program, nodes: seq<Node>, f: Frame, status: Status, i: nat, splices: nat, claims: nat)
    requires Executable(p, nodes, f) && !f.Notify? && !f.Drive? && !f.Dispatch? && i < p.size
    requires StageBefore(p, nodes, f, i, splices, claims)
    ensures StageAfter(p, nodes, f, status, i, splices, claims)
  {}

  lemma StageStep(p: Program, nodes: seq<Node>, f: Frame, status: Status, i: nat, splices: nat, claims: nat)
    requires Executable(p, nodes, f) && ValidProgram(p) && ReturnHeld(p, nodes, f) && i < p.size
    requires StageBefore(p, nodes, f, i, splices, claims)
    ensures StageAfter(p, nodes, f, status, i, splices, claims)
  {
    hide Executable, ReturnHeld, ValidProgram, StageBefore, StageAfter;
    if f.Notify? {
      StageNotify(p, nodes, f, status, i, splices, claims);
    } else if f.Drive? || f.Dispatch? {
      StageQuiet(p, nodes, f, status, i, splices, claims);
    } else {
      StageOther(p, nodes, f, status, i, splices, claims);
    }
  }

  lemma RunKeepsStage(p: Program, s: State, t: nat, status: Status, i: nat)
    requires Inv(p, s) && Enabled(p, s, Run(t, status)) && i < p.size
    ensures var s' := Do(p, s, Run(t, status)); |s'.nodes| == p.size && StageLaw(s'.nodes[i], TallyOf(s'.threads, i))
  {
    RunParts(p, s, t, status);
    InvAt(p, s, i);
    RunBalance(p, s, t, status, QSplice(i));
    RunBalance(p, s, t, status, QClaim(i));
    ReturnedIsHeld(p, s, t, status);
    hide Inv, Shape, Do, Exec, Enabled, ValidProgram, Executable, FrameOk, NodeOk, ReturnHeld, Gain, Weight;
    StageStep(p, s.nodes, s.threads[t].stack[0], status, i, Count(QSplice(i), s.threads), Count(QClaim(i), s.threads));
  }

  lemma FunctorQuiet(p: Program, nodes: seq<Node>, f: Frame, status: Status, i: nat)
    requires Executable(p, nodes, f) && i < p.size && QuietFrame(f)
    ensures FunctorMoves(p, nodes, f, status, i)
  {}

  lemma FunctorNotify(p: Program, nodes: seq<Node>, f: Frame, status: Status, i: nat)
    requires Executable(p, nodes, f) && i < p.size && f.Notify?
    ensures FunctorMoves(p, nodes, f, status, i)
  {}

  lemma FunctorOther(p: Program, nodes: seq<Node>, f: Frame, status: Status, i: nat)
    requires Executable(p, nodes, f) && i < p.size && (f.Resolve? || (f.Splice? && (f.n == i ==> nodes[i].notify.None?)))
    ensures FunctorMoves(p, nodes, f, status, i)
  {}

  /** A functor that leaves the slot of node i, or a frame, is carried by a new frame or was deleted. */
  ghost predicate FunctorMoves(p: Program, nodes: seq<Node>, f: Frame, status: Status, i: nat)
    requires Executable(p, nodes, f) && i < p.size
  {
    var nodes' := Exec(p, nodes, f, status).nodes;
    && |nodes'| == p.size && nodes'[i].allocs == nodes[i].allocs
    && nodes'[i].frees + Bit(nodes'[i].notify == Some(Functor)) + Gain(p, nodes, f, status, QFunctor(i))
       == nodes[i].frees + Bit(nodes[i].notify == Some(Functor)) + Weight(QFunctor(i), f)
  }

  lemma FunctorStep(p: Program, nodes: seq<Node>, f: Frame, status: Status, i: nat)
    requires Executable(p, nodes, f) && i < p.size
    requires f.Splice? && f.n == i ==> nodes[i].notify.None?
    ensures FunctorMoves(p, nodes, f, status, i)
  {
    hide Executable, FunctorMoves;
    if f.Notify? {
      FunctorNotify(p, nodes, f, status, i);
    } else if f.Resolve? || f.Splice? {
      FunctorOther(p, nodes, f, status, i);
    } else {
      FunctorQuiet(p, nodes, f, status, i);
    }
  }

  lemma RunKeepsFunctor(p: Program, s: State, t: nat, status: Status, i: nat)
    requires Inv(p, s) && Enabled(p, s, Run(t, status)) && i < p.size
    ensures var s' := Do(p, s, Run(t, status)); |s'.nodes| == p.size && FunctorLaw(s'.nodes[i], TallyOf(s'.threads, i))
  {
    RunParts(p, s, t, status);
    InvAt(p, s, i);
    RunBalance(p, s, t, status, QFunctor(i));
    RunBalance(p, s, t, status, QSplice(i));
    hide Inv, Shape, Do, Exec, Enabled, ValidProgram, Executable, FrameOk, NodeOk, Gain;
    FunctorStep(p, s.nodes, s.threads[t].stack[0], status, i);
  }

  lemma PromiseStep(p: Program, nodes: seq<Node>, handles: seq<Option<nat>>, f: Frame, status: Status, i: nat,
                    c: Tally, c': Tally)
    requires Executable(p, nodes, f) && i < p.size && PromiseLaw(p, nodes[i], handles, i, c)
    requires c'.resolves + Weight(QResolve(i), f) >= c.resolves + Bit(f == CheckBroken(i) && nodes[i].result.None?)
    requires c'.brokens + Weight(QBroken(i), f) == c.brokens
    ensures PromiseLaw(p, Exec(p, nodes, f, status).nodes[i], handles, i, c')
  {
    var x := Exec(p, nodes, f, status).nodes[i];
    assert x.promises == nodes[i].promises && (x.result.None? ==> nodes[i].result.None?);
    assert x.result.None? ==> Weight(QResolve(i), f) == 0;
  }

  lemma RunKeepsPromise(p: Program, s: State, t: nat, status: Status, i: nat)
    requires Inv(p, s) && Enabled(p, s, Run(t, status)) && i < p.size
    ensures var s' := Do(p, s, Run(t, status));
            |s'.nodes| == p.size && PromiseLaw(p, s'.nodes[i], s'.handles, i, TallyOf(s'.threads, i))
  {
    RunParts(p, s, t, status);
    InvAt(p, s, i);
    RunBalance(p, s, t, status, QResolve(i));
    RunBalance(p, s, t, status, QBroken(i));
    hide Inv, Shape, Do, Exec, Enabled, ValidProgram, FrameOk, NodeOk, PromiseLaw;
    PromiseStep(p, s.nodes, s.handles, s.threads[t].stack[0], status, i, TallyOf(s.threads, i),
                TallyOf(Do(p, s, Run(t, status)).threads, i));
  }

  lemma RunKeepsOwner(p: Program, s: State, t: nat, status: Status, i: nat)
    requires Inv(p, s) && Enabled(p, s, Run(t, status)) && i < p.size
    ensures var s' := Do(p, s, Run(t, status)); |s'.nodes| == p.size && OwnerLaw(p, s'.nodes, i)
  {
    RunParts(p, s, t, status);
    InvAt(p, s, i);
    if i in p.owner {
      var n := p.owner[i];
      assert n < p.size;
      InvAt(p, s, n);
      ReturnedIsHeld(p, s, t, status);
      OwnerStep(p, s.nodes, s.threads[t].stack[0], status, i);
    }
    hide Inv, Shape, Do, Exec, Enabled, ValidProgram, Executable, FrameOk, ReturnHeld;
  }

  lemma OwnerStep(p: Program, nodes: seq<Node>, f: Frame, status: Status, k: nat)
    requires Executable(p, nodes, f) && ValidProgram(p) && ReturnHeld(p, nodes, f) && FrameOk(p, nodes, f)
    requires k < p.size && k in p.owner
    requires var n := p.owner[k];
             && (!nodes[k].future ==> nodes[n].runs + nodes[n].drops >= 1)
             && (nodes[n].runs >= 1 ==> nodes[n].result.Some?)
             && ((nodes[n].runs >= 1 && Eval(p, n, nodes[n].result.value) == ReturnsFuture(k)) ==> !nodes[k].future)
    ensures var nodes' := Exec(p, nodes, f, status).nodes;
            var n := p.owner[k];
            && |nodes'| == p.size
            && (!nodes'[k].future ==> nodes'[n].runs + nodes'[n].drops >= 1)
            && ((nodes'[n].runs >= 1 && nodes'[n].result.Some?
                 && Eval(p, n, nodes'[n].result.value) == ReturnsFuture(k)) ==> !nodes'[k].future)
  {}

  ghost predicate DeliveryKept(p: Program, nodes: seq<Node>, f: Frame, status: Status, m: nat, r: nat)
    requires Executable(p, nodes, f) && ValidProgram(p) && m in p.pred
  {
    var nodes' := Exec(p, nodes, f, status).nodes;
    |nodes'| == p.size
    && r + Gain(p, nodes, f, status, QResolve(m)) - Weight(QResolve(m), f)
       + Bit(nodes'[m].result.Some?) == Delivered(p, nodes', m)
  }

  /** Without running a continuation nothing is delivered. */
  lemma NothingDelivered(p: Program, nodes: seq<Node>, f: Frame, status: Status, m: nat)
    requires Executable(p, nodes, f) && ValidProgram(p) && !f.Notify?
    requires m in p.pred && (nodes[p.pred[m]].runs >= 1 ==> nodes[p.pred[m]].result.Some?)
    ensures var nodes' := Exec(p, nodes, f, status).nodes;
            |nodes'| == p.size && Delivered(p, nodes', m) == Delivered(p, nodes, m)
  {
    var nodes' := Exec(p, nodes, f, status).nodes;
    var n := p.pred[m];
    assert nodes'[n].runs == nodes[n].runs && (nodes[n].result.Some? ==> nodes'[n].result == nodes[n].result);
    assert forall k :: 0 <= k < p.size ==> nodes'[k].runs == nodes[k].runs;
  }

  /** Anything but running a continuation: a resolution turns from pending into stored. */
  lemma DeliveryOther(p: Program, nodes: seq<Node>, f: Frame, status: Status, m: nat, r: nat)
    requires Executable(p, nodes, f) && ValidProgram(p) && FrameOk(p, nodes, f) && !f.Notify?
    requires m < p.size && m in p.pred && r >= Weight(QResolve(m), f)
    requires NodeOk(p, nodes, p.pred[m])
    requires r + Bit(nodes[m].result.Some?) == Delivered(p, nodes, m) <= 1
    ensures DeliveryKept(p, nodes, f, status, m, r)
  {
    NothingDelivered(p, nodes, f, status, m);
    assert f.CheckBroken? ==> f.n != m;
  }

  lemma DeliveryFunctor(p: Program, nodes: seq<Node>, f: Frame, status: Status, m: nat, r: nat)
    requires Executable(p, nodes, f) && ValidProgram(p) && ReturnHeld(p, nodes, f) && FrameOk(p, nodes, f)
    requires f.Notify? && f.c == Functor && nodes[f.n].runs == 0
    requires m < p.size && m in p.pred
    requires r + Bit(nodes[m].result.Some?) == Delivered(p, nodes, m)
    ensures DeliveryKept(p, nodes, f, status, m, r)
  {
    FunctorAt(p, nodes, f, m);
    if f.n == p.pred[m] {
      DeliveryOwnFunctor(p, nodes, f, status, m, r);
    } else {
      DeliveryOtherFunctor(p, nodes, f, status, m, r);
    }
    hide ValidProgram, Exec, Delivered;
  }

  lemma FunctorAt(p: Program, nodes: seq<Node>, f: Frame, m: nat)
    requires ValidProgram(p) && Executable(p, nodes, f) && FrameOk(p, nodes, f) && f.Notify? && f.c == Functor && m in p.pred
    ensures f.n in p.links && f.n !in p.owner && (f.n == p.pred[m] <==> f.next == Some(m))
  {}

  lemma DeliveryOtherFunctor(p: Program, nodes: seq<Node>, f: Frame, status: Status, m: nat, r: nat)
    requires Executable(p, nodes, f) && ValidProgram(p) && ReturnHeld(p, nodes, f) && f.n !in p.owner
    requires f.Notify? && f.c == Functor && f.next != Some(m) && nodes[f.n].runs == 0
    requires m < p.size && m in p.pred && f.n != p.pred[m]
    requires r + Bit(nodes[m].result.Some?) == Delivered(p, nodes, m)
    ensures DeliveryKept(p, nodes, f, status, m, r)
  {
    assert Delivered(p, Exec(p, nodes, f, status).nodes, m) == Delivered(p, nodes, m);
  }

  lemma DeliveryOwnFunctor(p: Program, nodes: seq<Node>, f: Frame, status: Status, m: nat, r: nat)
    requires Executable(p, nodes, f) && ValidProgram(p) && ReturnHeld(p, nodes, f)
    requires f.Notify? && f.c == Functor && nodes[f.n].runs == 0
    requires m < p.size && m in p.pred && f.n == p.pred[m] && f.next == Some(m)
    requires r + Bit(nodes[m].result.Some?) == 0
    ensures DeliveryKept(p, nodes, f, status, m, r)
  {
    var nodes' := Exec(p, nodes, f, status).nodes;
    assert nodes'[f.n].runs == 1 && nodes'[f.n].result == nodes[f.n].result;
    if Returned(p, nodes, f).Some? {
      assert nodes'[Returned(p, nodes, f).value].runs == 0;
    }
  }

  lemma DeliveryForward(p: Program, nodes: seq<Node>, f: Frame, status: Status, m: nat, r: nat)
    requires Executable(p, nodes, f) && ValidProgram(p) && FrameOk(p, nodes, f)
    requires f.Notify? && f.c == Forward && nodes[f.n].runs == 0
    requires m < p.size && m in p.pred
    requires r + Bit(nodes[m].result.Some?) == Delivered(p, nodes, m)
    ensures DeliveryKept(p, nodes, f, status, m, r)
  {
    var nodes' := Exec(p, nodes, f, status).nodes;
    assert f.n in p.owner && f.n !in p.links;
    if f.next == Some(m) {
      assert p.pred[m] == p.owner[f.n];
      assert Delivered(p, nodes, m) == 0 && Delivered(p, nodes', m) == 1;
    } else {
      assert p.pred[m] != p.owner[f.n];
      assert Delivered(p, nodes', m) == Delivered(p, nodes, m);
    }
  }

  lemma DeliveredAtMostOnce(p: Program, s: State, m: nat)
    requires Inv(p, s) && m in p.pred
    ensures m < p.size && Delivered(p, s.nodes, m) <= 1
  {
    var n := p.pred[m];
    assert LawsAt(p, s, n);
    if s.nodes[n].runs >= 1 {
      assert NodeOk(p, s.nodes, n);
      var o := Eval(p, n, s.nodes[n].result.value);
      if o.ReturnsFuture? && o.inner in p.owner { assert LawsAt(p, s, o.inner); }
    }
  }

  lemma PredInRange(p: Program, m: nat)
    requires ValidProgram(p) && m in p.pred
    ensures p.pred[m] < p.size && m < p.size
  {}

  lemma RunKeepsDelivery(p: Program, s: State, t: nat, status: Status, i: nat)
    requires Inv(p, s) && Enabled(p, s, Run(t, status)) && i < p.size && i in p.pred
    ensures var f := s.threads[t].stack[0];
            Executable(p, s.nodes, f)
            && DeliveryKept(p, s.nodes, f, status, i, Count(QResolve(i), s.threads))
  {
    var f := s.threads[t].stack[0];
    var r := Count(QResolve(i), s.threads);
    RunParts(p, s, t, status);
    InvAt(p, s, i);
    InvAt(p, s, f.n);
    PredInRange(p, i);
    InvAt(p, s, p.pred[i]);
    RunBalance(p, s, t, status, QClaim(f.n));
    RunBalance(p, s, t, status, QResolve(i));
    ReturnedIsHeld(p, s, t, status);
    DeliveredAtMostOnce(p, s, i);
    hide Inv, Shape, Do, Exec, Enabled, ValidProgram, Executable, FrameOk, NodeOk, Delivered, Gain, DeliveryKept, ReturnHeld;
    if !f.Notify? {
      DeliveryOther(p, s.nodes, f, status, i, r);
    } else if f.c == Functor {
      DeliveryFunctor(p, s.nodes, f, status, i, r);
    } else {
      DeliveryForward(p, s.nodes, f, status, i, r);
    }
  }

  lemma WinsStep(p: Program, nodes: seq<Node>, f: Frame, status: Status, i: nat)
    requires Executable(p, nodes, f) && i < p.size && nodes[i].wins == Bit(nodes[i].result.Some?)
    ensures var x := Exec(p, nodes, f, status).nodes[i]; x.wins == Bit(x.result.Some?)
  {}

  lemma RunKeepsDeliveryLaw(p: Program, s: State, t: nat, status: Status, i: nat)
    requires Inv(p, s) && Enabled(p, s, Run(t, status)) && i < p.size
    ensures var s' := Do(p, s, Run(t, status)); |s'.nodes| == p.size && DeliveryLaw(p, s'.nodes, i, TallyOf(s'.threads, i))
  {
    RunParts(p, s, t, status);
    InvAt(p, s, i);
    WinsStep(p, s.nodes, s.threads[t].stack[0], status, i);
    if i in p.pred {
      RunKeepsDelivery(p, s, t, status, i);
      RunBalance(p, s, t, status, QResolve(i));
    }
    hide Inv, Shape, Do, Exec, Enabled, ValidProgram, Executable, FrameOk, NodeOk, Delivered, Gain, Weight;
  }

  lemma {:induction false} InStackCounts(q: Query, st: seq<Frame>, f: Frame)
    requires f in st
    ensures CountStack(q, st) >= Weight(q, f)
  {
    var i :| 0 <= i < |st| && st[i] == f;
    CountStackMember(q, st, i);
  }

  lemma RestCounts(s: State, t: nat, push: seq<Frame>, rest: seq<Frame>, job: seq<Frame>, q: Query)
    requires t < |s.threads|
    ensures Count(q, Spawn(s.threads[t := Thread(push + rest, false)], job, true)) >= CountStack(q, rest)
  {
    CountStackConcat(q, push, rest);
    CountUpdate(q, s.threads, t, Thread(push + rest, false));
    CountSpawn(q, s.threads[t := Thread(push + rest, false)], job, true);
    StackWithin(q, s.threads, t);
  }

  lemma {:induction false} StackWithin(q: Query, threads: seq<Thread>, t: nat)
    requires t < |threads|
    ensures Count(q, threads) >= CountStack(q, threads[t].stack)
  {
    if t > 0 { StackWithin(q, threads[1..], t - 1); }
  }

  lemma RunKeepsWake(p: Program, s: State, t: nat, status: Status, i: nat)
    requires Inv(p, s) && Enabled(p, s, Run(t, status)) && i < p.size
    ensures var s' := Do(p, s, Run(t, status)); |s'.nodes| == p.size && WakeLaw(s'.nodes[i], TallyOf(s'.threads, i))
  {
    RunParts(p, s, t, status);
    InvAt(p, s, i);
    var st := s.threads[t].stack;
    if Wakes(st[0]) == Some(i) {
      WokenBelow(p, s, t, status, i);
    } else {
      RunBalance(p, s, t, status, QDrive(i));
      WakeStep(p, s.nodes, st[0], status, i);
    }
    hide Inv, Shape, Do, Exec, Enabled, ValidProgram, Executable, FrameOk, NodeOk;
  }

  /** What a frame wakes is looked at by a frame below it, which stays. */
  lemma WokenBelow(p: Program, s: State, t: nat, status: Status, i: nat)
    requires Inv(p, s) && Enabled(p, s, Run(t, status)) && Wakes(s.threads[t].stack[0]) == Some(i)
    ensures Count(QDrive(i), Do(p, s, Run(t, status)).threads) >= 1
  {
    var st := s.threads[t].stack;
    var e := Exec(p, s.nodes, st[0], status);
    assert ThreadOk(p, s.nodes, s.threads[t]) && Followed(st);
    hide Inv, Shape, Exec, ThreadOk, ValidProgram;
    InStackCounts(QDrive(i), st[1..], Drive(i));
    RestCounts(s, t, e.push, st[1..], e.job, QDrive(i));
  }

  lemma WakeStep(p: Program, nodes: seq<Node>, f: Frame, status: Status, i: nat)
    requires Executable(p, nodes, f) && ValidProgram(p) && i < p.size && Wakes(f) != Some(i)
    requires FrameOk(p, nodes, f)
    ensures var x := Exec(p, nodes, f, status).nodes[i];
            x.result.Some? && x.notify.Some? ==>
              nodes[i].result.Some? && nodes[i].notify.Some? && f != Drive(i)
  {}

  lemma RunKeepsInv(p: Program, s: State, t: nat, status: Status)
    requires Inv(p, s) && Enabled(p, s, Run(t, status))
    ensures Inv(p, Do(p, s, Run(t, status)))
  {
    var s' := Do(p, s, Run(t, status));
    RunKeepsShape(p, s, t, status);
    forall i | 0 <= i < p.size ensures LawsAt(p, s', i) {
      RunKeepsWake(p, s, t, status, i);
      RunKeepsStage(p, s, t, status, i);
      RunKeepsFunctor(p, s, t, status, i);
      RunKeepsPromise(p, s, t, status, i);
      RunKeepsOwner(p, s, t, status, i);
      RunKeepsDeliveryLaw(p, s, t, status, i);
    }
  }
}
