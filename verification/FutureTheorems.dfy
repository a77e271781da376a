/** What every run of the future engine guarantees. */
module FutureTheorems {
  import opened Wrappers
  import opened FutureMachine
  import opened FutureLaws
  import opened FutureSafety
  import opened FutureSteps

  // ---------------------------------------------------------------------------------------------
  // References: nothing ever touches a dead node
  // ---------------------------------------------------------------------------------------------

  ghost predicate FrameAlive(nodes: seq<Node>, f: Frame) {
    forall x: nat :: Mentions(f, x) ==> x < |nodes| && nodes[x].alive
  }

  ghost predicate NodeRefs(p: Program, nodes: seq<Node>, n: nat)
    requires ValidProgram(p) && |nodes| == p.size && n < p.size
  {
    var x := nodes[n];
    && (x.alive && x.chain.Some? ==>
          x.chain.value < p.size && nodes[x.chain.value].alive && p.rank(n) < p.rank(x.chain.value))
    && (x.future ==> x.alive)
    && (n in p.pred && nodes[p.pred[n]].future ==> x.alive)
    && (!x.alive ==> x.notify.None?)
  }

  /** Memory safety: frames, handles and chains only ever refer to live nodes. */
  ghost predicate RefInv(p: Program, s: State) {
    && ValidProgram(p) && |s.nodes| == p.size
    && (forall n :: 0 <= n < p.size ==> NodeRefs(p, s.nodes, n))
    && (forall t, i :: 0 <= t < |s.threads| && 0 <= i < |s.threads[t].stack| ==>
                         FrameAlive(s.nodes, s.threads[t].stack[i]))
    && (forall h :: 0 <= h < |s.handles| && s.handles[h].Some? ==>
                      s.handles[h].value < p.size && s.nodes[s.handles[h].value].alive)
  }

  ghost predicate SameLife(nodes: seq<Node>, nodes': seq<Node>) {
    |nodes| == |nodes'| && forall n :: 0 <= n < |nodes| ==> nodes'[n].alive == nodes[n].alive
  }

  lemma ExecSameLife(p: Program, nodes: seq<Node>, f: Frame, status: Status)
    requires Executable(p, nodes, f)
    ensures SameLife(nodes, Exec(p, nodes, f, status).nodes)
  {}

  lemma SpliceRefs(p: Program, nodes: seq<Node>, f: Frame, status: Status, n: nat)
    requires Executable(p, nodes, f) && ValidProgram(p) && FrameOk(p, nodes, f) && f.Splice?
    requires FrameAlive(nodes, f) && n < p.size && NodeRefs(p, nodes, n)
    ensures var nodes' := Exec(p, nodes, f, status).nodes; |nodes'| == p.size && NodeRefs(p, nodes', n)
  {
    assert Mentions(f, f.m) && Mentions(f, f.n);
    assert p.rank(f.n) < p.rank(f.m);
    hide ValidProgram;
  }

  lemma OtherRefs(p: Program, nodes: seq<Node>, f: Frame, status: Status, n: nat)
    requires Executable(p, nodes, f) && ValidProgram(p) && !f.Splice?
    requires n < p.size && NodeRefs(p, nodes, n)
    ensures var nodes' := Exec(p, nodes, f, status).nodes; |nodes'| == p.size && NodeRefs(p, nodes', n)
  {
    ExecSameLife(p, nodes, f, status);
    var nodes' := Exec(p, nodes, f, status).nodes;
    assert nodes'[n].chain == nodes[n].chain && (nodes'[n].future ==> nodes[n].future);
    assert nodes'[n].notify.Some? ==> nodes[n].notify.Some?;
    if n in p.pred { assert p.pred[n] < p.size && (nodes'[p.pred[n]].future ==> nodes[p.pred[n]].future); }
    hide ValidProgram, Exec;
  }

  lemma ExecKeepsNodeRefs(p: Program, nodes: seq<Node>, f: Frame, status: Status, n: nat)
    requires Executable(p, nodes, f) && ValidProgram(p) && FrameOk(p, nodes, f)
    requires FrameAlive(nodes, f) && n < p.size && NodeRefs(p, nodes, n)
    ensures var nodes' := Exec(p, nodes, f, status).nodes; |nodes'| == p.size && NodeRefs(p, nodes', n)
  {
    hide ValidProgram, Executable, FrameOk, FrameAlive, NodeRefs, Exec;
    if f.Splice? { SpliceRefs(p, nodes, f, status, n); } else { OtherRefs(p, nodes, f, status, n); }
  }

  /** What a frame leaves behind refers to live nodes only. */
  ghost predicate PushesAlive(p: Program, nodes: seq<Node>, f: Frame, status: Status)
    requires Executable(p, nodes, f)
  {
    var e := Exec(p, nodes, f, status);
    && (forall i :: 0 <= i < |e.push| ==> FrameAlive(nodes, e.push[i]))
    && (forall i :: 0 <= i < |e.job| ==> FrameAlive(nodes, e.job[i]))
  }

  lemma NotifyPushesAlive(p: Program, nodes: seq<Node>, f: Frame, status: Status)
    requires Executable(p, nodes, f) && ValidProgram(p) && ReturnHeld(p, nodes, f) && f.Notify? && FrameAlive(nodes, f)
    requires forall i :: 0 <= i < p.size ==> NodeRefs(p, nodes, i)
    ensures PushesAlive(p, nodes, f, status)
  {
    hide ValidProgram;
    assert Mentions(f, f.n) && (f.next.Some? ==> Mentions(f, f.next.value));
    if Returned(p, nodes, f).Some? { assert NodeRefs(p, nodes, Returned(p, nodes, f).value); }
  }

  lemma DrivePushesAlive(p: Program, nodes: seq<Node>, f: Frame, status: Status)
    requires Executable(p, nodes, f) && ValidProgram(p) && f.Drive? && FrameAlive(nodes, f)
    requires f.n < p.size && NodeRefs(p, nodes, f.n)
    ensures PushesAlive(p, nodes, f, status)
  {
    hide ValidProgram;
    assert Mentions(f, f.n);
  }

  lemma OtherPushesAlive(p: Program, nodes: seq<Node>, f: Frame, status: Status)
    requires Executable(p, nodes, f) && !f.Notify? && !f.Drive? && FrameAlive(nodes, f)
    ensures PushesAlive(p, nodes, f, status)
  {
    assert Mentions(f, f.n);
    if f.Dispatch? { assert f.next.Some? ==> Mentions(f, f.next.value); }
  }

  lemma ExecPushesAlive(p: Program, nodes: seq<Node>, f: Frame, status: Status)
    requires Executable(p, nodes, f) && ValidProgram(p) && ReturnHeld(p, nodes, f) && FrameAlive(nodes, f)
    requires f.n < p.size && forall i :: 0 <= i < p.size ==> NodeRefs(p, nodes, i)
    ensures PushesAlive(p, nodes, f, status)
  {
    hide ValidProgram, Executable, FrameAlive, NodeRefs, ReturnHeld, PushesAlive;
    if f.Notify? {
      NotifyPushesAlive(p, nodes, f, status);
    } else if f.Drive? {
      DrivePushesAlive(p, nodes, f, status);
    } else {
      OtherPushesAlive(p, nodes, f, status);
    }
  }

  lemma RefParts(p: Program, s: State)
    requires RefInv(p, s)
    ensures ValidProgram(p) && |s.nodes| == p.size
    ensures forall n :: 0 <= n < p.size ==> NodeRefs(p, s.nodes, n)
    ensures forall t, i :: 0 <= t < |s.threads| && 0 <= i < |s.threads[t].stack| ==>
                             FrameAlive(s.nodes, s.threads[t].stack[i])
  {}

  lemma SameLifeFrame(nodes: seq<Node>, nodes': seq<Node>, f: Frame)
    requires SameLife(nodes, nodes') && FrameAlive(nodes, f)
    ensures FrameAlive(nodes', f)
  {}

  lemma RunKeepsFrames(p: Program, s: State, t: nat, status: Status, u: nat, i: nat)
    requires Inv(p, s) && RefInv(p, s) && Enabled(p, s, Run(t, status))
    requires var s' := Do(p, s, Run(t, status)); u < |s'.threads| && i < |s'.threads[u].stack|
    ensures var s' := Do(p, s, Run(t, status)); FrameAlive(s.nodes, s'.threads[u].stack[i])
  {
    RunParts(p, s, t, status);
    RefParts(p, s);
    ReturnedIsHeld(p, s, t, status);
    var s' := Do(p, s, Run(t, status));
    var st := s.threads[t].stack;
    ExecPushesAlive(p, s.nodes, st[0], status);
    var e := Exec(p, s.nodes, st[0], status);
    if u == t {
      if i >= |e.push| { assert s'.threads[u].stack[i] == st[i - |e.push| + 1]; }
    } else if u < |s.threads| {
      assert s'.threads[u] == s.threads[u];
    }
    hide Inv, RefInv, ValidProgram, Exec, NodeRefs, FrameAlive, ReturnHeld;
  }

  lemma RunKeepsRefs(p: Program, s: State, t: nat, status: Status)
    requires Inv(p, s) && RefInv(p, s) && Enabled(p, s, Run(t, status))
    ensures RefInv(p, Do(p, s, Run(t, status)))
  {
    var s' := Do(p, s, Run(t, status));
    RunParts(p, s, t, status);
    RefParts(p, s);
    var f := s.threads[t].stack[0];
    ExecSameLife(p, s.nodes, f, status);
    hide Inv, Do, Exec, Enabled, ValidProgram, NodeRefs, FrameAlive, FrameOk, Executable;
    forall n | 0 <= n < p.size ensures NodeRefs(p, s'.nodes, n) { ExecKeepsNodeRefs(p, s.nodes, f, status, n); }
    forall u, i | 0 <= u < |s'.threads| && 0 <= i < |s'.threads[u].stack|
      ensures FrameAlive(s'.nodes, s'.threads[u].stack[i])
    {
      RunKeepsFrames(p, s, t, status, u, i);
      SameLifeFrame(s.nodes, s'.nodes, s'.threads[u].stack[i]);
    }
  }

  lemma UserKeepsNodeRefs(p: Program, s: State, a: Step, n: nat)
    requires RefInv(p, s) && Enabled(p, s, a) && !a.Run? && n < p.size
    requires a.Discard? ==> FrameAlive(s.nodes, s.threads[a.t].stack[0])
    ensures var s' := Do(p, s, a); |s'.nodes| == p.size && NodeRefs(p, s'.nodes, n)
  {
    assert NodeRefs(p, s.nodes, n);
    if a.Attach? { AttachRefs(p, s, a.n); }
  }

  lemma UserKeepsFrameRefs(p: Program, s: State, a: Step, u: nat, i: nat)
    requires RefInv(p, s) && Enabled(p, s, a) && !a.Run?
    requires var s' := Do(p, s, a); u < |s'.threads| && i < |s'.threads[u].stack|
    ensures var s' := Do(p, s, a); FrameAlive(s'.nodes, s'.threads[u].stack[i])
  {
    var s' := Do(p, s, a);
    if a.Discard? && u == a.t {
      assert FrameAlive(s.nodes, s.threads[u].stack[0]);
      assert Mentions(s.threads[u].stack[0], s.threads[u].stack[0].n);
    } else if u < |s.threads| {
      assert s'.threads[u].stack == s.threads[u].stack;
      assert FrameAlive(s.nodes, s.threads[u].stack[i]);
    } else if a.Attach? {
      AttachRefs(p, s, a.n);
    }
  }

  lemma UserKeepsRefs(p: Program, s: State, a: Step)
    requires RefInv(p, s) && Enabled(p, s, a) && !a.Run?
    ensures RefInv(p, Do(p, s, a))
  {
    var s' := Do(p, s, a);
    if a.Discard? { assert FrameAlive(s.nodes, s.threads[a.t].stack[0]); }
    forall n | 0 <= n < p.size ensures NodeRefs(p, s'.nodes, n) { UserKeepsNodeRefs(p, s, a, n); }
    forall u, i | 0 <= u < |s'.threads| && 0 <= i < |s'.threads[u].stack|
      ensures FrameAlive(s'.nodes, s'.threads[u].stack[i])
    {
      UserKeepsFrameRefs(p, s, a, u, i);
    }
  }

  lemma AttachRefs(p: Program, s: State, n: nat)
    requires RefInv(p, s) && Enabled(p, s, Attach(n))
    ensures n < p.size && s.nodes[n].alive
    ensures var c := ChainOf(p, n);
            c.Some? ==> c.value < p.size && s.nodes[c.value].alive && p.rank(n) < p.rank(c.value)
  {
    assert NodeRefs(p, s.nodes, n);
    var c := ChainOf(p, n);
    if c.Some? {
      assert p.pred[c.value] == n;
      assert NodeRefs(p, s.nodes, c.value);
    }
  }

  // ---------------------------------------------------------------------------------------------
  // Runs
  // ---------------------------------------------------------------------------------------------

  /** Fresh states whose futures are held, and at least one promise handle for every source. */
  ghost predicate Init(p: Program, s: State) {
    && ValidProgram(p) && |s.nodes| == p.size && s.threads == []
    && (forall n :: 0 <= n < p.size ==>
                      s.nodes[n] == Node(None, None, None, false, CountHandles(n, s.handles), true, true, 0, 0, 0, 0, 0))
    && (forall n :: 0 <= n < p.size && n !in p.pred ==> s.nodes[n].promises >= 1)
    && (forall h :: 0 <= h < |s.handles| && s.handles[h].Some? ==>
                      s.handles[h].value < p.size && s.handles[h].value !in p.pred)
  }

  ghost predicate Reaches(p: Program, s: State, steps: seq<Step>, s': State)
    decreases |steps|
  {
    && ValidProgram(p) && |s.nodes| == p.size
    && if steps == [] then s' == s
       else Enabled(p, s, steps[0]) && Reaches(p, Do(p, s, steps[0]), steps[1..], s')
  }

  lemma InitValid(p: Program, s: State)
    requires Init(p, s)
    ensures ValidProgram(p)
  {}

  lemma InitInv(p: Program, s: State)
    requires Init(p, s)
    ensures Inv(p, s) && RefInv(p, s)
  {
    forall n | 0 <= n < p.size ensures LawsAt(p, s, n) {
      assert TallyOf(s.threads, n) == Tally(0, 0, 0, 0, 0, 0);
      if n in p.pred { assert s.nodes[p.pred[n]].runs == 0; }
    }
  }

  lemma {:induction false} RunInv(p: Program, s: State, steps: seq<Step>, s': State)
    requires Inv(p, s) && RefInv(p, s) && Reaches(p, s, steps, s')
    ensures Inv(p, s') && RefInv(p, s')
    decreases |steps|
  {
    if steps != [] {
      StepKeepsInv(p, s, steps[0]);
      if steps[0].Run? { RunKeepsRefs(p, s, steps[0].t, steps[0].status); } else { UserKeepsRefs(p, s, steps[0]); }
      RunInv(p, Do(p, s, steps[0]), steps[1..], s');
    }
  }

  // ---------------------------------------------------------------------------------------------
  // Exactly once
  // ---------------------------------------------------------------------------------------------

  /** In every interleaving a continuation runs at most once and only on a resolved state, and
      once all threads are idle it has run exactly once wherever the state is resolved and the
      continuation was attached and neither cancelled nor abandoned: no wake-up is lost. */
  lemma ContinuationRunsExactlyOnce(p: Program, s0: State, steps: seq<Step>, s: State, n: nat)
    requires Init(p, s0) && Reaches(p, s0, steps, s) && n < p.size
    ensures |s.nodes| == p.size
    ensures s.nodes[n].runs <= 1
    ensures s.nodes[n].runs == 1 ==> s.nodes[n].result.Some?
    ensures Idle(s) && s.nodes[n].result.Some? && !s.nodes[n].future && s.nodes[n].drops == 0 ==> s.nodes[n].runs == 1
    ensures Idle(s) && s.nodes[n].result.None? && !s.nodes[n].future && s.nodes[n].drops == 0 ==> s.nodes[n].notify.Some?
  {
    InitInv(p, s0);
    RunInv(p, s0, steps, s);
    IdleLaws(p, s, n);
  }

  lemma IdleLaws(p: Program, s: State, n: nat)
    requires Inv(p, s) && n < p.size
    ensures LawsAt(p, s, n) && NodeOk(p, s.nodes, n)
    ensures Idle(s) ==> TallyOf(s.threads, n) == Tally(0, 0, 0, 0, 0, 0)
  {
    if Idle(s) {
      forall q: Query ensures Count(q, s.threads) == 0 { CountIdle(q, s.threads); }
    }
  }

  // ---------------------------------------------------------------------------------------------
  // Promises
  // ---------------------------------------------------------------------------------------------

  /** The counter is the number of live handles; exactly one resolution wins, its value is never
      replaced, and a state whose handles are all gone is resolved. */
  lemma PromiseSettlesOnce(p: Program, s0: State, steps: seq<Step>, s: State, n: nat)
    requires Init(p, s0) && Reaches(p, s0, steps, s) && n < p.size
    ensures |s.nodes| == p.size
    ensures s.nodes[n].promises == CountHandles(n, s.handles)
    ensures s.nodes[n].wins == if s.nodes[n].result.Some? then 1 else 0
    ensures n !in p.pred && Idle(s) && s.nodes[n].promises == 0 ==> s.nodes[n].result.Some?
  {
    InitInv(p, s0);
    RunInv(p, s0, steps, s);
    IdleLaws(p, s, n);
  }

  /** The source counts promises in a short: what it holds after counting to n. */
  function Short(n: nat): int { (n + 0x8000) % 0x1_0000 - 0x8000 }

  /** The short is the number of live handles if and only if there are fewer than 2^15. */
  lemma ShortCounterIff(p: Program, s0: State, steps: seq<Step>, s: State, n: nat)
    requires Init(p, s0) && Reaches(p, s0, steps, s) && n < p.size
    ensures |s.nodes| == p.size
    ensures Short(s.nodes[n].promises) == CountHandles(n, s.handles) <==> CountHandles(n, s.handles) < 0x8000
  {
    hide Init, Reaches, Short;
    PromiseSettlesOnce(p, s0, steps, s, n);
    ShortIsExactIff(CountHandles(n, s.handles));
  }

  lemma ShortIsExactIff(k: nat)
    ensures Short(k) == k <==> k < 0x8000
  {
    assert (k + 0x8000) % 0x1_0000 < 0x1_0000;
  }

  /** What the source asks of the counter, whether a dropped handle was the last, it answers rightly for
      every number up to k if and only if k is at most 2^16; the next number looks like the last handle. */
  lemma LastDropIff(k: nat)
    ensures (forall j: nat :: 1 <= j <= k ==> (Short(j) == 1 <==> j == 1)) <==> k <= 0x1_0000
    ensures Short(0x1_0001) == 1
  {
    if k <= 0x1_0000 {
      forall j: nat | 1 <= j <= k ensures Short(j) == 1 <==> j == 1 {
        if j < 0x8000 { assert (j + 0x8000) % 0x1_0000 == j + 0x8000; } else { assert (j + 0x8000) % 0x1_0000 == j - 0x8000; }
      }
    } else {
      assert Short(0x1_0001) == 1;
    }
  }

  /** Whoever hands out a promise and waits with AtLast hears back exactly once: when every handle is
      gone and all threads are idle, whether the promise was resolved, rejected or dropped. */
  lemma WaiterHearsExactlyOnce(p: Program, s0: State, steps: seq<Step>, s: State, n: nat)
    requires Init(p, s0) && Reaches(p, s0, steps, s) && Idle(s) && n in p.links && n < p.size && n !in p.pred
    requires forall h :: 0 <= h < |s.handles| ==> s.handles[h] != Some(n)
    requires |s.nodes| == p.size && !s.nodes[n].future && s.nodes[n].drops == 0
    ensures s.nodes[n].runs == 1 && s.nodes[n].wins == 1 && s.nodes[n].result.Some?
  {
    PromiseSettlesOnce(p, s0, steps, s, n);
    NoHandles(n, s.handles);
    ContinuationRunsExactlyOnce(p, s0, steps, s, n);
  }

  lemma {:induction false} NoHandles(n: nat, handles: seq<Option<nat>>)
    requires forall h :: 0 <= h < |handles| ==> handles[h] != Some(n)
    ensures CountHandles(n, handles) == 0
  {
    if handles != [] {
      forall h | 0 <= h < |handles[1..]| ensures handles[1..][h] != Some(n) { assert handles[1..][h] == handles[h + 1]; }
      NoHandles(n, handles[1..]);
    }
  }

  /** The first stored result stays, whatever happens later. */
  lemma {:induction false} ResultIsFinal(p: Program, s: State, steps: seq<Step>, s': State, n: nat)
    requires Inv(p, s) && RefInv(p, s) && Reaches(p, s, steps, s') && n < p.size && s.nodes[n].result.Some?
    ensures |s'.nodes| == p.size && s'.nodes[n].result == s.nodes[n].result
    decreases |steps|
  {
    if steps != [] {
      StepKeepsInv(p, s, steps[0]);
      if steps[0].Run? {
        RunKeepsRefs(p, s, steps[0].t, steps[0].status);
        ExecExtends(p, s, steps[0].t, steps[0].status);
      } else {
        UserKeepsRefs(p, s, steps[0]);
      }
      ResultIsFinal(p, Do(p, s, steps[0]), steps[1..], s', n);
    }
  }

  // ---------------------------------------------------------------------------------------------
  // Pipelines mean sequential composition
  // ---------------------------------------------------------------------------------------------

  function Results(s: State): seq<Option<Res>> {
    seq(|s.nodes|, i requires 0 <= i < |s.nodes| => s.nodes[i].result)
  }

  /** The meaning of node m, independent of any schedule: a source has the result it was given, a
      target has what its continuation makes of the meaning of its predecessor, where a returned
      future stands for its own meaning. */
  ghost function Meaning(p: Program, given: seq<Option<Res>>, m: nat): Option<Res>
    requires ValidProgram(p)
    decreases p.rank(m)
  {
    if m !in p.pred then (if m < |given| then given[m] else None)
    else
      var n := p.pred[m];
      match Meaning(p, given, n)
      case None => None
      case Some(r) =>
        match Eval(p, n, r)
        case Returns(r') => Some(r')
        case ReturnsFuture(k) => if k in p.owner && p.owner[k] == n then Meaning(p, given, k) else None
  }

  lemma {:induction false} ResultHasMeaning(p: Program, s: State, m: nat)
    requires Inv(p, s) && m < p.size && s.nodes[m].result.Some?
    ensures Meaning(p, Results(s), m) == s.nodes[m].result
    decreases p.rank(m)
  {
    assert NodeOk(p, s.nodes, m);
    if m in p.pred {
      var n := p.pred[m];
      ResultHasMeaning(p, s, n);
      var o := Eval(p, n, s.nodes[n].result.value);
      if o.ReturnsFuture? {
        assert o == p.call(n, s.nodes[n].result.value);
        ResultHasMeaning(p, s, o.inner);
      }
    }
  }

  /** Soundness: in every reachable state every stored result is the meaning of its node. */
  lemma PipelineIsSequential(p: Program, s0: State, steps: seq<Step>, s: State, m: nat)
    requires Init(p, s0) && Reaches(p, s0, steps, s) && m < p.size
    ensures |s.nodes| == p.size && ValidProgram(p)
    ensures s.nodes[m].result.Some? ==> s.nodes[m].result == Meaning(p, Results(s), m)
  {
    InitInv(p, s0);
    RunInv(p, s0, steps, s);
    if s.nodes[m].result.Some? { ResultHasMeaning(p, s, m); }
  }

  /** What feeds node m was attached and neither cancelled nor abandoned: the continuation before it,
      all that feeds that one, and the future that it returned, if it did, with all that feeds it. */
  ghost predicate Undisturbed(p: Program, s: State, m: nat)
    requires ValidProgram(p) && |s.nodes| == p.size && m < p.size
    decreases p.rank(m)
  {
    m in p.pred ==>
      var n := p.pred[m];
      && !s.nodes[n].future && s.nodes[n].drops == 0 && Undisturbed(p, s, n)
      && (s.nodes[n].result.Some? && Eval(p, n, s.nodes[n].result.value).ReturnsFuture? ==>
            var k := Eval(p, n, s.nodes[n].result.value).inner;
            k in p.owner && p.owner[k] == n ==> s.nodes[k].drops == 0 && Undisturbed(p, s, k))
  }

  /** A program in which nothing was cancelled or abandoned is undisturbed everywhere. */
  lemma {:induction false} NothingDisturbed(p: Program, s: State, m: nat)
    requires ValidProgram(p) && |s.nodes| == p.size && m < p.size
    requires forall n :: n in p.links ==> !s.nodes[n].future
    requires forall n :: 0 <= n < p.size ==> s.nodes[n].drops == 0
    ensures Undisturbed(p, s, m)
    decreases p.rank(m)
  {
    if m in p.pred {
      var n := p.pred[m];
      NothingDisturbed(p, s, n);
      if s.nodes[n].result.Some? {
        var o := Eval(p, n, s.nodes[n].result.value);
        if o.ReturnsFuture? && o.inner in p.owner && p.owner[o.inner] == n { NothingDisturbed(p, s, o.inner); }
      }
    }
  }

  lemma {:induction false} MeaningIsDelivered(p: Program, s: State, m: nat)
    requires Inv(p, s) && Idle(s) && m < p.size && Undisturbed(p, s, m)
    ensures s.nodes[m].result == Meaning(p, Results(s), m)
    decreases p.rank(m)
  {
    IdleLaws(p, s, m);
    if s.nodes[m].result.Some? {
      ResultHasMeaning(p, s, m);
    } else if m in p.pred {
      var n := p.pred[m];
      IdleLaws(p, s, n);
      MeaningIsDelivered(p, s, n);
      if s.nodes[n].result.Some? {
        assert s.nodes[n].runs == 1;
        var o := Eval(p, n, s.nodes[n].result.value);
        if o.ReturnsFuture? {
          assert o == p.call(n, s.nodes[n].result.value);
          IdleLaws(p, s, o.inner);
          MeaningIsDelivered(p, s, o.inner);
        }
      }
    }
  }

  /** Completeness: once idle, every node whose own feeders are undisturbed holds exactly its meaning,
      whatever the order in which links were attached and sources and inner futures were resolved, and
      whatever was cancelled elsewhere. */
  lemma PipelineDelivers(p: Program, s0: State, steps: seq<Step>, s: State, m: nat)
    requires Init(p, s0) && Reaches(p, s0, steps, s) && Idle(s)
    requires |s.nodes| == p.size && m < p.size && Undisturbed(p, s, m)
    ensures s.nodes[m].result == Meaning(p, Results(s), m)
  {
    hide Init, Reaches, Undisturbed, Meaning, Inv, RefInv, ValidProgram;
    InitValid(p, s0);
    InitInv(p, s0);
    RunInv(p, s0, steps, s);
    MeaningIsDelivered(p, s, m);
  }

  /** What is resolved was fed undisturbed. */
  lemma {:induction false} ResolvedIsUndisturbed(p: Program, s: State, m: nat)
    requires Inv(p, s) && m < p.size && s.nodes[m].result.Some?
    ensures Undisturbed(p, s, m)
    decreases p.rank(m)
  {
    InvAt(p, s, m);
    if m in p.pred {
      var n := p.pred[m];
      assert n < p.size;
      InvAt(p, s, n);
      DeliveredAtMostOnce(p, s, m);
      assert Delivered(p, s.nodes, m) == 1;
      ResolvedIsUndisturbed(p, s, n);
      var o := Eval(p, n, s.nodes[n].result.value);
      if o.ReturnsFuture? && o.inner in p.owner && p.owner[o.inner] == n {
        InvAt(p, s, o.inner);
        ResolvedIsUndisturbed(p, s, o.inner);
      }
    }
  }

  /** Both halves: once idle, a node is resolved if and only if what feeds it was undisturbed and its
      meaning is there; so behind a cancelled or abandoned continuation it never is. */
  lemma DeliversIff(p: Program, s0: State, steps: seq<Step>, s: State, m: nat)
    requires Init(p, s0) && Reaches(p, s0, steps, s) && Idle(s) && |s.nodes| == p.size && m < p.size
    ensures s.nodes[m].result.Some? <==> Undisturbed(p, s, m) && Meaning(p, Results(s), m).Some?
    ensures s.nodes[m].result.Some? ==> s.nodes[m].result == Meaning(p, Results(s), m)
  {
    hide Init, Reaches, Undisturbed, Meaning, Inv, RefInv, ValidProgram;
    InitValid(p, s0);
    InitInv(p, s0);
    RunInv(p, s0, steps, s);
    if s.nodes[m].result.Some? {
      ResolvedIsUndisturbed(p, s, m);
      ResultHasMeaning(p, s, m);
    } else if Undisturbed(p, s, m) {
      MeaningIsDelivered(p, s, m);
    }
  }

  // ---------------------------------------------------------------------------------------------
  // What one link does, in terms of its kind and its functor alone
  // ---------------------------------------------------------------------------------------------

  /** In every reachable state, for a resolved target m behind node n: an error passes a Then link as it
      is, and in every other case the target has what the functor gives for the result of n, or the result
      of the future that the functor returns. */
  lemma LinkStores(p: Program, s0: State, steps: seq<Step>, s: State, m: nat)
    requires Init(p, s0) && Reaches(p, s0, steps, s) && m < p.size && m in p.pred
    requires |s.nodes| == p.size && s.nodes[m].result.Some?
    ensures p.pred[m] < p.size && p.pred[m] in p.links && s.nodes[p.pred[m]].result.Some?
    ensures var (n, r) := (p.pred[m], s.nodes[p.pred[m]].result.value);
            && (p.links[n].kind == Then && r.Exc? ==> s.nodes[m].result == Some(r))
            && (p.links[n].kind == Try || r.Val? ==>
                  match p.call(n, r)
                  case Returns(x) => s.nodes[m].result == Some(x)
                  case ReturnsFuture(k) => k < p.size && s.nodes[m].result == s.nodes[k].result)
  {
    InitInv(p, s0);
    RunInv(p, s0, steps, s);
    LinkOk(p, s, m);
  }

  lemma LinkOk(p: Program, s: State, m: nat)
    requires Inv(p, s) && m < p.size && m in p.pred && s.nodes[m].result.Some?
    ensures p.pred[m] < p.size && p.pred[m] in p.links && p.links[p.pred[m]].kind != Last
    ensures s.nodes[p.pred[m]].result.Some?
    ensures var (n, r) := (p.pred[m], s.nodes[p.pred[m]].result.value);
            && (p.links[n].kind == Then && r.Exc? ==> s.nodes[m].result == Some(r))
            && (p.links[n].kind == Try || r.Val? ==>
                  match p.call(n, r)
                  case Returns(x) => s.nodes[m].result == Some(x)
                  case ReturnsFuture(k) => k < p.size && s.nodes[m].result == s.nodes[k].result)
  {
    InvAt(p, s, m);
    var n := p.pred[m];
    var o := p.call(n, s.nodes[n].result.value);
    if o.ReturnsFuture? { assert o.inner in p.owner; }
  }

  /** Once idle, behind a node whose continuation was attached and not cancelled, the target is resolved
      as soon as it can be: with the error that passes, with what the functor gave, or with the result of
      the future it returned, if that one was not cancelled either. */
  lemma LinkDelivers(p: Program, s0: State, steps: seq<Step>, s: State, m: nat)
    requires Init(p, s0) && Reaches(p, s0, steps, s) && Idle(s) && m < p.size && m in p.pred
    requires |s.nodes| == p.size && p.pred[m] < p.size && p.pred[m] in p.links
    requires !s.nodes[p.pred[m]].future && s.nodes[p.pred[m]].drops == 0
    ensures var n := p.pred[m];
            match s.nodes[n].result
            case None => s.nodes[m].result == None
            case Some(r) =>
              && (p.links[n].kind == Then && r.Exc? ==> s.nodes[m].result == Some(r))
              && (p.links[n].kind == Try || r.Val? ==>
                    match p.call(n, r)
                    case Returns(x) => s.nodes[m].result == Some(x)
                    case ReturnsFuture(k) =>
                      k < p.size && (s.nodes[k].drops == 0 ==> s.nodes[m].result == s.nodes[k].result))
  {
    hide Init, Reaches, RefInv;
    InitInv(p, s0);
    RunInv(p, s0, steps, s);
    var n := p.pred[m];
    IdleLaws(p, s, n);
    IdleLaws(p, s, m);
    if s.nodes[m].result.Some? {
      LinkOk(p, s, m);
    } else if s.nodes[n].result.Some? {
      ReturnedNotRun(p, s, m);
    }
  }

  lemma ReturnedNotRun(p: Program, s: State, m: nat)
    requires Inv(p, s) && Idle(s) && m < p.size && m in p.pred && s.nodes[m].result.None?
    requires p.pred[m] < p.size && s.nodes[p.pred[m]].result.Some?
    requires !s.nodes[p.pred[m]].future && s.nodes[p.pred[m]].drops == 0
    ensures var (n, r) := (p.pred[m], s.nodes[p.pred[m]].result.value);
            && n in p.links && !(p.links[n].kind == Then && r.Exc?) && p.call(n, r).ReturnsFuture?
            && var k := p.call(n, r).inner; k < p.size && (s.nodes[k].drops == 0 ==> s.nodes[k].result.None?)
  {
    var n := p.pred[m];
    IdleLaws(p, s, n);
    IdleLaws(p, s, m);
    assert s.nodes[n].runs == 1 && Delivered(p, s.nodes, m) == 0;
    var o := Eval(p, n, s.nodes[n].result.value);
    assert o.ReturnsFuture? && o == p.call(n, s.nodes[n].result.value);
    assert o.inner in p.owner;
    IdleLaws(p, s, o.inner);
  }

  /** A continuation meant for an executor is handed to it, and any other is run where it is claimed. */
  lemma ExecutorIsAsked(p: Program, s0: State, steps: seq<Step>, s: State, t: nat, n: nat)
    requires Init(p, s0) && Reaches(p, s0, steps, s) && |s.nodes| == p.size && n < p.size
    requires ValidProgram(p) && Enabled(p, s, Run(t, Done)) && s.threads[t].stack[0] == Drive(n)
    requires s.nodes[n].result.Some? && s.nodes[n].notify == Some(Functor)
    ensures n in p.links && t < |Do(p, s, Run(t, Done)).threads|
    ensures var stack := Do(p, s, Run(t, Done)).threads[t].stack;
            stack != [] && stack[0].n == n && (if p.links[n].onExecutor then stack[0].Dispatch? else stack[0].Notify?)
  {
    InitInv(p, s0);
    RunInv(p, s0, steps, s);
    InvAt(p, s, n);
  }

  /** What the executor answers decides where the job goes: here, to a thread that waits, or nowhere. */
  lemma ExecutorDecides(p: Program, s: State, t: nat, status: Status)
    requires |s.nodes| == p.size && ValidProgram(p) && Enabled(p, s, Run(t, status)) && s.threads[t].stack[0].Dispatch?
    ensures var (f, s') := (s.threads[t].stack[0], Do(p, s, Run(t, status)));
            var (rest, job) := (s.threads[t].stack[1..], [Notify(f.n, f.c, f.next)] + DriveChain(f.next));
            match status
            case Done => s'.threads == s.threads[t := Thread(job + rest, false)]
            case Defer => s'.threads == s.threads[t := Thread(rest, false)] + [Thread(job, true)]
            case Cancel => s'.nodes[f.n].drops == s.nodes[f.n].drops + 1
                           && s'.threads == s.threads[t := Thread((if f.c == Functor then [Free(f.n)] else []) + rest, false)]
  {
    assert [] + s.threads[t].stack[1..] == s.threads[t].stack[1..];
  }

  /** What the users' steps do to handles: one more, moved, exchanged, one less, and no others touched. */
  lemma HandlesMove(p: Program, s: State, h: nat, to: nat)
    requires |s.nodes| == p.size && ValidProgram(p) && h < |s.handles| && to < |s.handles| && h != to
    ensures Enabled(p, s, Copy(h, to)) ==> Do(p, s, Copy(h, to)).handles == s.handles[to := s.handles[h]]
    ensures Enabled(p, s, Move(h, to)) ==> Do(p, s, Move(h, to)).handles == s.handles[to := s.handles[h]][h := None]
    ensures Do(p, s, Swap(h, to)).handles[h] == s.handles[to] && Do(p, s, Swap(h, to)).handles[to] == s.handles[h]
    ensures forall j :: 0 <= j < |s.handles| && j != h && j != to ==> Do(p, s, Swap(h, to)).handles[j] == s.handles[j]
    ensures Enabled(p, s, Drop(h)) ==> Do(p, s, Drop(h)).handles == s.handles[h := None]
  {}

  lemma {:induction false} MeaningDependsOnSources(p: Program, a: seq<Option<Res>>, b: seq<Option<Res>>, m: nat)
    requires ValidProgram(p) && |a| == |b|
    requires forall n :: 0 <= n < |a| && n !in p.pred ==> a[n] == b[n]
    ensures Meaning(p, a, m) == Meaning(p, b, m)
    decreases p.rank(m)
  {
    if m in p.pred {
      var n := p.pred[m];
      MeaningDependsOnSources(p, a, b, n);
      if Meaning(p, a, n).Some? {
        var o := Eval(p, n, Meaning(p, a, n).value);
        if o.ReturnsFuture? && o.inner in p.owner && p.owner[o.inner] == n {
          MeaningDependsOnSources(p, a, b, o.inner);
        }
      }
    }
  }

  /** Two runs that give the sources the same results agree on every node undisturbed in both. */
  lemma OrderDoesNotMatter(p: Program, s0: State, steps: seq<Step>, s: State,
                           s0': State, steps': seq<Step>, s': State, m: nat)
    requires Init(p, s0) && Reaches(p, s0, steps, s) && Idle(s)
    requires Init(p, s0') && Reaches(p, s0', steps', s') && Idle(s')
    requires |s.nodes| == |s'.nodes| == p.size && m < p.size && Undisturbed(p, s, m) && Undisturbed(p, s', m)
    requires forall n :: 0 <= n < p.size && n !in p.pred ==> s.nodes[n].result == s'.nodes[n].result
    ensures s.nodes[m].result == s'.nodes[m].result
  {
    hide Init, Reaches, Undisturbed, Meaning, ValidProgram;
    InitValid(p, s0);
    PipelineDelivers(p, s0, steps, s, m);
    PipelineDelivers(p, s0', steps', s', m);
    MeaningDependsOnSources(p, Results(s), Results(s'), m);
  }

  // ---------------------------------------------------------------------------------------------
  // Functors and memory
  // ---------------------------------------------------------------------------------------------

  /** Functor conservation at every moment, and use only while alive. */
  lemma FunctorsAreConserved(p: Program, s0: State, steps: seq<Step>, s: State, n: nat)
    requires Init(p, s0) && Reaches(p, s0, steps, s) && n < p.size
    ensures |s.nodes| == p.size
    ensures s.nodes[n].allocs == s.nodes[n].frees + (if s.nodes[n].notify == Some(Functor) then 1 else 0)
                                 + Count(QFunctor(n), s.threads)
    ensures Idle(s) && !s.nodes[n].alive ==> s.nodes[n].allocs == s.nodes[n].frees
    ensures Idle(s) && s.nodes[n].result.Some? ==> s.nodes[n].allocs == s.nodes[n].frees
    ensures forall t, i :: 0 <= t < |s.threads| && 0 <= i < |s.threads[t].stack| ==>
                             FrameAlive(s.nodes, s.threads[t].stack[i])
  {
    InitInv(p, s0);
    RunInv(p, s0, steps, s);
    IdleLaws(p, s, n);
    assert NodeRefs(p, s.nodes, n);
  }

  lemma {:induction false} LeastAlive(p: Program, s: State, n: nat) returns (x: nat)
    requires RefInv(p, s) && n < p.size && s.nodes[n].alive
    ensures x < p.size && s.nodes[x].alive
    ensures forall m :: 0 <= m < p.size && s.nodes[m].alive ==> s.nodes[m].chain != Some(x)
    decreases p.rank(n)
  {
    if m: nat :| m < p.size && s.nodes[m].alive && s.nodes[m].chain == Some(n) {
      assert NodeRefs(p, s.nodes, m);
      x := LeastAlive(p, s, m);
    } else {
      x := n;
    }
  }

  /** All threads are at rest, and users hold neither promises nor futures. */
  ghost predicate Released(s: State) {
    && Idle(s) && (forall h :: 0 <= h < |s.handles| ==> s.handles[h].None?)
    && (forall n :: 0 <= n < |s.nodes| ==> !s.nodes[n].future)
  }

  lemma CanDie(p: Program, s: State, n: nat) returns (x: nat)
    requires RefInv(p, s) && Released(s) && n < p.size && s.nodes[n].alive
    ensures x < p.size && s.nodes[x].alive && |s.nodes| == p.size && ValidProgram(p) && Enabled(p, s, Destroy(x))
  {
    x := LeastAlive(p, s, n);
    assert x in p.pred ==> p.pred[x] < p.size;
  }

  function Living(nodes: seq<Node>): nat {
    if nodes == [] then 0 else Bit(nodes[0].alive) + Living(nodes[1..])
  }

  lemma {:induction false} OneDies(nodes: seq<Node>, n: nat, x: Node)
    requires n < |nodes| && nodes[n].alive && !x.alive
    ensures Living(nodes[n := x]) < Living(nodes)
  {
    var u := nodes[n := x];
    if n == 0 {
      assert u[1..] == nodes[1..];
    } else {
      assert u[1..] == nodes[1..][n - 1 := x];
      OneDies(nodes[1..], n - 1, x);
    }
  }

  lemma DeathReleases(p: Program, s: State, x: nat)
    requires RefInv(p, s) && Released(s) && Enabled(p, s, Destroy(x)) && x < p.size && s.nodes[x].alive
    ensures var s' := Do(p, s, Destroy(x));
            |s'.nodes| == p.size && Released(s') && Living(s'.nodes) < Living(s.nodes)
  {
    var s' := Do(p, s, Destroy(x));
    OneDies(s.nodes, x, s'.nodes[x]);
    hide RefInv, Unreferenced;
  }

  /** From there states die one after the other until none is left. */
  lemma {:induction false} AllCanDie(p: Program, s: State) returns (deaths: seq<Step>, s': State)
    requires Inv(p, s) && RefInv(p, s) && Released(s)
    ensures Reaches(p, s, deaths, s') && Inv(p, s') && RefInv(p, s') && Released(s')
    ensures forall k :: 0 <= k < |deaths| ==> deaths[k].Destroy?
    ensures forall n :: 0 <= n < p.size ==> n < |s'.nodes| && !s'.nodes[n].alive
    decreases Living(s.nodes)
  {
    InvShape(p, s);
    if n: nat :| n < p.size && s.nodes[n].alive {
      var x := CanDie(p, s, n);
      DeathReleases(p, s, x);
      StepKeepsInv(p, s, Destroy(x));
      UserKeepsRefs(p, s, Destroy(x));
      hide Inv, RefInv, Released, Enabled, Do, ValidProgram;
      var rest;
      rest, s' := AllCanDie(p, Do(p, s, Destroy(x)));
      deaths := [Destroy(x)] + rest;
      assert deaths[1..] == rest;
    } else {
      deaths, s' := [], s;
    }
  }

  /** Nothing leaks: once all threads are idle and users hold nothing, states die one after the other, each
      because its last reference went with the one before, until all are dead and every functor that was
      allocated has been deleted exactly once. */
  lemma NothingLeaks(p: Program, s0: State, steps: seq<Step>, s: State) returns (deaths: seq<Step>, s': State)
    requires Init(p, s0) && Reaches(p, s0, steps, s) && Released(s)
    ensures Reaches(p, s, deaths, s') && |s'.nodes| == p.size
    ensures forall k :: 0 <= k < |deaths| ==> deaths[k].Destroy?
    ensures forall n :: 0 <= n < p.size ==> !s'.nodes[n].alive && s'.nodes[n].allocs == s'.nodes[n].frees
  {
    hide Init, Inv, RefInv, Reaches, ValidProgram;
    InitInv(p, s0);
    RunInv(p, s0, steps, s);
    deaths, s' := AllCanDie(p, s);
    InvShape(p, s');
    forall n | 0 <= n < p.size ensures s'.nodes[n].allocs == s'.nodes[n].frees { DeadIsFreed(p, s', n); }
  }

  lemma DeadIsFreed(p: Program, s: State, n: nat)
    requires Inv(p, s) && RefInv(p, s) && Idle(s) && n < p.size
    ensures |s.nodes| == p.size
    ensures !s.nodes[n].alive ==> s.nodes[n].allocs == s.nodes[n].frees
  {
    IdleLaws(p, s, n);
    assert NodeRefs(p, s.nodes, n);
  }

  // ---------------------------------------------------------------------------------------------
  // Termination
  // ---------------------------------------------------------------------------------------------

  function ParkedSum(threads: seq<Thread>): nat {
    if threads == [] then 0 else Bit(threads[0].parked) + ParkedSum(threads[1..])
  }

  function SlotCost(x: Node): nat {
    match x.notify
    case None => 0
    case Some(Functor) => 12
    case Some(Forward) => 5
  }

  function SlotSum(nodes: seq<Node>): nat {
    if nodes == [] then 0 else SlotCost(nodes[0]) + SlotSum(nodes[1..])
  }

  /** An upper bound on the work left in the machine. */
  function Measure(s: State): nat {
    Count(QCost, s.threads) + ParkedSum(s.threads) + SlotSum(s.nodes)
  }

  lemma {:induction false} ParkedUpdate(threads: seq<Thread>, t: nat, th: Thread)
    requires t < |threads|
    ensures ParkedSum(threads[t := th]) + Bit(threads[t].parked) == ParkedSum(threads) + Bit(th.parked)
  {
    var u := threads[t := th];
    if t == 0 {
      assert u[1..] == threads[1..];
    } else {
      assert u[1..] == threads[1..][t - 1 := th];
      ParkedUpdate(threads[1..], t - 1, th);
    }
  }

  lemma {:induction false} ParkedAppend(threads: seq<Thread>, th: Thread)
    ensures ParkedSum(threads + [th]) == ParkedSum(threads) + Bit(th.parked)
  {
    if threads == [] {
      assert threads + [th] == [th];
    } else {
      assert (threads + [th])[1..] == threads[1..] + [th];
      ParkedAppend(threads[1..], th);
    }
  }

  lemma {:induction false} SlotUpdate(nodes: seq<Node>, n: nat, x: Node)
    requires n < |nodes|
    ensures SlotSum(nodes[n := x]) + SlotCost(nodes[n]) == SlotSum(nodes) + SlotCost(x)
  {
    var u := nodes[n := x];
    if n == 0 {
      assert u[1..] == nodes[1..];
    } else {
      assert u[1..] == nodes[1..][n - 1 := x];
      SlotUpdate(nodes[1..], n - 1, x);
    }
  }

  /** A frame costs more than what it pushes, spawns and publishes together. */
  lemma ExecCosts(p: Program, nodes: seq<Node>, f: Frame, status: Status)
    requires Executable(p, nodes, f)
    ensures var e := Exec(p, nodes, f, status);
            CountStack(QCost, e.push) + CountStack(QCost, e.job) + Bit(e.job != []) + SlotSum(e.nodes)
            < Cost(f) + SlotSum(nodes)
  {
    PushCosts(p, nodes, f, status);
    if f.Notify? {
      NotifyCosts(p, nodes, f, status);
    } else {
      OneNodeCosts(p, nodes, f, status);
    }
  }

  lemma PushCosts(p: Program, nodes: seq<Node>, f: Frame, status: Status)
    requires Executable(p, nodes, f)
    ensures var e := Exec(p, nodes, f, status);
            CountStack(QCost, e.push) + CountStack(QCost, e.job) + Bit(e.job != [])
            + (if f.Splice? then 5 else 0)
            < Cost(f) + (if Claims(p, nodes, f) then SlotCost(nodes[f.n]) else 0)
  {
    var e := Exec(p, nodes, f, status);
    CountShort(QCost, e.push);
    CountShort(QCost, e.job);
  }

  lemma OneNodeCosts(p: Program, nodes: seq<Node>, f: Frame, status: Status)
    requires Executable(p, nodes, f) && !f.Notify?
    ensures SlotSum(Exec(p, nodes, f, status).nodes) + (if Claims(p, nodes, f) then SlotCost(nodes[f.n]) else 0)
            <= SlotSum(nodes) + (if f.Splice? then 5 else 0)
  {
    var e := Exec(p, nodes, f, status);
    SlotUpdate(nodes, f.n, e.nodes[f.n]);
    assert e.nodes == nodes[f.n := e.nodes[f.n]];
  }

  lemma NotifyCosts(p: Program, nodes: seq<Node>, f: Frame, status: Status)
    requires Executable(p, nodes, f) && f.Notify?
    ensures SlotSum(Exec(p, nodes, f, status).nodes) == SlotSum(nodes)
  {
    var ran := nodes[f.n := nodes[f.n].(runs := nodes[f.n].runs + 1)];
    SlotUpdate(nodes, f.n, ran[f.n]);
    if Returned(p, nodes, f).Some? && Returned(p, nodes, f).value < |nodes| {
      var k := Returned(p, nodes, f).value;
      SlotUpdate(ran, k, ran[k].(future := false));
    }
  }

  predicate Internal(a: Step) {
    a.Run? || a.Start? || a.Discard?
  }

  lemma RunCosts(p: Program, s: State, t: nat, status: Status)
    requires Inv(p, s) && Enabled(p, s, Run(t, status))
    ensures Measure(Do(p, s, Run(t, status))) < Measure(s)
  {
    RunParts(p, s, t, status);
    InvShape(p, s);
    var st := s.threads[t].stack;
    var e := Exec(p, s.nodes, st[0], status);
    CountRun(p, s, t, status, QCost);
    ExecCosts(p, s.nodes, st[0], status);
    assert !s.threads[t].parked;
    assert Do(p, s, Run(t, status)).threads == Spawn(s.threads[t := Thread(e.push + st[1..], false)], e.job, true);
    hide Inv, Shape, Do, Exec, Enabled, ValidProgram, FrameOk, Executable, SlotSum, Count, ParkedSum;
    ParkedUpdate(s.threads, t, Thread(e.push + st[1..], false));
    ParkedAppend(s.threads[t := Thread(e.push + st[1..], false)], Thread(e.job, true));
  }

  lemma StartCosts(p: Program, s: State, t: nat)
    requires |s.nodes| == p.size && ValidProgram(p) && Enabled(p, s, Start(t))
    ensures Measure(Do(p, s, Start(t))) < Measure(s)
  {
    var s' := Do(p, s, Start(t));
    CountUpdate(QCost, s.threads, t, s'.threads[t]);
    ParkedUpdate(s.threads, t, s'.threads[t]);
  }

  lemma DiscardCosts(p: Program, s: State, t: nat)
    requires |s.nodes| == p.size && ValidProgram(p) && Enabled(p, s, Discard(t))
    ensures Measure(Do(p, s, Discard(t))) < Measure(s)
  {
    var s' := Do(p, s, Discard(t));
    var f := s.threads[t].stack[0];
    CountUpdate(QCost, s.threads, t, s'.threads[t]);
    ParkedUpdate(s.threads, t, s'.threads[t]);
    SlotUpdate(s.nodes, f.n, s'.nodes[f.n]);
    CountShort(QCost, s'.threads[t].stack);
  }

  lemma InternalStepCosts(p: Program, s: State, a: Step)
    requires Inv(p, s) && Enabled(p, s, a) && Internal(a)
    ensures Measure(Do(p, s, a)) < Measure(s)
  {
    hide Inv, Shape, Do, Enabled, ValidProgram, Measure;
    InvShape(p, s);
    match a {
      case Run(t, status) => RunCosts(p, s, t, status);
      case Start(t) => StartCosts(p, s, t);
      case Discard(t) => DiscardCosts(p, s, t);
    }
  }

  lemma {:induction false} ProgressOrIdle(p: Program, s: State) returns (a: Step)
    requires Inv(p, s) && !Idle(s)
    ensures Enabled(p, s, a) && Internal(a)
  {
    var t :| 0 <= t < |s.threads| && s.threads[t].stack != [];
    assert ThreadOk(p, s.nodes, s.threads[t]);
    assert FrameOk(p, s.nodes, s.threads[t].stack[0]);
    a := if s.threads[t].parked then Start(t) else Run(t, Done);
  }

  /** No deadlock and no livelock: left alone, the machine becomes idle within Measure(s) steps,
      and no schedule of internal steps is longer. */
  lemma {:induction false} InternalRunsAreBounded(p: Program, s: State, steps: seq<Step>, s': State)
    requires Inv(p, s) && Reaches(p, s, steps, s')
    requires forall i :: 0 <= i < |steps| ==> Internal(steps[i])
    ensures |steps| + Measure(s') <= Measure(s)
    decreases |steps|
  {
    if steps != [] {
      StepKeepsInv(p, s, steps[0]);
      InternalStepCosts(p, s, steps[0]);
      assert forall i :: 0 <= i < |steps[1..]| ==> Internal(steps[1..][i]);
      InternalRunsAreBounded(p, Do(p, s, steps[0]), steps[1..], s');
    }
  }

  lemma {:induction false} ReachesIdle(p: Program, s: State) returns (steps: seq<Step>, s': State)
    requires Inv(p, s)
    ensures Reaches(p, s, steps, s') && Idle(s') && |steps| <= Measure(s)
    ensures forall i :: 0 <= i < |steps| ==> Internal(steps[i])
    decreases Measure(s)
  {
    if Idle(s) {
      steps, s' := [], s;
    } else {
      var a := ProgressOrIdle(p, s);
      StepKeepsInv(p, s, a);
      InternalStepCosts(p, s, a);
      var rest;
      rest, s' := ReachesIdle(p, Do(p, s, a));
      steps := [a] + rest;
      assert steps[1..] == rest;
    }
  }
}
