/** The steps of users and executors keep the laws as well; so every run keeps them. */
module FutureSteps {
  import opened Wrappers
  import opened FutureMachine
  import opened FutureLaws
  import opened FutureSafety

  lemma SpawnKeepsShape(p: Program, s: State, nodes': seq<Node>, stack: seq<Frame>, handles': seq<Option<nat>>)
    requires Shape(p, s) && Extends(s.nodes, nodes')
    requires forall i :: 0 <= i < p.size ==> NodeOk(p, nodes', i)
    requires StackOk(p, nodes', stack) && Followed(stack)
    requires forall h :: 0 <= h < |handles'| && handles'[h].Some? ==>
                           handles'[h].value < p.size && handles'[h].value !in p.pred
    ensures Shape(p, State(nodes', Spawn(s.threads, stack, false), handles'))
  {
    var threads' := Spawn(s.threads, stack, false);
    forall u | 0 <= u < |threads'| ensures ThreadOk(p, nodes', threads'[u]) {
      if u < |s.threads| {
        assert ThreadOk(p, s.nodes, s.threads[u]);
        forall i | 0 <= i < |threads'[u].stack| ensures FrameOk(p, nodes', threads'[u].stack[i]) {
          FrameOkExtends(p, s.nodes, nodes', s.threads[u].stack[i]);
        }
      }
    }
  }

  lemma ReplaceKeepsShape(p: Program, s: State, nodes': seq<Node>, t: nat, th: Thread)
    requires Shape(p, s) && Extends(s.nodes, nodes') && t < |s.threads|
    requires forall i :: 0 <= i < p.size ==> NodeOk(p, nodes', i)
    requires ThreadOk(p, nodes', th)
    ensures Shape(p, State(nodes', s.threads[t := th], s.handles))
  {
    var threads' := s.threads[t := th];
    forall u | 0 <= u < |threads'| ensures ThreadOk(p, nodes', threads'[u]) {
      if u != t {
        assert ThreadOk(p, s.nodes, s.threads[u]);
        forall i | 0 <= i < |threads'[u].stack| ensures FrameOk(p, nodes', threads'[u].stack[i]) {
          FrameOkExtends(p, s.nodes, nodes', s.threads[u].stack[i]);
        }
      }
    }
  }

  /** A step that changes no progress and spawns at most one thread keeps the shape. */
  lemma QuietShape(p: Program, s: State, nodes': seq<Node>, stack: seq<Frame>, handles': seq<Option<nat>>)
    requires Shape(p, s) && Quiet(p, s.nodes, nodes') && HandlesOk(p, handles')
    requires StackOk(p, nodes', stack) && Followed(stack)
    ensures Shape(p, State(nodes', Spawn(s.threads, stack, false), handles'))
  {
    ShapeParts(p, s);
    QuietExtends(p, s.nodes, nodes');
    hide Shape, Quiet, NodeOk, StackOk, Followed, ValidProgram;
    forall i | 0 <= i < p.size ensures NodeOk(p, nodes', i) { QuietNode(p, s.nodes, nodes', i); }
    SpawnKeepsShape(p, s, nodes', stack, handles');
  }

  lemma StartKeepsInv(p: Program, s: State, t: nat)
    requires Inv(p, s) && Enabled(p, s, Start(t))
    ensures Inv(p, Do(p, s, Start(t)))
  {
    var s' := Do(p, s, Start(t));
    assert ThreadOk(p, s.nodes, s.threads[t]);
    ReplaceKeepsShape(p, s, s.nodes, t, s.threads[t].(parked := false));
    forall i | 0 <= i < p.size ensures LawsAt(p, s', i) {
      forall q: Query ensures Count(q, s'.threads) == Count(q, s.threads) {
        CountUpdate(q, s.threads, t, s.threads[t].(parked := false));
      }
      assert LawsAt(p, s, i);
    }
  }

  /** A deferred job holds exactly a claimed continuation and the look at its target. */
  lemma JobCount(q: Query, n: nat, c: Cont, next: Option<nat>)
    requires !q.QCost?
    ensures CountStack(q, [Notify(n, c, next)] + DriveChain(next))
            == Weight(q, Notify(n, c, next)) + Bit(q.QDrive? && next == Some(q.n))
    ensures CountStack(q, if c == Functor then [Free(n)] else []) == Bit(c == Functor && q == QFunctor(n))
  {
    CountShort(q, [Notify(n, c, next)] + DriveChain(next));
    CountShort(q, if c == Functor then [Free(n)] else []);
  }

  lemma JobShape(p: Program, s: State, t: nat)
    requires Shape(p, s) && Enabled(p, s, Discard(t))
    ensures var f := s.threads[t].stack[0];
            && s.threads[t].stack == [Notify(f.n, f.c, f.next)] + DriveChain(f.next)
            && ClaimOk(p, s.nodes, f.n, f.c, f.next)
  {
    assert ThreadOk(p, s.nodes, s.threads[t]) && FrameOk(p, s.nodes, s.threads[t].stack[0]);
  }

  /** Dropping a deferred job: the functor it carried is about to be freed, nothing else moves. */
  lemma DiscardCounts(p: Program, s: State, t: nat, q: Query)
    requires !q.QCost? && Shape(p, s) && Enabled(p, s, Discard(t))
    ensures var f := s.threads[t].stack[0];
            Count(q, Do(p, s, Discard(t)).threads) + Bit(q == QClaim(f.n)) + Bit(q.QDrive? && f.next == Some(q.n))
            == Count(q, s.threads)
  {
    JobShape(p, s, t);
    var f := s.threads[t].stack[0];
    JobCount(q, f.n, f.c, f.next);
    CountUpdate(q, s.threads, t, Do(p, s, Discard(t)).threads[t]);
  }

  lemma DiscardTally(p: Program, nodes: seq<Node>, handles: seq<Option<nat>>, f: Frame, i: nat, c: Tally, c': Tally)
    requires ValidProgram(p) && |nodes| == p.size && i < p.size
    requires f.Notify? && ClaimOk(p, nodes, f.n, f.c, f.next) && nodes[f.n].runs == 0
    requires NodeLaws(p, nodes, handles, i, c)
    requires c == c'.(drives := c'.drives + Bit(f.next == Some(i)), claims := c'.claims + Bit(f.n == i))
    ensures NodeLaws(p, nodes[f.n := nodes[f.n].(drops := nodes[f.n].drops + 1)], handles, i, c')
  {
    var nodes' := nodes[f.n := nodes[f.n].(drops := nodes[f.n].drops + 1)];
    if i in p.pred {
      assert Delivered(p, nodes', i) == Delivered(p, nodes, i);
      if f.next == Some(i) { assert Delivered(p, nodes, i) == 0; }
    }
  }

  lemma DiscardKeepsLaws(p: Program, s: State, t: nat, i: nat)
    requires Inv(p, s) && Enabled(p, s, Discard(t)) && i < p.size
    ensures var s' := Do(p, s, Discard(t)); |s'.nodes| == p.size && LawsAt(p, s', i)
  {
    hide Do, Inv, Shape, NodeLaws, NodeOk, Enabled, ValidProgram, ClaimOk, TallyOf;
    InvAt(p, s, i);
    DiscardNodes(p, s, t);
    DiscardedNotRun(p, s, t);
    DiscardTallies(p, s, t, i);
    DiscardTally(p, s.nodes, s.handles, s.threads[t].stack[0], i, TallyOf(s.threads, i), TallyOf(Do(p, s, Discard(t)).threads, i));
  }

  lemma DiscardNodes(p: Program, s: State, t: nat)
    requires Shape(p, s) && Enabled(p, s, Discard(t))
    ensures var (f, s') := (s.threads[t].stack[0], Do(p, s, Discard(t)));
            && t < |s.threads| && s.threads[t].stack != []
            && f.Notify? && f.n < p.size && s'.handles == s.handles
            && s'.nodes == s.nodes[f.n := s.nodes[f.n].(drops := s.nodes[f.n].drops + 1)]
  {}

  lemma DiscardedNotRun(p: Program, s: State, t: nat)
    requires Inv(p, s) && Enabled(p, s, Discard(t))
    ensures var f := s.threads[t].stack[0]; ClaimOk(p, s.nodes, f.n, f.c, f.next) && s.nodes[f.n].runs == 0
  {
    JobShape(p, s, t);
    var n := s.threads[t].stack[0].n;
    CountMember(QClaim(n), s.threads, t, 0);
    assert LawsAt(p, s, n);
  }

  lemma DiscardTallies(p: Program, s: State, t: nat, i: nat)
    requires Shape(p, s) && Enabled(p, s, Discard(t))
    ensures var f := s.threads[t].stack[0];
            var c' := TallyOf(Do(p, s, Discard(t)).threads, i);
            TallyOf(s.threads, i)
            == c'.(drives := c'.drives + Bit(f.next == Some(i)), claims := c'.claims + Bit(f.n == i))
  {
    DiscardCounts(p, s, t, QDrive(i));
    DiscardCounts(p, s, t, QClaim(i));
    DiscardCounts(p, s, t, QSplice(i));
    DiscardCounts(p, s, t, QFunctor(i));
    DiscardCounts(p, s, t, QResolve(i));
    DiscardCounts(p, s, t, QBroken(i));
  }

  lemma DiscardShape(p: Program, s: State, t: nat)
    requires Shape(p, s) && Enabled(p, s, Discard(t))
    ensures Shape(p, Do(p, s, Discard(t)))
  {
    var s' := Do(p, s, Discard(t));
    DiscardParts(p, s, t);
    hide Do, Enabled;
    ShapeParts(p, s);
    QuietExtends(p, s.nodes, s'.nodes);
    assert |s'.nodes| == p.size;
    hide Shape, Quiet, NodeOk, ThreadOk, ValidProgram;
    forall i | 0 <= i < p.size ensures NodeOk(p, s'.nodes, i) { QuietNode(p, s.nodes, s'.nodes, i); }
    ReplaceKeepsShape(p, s, s'.nodes, t, s'.threads[t]);
  }

  lemma DiscardParts(p: Program, s: State, t: nat)
    requires Shape(p, s) && Enabled(p, s, Discard(t))
    ensures var s' := Do(p, s, Discard(t));
            && Quiet(p, s.nodes, s'.nodes) && t < |s.threads| == |s'.threads| && s'.handles == s.handles
            && s'.threads == s.threads[t := s'.threads[t]] && ThreadOk(p, s'.nodes, s'.threads[t])
  {
    JobShape(p, s, t);
  }

  lemma DiscardKeepsInv(p: Program, s: State, t: nat)
    requires Inv(p, s) && Enabled(p, s, Discard(t))
    ensures Inv(p, Do(p, s, Discard(t)))
  {
    hide Inv, Shape, Laws, LawsAt, Do, Enabled, ValidProgram;
    InvShape(p, s);
    DiscardShape(p, s, t);
    var s' := Do(p, s, Discard(t));
    ShapeParts(p, s');
    forall i | 0 <= i < p.size ensures LawsAt(p, s', i) { DiscardKeepsLaws(p, s, t, i); }
    InvFrom(p, s');
  }

  // ---------------------------------------------------------------------------------------------
  // Steps of the user
  // ---------------------------------------------------------------------------------------------

  /** What a short stack adds to the tally of node i. */
  lemma SpawnTally(threads: seq<Thread>, stack: seq<Frame>, i: nat)
    requires |stack| <= 2
    ensures var c := TallyOf(threads, i);
            TallyOf(Spawn(threads, stack, false), i)
            == c.(drives := c.drives + CountStack(QDrive(i), stack),
                  claims := c.claims + CountStack(QClaim(i), stack),
                  splices := c.splices + CountStack(QSplice(i), stack),
                  functors := c.functors + CountStack(QFunctor(i), stack),
                  resolves := c.resolves + CountStack(QResolve(i), stack),
                  brokens := c.brokens + CountStack(QBroken(i), stack))
    ensures forall q: Query :: CountStack(q, stack) == (if |stack| > 0 then Weight(q, stack[0]) else 0)
                                                       + (if |stack| > 1 then Weight(q, stack[1]) else 0)
  {
    forall q: Query
      ensures Count(q, Spawn(threads, stack, false)) == Count(q, threads) + CountStack(q, stack)
      ensures CountStack(q, stack) == (if |stack| > 0 then Weight(q, stack[0]) else 0)
                                      + (if |stack| > 1 then Weight(q, stack[1]) else 0)
    {
      CountSpawn(q, threads, stack, false);
      CountShort(q, stack);
    }
  }

  lemma SameDelivered(p: Program, nodes: seq<Node>, nodes': seq<Node>, i: nat)
    requires ValidProgram(p) && |nodes| == p.size && SameProgress(nodes, nodes')
    ensures i in p.pred ==> Delivered(p, nodes', i) == Delivered(p, nodes, i)
  {}

  function Attached(p: Program, nodes: seq<Node>, n: nat): seq<Node>
    requires n in p.links && n < |nodes|
  {
    nodes[n := nodes[n].(exec := p.links[n].onExecutor, chain := ChainOf(p, n), notify := Some(Functor),
                         future := false, allocs := nodes[n].allocs + 1)]
  }

  lemma AttachTally(p: Program, nodes: seq<Node>, handles: seq<Option<nat>>, n: nat, i: nat, c: Tally)
    requires ValidProgram(p) && |nodes| == p.size && i < p.size && n in p.links
    requires nodes[n].future && nodes[n].notify.None?
    requires NodeLaws(p, nodes, handles, i, c)
    ensures NodeLaws(p, Attached(p, nodes, n), handles, i, c.(drives := c.drives + Bit(n == i)))
  {
    SameDelivered(p, nodes, Attached(p, nodes, n), i);
  }

  lemma AttachStep(p: Program, s: State, n: nat)
    requires Shape(p, s) && Enabled(p, s, Attach(n))
    ensures n in p.links && n < p.size && s.nodes[n].future && s.nodes[n].notify.None?
    ensures Quiet(p, s.nodes, Attached(p, s.nodes, n))
    ensures Do(p, s, Attach(n)) == State(Attached(p, s.nodes, n), Spawn(s.threads, [Drive(n)], false), s.handles)
    ensures StackOk(p, Attached(p, s.nodes, n), [Drive(n)]) && Followed([Drive(n)])
  {}

  lemma AttachKeepsInv(p: Program, s: State, n: nat)
    requires Inv(p, s) && Enabled(p, s, Attach(n))
    ensures Inv(p, Do(p, s, Attach(n)))
  {
    hide Inv, Shape, Laws, NodeLaws, Do, Quiet, StackOk, Followed, ValidProgram, Spawn, Attached;
    InvShape(p, s);
    AttachStep(p, s, n);
    var s' := Do(p, s, Attach(n));
    QuietShape(p, s, s'.nodes, [Drive(n)], s.handles);
    forall i | 0 <= i < p.size ensures LawsAt(p, s', i) {
      InvAt(p, s, i);
      SpawnTally(s.threads, [Drive(n)], i);
      AttachTally(p, s.nodes, s.handles, n, i, TallyOf(s.threads, i));
    }
    InvFrom(p, s');
  }

  /** Reattach, Abandon and Destroy change the history and the slot of one node. */
  function SettledNode(x: Node, a: Step): Node {
    if a.Reattach? then x.(allocs := x.allocs + 1, frees := x.frees + 1)
    else if a.Abandon? then x.(future := false, drops := x.drops + 1)
    else x.(alive := false, notify := None,
            drops := x.drops + (if x.notify.Some? then 1 else 0),
            frees := x.frees + (if x.notify == Some(Functor) then 1 else 0))
  }

  function Settled(s: State, a: Step): seq<Node>
    requires (a.Reattach? || a.Abandon? || a.Destroy?) && a.n < |s.nodes|
  {
    s.nodes[a.n := SettledNode(s.nodes[a.n], a)]
  }

  lemma SettledStep(p: Program, s: State, a: Step)
    requires Shape(p, s) && (a.Reattach? || a.Abandon? || a.Destroy?) && Enabled(p, s, a)
    ensures a.n < p.size && Quiet(p, s.nodes, Settled(s, a))
    ensures Do(p, s, a) == State(Settled(s, a), s.threads, s.handles)
  {}

  lemma ReattachTally(p: Program, s: State, a: Step, i: nat)
    requires Shape(p, s) && a.Reattach? && Enabled(p, s, a) && i < p.size && a.n < p.size && LawsAt(p, s, i)
    requires i in p.pred ==> Delivered(p, Settled(s, a), i) == Delivered(p, s.nodes, i)
    ensures LawsAt(p, State(Settled(s, a), s.threads, s.handles), i)
  {
    hide TallyOf, Unreferenced, NodeOk, Delivered, StackOk, Followed, HandlesOk;
  }

  lemma AbandonTally(p: Program, s: State, a: Step, i: nat)
    requires Shape(p, s) && a.Abandon? && Enabled(p, s, a) && i < p.size && a.n < p.size && LawsAt(p, s, i)
    requires i in p.pred ==> Delivered(p, Settled(s, a), i) == Delivered(p, s.nodes, i)
    ensures LawsAt(p, State(Settled(s, a), s.threads, s.handles), i)
  {
    hide TallyOf, Unreferenced, NodeOk, Delivered, StackOk, Followed, HandlesOk;
  }

  lemma DestroyTally(p: Program, s: State, a: Step, i: nat)
    requires Shape(p, s) && a.Destroy? && Enabled(p, s, a) && i < p.size && a.n < p.size && LawsAt(p, s, i)
    requires i in p.pred ==> Delivered(p, Settled(s, a), i) == Delivered(p, s.nodes, i)
    ensures LawsAt(p, State(Settled(s, a), s.threads, s.handles), i)
  {
    hide TallyOf, Unreferenced, NodeOk, Delivered, StackOk, Followed, HandlesOk;
  }

  lemma SettledTally(p: Program, s: State, a: Step, i: nat)
    requires Shape(p, s) && (a.Reattach? || a.Abandon? || a.Destroy?) && Enabled(p, s, a) && i < p.size
    requires a.n < p.size && LawsAt(p, s, i)
    ensures LawsAt(p, State(Settled(s, a), s.threads, s.handles), i)
  {
    hide Shape, LawsAt, Enabled, Settled, Delivered, Quiet, SameProgress, Extends;
    ShapeParts(p, s);
    SettledStep(p, s, a);
    QuietExtends(p, s.nodes, Settled(s, a));
    SameDelivered(p, s.nodes, Settled(s, a), i);
    if a.Reattach? {
      ReattachTally(p, s, a, i);
    } else if a.Abandon? {
      AbandonTally(p, s, a, i);
    } else {
      DestroyTally(p, s, a, i);
    }
  }

  lemma SettlingKeepsInv(p: Program, s: State, a: Step)
    requires Inv(p, s) && (a.Reattach? || a.Abandon? || a.Destroy?) && Enabled(p, s, a)
    ensures Inv(p, Do(p, s, a))
  {
    hide Inv, Shape, Laws, LawsAt, Do, Enabled, Quiet, StackOk, Followed, ValidProgram, Settled;
    InvShape(p, s);
    SettledStep(p, s, a);
    var s' := Do(p, s, a);
    NoFrames(p, s'.nodes);
    QuietShape(p, s, s'.nodes, [], s.handles);
    forall i | 0 <= i < p.size ensures LawsAt(p, s', i) {
      InvAt(p, s, i);
      SettledTally(p, s, a, i);
    }
    InvFrom(p, s');
  }

  lemma NoFrames(p: Program, nodes: seq<Node>)
    requires ValidProgram(p) && |nodes| == p.size
    ensures StackOk(p, nodes, []) && Followed([])
  {}

  lemma CallStep(p: Program, s: State, h: nat, r: Res)
    requires Shape(p, s) && Enabled(p, s, Call(h, r))
    ensures h < |s.handles| && s.handles[h].Some?
    ensures var stack := [Resolve(s.handles[h].value, r), Drive(s.handles[h].value)];
            && Do(p, s, Call(h, r)) == State(s.nodes, Spawn(s.threads, stack, false), s.handles)
            && StackOk(p, s.nodes, stack) && Followed(stack) && Quiet(p, s.nodes, s.nodes)
  {
    var n := s.handles[h].value;
    var stack := [Resolve(n, r), Drive(n)];
    assert n !in p.pred && n < p.size;
    assert stack[1..] == [Drive(n)] && Followed([Drive(n)]);
  }

  lemma CallKeepsInv(p: Program, s: State, h: nat, r: Res)
    requires Inv(p, s) && Enabled(p, s, Call(h, r))
    ensures Inv(p, Do(p, s, Call(h, r)))
  {
    hide Inv, Shape, Laws, Do, Enabled, Quiet, StackOk, Followed, ValidProgram, Spawn, NodeLaws, HandlesOk;
    InvShape(p, s);
    CallStep(p, s, h, r);
    var stack := [Resolve(s.handles[h].value, r), Drive(s.handles[h].value)];
    var s' := Do(p, s, Call(h, r));
    QuietShape(p, s, s.nodes, stack, s.handles);
    forall i | 0 <= i < p.size ensures LawsAt(p, s', i) {
      InvAt(p, s, i);
      HandleInRange(p, s, h);
      SpawnTally(s.threads, stack, i);
      CallTally(p, s, i, TallyOf(s.threads, i), TallyOf(s'.threads, i), s.handles[h].value);
    }
    InvFrom(p, s');
  }

  lemma HandleInRange(p: Program, s: State, h: nat)
    requires HandlesOk(p, s.handles) && h < |s.handles| && s.handles[h].Some?
    ensures s.handles[h].value < p.size && s.handles[h].value !in p.pred
  {}

  lemma CallTally(p: Program, s: State, i: nat, c: Tally, c': Tally, n: nat)
    requires ValidProgram(p) && |s.nodes| == p.size && i < p.size && n !in p.pred
    requires NodeLaws(p, s.nodes, s.handles, i, c)
    requires c' == c.(drives := c.drives + Bit(n == i), resolves := c.resolves + Bit(n == i))
    ensures NodeLaws(p, s.nodes, s.handles, i, c')
  {
    hide Delivered;
  }

  function WithPromises(nodes: seq<Node>, n: nat, k: nat): seq<Node>
    requires n < |nodes|
  {
    nodes[n := nodes[n].(promises := k)]
  }

  lemma HandlesTally(p: Program, nodes: seq<Node>, handles: seq<Option<nat>>, handles': seq<Option<nat>>,
                     n: nat, k: nat, i: nat, c: Tally, broken: bool)
    requires ValidProgram(p) && |nodes| == p.size && i < p.size && n < p.size
    requires CountHandles(i, handles') == if i == n then k else nodes[i].promises
    requires nodes[n].promises != 0 && k == 0 ==> broken
    requires NodeLaws(p, nodes, handles, i, c)
    ensures NodeLaws(p, WithPromises(nodes, n, k), handles', i, c.(brokens := c.brokens + Bit(broken && i == n)))
  {
    SameDelivered(p, nodes, WithPromises(nodes, n, k), i);
  }

  lemma PromisesQuiet(p: Program, nodes: seq<Node>, n: nat, k: nat)
    requires n < |nodes|
    ensures Quiet(p, nodes, WithPromises(nodes, n, k))
  {}

  lemma BrokenStack(p: Program, nodes: seq<Node>, n: nat, broken: bool)
    requires ValidProgram(p) && |nodes| == p.size && n < p.size && n !in p.pred
    ensures var stack := if broken then [CheckBroken(n)] else [];
            |stack| <= 1 && StackOk(p, nodes, stack) && Followed(stack)
  {}

  /** A step that only changes handles and one promise counter. */
  lemma HandlesKeepInv(p: Program, s: State, n: nat, k: nat, handles': seq<Option<nat>>, broken: bool)
    requires Inv(p, s) && n < p.size && n !in p.pred && HandlesOk(p, handles')
    requires forall i :: 0 <= i < p.size ==> CountHandles(i, handles') == if i == n then k else s.nodes[i].promises
    requires s.nodes[n].promises != 0 && k == 0 ==> broken
    ensures Inv(p, State(WithPromises(s.nodes, n, k),
                         Spawn(s.threads, if broken then [CheckBroken(n)] else [], false), handles'))
  {
    hide Inv, Shape, Laws, NodeLaws, Quiet, StackOk, Followed, ValidProgram, Spawn, HandlesOk, WithPromises, CountHandles;
    InvShape(p, s);
    var nodes' := WithPromises(s.nodes, n, k);
    var stack := if broken then [CheckBroken(n)] else [];
    PromisesQuiet(p, s.nodes, n, k);
    SameSize(p, s.nodes, nodes');
    BrokenStack(p, nodes', n, broken);
    var s' := State(nodes', Spawn(s.threads, stack, false), handles');
    QuietShape(p, s, nodes', stack, handles');
    forall i | 0 <= i < p.size ensures LawsAt(p, s', i) {
      InvAt(p, s, i);
      SpawnTally(s.threads, stack, i);
      HandlesTally(p, s.nodes, s.handles, handles', n, k, i, TallyOf(s.threads, i), broken);
    }
    InvFrom(p, s');
  }

  lemma SameSize(p: Program, nodes: seq<Node>, nodes': seq<Node>)
    requires Quiet(p, nodes, nodes')
    ensures |nodes'| == |nodes|
  {}

  lemma CopyKeepsInv(p: Program, s: State, h: nat, to: nat)
    requires Inv(p, s) && Enabled(p, s, Copy(h, to))
    ensures Inv(p, Do(p, s, Copy(h, to)))
  {
    var s' := Do(p, s, Copy(h, to));
    var n := s.handles[h].value;
    forall i | 0 <= i < p.size ensures CountHandles(i, s'.handles) == s'.nodes[i].promises {
      assert LawsAt(p, s, i);
      CountHandlesUpdate(i, s.handles, to, s.handles[h]);
    }
    HandlesKeepInv(p, s, n, s'.nodes[n].promises, s'.handles, false);
  }

  /** Moving handles around: every node keeps its number of handles. */
  lemma ShuffleKeepsInv(p: Program, s: State, handles': seq<Option<nat>>)
    requires Inv(p, s)
    requires forall i :: 0 <= i < p.size ==> CountHandles(i, handles') == CountHandles(i, s.handles)
    requires forall h :: 0 <= h < |handles'| && handles'[h].Some? ==>
                           handles'[h].value < p.size && handles'[h].value !in p.pred
    ensures Inv(p, s.(handles := handles'))
  {
    var s' := s.(handles := handles');
    SpawnKeepsShape(p, s, s.nodes, [], handles');
    forall i | 0 <= i < p.size ensures LawsAt(p, s', i) { assert LawsAt(p, s, i); }
  }

  lemma MoveKeepsInv(p: Program, s: State, h: nat, to: nat)
    requires Inv(p, s) && Enabled(p, s, Move(h, to))
    ensures Inv(p, Do(p, s, Move(h, to)))
  {
    var s' := Do(p, s, Move(h, to));
    var mid := s.handles[to := s.handles[h]];
    forall i | 0 <= i < p.size ensures CountHandles(i, s'.handles) == CountHandles(i, s.handles) {
      CountHandlesUpdate(i, s.handles, to, s.handles[h]);
      CountHandlesUpdate(i, mid, h, if h == to then s.handles[h] else None);
    }
    ShuffleKeepsInv(p, s, s'.handles);
  }

  lemma SwapKeepsInv(p: Program, s: State, h: nat, to: nat)
    requires Inv(p, s) && Enabled(p, s, Swap(h, to))
    ensures Inv(p, Do(p, s, Swap(h, to)))
  {
    var s' := Do(p, s, Swap(h, to));
    forall i | 0 <= i < p.size ensures CountHandles(i, s'.handles) == CountHandles(i, s.handles) {
      CountHandlesUpdate(i, s.handles, to, s.handles[h]);
      CountHandlesUpdate(i, s.handles[to := s.handles[h]], h, s.handles[to]);
    }
    ShuffleKeepsInv(p, s, s'.handles);
  }

  lemma DropKeepsInv(p: Program, s: State, h: nat)
    requires Inv(p, s) && Enabled(p, s, Drop(h))
    ensures Inv(p, Do(p, s, Drop(h)))
  {
    var s' := Do(p, s, Drop(h));
    var n := s.handles[h].value;
    forall i | 0 <= i < p.size ensures CountHandles(i, s'.handles) == s'.nodes[i].promises {
      assert LawsAt(p, s, i);
      CountHandlesUpdate(i, s.handles, h, None);
    }
    HandlesKeepInv(p, s, n, s'.nodes[n].promises, s'.handles, s.nodes[n].promises == 1);
  }

  /** Every step of the machine keeps the invariant. */
  lemma StepKeepsInv(p: Program, s: State, a: Step)
    requires Inv(p, s) && Enabled(p, s, a)
    ensures Inv(p, Do(p, s, a))
  {
    match a {
      case Run(t, status) => RunKeepsInv(p, s, t, status);
      case Start(t) => StartKeepsInv(p, s, t);
      case Discard(t) => DiscardKeepsInv(p, s, t);
      case Attach(n) => AttachKeepsInv(p, s, n);
      case Reattach(_) => SettlingKeepsInv(p, s, a);
      case Abandon(_) => SettlingKeepsInv(p, s, a);
      case Call(h, r) => CallKeepsInv(p, s, h, r);
      case Copy(h, to) => CopyKeepsInv(p, s, h, to);
      case Move(h, to) => MoveKeepsInv(p, s, h, to);
      case Swap(h, to) => SwapKeepsInv(p, s, h, to);
      case Drop(h) => DropKeepsInv(p, s, h);
      case Destroy(_) => SettlingKeepsInv(p, s, a);
    }
  }
}
