/** Conservation laws of the future engine: each is a count over all frames of all threads. */
module FutureLaws {
  import opened Wrappers
  import opened FutureMachine

  // ---------------------------------------------------------------------------------------------
  // Counting frames
  // ---------------------------------------------------------------------------------------------

  /** What is being counted for node n. */
  datatype Query =
    | QDrive(n: nat)      // somebody will look at n again
    | QClaim(n: nat)      // n's continuation is claimed and not yet run
    | QSplice(n: nat)     // n's future is being spliced
    | QFunctor(n: nat)    // n's functor is carried by a frame
    | QResolve(n: nat)    // a resolution of n is under way
    | QBroken(n: nat)     // the last promise of n was dropped
    | QCost               // how much work a frame may still cause

  /** More than everything the frame can still push, spawn or publish. */
  function Cost(f: Frame): nat {
    match f
    case Resolve(_, _) => 1
    case Drive(_) => 1
    case Free(_) => 1
    case CheckBroken(_) => 3
    case Splice(_, _) => 6
    case Notify(_, c, _) => if c == Functor then 9 else 2
    case Dispatch(_, c, _) => if c == Functor then 12 else 5
  }

  function Weight(q: Query, f: Frame): nat {
    if q.QCost? then Cost(f)
    else if match q
       case QDrive(n) => f.Drive? && f.n == n
       case QClaim(n) => (f.Dispatch? || f.Notify?) && f.n == n
       case QSplice(n) => f.Splice? && f.n == n
       case QFunctor(n) => f.n == n && (f.Free? || ((f.Dispatch? || f.Notify?) && f.c == Functor))
       case QResolve(n) => f.Resolve? && f.n == n
       case QBroken(n) => f.CheckBroken? && f.n == n
       case QCost => false
    then 1 else 0
  }

  function CountStack(q: Query, st: seq<Frame>): nat {
    if st == [] then 0 else Weight(q, st[0]) + CountStack(q, st[1..])
  }

  function Count(q: Query, threads: seq<Thread>): nat {
    if threads == [] then 0 else CountStack(q, threads[0].stack) + Count(q, threads[1..])
  }

  lemma {:induction false} CountStackConcat(q: Query, a: seq<Frame>, b: seq<Frame>)
    ensures CountStack(q, a + b) == CountStack(q, a) + CountStack(q, b)
  {
    if a == [] {
      assert a + b == b;
    } else {
      assert (a + b)[1..] == a[1..] + b;
      CountStackConcat(q, a[1..], b);
    }
  }

  lemma CountShort(q: Query, st: seq<Frame>)
    requires |st| <= 3
    ensures CountStack(q, st) == (if |st| > 0 then Weight(q, st[0]) else 0)
                                 + (if |st| > 1 then Weight(q, st[1]) else 0)
                                 + (if |st| > 2 then Weight(q, st[2]) else 0)
  {
    if |st| > 0 {
      assert CountStack(q, st) == Weight(q, st[0]) + CountStack(q, st[1..]);
      if |st| > 1 {
        assert st[1..][1..] == st[2..];
        if |st| > 2 { assert st[2..][1..] == []; }
      }
    }
  }

  lemma {:induction false} CountUpdate(q: Query, threads: seq<Thread>, t: nat, th: Thread)
    requires t < |threads|
    ensures Count(q, threads[t := th]) + CountStack(q, threads[t].stack)
            == Count(q, threads) + CountStack(q, th.stack)
  {
    var u := threads[t := th];
    if t == 0 {
      assert u[1..] == threads[1..];
    } else {
      assert u[1..] == threads[1..][t - 1 := th];
      CountUpdate(q, threads[1..], t - 1, th);
    }
  }

  lemma {:induction false} CountAppend(q: Query, threads: seq<Thread>, th: Thread)
    ensures Count(q, threads + [th]) == Count(q, threads) + CountStack(q, th.stack)
  {
    if threads == [] {
      assert threads + [th] == [th];
    } else {
      assert (threads + [th])[1..] == threads[1..] + [th];
      CountAppend(q, threads[1..], th);
    }
  }

  lemma CountSpawn(q: Query, threads: seq<Thread>, st: seq<Frame>, parked: bool)
    ensures Count(q, Spawn(threads, st, parked)) == Count(q, threads) + CountStack(q, st)
  {
    CountAppend(q, threads, Thread(st, parked));
  }

  lemma {:induction false} CountStackMember(q: Query, st: seq<Frame>, i: nat)
    requires i < |st|
    ensures CountStack(q, st) >= Weight(q, st[i])
  {
    if i > 0 { CountStackMember(q, st[1..], i - 1); }
  }

  lemma {:induction false} CountMember(q: Query, threads: seq<Thread>, t: nat, i: nat)
    requires t < |threads| && i < |threads[t].stack|
    ensures Count(q, threads) >= Weight(q, threads[t].stack[i])
  {
    if t == 0 {
      CountStackMember(q, threads[0].stack, i);
    } else {
      CountMember(q, threads[1..], t - 1, i);
    }
  }

  ghost predicate Idle(s: State) {
    forall t :: 0 <= t < |s.threads| ==> s.threads[t].stack == []
  }

  lemma {:induction false} CountIdle(q: Query, threads: seq<Thread>)
    requires forall t :: 0 <= t < |threads| ==> threads[t].stack == []
    ensures Count(q, threads) == 0
  {
    if threads != [] { CountIdle(q, threads[1..]); }
  }

  function CountHandles(n: nat, handles: seq<Option<nat>>): nat {
    if handles == [] then 0 else (if handles[0] == Some(n) then 1 else 0) + CountHandles(n, handles[1..])
  }

  lemma {:induction false} CountHandlesUpdate(n: nat, handles: seq<Option<nat>>, h: nat, v: Option<nat>)
    requires h < |handles|
    ensures CountHandles(n, handles[h := v]) + (if handles[h] == Some(n) then 1 else 0)
            == CountHandles(n, handles) + (if v == Some(n) then 1 else 0)
  {
    var u := handles[h := v];
    if h == 0 {
      assert u[1..] == handles[1..];
    } else {
      assert u[1..] == handles[1..][h - 1 := v];
      CountHandlesUpdate(n, handles[1..], h - 1, v);
    }
  }

  lemma {:induction false} CountHandlesZero(n: nat, handles: seq<Option<nat>>)
    ensures CountHandles(n, handles) == 0 <==> forall h :: 0 <= h < |handles| ==> handles[h] != Some(n)
  {
    if handles != [] {
      CountHandlesZero(n, handles[1..]);
      if CountHandles(n, handles) == 0 {
        forall h | 0 <= h < |handles| ensures handles[h] != Some(n) {
          if h > 0 { assert handles[h] == handles[1..][h - 1]; }
        }
      } else if handles[0] != Some(n) {
        var h :| 0 <= h < |handles[1..]| && handles[1..][h] == Some(n);
        assert handles[h + 1] == Some(n);
      }
    }
  }

  /** Executing a frame moves exactly its own weight into the frames it leaves behind. */
  lemma CountRun(p: Program, s: State, t: nat, status: Status, q: Query)
    requires |s.nodes| == p.size && ValidProgram(p) && Enabled(p, s, Run(t, status))
    ensures var st := s.threads[t].stack;
            var e := Exec(p, s.nodes, st[0], status);
            Count(q, Do(p, s, Run(t, status)).threads) + Weight(q, st[0])
            == Count(q, s.threads) + CountStack(q, e.push) + CountStack(q, e.job)
    ensures var e := Exec(p, s.nodes, s.threads[t].stack[0], status);
            |e.push| <= 3 && |e.job| <= 3
  {
    var st := s.threads[t].stack;
    var e := Exec(p, s.nodes, st[0], status);
    CountStackConcat(q, e.push, st[1..]);
    CountUpdate(q, s.threads, t, Thread(e.push + st[1..], false));
    CountSpawn(q, s.threads[t := Thread(e.push + st[1..], false)], e.job, true);
  }

  // ---------------------------------------------------------------------------------------------
  // Shape: what a frame or a slot may carry
  // ---------------------------------------------------------------------------------------------

  /** Node k's future was returned by the functor of its owner, so its result is owed to `next`. */
  ghost predicate Spliced(p: Program, nodes: seq<Node>, k: nat, next: Option<nat>)
    requires ValidProgram(p) && |nodes| == p.size
  {
    && k in p.owner
    && var n := p.owner[k];
       && nodes[n].runs >= 1 && nodes[n].result.Some?
       && Eval(p, n, nodes[n].result.value) == ReturnsFuture(k)
       && next == Some(p.links[n].next)
  }

  /** r is what running the continuation that feeds target m gives. */
  ghost predicate Justified(p: Program, nodes: seq<Node>, m: nat, r: Res)
    requires ValidProgram(p) && |nodes| == p.size && m in p.pred
  {
    var n := p.pred[m];
    && nodes[n].result.Some?
    && (match Eval(p, n, nodes[n].result.value)
        case Returns(r') => r == r'
        case ReturnsFuture(k) => k in p.owner && nodes[k].result == Some(r))
  }

  ghost predicate ClaimOk(p: Program, nodes: seq<Node>, n: nat, c: Cont, next: Option<nat>)
    requires ValidProgram(p) && |nodes| == p.size
  {
    && n < p.size && nodes[n].result.Some?
    && (c == Functor ==> n in p.links && next == ChainOf(p, n))
    && (c == Forward ==> Spliced(p, nodes, n, next))
  }

  ghost predicate FrameOk(p: Program, nodes: seq<Node>, f: Frame)
    requires ValidProgram(p) && |nodes| == p.size
  {
    match f
    case Resolve(n, r) => n < p.size && (n in p.pred ==> Justified(p, nodes, n, r))
    case Drive(n) => n < p.size
    case Dispatch(n, c, next) => ClaimOk(p, nodes, n, c, next)
    case Notify(n, c, next) => ClaimOk(p, nodes, n, c, next)
    case Splice(k, m) => k < p.size && Spliced(p, nodes, k, Some(m))
    case Free(n) => n < p.size
    case CheckBroken(n) => n < p.size && n !in p.pred
  }

  ghost predicate StackOk(p: Program, nodes: seq<Node>, st: seq<Frame>)
    requires ValidProgram(p) && |nodes| == p.size
  {
    forall i :: 0 <= i < |st| ==> FrameOk(p, nodes, st[i])
  }

  ghost predicate NodeOk(p: Program, nodes: seq<Node>, n: nat)
    requires ValidProgram(p) && |nodes| == p.size && n < p.size
  {
    var x := nodes[n];
    && (x.runs >= 1 ==> x.result.Some?)
    && (x.notify == Some(Functor) ==> n in p.links && x.chain == ChainOf(p, n) && x.exec == p.links[n].onExecutor)
    && (x.notify == Some(Forward) ==> Spliced(p, nodes, n, x.chain))
    && (n in p.pred && x.result.Some? ==> Justified(p, nodes, n, x.result.value))
  }

  /** The node that must be looked at again, further down the same stack, once f was executed. */
  function Wakes(f: Frame): Option<nat> {
    match f
    case Resolve(n, _) => Some(n)
    case Notify(_, _, next) => next
    case Splice(k, _) => Some(k)
    case _ => None
  }

  ghost predicate Followed(st: seq<Frame>) {
    st == [] || ((Wakes(st[0]).Some? ==> Drive(Wakes(st[0]).value) in st[1..]) && Followed(st[1..]))
  }

  /** A parked thread is a deferred job: it starts by running a claimed continuation. */
  ghost predicate ThreadOk(p: Program, nodes: seq<Node>, th: Thread)
    requires ValidProgram(p) && |nodes| == p.size
  {
    && StackOk(p, nodes, th.stack) && Followed(th.stack)
    && (th.parked ==> exists n, c, next :: th.stack == [Notify(n, c, next)] + DriveChain(next))
  }

  ghost predicate Shape(p: Program, s: State) {
    && ValidProgram(p) && |s.nodes| == p.size
    && (forall n :: 0 <= n < p.size ==> NodeOk(p, s.nodes, n))
    && (forall t :: 0 <= t < |s.threads| ==> ThreadOk(p, s.nodes, s.threads[t]))
    && (forall h :: 0 <= h < |s.handles| && s.handles[h].Some? ==>
                      s.handles[h].value < p.size && s.handles[h].value !in p.pred)
  }

  /** Results are write-once and continuations are never un-run. */
  ghost predicate Extends(nodes: seq<Node>, nodes': seq<Node>) {
    && |nodes| == |nodes'|
    && forall n :: 0 <= n < |nodes| ==>
                     && (nodes[n].result.Some? ==> nodes'[n].result == nodes[n].result)
                     && nodes[n].runs <= nodes'[n].runs
  }

  lemma FrameOkExtends(p: Program, nodes: seq<Node>, nodes': seq<Node>, f: Frame)
    requires ValidProgram(p) && |nodes| == p.size && Extends(nodes, nodes') && FrameOk(p, nodes, f)
    ensures FrameOk(p, nodes', f)
  {}

  // ---------------------------------------------------------------------------------------------
  // Laws
  // ---------------------------------------------------------------------------------------------

  function Bit(b: bool): nat { if b then 1 else 0 }

  /** How often target m has been paid: once its feeding continuation ran and, if the functor
      returned a future, once that future's forwarding continuation ran. */
  ghost function Delivered(p: Program, nodes: seq<Node>, m: nat): nat
    requires ValidProgram(p) && |nodes| == p.size && m in p.pred
  {
    var n := p.pred[m];
    if nodes[n].runs == 0 || nodes[n].result.None? then 0
    else match Eval(p, n, nodes[n].result.value)
         case Returns(_) => 1
         case ReturnsFuture(k) => if k in p.owner then nodes[k].runs else 0
  }

  /** The counts that concern one node. */
  datatype Tally = Tally(drives: nat, claims: nat, splices: nat, functors: nat, resolves: nat, brokens: nat)

  function TallyOf(threads: seq<Thread>, n: nat): Tally {
    Tally(Count(QDrive(n), threads), Count(QClaim(n), threads), Count(QSplice(n), threads),
          Count(QFunctor(n), threads), Count(QResolve(n), threads), Count(QBroken(n), threads))
  }

  /** No lost wake-up: a resolved node with a waiting continuation is about to be looked at. */
  predicate WakeLaw(x: Node, c: Tally) {
    x.result.Some? && x.notify.Some? ==> c.drives >= 1
  }

  /** The single continuation of a node is in exactly one place. */
  predicate StageLaw(x: Node, c: Tally) {
    Bit(x.future) + c.splices + Bit(x.notify.Some?) + c.claims + x.runs + x.drops == 1
  }

  /** Every functor ever allocated is stored, carried by one frame, or deleted. */
  predicate FunctorLaw(x: Node, c: Tally) {
    x.allocs == x.frees + Bit(x.notify == Some(Functor)) + c.functors
  }

  /** A target is paid exactly as often as its deliverer ran, and only the first payment counts. */
  ghost predicate DeliveryLaw(p: Program, nodes: seq<Node>, n: nat, c: Tally)
    requires ValidProgram(p) && |nodes| == p.size && n < p.size
  {
    && nodes[n].wins == Bit(nodes[n].result.Some?)
    && (n in p.pred ==> c.resolves + Bit(nodes[n].result.Some?) == Delivered(p, nodes, n))
  }

  /** The promise counter is the number of live handles; dropping the last one resolves the state. */
  predicate PromiseLaw(p: Program, x: Node, handles: seq<Option<nat>>, n: nat, c: Tally) {
    && x.promises == CountHandles(n, handles)
    && (n !in p.pred && x.promises == 0 && x.result.None? ==> c.resolves + c.brokens >= 1)
  }

  /** A future that a functor may return stays with that functor until it ran or was abandoned. */
  ghost predicate OwnerLaw(p: Program, nodes: seq<Node>, k: nat)
    requires ValidProgram(p) && |nodes| == p.size && k < p.size
  {
    k in p.owner ==>
      var n := p.owner[k];
      && (!nodes[k].future ==> nodes[n].runs + nodes[n].drops >= 1)
      && ((nodes[n].runs >= 1 && nodes[n].result.Some?
           && Eval(p, n, nodes[n].result.value) == ReturnsFuture(k)) ==> !nodes[k].future)
  }

  ghost predicate NodeLaws(p: Program, nodes: seq<Node>, handles: seq<Option<nat>>, n: nat, c: Tally)
    requires ValidProgram(p) && |nodes| == p.size && n < p.size
  {
    && WakeLaw(nodes[n], c) && StageLaw(nodes[n], c) && FunctorLaw(nodes[n], c)
    && DeliveryLaw(p, nodes, n, c) && PromiseLaw(p, nodes[n], handles, n, c) && OwnerLaw(p, nodes, n)
  }

  ghost predicate LawsAt(p: Program, s: State, n: nat)
    requires ValidProgram(p) && |s.nodes| == p.size && n < p.size
  {
    NodeLaws(p, s.nodes, s.handles, n, TallyOf(s.threads, n))
  }

  ghost predicate Laws(p: Program, s: State)
    requires ValidProgram(p) && |s.nodes| == p.size
  {
    forall n :: 0 <= n < p.size ==> LawsAt(p, s, n)
  }
}
