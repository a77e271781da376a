/** The future/promise engine as a machine of interleaved lock sections.

    Nodes are the shared states (`fut::Base`).  A thread is the stack of frames it still has to
    execute; every frame is one lock section or one call made outside the lock, so a step of the
    machine is one atomic action of the source.  Any number of threads run interleaved. */
module FutureMachine {
  import opened Wrappers

  datatype Error = Thrown(what: int) | BrokenPromise
  datatype Res = Val(value: int) | Exc(error: Error)

  // ---------------------------------------------------------------------------------------------
  // The program: which continuation is meant for which node
  // ---------------------------------------------------------------------------------------------

  datatype Kind = Then | Try | Last

  /** The continuation meant for a node: `next` is the node that `Then`/`Try` create. */
  datatype Link = Link(kind: Kind, next: nat, onExecutor: bool)

  /** What a functor does: it returns a value, throws (`Returns(Exc(..))`) or returns a future. */
  datatype Outcome = Returns(res: Res) | ReturnsFuture(inner: nat)

  /** `pred` inverts `next`; `owner[k]` is the link whose functor may return the future of node k. */
  datatype Program = Program(size: nat, links: map<nat, Link>, pred: map<nat, nat>,
                             owner: map<nat, nat>, call: (nat, Res) -> Outcome, rank: nat -> nat)

  ghost predicate ValidProgram(p: Program) {
    && (forall n :: n in p.links ==> n < p.size)
    && (forall n :: n in p.links && p.links[n].kind != Last ==>
                      p.links[n].next in p.pred && p.pred[p.links[n].next] == n)
    && (forall m :: m in p.pred ==>
                      m < p.size && p.pred[m] in p.links && p.links[p.pred[m]].kind != Last
                      && p.links[p.pred[m]].next == m && p.rank(p.pred[m]) < p.rank(m))
    && (forall k :: k in p.owner ==>
                      k < p.size && k !in p.links && p.owner[k] in p.links
                      && p.links[p.owner[k]].kind != Last
                      && p.rank(k) < p.rank(p.links[p.owner[k]].next))
    && (forall n, r {:trigger p.call(n, r)} :: n in p.links && p.call(n, r).ReturnsFuture? ==>
                      p.call(n, r).inner in p.owner && p.owner[p.call(n, r).inner] == n)
  }

  /** `setResult`: a Then functor is skipped on an error, a Try functor sees the whole result. */
  function Eval(p: Program, n: nat, r: Res): Outcome
    requires n in p.links
  {
    if p.links[n].kind == Then && r.Exc? then Returns(r) else p.call(n, r)
  }

  function ChainOf(p: Program, n: nat): Option<nat>
    requires n in p.links
  {
    if p.links[n].kind == Last then None else Some(p.links[n].next)
  }

  // ---------------------------------------------------------------------------------------------
  // State
  // ---------------------------------------------------------------------------------------------

  /** What `notify` points to: a user functor (`notifyImpl`, ...) or `notifyForward`. */
  datatype Cont = Functor | Forward

  /** One shared state.  `future` is the single Future handle that exists for it.  The last five
      fields are history: continuation runs and abandonments, winning resolutions, functors
      allocated and deleted for this node. */
  datatype Node = Node(result: Option<Res>, notify: Option<Cont>, chain: Option<nat>, exec: bool,
                       promises: nat, future: bool, alive: bool,
                       runs: nat, drops: nat, wins: nat, allocs: nat, frees: nat)

  datatype Frame =
    | Resolve(n: nat, r: Res)                           // lock section of fulfil*
    | Drive(n: nat)                                     // one turn of continueChain's loop
    | Dispatch(n: nat, c: Cont, next: Option<nat>)      // claimed; the executor is asked
    | Notify(n: nat, c: Cont, next: Option<nat>)        // notif(self, true)
    | Splice(n: nat, m: nat)                            // lock section of setResult
    | Free(n: nat)                                      // delete fn
    | CheckBroken(n: nat)                               // last deref of an unresolved promise

  datatype Thread = Thread(stack: seq<Frame>, parked: bool)

  datatype State = State(nodes: seq<Node>, threads: seq<Thread>, handles: seq<Option<nat>>)

  datatype Status = Done | Defer | Cancel

  datatype Step =
    | Run(t: nat, status: Status)        // the top frame of a thread; `status` is Execute's answer
    | Start(t: nat)                      // an executor starts a deferred job
    | Discard(t: nat)                    // an executor drops a deferred job
    | Attach(n: nat)                     // Then / Try / AtLast
    | Reattach(n: nat)                   // install on a state that already has a continuation
    | Abandon(n: nat)                    // a Future handle dies without a continuation
    | Call(h: nat, r: Res)               // SharedPromise::operator()
    | Copy(h: nat, to: nat)
    | Move(h: nat, to: nat)
    | Swap(h: nat, to: nat)
    | Drop(h: nat)                       // SharedPromise::deref
    | Destroy(n: nat)                    // the last reference to a state dies

  // ---------------------------------------------------------------------------------------------
  // Steps
  // ---------------------------------------------------------------------------------------------

  function DriveChain(next: Option<nat>): seq<Frame> {
    if next.Some? then [Drive(next.value)] else []
  }

  /** What executing one frame does: new nodes, frames pushed in its place, a deferred job. */
  datatype Effect = Effect(nodes: seq<Node>, push: seq<Frame>, job: seq<Frame>)

  predicate FrameInRange(p: Program, size: nat, f: Frame) {
    match f
    case Splice(n, m) => n < size
    case Notify(n, c, next) =>
      && n < size
      && (c == Functor ==> n in p.links)
      && (c == Forward ==> next.Some?)
    case _ => f.n < size
  }

  function Exec(p: Program, nodes: seq<Node>, f: Frame, status: Status): (e: Effect)
    requires FrameInRange(p, |nodes|, f)
    requires f.Notify? ==> nodes[f.n].result.Some?
  {
    var x := nodes[f.n];
    match f
    case Resolve(n, r) =>
      if x.result.Some? then Effect(nodes, [], [])
      else Effect(nodes[n := x.(result := Some(r), wins := x.wins + 1)], [], [])
    case Drive(n) =>
      if x.result.None? || x.notify.None? then Effect(nodes, [], [])
      else
        var claimed := nodes[n := x.(notify := None)];
        if x.exec then Effect(claimed, [Dispatch(n, x.notify.value, x.chain)], [])
        else Effect(claimed, [Notify(n, x.notify.value, x.chain)] + DriveChain(x.chain), [])
    case Dispatch(n, c, next) =>
      (match status
       case Done => Effect(nodes, [Notify(n, c, next)] + DriveChain(next), [])
       case Defer => Effect(nodes, [], [Notify(n, c, next)] + DriveChain(next))
       case Cancel => Effect(nodes[n := x.(drops := x.drops + 1)],
                             if c == Functor then [Free(n)] else [], []))
    case Notify(n, c, next) =>
      var ran := nodes[n := x.(runs := x.runs + 1)];
      if c == Forward then Effect(ran, [Resolve(next.value, x.result.value)], [])
      else if next.None? then Effect(ran, [Free(n)], [])
      else
        (match Eval(p, n, x.result.value)
         case Returns(r) => Effect(ran, [Resolve(next.value, r), Free(n)], [])
         case ReturnsFuture(k) =>
           Effect(if k < |nodes| then ran[k := ran[k].(future := false)] else ran,
                  [Splice(k, next.value), Drive(k), Free(n)], []))
    case Splice(k, m) =>
      Effect(nodes[k := x.(notify := Some(Forward), chain := Some(m))], [], [])
    case Free(n) => Effect(nodes[n := x.(frees := x.frees + 1)], [], [])
    case CheckBroken(n) =>
      Effect(nodes, if x.result.Some? then [] else [Resolve(n, Exc(BrokenPromise)), Drive(n)], [])
  }

  predicate Mentions(f: Frame, x: nat) {
    match f
    case Dispatch(n, _, next) => x == n || next == Some(x)
    case Notify(n, _, next) => x == n || next == Some(x)
    case Splice(n, m) => x == n || x == m
    case _ => x == f.n
  }

  /** No strong reference to node x is left. */
  ghost predicate Unreferenced(p: Program, s: State, x: nat)
    requires x < |s.nodes| == p.size && ValidProgram(p)
  {
    && !s.nodes[x].future
    && (x in p.pred ==> !s.nodes[p.pred[x]].future)
    && (forall h :: 0 <= h < |s.handles| ==> s.handles[h] != Some(x))
    && (forall t, i :: 0 <= t < |s.threads| && 0 <= i < |s.threads[t].stack| ==>
                         !Mentions(s.threads[t].stack[i], x))
    && (forall n :: 0 <= n < |s.nodes| && s.nodes[n].alive ==> s.nodes[n].chain != Some(x))
  }

  ghost predicate Enabled(p: Program, s: State, a: Step)
    requires |s.nodes| == p.size && ValidProgram(p)
  {
    match a
    case Run(t, _) =>
      && t < |s.threads| && !s.threads[t].parked && s.threads[t].stack != []
      && FrameInRange(p, p.size, s.threads[t].stack[0])
      && (s.threads[t].stack[0].Notify? ==> s.nodes[s.threads[t].stack[0].n].result.Some?)
    case Start(t) => t < |s.threads| && s.threads[t].parked
    case Discard(t) =>
      t < |s.threads| && s.threads[t].parked && s.threads[t].stack != []
      && s.threads[t].stack[0].Notify? && s.threads[t].stack[0].n < p.size
    case Attach(n) => n in p.links && s.nodes[n].future && s.nodes[n].notify.None?
    case Reattach(n) => n < p.size && s.nodes[n].alive && s.nodes[n].notify.Some?
    case Abandon(n) =>
      && n < p.size && s.nodes[n].future
      // the functor that owns the future was deleted, or will never exist
      && (n in p.owner ==> var o := s.nodes[p.owner[n]];
                           o.runs + o.drops >= 1 && o.allocs == o.frees)
    case Call(h, r) => h < |s.handles| && s.handles[h].Some? && s.handles[h].value < p.size
    case Copy(h, to) =>
      h < |s.handles| && to < |s.handles| && s.handles[h].Some? && s.handles[h].value < p.size
      && s.handles[to].None?
    case Move(h, to) => h < |s.handles| && to < |s.handles| && s.handles[to].None?
    case Swap(h, to) => h < |s.handles| && to < |s.handles|
    case Drop(h) =>
      h < |s.handles| && s.handles[h].Some? && s.handles[h].value < p.size
      && s.nodes[s.handles[h].value].promises >= 1
    case Destroy(n) => n < p.size && s.nodes[n].alive && Unreferenced(p, s, n)
  }

  function Spawn(threads: seq<Thread>, stack: seq<Frame>, parked: bool): seq<Thread> {
    if stack == [] then threads else threads + [Thread(stack, parked)]
  }

  ghost function Do(p: Program, s: State, a: Step): State
    requires |s.nodes| == p.size && ValidProgram(p) && Enabled(p, s, a)
  {
    match a
    case Run(t, status) =>
      var stack := s.threads[t].stack;
      var e := Exec(p, s.nodes, stack[0], status);
      State(e.nodes, Spawn(s.threads[t := Thread(e.push + stack[1..], false)], e.job, true), s.handles)
    case Start(t) => s.(threads := s.threads[t := s.threads[t].(parked := false)])
    case Discard(t) =>
      var f := s.threads[t].stack[0];
      var x := s.nodes[f.n];
      State(s.nodes[f.n := x.(drops := x.drops + 1)],
            s.threads[t := Thread(if f.c == Functor then [Free(f.n)] else [], false)], s.handles)
    case Attach(n) =>
      var x := s.nodes[n];
      s.(nodes := s.nodes[n := x.(exec := p.links[n].onExecutor, chain := ChainOf(p, n),
                                  notify := Some(Functor), future := false, allocs := x.allocs + 1)],
         threads := Spawn(s.threads, [Drive(n)], false))
    case Reattach(n) =>
      var x := s.nodes[n];
      s.(nodes := s.nodes[n := x.(allocs := x.allocs + 1, frees := x.frees + 1)])
    case Abandon(n) =>
      var x := s.nodes[n];
      s.(nodes := s.nodes[n := x.(future := false, drops := x.drops + 1)])
    case Call(h, r) =>
      s.(threads := Spawn(s.threads, [Resolve(s.handles[h].value, r), Drive(s.handles[h].value)], false))
    case Copy(h, to) =>
      var n := s.handles[h].value;
      s.(nodes := s.nodes[n := s.nodes[n].(promises := s.nodes[n].promises + 1)],
         handles := s.handles[to := Some(n)])
    case Move(h, to) => s.(handles := s.handles[to := s.handles[h]][h := if h == to then s.handles[h] else None])
    case Swap(h, to) => s.(handles := s.handles[to := s.handles[h]][h := s.handles[to]])
    case Drop(h) =>
      var n := s.handles[h].value;
      State(s.nodes[n := s.nodes[n].(promises := s.nodes[n].promises - 1)],
            Spawn(s.threads, if s.nodes[n].promises == 1 then [CheckBroken(n)] else [], false),
            s.handles[h := None])
    case Destroy(n) =>
      var x := s.nodes[n];
      s.(nodes := s.nodes[n := x.(alive := false, notify := None,
                                  drops := x.drops + (if x.notify.Some? then 1 else 0),
                                  frees := x.frees + (if x.notify == Some(Functor) then 1 else 0))])
  }
}
