/** Single requests at the server: every id-carrying request gets exactly one response, whatever its
    handler does with the promise it is given. */
module RpcResponse {
  import opened Wrappers
  import opened JsonTree
  import opened RpcMessages
  import opened FutureMachine
  import opened FutureLaws
  import opened FutureSafety
  import opened FutureSteps
  import opened FutureTheorems

  /** How a result or an error of a handler is written into a message; `refused` says for which messages
      Send throws, and `refusal` is the error that sendResult then makes of the exception. */
  datatype Codec = Codec(value: int -> Json, error: Error -> Json, refused: Part -> bool, refusal: Json)

  /** The id that a request is answered under; null and absent ids make it a notification. */
  function ReplyId(part: Part): Option<Json> {
    if part.NotObject? || part.id.None? || part.id.value.Null? then None else part.id
  }

  /** sendResult: a result, or an error of whatever kind. */
  function Response(id: Json, r: Res, c: Codec): Part {
    match r case Val(v) => ResultPart(id, c.value(v)) case Exc(e) => ErrorPart(id, c.error(e))
  }

  /** The messages that sendResult hands to Send: when Send throws on a result, an error is sent after it. */
  function Attempts(id: Json, r: Res, c: Codec): seq<Part> {
    if r.Val? && c.refused(Response(id, r, c)) then [Response(id, r, c), ErrorPart(id, c.refusal)] else [Response(id, r, c)]
  }

  /** One message, the response itself, if and only if Send takes it. */
  lemma OneAttemptIff(id: Json, r: Res, c: Codec)
    ensures Attempts(id, r, c) == [Response(id, r, c)] <==> r.Exc? || !c.refused(Response(id, r, c))
  {}

  /** The program of a server that was handed `incoming`: node i < |incoming| is the state of the promise
      for request i, and AtLast on it is the only continuation there is; a notification has none.  The
      other nodes belong to the handlers. */
  ghost predicate Serves(p: Program, incoming: seq<Part>) {
    && ValidProgram(p) && |incoming| <= p.size
    && forall i :: 0 <= i < |incoming| ==>
         && i !in p.pred && i !in p.owner
         && (i in p.links <==> ReplyId(incoming[i]).Some?)
         && (i in p.links ==> p.links[i].kind == Last)
  }

  /** What handleServer itself does for request i: a notification makes no promise; otherwise AtLast comes
      first.  Then the promise is the handler's; where there is none it is dropped without being called. */
  function HandleServer(part: Part, i: nat): seq<Step> {
    if ReplyId(part).None? then [] else [Attach(i)]
  }

  function Tagged(i: nat, parts: seq<Part>): seq<(nat, Part)> {
    if parts == [] then [] else [(i, parts[0])] + Tagged(i, parts[1..])
  }

  /** What one step sends: running the continuation of request i. */
  ghost function Sent(p: Program, incoming: seq<Part>, c: Codec, s: State, a: Step): seq<(nat, Part)>
    requires |s.nodes| == p.size && ValidProgram(p) && Enabled(p, s, a)
  {
    if a.Run? && s.threads[a.t].stack[0].Notify? && s.threads[a.t].stack[0].n < |incoming| then
      var i := s.threads[a.t].stack[0].n;
      Tagged(i, Attempts(Or(ReplyId(incoming[i])), s.nodes[i].result.value, c))
    else []
  }

  function Or(o: Option<Json>): Json { if o.Some? then o.value else Null }

  /** All that a run sends, in order, with the number of the request it answers. */
  ghost function Log(p: Program, incoming: seq<Part>, c: Codec, s: State, steps: seq<Step>, s': State): seq<(nat, Part)>
    requires Reaches(p, s, steps, s')
    decreases |steps|
  {
    if steps == [] then []
    else Sent(p, incoming, c, s, steps[0]) + Log(p, incoming, c, Do(p, s, steps[0]), steps[1..], s')
  }

  /** The messages that answer request i. */
  function For(log: seq<(nat, Part)>, i: nat): seq<Part> {
    if log == [] then [] else (if log[0].0 == i then [log[0].1] else []) + For(log[1..], i)
  }

  lemma {:induction false} ForConcat(a: seq<(nat, Part)>, b: seq<(nat, Part)>, i: nat)
    ensures For(a + b, i) == For(a, i) + For(b, i)
  {
    if a == [] {
      assert a + b == b && For(a, i) + For(b, i) == For(b, i);
    } else {
      assert (a + b)[1..] == a[1..] + b;
      ForConcat(a[1..], b, i);
      var first := if a[0].0 == i then [a[0].1] else [];
      assert first + For(a[1..], i) + For(b, i) == first + (For(a[1..], i) + For(b, i));
    }
  }

  lemma {:induction false} ForTagged(i: nat, j: nat, parts: seq<Part>)
    ensures For(Tagged(j, parts), i) == if i == j then parts else []
  {
    if parts != [] {
      ForTagged(i, j, parts[1..]);
      assert Tagged(j, parts)[1..] == Tagged(j, parts[1..]);
      assert [parts[0]] + parts[1..] == parts;
    }
  }

  /** What is sent for a request once its result is there. */
  function AnswerOf(part: Part, result: Option<Res>, c: Codec): seq<Part> {
    if ReplyId(part).Some? && result.Some? then Attempts(ReplyId(part).value, result.value, c) else []
  }

  /** Exactly the steps that send an answer to request i run its continuation. */
  lemma SendingRuns(p: Program, incoming: seq<Part>, c: Codec, s: State, a: Step, i: nat)
    requires Serves(p, incoming) && Inv(p, s) && Enabled(p, s, a) && i < |incoming|
    ensures i < p.size == |s.nodes| == |Do(p, s, a).nodes|
    ensures var (sent, runs) := (For(Sent(p, incoming, c, s, a), i), Do(p, s, a).nodes[i].runs);
            if runs == s.nodes[i].runs then sent == []
            else runs == s.nodes[i].runs + 1 && s.nodes[i].result.Some? && sent == AnswerOf(incoming[i], s.nodes[i].result, c)
  {
    InvShape(p, s);
    if a.Run? {
      RunParts(p, s, a.t, a.status);
      RunSends(p, incoming, c, s.nodes, s.threads[a.t].stack[0], a.status, i);
      var f := s.threads[a.t].stack[0];
      if f.Notify? && f.n < |incoming| {
        ForTagged(i, f.n, Attempts(Or(ReplyId(incoming[f.n])), s.nodes[f.n].result.value, c));
      }
    }
    hide Inv, Shape, Serves, Exec, ValidProgram, Attempts, Tagged;
  }

  lemma RunSends(p: Program, incoming: seq<Part>, c: Codec, nodes: seq<Node>, f: Frame, status: Status, i: nat)
    requires Serves(p, incoming) && Executable(p, nodes, f) && FrameOk(p, nodes, f) && i < |incoming|
    ensures var nodes' := Exec(p, nodes, f, status).nodes;
            && |nodes'| == p.size
            && nodes'[i].runs == nodes[i].runs + (if f.Notify? && f.n == i then 1 else 0)
    ensures f.Notify? && f.n == i ==> ReplyId(incoming[i]).Some? && nodes[i].result.Some?
  {}

  function Times(n: nat, parts: seq<Part>): seq<Part> { if n == 0 then [] else parts + Times(n - 1, parts) }

  /** These messages answer a request as often as its continuation ran, all with the stored result. */
  ghost predicate Answers(sent: seq<Part>, part: Part, before: Node, after: Node, c: Codec) {
    before.runs <= after.runs && sent == Times(after.runs - before.runs, AnswerOf(part, after.result, c))
  }

  lemma AnswersThen(a: seq<Part>, b: seq<Part>, part: Part, x: Node, y: Node, z: Node, c: Codec)
    requires Answers(b, part, y, z, c)
    requires if y.runs == x.runs then a == [] else y.runs == x.runs + 1 && a == AnswerOf(part, z.result, c)
    ensures Answers(a + b, part, x, z, c)
  {
    hide AnswerOf;
    if y.runs == x.runs { assert a + b == b; }
  }

  /** Over a run, a request is answered as often as its continuation runs, with the stored result. */
  lemma {:induction false} AnswersAreRuns(p: Program, incoming: seq<Part>, c: Codec, s: State, steps: seq<Step>, s': State, i: nat)
    requires Serves(p, incoming) && Inv(p, s) && RefInv(p, s) && Reaches(p, s, steps, s') && i < |incoming|
    ensures |s.nodes| == |s'.nodes| == p.size && i < p.size
    ensures Answers(For(Log(p, incoming, c, s, steps, s'), i), incoming[i], s.nodes[i], s'.nodes[i], c)
    decreases |steps|
  {
    InvShape(p, s);
    SizesMatch(p, incoming);
    if steps == [] {
      LogEnds(p, incoming, c, s, s');
      NoAnswer(incoming[i], s.nodes[i], c, i);
    } else {
      LogStep(p, incoming, c, s, steps, s');
      hide Inv, RefInv, Reaches, Enabled, Do, Serves, ValidProgram, Sent, Log, Answers, For, AnswerOf;
      var (a, rest) := (steps[0], steps[1..]);
      var mid := Do(p, s, a);
      SendingRuns(p, incoming, c, s, a, i);
      StepKeepsBoth(p, s, a);
      AnswersAreRuns(p, incoming, c, mid, rest, s', i);
      var (one, more) := (Sent(p, incoming, c, s, a), Log(p, incoming, c, mid, rest, s'));
      ForConcat(one, more, i);
      if s.nodes[i].result.Some? { ResultIsFinal(p, s, steps, s', i); }
      AnswersThen(For(one, i), For(more, i), incoming[i], s.nodes[i], mid.nodes[i], s'.nodes[i], c);
    }
  }

  lemma NoAnswer(part: Part, x: Node, c: Codec, i: nat)
    ensures Answers(For([], i), part, x, x, c)
  {}

  lemma SizesMatch(p: Program, incoming: seq<Part>)
    requires Serves(p, incoming)
    ensures |incoming| <= p.size
  {}

  lemma LogEnds(p: Program, incoming: seq<Part>, c: Codec, s: State, s': State)
    requires Reaches(p, s, [], s')
    ensures s' == s && Log(p, incoming, c, s, [], s') == []
  {}

  lemma LogStep(p: Program, incoming: seq<Part>, c: Codec, s: State, steps: seq<Step>, s': State)
    requires Reaches(p, s, steps, s') && steps != []
    ensures |s.nodes| == p.size && ValidProgram(p) && Enabled(p, s, steps[0]) && Reaches(p, Do(p, s, steps[0]), steps[1..], s')
    ensures Log(p, incoming, c, s, steps, s')
            == Sent(p, incoming, c, s, steps[0]) + Log(p, incoming, c, Do(p, s, steps[0]), steps[1..], s')
  {}

  lemma StepKeepsBoth(p: Program, s: State, a: Step)
    requires Inv(p, s) && RefInv(p, s) && Enabled(p, s, a)
    ensures Inv(p, Do(p, s, a)) && RefInv(p, Do(p, s, a))
  {
    StepKeepsInv(p, s, a);
    if a.Run? { RunKeepsRefs(p, s, a.t, a.status); } else { UserKeepsRefs(p, s, a); }
  }

  /** Once attached, the future of a node is gone. */
  lemma {:induction false} AttachedStays(p: Program, s: State, steps: seq<Step>, s': State, n: nat)
    requires Inv(p, s) && Reaches(p, s, steps, s') && n < p.size
    requires !s.nodes[n].future || Attach(n) in steps
    ensures |s'.nodes| == p.size && !s'.nodes[n].future
    decreases |steps|
  {
    InvShape(p, s);
    if steps != [] {
      FutureGone(p, s, steps[0], n);
      StepKeepsInv(p, s, steps[0]);
      AttachedStays(p, Do(p, s, steps[0]), steps[1..], s', n);
    }
  }

  lemma FutureGone(p: Program, s: State, a: Step, n: nat)
    requires Inv(p, s) && Enabled(p, s, a) && n < p.size
    ensures |s.nodes| == p.size && |Do(p, s, a).nodes| == p.size
    ensures Do(p, s, a).nodes[n].future ==> s.nodes[n].future && a != Attach(n)
  {
    InvShape(p, s);
    hide Inv, Shape, ValidProgram, Unreferenced;
    if a.Run? { RunTakesFuture(p, s, a.t, a.status, n); }
  }

  lemma RunTakesFuture(p: Program, s: State, t: nat, status: Status, n: nat)
    requires Inv(p, s) && Enabled(p, s, Run(t, status)) && n < p.size
    ensures |s.nodes| == |Do(p, s, Run(t, status)).nodes| == p.size
    ensures Do(p, s, Run(t, status)).nodes[n].future ==> s.nodes[n].future
  {
    RunParts(p, s, t, status);
    InvShape(p, s);
    hide Inv, Shape, ValidProgram, Do, Enabled, FrameOk;
  }

  /** What the messages for a request say, by their members: its own id and the stored result or error, and
      after a result that Send refused, the refusal. */
  ghost predicate Responds(sent: seq<Part>, id: Json, r: Res, c: Codec) {
    && 1 <= |sent| <= 2 && (forall k :: 0 <= k < |sent| ==> sent[k].Part? && sent[k].id == Some(id))
    && (match r
        case Val(v) => sent[0].result == Some(c.value(v))
        case Exc(e) => sent[0].result == None && sent[0].error == ErrorField.Error(c.error(e)))
    && (|sent| == 2 <==> r.Val? && c.refused(sent[0]))
    && (|sent| == 2 ==> sent[1].result == None && sent[1].error == ErrorField.Error(c.refusal))
  }

  lemma AttemptsRespond(id: Json, r: Res, c: Codec)
    ensures Responds(Attempts(id, r, c), id, r, c)
  {}

  /** Exactly one response per id-carrying request, and none for a notification.  The run is any run in
      which handleServer did its part, all threads came to rest and every handle of the promise is gone:
      resolved, rejected or dropped, by whomever.  Where the executor dropped the job, because the transport
      was torn down, nothing is sent. */
  lemma ExactlyOneResponse(p: Program, incoming: seq<Part>, c: Codec, s0: State, steps: seq<Step>, s: State, i: nat)
    requires Serves(p, incoming) && Init(p, s0) && Reaches(p, s0, steps, s) && Idle(s) && i < |incoming|
    requires |s.nodes| == p.size && forall j :: 0 <= j < |s.handles| ==> s.handles[j] != Some(i)
    requires forall a :: a in HandleServer(incoming[i], i) ==> a in steps
    ensures s.nodes[i].result.Some? && s.nodes[i].result.value in Called(p, s0, steps, s, i) + {Exc(BrokenPromise)}
    ensures For(Log(p, incoming, c, s0, steps, s), i)
            == if ReplyId(incoming[i]).None? || s.nodes[i].drops > 0 then []
               else Attempts(ReplyId(incoming[i]).value, s.nodes[i].result.value, c)
    ensures var (sent, part) := (For(Log(p, incoming, c, s0, steps, s), i), incoming[i]);
            if part.NotObject? || part.id == None || part.id == Some(Null) || s.nodes[i].drops > 0 then sent == []
            else Responds(sent, part.id.value, s.nodes[i].result.value, c)
  {
    if s.nodes[i].result.Some? { AttemptsRespond(Or(ReplyId(incoming[i])), s.nodes[i].result.value, c); }
    ServedNode(p, incoming, i);
    hide Init, Reaches, Inv, RefInv, Serves, ValidProgram, Log, For, Called, Idle, Attempts, Responds;
    InitInv(p, s0);
    InitQuiet(p, s0, i);
    AnswersAreRuns(p, incoming, c, s0, steps, s, i);
    PromiseSettlesOnce(p, s0, steps, s, i);
    NoHandles(i, s.handles);
    ResultWasGiven(p, s0, steps, s, i, {Exc(BrokenPromise)});
    OnceOrDropped(p, s0, steps, s, i);
    TimesOnce(AnswerOf(incoming[i], s.nodes[i].result, c));
    if ReplyId(incoming[i]).Some? {
      assert Attach(i) in HandleServer(incoming[i], i);
      AttachedStays(p, s0, steps, s, i);
      if s.nodes[i].drops == 0 { WaiterHearsExactlyOnce(p, s0, steps, s, i); }
    } else {
      NeverAttached(p, s0, steps, s, i);
    }
  }

  lemma TimesOnce(parts: seq<Part>)
    ensures Times(0, parts) == [] && Times(1, parts) == parts
  {
    assert parts + [] == parts;
  }

  /** A continuation runs, or is dropped, but not both. */
  lemma OnceOrDropped(p: Program, s0: State, steps: seq<Step>, s: State, n: nat)
    requires Init(p, s0) && Reaches(p, s0, steps, s) && n < p.size
    ensures |s.nodes| == p.size && s.nodes[n].runs + s.nodes[n].drops <= 1
  {
    InitInv(p, s0);
    RunInv(p, s0, steps, s);
    hide Init, Reaches;
    InvAt(p, s, n);
  }

  lemma ServedNode(p: Program, incoming: seq<Part>, i: nat)
    requires Serves(p, incoming) && i < |incoming|
    ensures i < p.size && i !in p.pred && i !in p.owner && (i in p.links <==> ReplyId(incoming[i]).Some?)
  {}

  lemma InitQuiet(p: Program, s: State, i: nat)
    requires Init(p, s) && i < p.size
    ensures |s.nodes| == p.size && s.nodes[i].runs == 0 && s.nodes[i].result.None?
    ensures Given(s, i, {})
  {}

  /** A node without a link is never run: nobody can attach to it, and nobody splices it. */
  lemma NeverAttached(p: Program, s0: State, steps: seq<Step>, s: State, n: nat)
    requires Init(p, s0) && Reaches(p, s0, steps, s) && n < p.size && n !in p.links && n !in p.owner
    ensures |s.nodes| == p.size && s.nodes[n].runs == 0
  {
    InitInv(p, s0);
    InitQuiet(p, s0, n);
    NeverRuns(p, s0, steps, s, n);
  }

  lemma {:induction false} NeverRuns(p: Program, s: State, steps: seq<Step>, s': State, n: nat)
    requires Inv(p, s) && Reaches(p, s, steps, s') && n < p.size && n !in p.links && n !in p.owner
    ensures |s.nodes| == |s'.nodes| == p.size && s'.nodes[n].runs == s.nodes[n].runs
    decreases |steps|
  {
    InvShape(p, s);
    if steps != [] {
      UnlinkedRuns(p, s, steps[0], n);
      StepKeepsInv(p, s, steps[0]);
      NeverRuns(p, Do(p, s, steps[0]), steps[1..], s', n);
    }
  }

  lemma UnlinkedRuns(p: Program, s: State, a: Step, n: nat)
    requires Inv(p, s) && Enabled(p, s, a) && n < p.size && n !in p.links && n !in p.owner
    ensures |s.nodes| == |Do(p, s, a).nodes| == p.size && Do(p, s, a).nodes[n].runs == s.nodes[n].runs
  {
    InvShape(p, s);
    hide Inv, Shape, ValidProgram, Unreferenced;
    if a.Run? { UnlinkedRun(p, s, a.t, a.status, n); }
  }

  lemma UnlinkedRun(p: Program, s: State, t: nat, status: Status, n: nat)
    requires Inv(p, s) && Enabled(p, s, Run(t, status)) && n < p.size && n !in p.links && n !in p.owner
    ensures |s.nodes| == |Do(p, s, Run(t, status)).nodes| == p.size
    ensures Do(p, s, Run(t, status)).nodes[n].runs == s.nodes[n].runs
  {
    RunParts(p, s, t, status);
    InvShape(p, s);
    hide Inv, Shape, ValidProgram, Do, Enabled;
  }

  // ---------------------------------------------------------------------------------------------
  // Which result it is
  // ---------------------------------------------------------------------------------------------

  function CalledBy(s: State, a: Step, i: nat): set<Res> {
    if a.Call? && a.h < |s.handles| && s.handles[a.h] == Some(i) then {a.r} else {}
  }

  /** What the promise of node i was called with during a run. */
  ghost function Called(p: Program, s: State, steps: seq<Step>, s': State, i: nat): set<Res>
    requires Reaches(p, s, steps, s')
    decreases |steps|
  {
    if steps == [] then {} else CalledBy(s, steps[0], i) + Called(p, Do(p, s, steps[0]), steps[1..], s', i)
  }

  /** What was stored for node i, or is about to be, is among rs. */
  ghost predicate Given(s: State, i: nat, rs: set<Res>) {
    && i < |s.nodes| && (s.nodes[i].result.Some? ==> s.nodes[i].result.value in rs)
    && forall t, k :: 0 <= t < |s.threads| && 0 <= k < |s.threads[t].stack| ==> FrameGives(s.threads[t].stack[k], i, rs)
  }

  predicate FrameGives(f: Frame, i: nat, rs: set<Res>) { f.Resolve? && f.n == i ==> f.r in rs }

  lemma PushesGive(p: Program, nodes: seq<Node>, f: Frame, status: Status, i: nat, rs: set<Res>)
    requires ValidProgram(p) && Executable(p, nodes, f) && FrameOk(p, nodes, f) && i < p.size && i !in p.pred
    requires FrameGives(f, i, rs) && Exc(BrokenPromise) in rs && (nodes[i].result.Some? ==> nodes[i].result.value in rs)
    ensures var e := Exec(p, nodes, f, status);
            && (forall k :: 0 <= k < |e.push| ==> FrameGives(e.push[k], i, rs))
            && (forall k :: 0 <= k < |e.job| ==> FrameGives(e.job[k], i, rs))
            && |e.nodes| == p.size && (e.nodes[i].result.Some? ==> e.nodes[i].result.value in rs)
  {
    if f.Notify? { NextHasPred(p, nodes, f); }
    hide ValidProgram, FrameOk;
  }

  lemma NextHasPred(p: Program, nodes: seq<Node>, f: Frame)
    requires ValidProgram(p) && Executable(p, nodes, f) && FrameOk(p, nodes, f) && f.Notify?
    ensures f.next.Some? ==> f.next.value in p.pred
  {}

  lemma RunGives(p: Program, s: State, t: nat, status: Status, i: nat, rs: set<Res>)
    requires Inv(p, s) && Enabled(p, s, Run(t, status)) && i < p.size && i !in p.pred
    requires Given(s, i, rs) && Exc(BrokenPromise) in rs
    ensures Given(Do(p, s, Run(t, status)), i, rs)
  {
    RunParts(p, s, t, status);
    InvShape(p, s);
    var s' := Do(p, s, Run(t, status));
    var st := s.threads[t].stack;
    PushesGive(p, s.nodes, st[0], status, i, rs);
    var e := Exec(p, s.nodes, st[0], status);
    forall u, k | 0 <= u < |s'.threads| && 0 <= k < |s'.threads[u].stack| ensures FrameGives(s'.threads[u].stack[k], i, rs) {
      if u == t {
        if k >= |e.push| { assert s'.threads[u].stack[k] == st[k - |e.push| + 1]; }
      } else if u < |s.threads| {
        assert s'.threads[u] == s.threads[u];
      }
    }
    hide Inv, Shape, Exec, ValidProgram, FrameGives;
  }

  lemma UserGives(p: Program, s: State, a: Step, i: nat, rs: set<Res>)
    requires Inv(p, s) && Enabled(p, s, a) && !a.Run? && i < p.size && i !in p.pred && Given(s, i, rs)
    ensures Given(Do(p, s, a), i, rs + CalledBy(s, a, i))
  {
    InvShape(p, s);
    hide Inv, Shape, ValidProgram, Unreferenced;
    var s' := Do(p, s, a);
    forall u, k | 0 <= u < |s'.threads| && 0 <= k < |s'.threads[u].stack|
      ensures FrameGives(s'.threads[u].stack[k], i, rs + CalledBy(s, a, i))
    {
      if u < |s.threads| && s'.threads[u].stack == s.threads[u].stack { assert FrameGives(s.threads[u].stack[k], i, rs); }
    }
  }

  /** The stored result is one that the promise was called with, or the broken promise. */
  lemma {:induction false} ResultWasGiven(p: Program, s: State, steps: seq<Step>, s': State, i: nat, rs: set<Res>)
    requires Inv(p, s) && Reaches(p, s, steps, s') && i < p.size && i !in p.pred
    requires Given(s, i, rs) && Exc(BrokenPromise) in rs
    ensures |s'.nodes| == p.size
    ensures s'.nodes[i].result.Some? ==> s'.nodes[i].result.value in rs + Called(p, s, steps, s', i)
    decreases |steps|
  {
    InvShape(p, s);
    if steps != [] {
      var a := steps[0];
      StepKeepsInv(p, s, a);
      if a.Run? { RunGives(p, s, a.t, a.status, i, rs); } else { UserGives(p, s, a, i, rs); }
      var more := rs + CalledBy(s, a, i);
      GivenMore(Do(p, s, a), i, rs, more);
      ResultWasGiven(p, Do(p, s, a), steps[1..], s', i, more);
    }
    hide Inv, Shape, ValidProgram, Given, Do, Enabled;
  }

  lemma GivenMore(s: State, i: nat, rs: set<Res>, more: set<Res>)
    requires rs <= more
    ensures Given(s, i, rs) ==> Given(s, i, more)
  {}

  /** A promise that nobody called, as where there is no handler, is answered as broken. */
  lemma DroppedIsBroken(p: Program, incoming: seq<Part>, c: Codec, s0: State, steps: seq<Step>, s: State, i: nat)
    requires Serves(p, incoming) && Init(p, s0) && Reaches(p, s0, steps, s) && Idle(s) && i < |incoming|
    requires |s.nodes| == p.size && forall j :: 0 <= j < |s.handles| ==> s.handles[j] != Some(i)
    requires forall a :: a in HandleServer(incoming[i], i) ==> a in steps
    requires ReplyId(incoming[i]).Some? && s.nodes[i].drops == 0 && Called(p, s0, steps, s, i) == {}
    ensures For(Log(p, incoming, c, s0, steps, s), i) == [ErrorPart(ReplyId(incoming[i]).value, c.error(BrokenPromise))]
  {
    hide Init, Reaches, Serves, Log, For, Called, Idle;
    ExactlyOneResponse(p, incoming, c, s0, steps, s, i);
  }
}
