/** The server side of a batch: a countdown that sends the collected parts when it reaches zero
    (sections 4.1 and 6 of the JSON-RPC 2.0 Specification). */
module RpcServer {
  import opened Wrappers
  import opened JsonTree
  import opened RpcMessages

  /** How the handler of a request ends: it resolves its promise, rejects it, or drops it. */
  datatype Reply = Result(v: Json) | Failure(e: Json)

  /** `out` holds each collected part with the index of the part it answers; `busy` says that the handler
      of the notification visited last has not returned yet. */
  datatype Batch = Batch(parts: seq<Part>, visited: nat, busy: bool, open: set<nat>, left: int,
                         out: seq<(nat, Part)>, replies: seq<seq<Part>>)

  /** Visiting the next part, which throws if the part cannot be read; the handler of a notification
      returning, with the exception it throws if it does; or an answer to a request that is open, at any
      time after it was visited, also while another handler runs. */
  datatype Act = Visit(thrown: Option<Json>) | Leave(thrown: Option<Json>) | Answer(i: nat, r: Reply)

  function Start(parts: seq<Part>): Batch { Batch(parts, 0, false, {}, |parts|, [], []) }

  function ReplyPart(part: Part, r: Reply): Part
    requires WantsReply(part)
  {
    match r case Result(v) => ResultPart(part.id.value, v) case Failure(e) => ErrorPart(part.id.value, e)
  }

  /** No object, or no method that is a string: reading it throws. */
  predicate Invalid(part: Part) { part.NotObject? || !part.called.Named? }

  predicate Notifies(part: Part) { !Invalid(part) && !WantsReply(part) }

  predicate Allowed(b: Batch, a: Act) {
    match a
    case Visit(thrown) => !b.busy && b.visited < |b.parts| && (thrown.Some? <==> Invalid(b.parts[b.visited]))
    case Leave(_) => b.busy && b.visited > 0
    case Answer(i, _) => i in b.open && i < |b.parts| && WantsReply(b.parts[i])
  }

  function Payload(out: seq<(nat, Part)>): (r: seq<Part>)
    ensures |r| == |out| && forall k :: 0 <= k < |out| ==> r[k] == out[k].1
  {
    seq(|out|, k requires 0 <= k < |out| => out[k].1)
  }

  function WithError(out: seq<(nat, Part)>, i: nat, thrown: Option<Json>): seq<(nat, Part)> {
    if thrown.Some? then out + [(i, ErrorPart(Null, thrown.value))] else out
  }

  function Do(b: Batch, a: Act): Batch
    requires Allowed(b, a)
  {
    match a
    case Visit(thrown) =>
      if WantsReply(b.parts[b.visited]) then b.(visited := b.visited + 1, open := b.open + {b.visited})
      else b.(visited := b.visited + 1, left := b.left - 1, busy := Notifies(b.parts[b.visited]),
              out := WithError(b.out, b.visited, thrown))
    case Leave(thrown) => b.(busy := false, out := WithError(b.out, b.visited - 1, thrown))
    case Answer(i, r) =>
      var out := b.out + [(i, ReplyPart(b.parts[i], r))];
      b.(open := b.open - {i}, left := b.left - 1, out := out,
         replies := if b.left - 1 == 0 then b.replies + [Payload(out)] else b.replies)
  }

  predicate CanRun(b: Batch, acts: seq<Act>)
    decreases acts
  {
    acts == [] || (Allowed(b, acts[0]) && CanRun(Do(b, acts[0]), acts[1..]))
  }

  function Run(b: Batch, acts: seq<Act>): Batch
    requires CanRun(b, acts)
    decreases acts
  {
    if acts == [] then b else Run(Do(b, acts[0]), acts[1..])
  }

  // ---------------------------------------------------------------------------------------------
  // The countdown
  // ---------------------------------------------------------------------------------------------

  /** `left` is what was not visited yet plus what was not answered yet. */
  predicate Countdown(b: Batch) {
    && b.visited <= |b.parts| && b.left == |b.parts| - b.visited + |b.open|
    && (forall i :: i in b.open ==> i < b.visited && WantsReply(b.parts[i]))
    && (b.busy ==> b.visited > 0 && Notifies(b.parts[b.visited - 1]))
  }

  /** Everything was visited and answered. */
  predicate Over(b: Batch) { b.visited == |b.parts| && b.open == {} }

  predicate Complete(b: Batch) { Over(b) && !b.busy }

  predicate Answered(b: Batch, i: nat) { exists k :: 0 <= k < |b.out| && b.out[k].0 == i }

  /** The part of a reply that belongs to a request or to a part that failed. */
  predicate Fitting(part: Part, reply: Part) {
    reply.Part? && reply.called.NoMethod? && reply.id == if WantsReply(part) then part.id else Some(Null)
  }

  /** Every visited request is open or was answered, never both, and no part has two answers. */
  ghost predicate Collected(b: Batch) {
    && b.visited <= |b.parts|
    && (forall k :: 0 <= k < |b.out| ==> b.out[k].0 < b.visited && b.out[k].0 !in b.open)
    && (forall k, k' :: 0 <= k < k' < |b.out| ==> b.out[k].0 != b.out[k'].0)
    && (forall i: nat :: i < b.visited && WantsReply(b.parts[i]) ==> i in b.open || Answered(b, i))
    && (forall k :: 0 <= k < |b.out| ==> Fitting(b.parts[b.out[k].0], b.out[k].1))
    && (b.busy ==> forall k :: 0 <= k < |b.out| ==> b.out[k].0 != b.visited - 1)
  }

  /** Only when everything was answered is there a reply, and one only.  It holds all that was collected,
      except for the error of a notification that threw after the reply had gone. */
  predicate Replied(b: Batch) {
    && |b.replies| <= 1
    && (b.replies != [] ==> Over(b) && (b.replies == [Payload(b.out)] || (!b.busy && LostOne(b))))
  }

  predicate LostOne(b: Batch) {
    var n := |b.out| - 1;
    n >= 0 && b.replies == [Payload(b.out[..n])] && b.out[n].0 < |b.parts| && !WantsReply(b.parts[b.out[n].0])
  }

  ghost predicate Inv(b: Batch) { Countdown(b) && Collected(b) && Replied(b) }

  lemma StaysAnswered(b: Batch, b': Batch, i: nat)
    requires Answered(b, i) && b.out <= b'.out
    ensures Answered(b', i)
  {
    var k :| 0 <= k < |b.out| && b.out[k].0 == i;
    assert b'.out[k].0 == i;
  }

  lemma VisitRequest(b: Batch, thrown: Option<Json>)
    requires Collected(b) && Allowed(b, Visit(thrown)) && WantsReply(b.parts[b.visited])
    ensures Collected(Do(b, Visit(thrown)))
  {
    var b' := Do(b, Visit(thrown));
    forall i: nat | i < b'.visited && WantsReply(b'.parts[i]) ensures i in b'.open || Answered(b', i) {
      if i < b.visited && i !in b.open { StaysAnswered(b, b', i); }
    }
  }

  /** Adding the error of a part that was not answered before. */
  lemma ErrorKeepsCollected(b: Batch, b': Batch, i: nat, thrown: Option<Json>)
    requires Collected(b) && b'.parts == b.parts && b'.open == b.open && b'.out == WithError(b.out, i, thrown)
    requires i < b'.visited <= |b.parts| && i !in b.open && !WantsReply(b.parts[i])
    requires b'.visited == b.visited || (b'.visited == b.visited + 1 && i == b.visited)
    requires forall k :: 0 <= k < |b.out| ==> b.out[k].0 != i
    requires b'.busy ==> thrown.None? && i == b'.visited - 1
    ensures Collected(b')
  {
    forall j: nat | j < b'.visited && WantsReply(b'.parts[j]) ensures j in b'.open || Answered(b', j) {
      if j !in b.open { StaysAnswered(b, b', j); }
    }
  }

  lemma VisitKeepsCollected(b: Batch, thrown: Option<Json>)
    requires Collected(b) && Countdown(b) && Allowed(b, Visit(thrown))
    ensures Collected(Do(b, Visit(thrown)))
  {
    if WantsReply(b.parts[b.visited]) {
      VisitRequest(b, thrown);
    } else {
      assert b.visited !in b.open;
      ErrorKeepsCollected(b, Do(b, Visit(thrown)), b.visited, thrown);
    }
    hide Countdown, Payload, Collected;
  }

  lemma LeaveKeepsCollected(b: Batch, thrown: Option<Json>)
    requires Collected(b) && Countdown(b) && Allowed(b, Leave(thrown))
    ensures Collected(Do(b, Leave(thrown)))
  {
    ErrorKeepsCollected(b, Do(b, Leave(thrown)), b.visited - 1, thrown);
    hide Countdown, Payload, Collected;
  }

  lemma AnswerKeepsCollected(b: Batch, i: nat, r: Reply)
    requires Collected(b) && Countdown(b) && Allowed(b, Answer(i, r))
    ensures Collected(Do(b, Answer(i, r)))
  {
    var b' := Do(b, Answer(i, r));
    assert i < b.visited && (b.busy ==> i != b.visited - 1);
    hide Payload, Countdown;
    assert b'.out[|b.out|].0 == i;
    forall j: nat | j < b'.visited && WantsReply(b'.parts[j]) ensures j in b'.open || Answered(b', j) {
      if j !in b.open { StaysAnswered(b, b', j); }
    }
  }

  lemma VisitKeepsCountdown(b: Batch, thrown: Option<Json>)
    requires Countdown(b) && Allowed(b, Visit(thrown))
    ensures Countdown(Do(b, Visit(thrown))) && b.left >= 1 && !Over(b)
  {
    assert b.visited !in b.open;
    assert |b.open + {b.visited}| == |b.open| + 1;
  }

  lemma AnswerKeepsCountdown(b: Batch, i: nat, r: Reply)
    requires Countdown(b) && Allowed(b, Answer(i, r))
    ensures Countdown(Do(b, Answer(i, r))) && b.left >= 1 && !Over(b)
  {
    hide Payload, ReplyPart, WantsReply;
    assert |b.open| == |b.open - {i}| + 1;
  }

  lemma ZeroMeansOver(b: Batch)
    requires Countdown(b)
    ensures Over(b) <==> b.left == 0
  {
    assert |b.open| == 0 <==> b.open == {};
  }

  lemma DoKeepsCountdown(b: Batch, a: Act)
    requires Countdown(b) && Allowed(b, a)
    ensures Countdown(Do(b, a)) && (Over(Do(b, a)) <==> Do(b, a).left == 0)
    ensures if a.Leave? then Over(b) == Over(Do(b, a)) && Do(b, a).left == b.left else !Over(b) && b.left >= 1
  {
    match a {
      case Visit(thrown) => VisitKeepsCountdown(b, thrown);
      case Answer(i, r) => AnswerKeepsCountdown(b, i, r);
      case Leave(_) =>
    }
    ZeroMeansOver(Do(b, a));
    hide Countdown, ReplyPart, Payload, WithError;
  }

  lemma DoKeepsReplied(b: Batch, a: Act)
    requires Replied(b) && Countdown(b) && Allowed(b, a)
    ensures Replied(Do(b, a))
    ensures Do(b, a).replies != b.replies <==> a.Answer? && Over(Do(b, a))
    ensures b.replies != [] ==> a.Leave?
  {
    DoKeepsCountdown(b, a);
    var b' := Do(b, a);
    match a {
      case Leave(thrown) =>
        if thrown.Some? { assert b'.out[..|b'.out| - 1] == b.out; }
      case _ =>
    }
    hide Payload, ReplyPart;
  }

  /** One step of the countdown: the invariant stays, and the reply goes exactly when an answer leaves
      nothing open; after that only a handler can return. */
  lemma DoKeepsInv(b: Batch, a: Act)
    requires Inv(b) && Allowed(b, a)
    ensures Inv(Do(b, a)) && (!a.Leave? ==> b.left >= 1)
    ensures Do(b, a).replies != b.replies <==> a.Answer? && Over(Do(b, a))
    ensures b.replies != [] ==> a.Leave?
    ensures if a.Leave? then Over(b) == Over(Do(b, a)) else !Over(b)
  {
    hide Collected, Payload, Countdown, Replied, Do;
    DoKeepsCountdown(b, a);
    DoKeepsReplied(b, a);
    match a {
      case Visit(thrown) => VisitKeepsCollected(b, thrown);
      case Leave(thrown) => LeaveKeepsCollected(b, thrown);
      case Answer(i, r) => AnswerKeepsCollected(b, i, r);
    }
  }

  lemma SameParts(b: Batch, a: Act)
    requires Allowed(b, a)
    ensures Do(b, a).parts == b.parts && b.visited <= Do(b, a).visited && b.out <= Do(b, a).out
  {}

  lemma {:induction false} RunKeepsInv(b: Batch, acts: seq<Act>)
    requires Inv(b) && CanRun(b, acts)
    ensures Inv(Run(b, acts)) && Run(b, acts).parts == b.parts
    ensures b.replies != [] ==> Run(b, acts).replies == b.replies && LastMove(acts) == None
    decreases acts
  {
    if acts != [] {
      DoKeepsInv(b, acts[0]);
      SameParts(b, acts[0]);
      hide Inv, Do;
      RunKeepsInv(Do(b, acts[0]), acts[1..]);
    }
  }

  lemma StartInv(parts: seq<Part>)
    ensures Inv(Start(parts))
  {}

  // ---------------------------------------------------------------------------------------------
  // When there is a reply
  // ---------------------------------------------------------------------------------------------

  /** The last act that is not a handler returning. */
  function LastMove(acts: seq<Act>): Option<Act> {
    if acts == [] then None
    else if LastMove(acts[1..]).Some? then LastMove(acts[1..])
    else if acts[0].Leave? then None else Some(acts[0])
  }

  /** When all is over, only a handler can still return. */
  lemma {:induction false} NothingMoves(b: Batch, acts: seq<Act>)
    requires Inv(b) && CanRun(b, acts) && Over(b)
    ensures LastMove(acts) == None
    decreases acts
  {
    if acts != [] {
      DoKeepsInv(b, acts[0]);
      NothingMoves(Do(b, acts[0]), acts[1..]);
    }
  }

  lemma {:induction false} OnlyReturns(b: Batch, acts: seq<Act>)
    requires CanRun(b, acts) && LastMove(acts) == None
    ensures Run(b, acts).replies == b.replies && Over(Run(b, acts)) == Over(b)
    decreases acts
  {
    if acts != [] { OnlyReturns(Do(b, acts[0]), acts[1..]); }
  }

  /** The reply is sent exactly when the last move of a run is an answer: when something was still open
      after the last part was visited. */
  lemma {:induction false} RepliesIffLastMoveAnswers(b: Batch, acts: seq<Act>)
    requires Inv(b) && CanRun(b, acts) && b.replies == [] && Complete(Run(b, acts))
    ensures Run(b, acts).replies != [] <==> LastMove(acts).Some? && LastMove(acts).value.Answer?
    decreases acts
  {
    hide Inv, Do, Allowed;
    if acts != [] {
      var (b', rest) := (Do(b, acts[0]), acts[1..]);
      DoKeepsInv(b, acts[0]);
      if b'.replies != [] {
        RunKeepsInv(b', rest);
      } else {
        RepliesIffLastMoveAnswers(b', rest);
        if LastMove(rest) == None { OnlyReturns(b', rest); }
      }
    }
  }

  predicate EndsInRequest(parts: seq<Part>) { parts != [] && WantsReply(parts[|parts| - 1]) }

  lemma VisitLeavesOpen(b: Batch, a: Act)
    requires Allowed(b, a) && a.Visit? && EndsInRequest(b.parts)
    ensures !Over(Do(b, a))
  {
    if b.visited == |b.parts| - 1 { assert b.visited in Do(b, a).open; }
  }

  /** The last move of a complete run is no visit when the last part is a request. */
  lemma {:induction false} LastMoveAnswers(b: Batch, acts: seq<Act>)
    requires Inv(b) && CanRun(b, acts) && Over(Run(b, acts)) && EndsInRequest(b.parts) && !Over(b)
    ensures LastMove(acts).Some? && LastMove(acts).value.Answer?
    decreases acts
  {
    hide Inv, Do, Over, Allowed, EndsInRequest;
    assert acts != [];
    var b' := Do(b, acts[0]);
    DoKeepsInv(b, acts[0]);
    SameParts(b, acts[0]);
    if acts[0].Visit? { VisitLeavesOpen(b, acts[0]); }
    if Over(b') { NothingMoves(b', acts[1..]); } else { LastMoveAnswers(b', acts[1..]); }
  }

  /** The run in which every request is answered before the next part is visited, and no handler throws. */
  function Eager(parts: seq<Part>, i: nat, e: Json): seq<Act>
    requires i <= |parts|
    decreases |parts| - i
  {
    if i == |parts| then []
    else if WantsReply(parts[i]) then [Visit(None)] + ([Answer(i, Result(e))] + Eager(parts, i + 1, e))
    else if Notifies(parts[i]) then [Visit(None)] + ([Leave(None)] + Eager(parts, i + 1, e))
    else [Visit(Some(e))] + Eager(parts, i + 1, e)
  }

  /** A complete run whose last move is an answer just if `answers`. */
  predicate Finishes(b: Batch, acts: seq<Act>, answers: bool) {
    CanRun(b, acts) && Complete(Run(b, acts)) && (LastMove(acts).Some? ==> (LastMove(acts).value.Answer? <==> answers))
  }

  lemma FinishesCons(b: Batch, a: Act, rest: seq<Act>, answers: bool)
    requires Allowed(b, a) && Finishes(Do(b, a), rest, answers)
    requires LastMove(rest) == None && !a.Leave? ==> (a.Answer? <==> answers)
    ensures Finishes(b, [a] + rest, answers) && (!a.Leave? ==> LastMove([a] + rest).Some?)
  {
    hide Do, Complete, Allowed;
    assert ([a] + rest)[1..] == rest;
  }

  lemma EagerStep(b: Batch, e: Json)
    requires Inv(b) && b.open == {} && !b.busy && b.visited < |b.parts|
    ensures var part := b.parts[b.visited];
            var v := Visit(if Invalid(part) then Some(e) else None);
            Allowed(b, v) && Inv(Do(b, v)) && Do(b, v).parts == b.parts && Do(b, v).visited == b.visited + 1
            && Do(b, v).open == (if WantsReply(part) then {b.visited} else {}) && Do(b, v).busy == Notifies(part)
  {
    DoKeepsInv(b, Visit(if Invalid(b.parts[b.visited]) then Some(e) else None));
  }

  lemma EagerAnswer(b: Batch, i: nat, r: Reply)
    requires Inv(b) && b.open == {i} && !b.busy && i < |b.parts| && WantsReply(b.parts[i])
    ensures var b' := Do(b, Answer(i, r));
            Allowed(b, Answer(i, r)) && Inv(b') && b'.open == {} && !b'.busy && b'.parts == b.parts && b'.visited == b.visited
  {
    DoKeepsInv(b, Answer(i, r));
  }

  lemma EagerLeave(b: Batch)
    requires Inv(b) && b.open == {} && b.busy
    ensures Allowed(b, Leave(None))
    ensures var b' := Do(b, Leave(None)); Inv(b') && b'.open == {} && !b'.busy && b'.parts == b.parts && b'.visited == b.visited
  {
    DoKeepsInv(b, Leave(None));
  }

  lemma InRange(b: Batch)
    requires Inv(b)
    ensures b.visited <= |b.parts|
  {}

  lemma EagerEnds(b: Batch, e: Json)
    requires b.open == {} && !b.busy && b.visited == |b.parts|
    ensures Finishes(b, Eager(b.parts, b.visited, e), EndsInRequest(b.parts))
  {}

  lemma EagerMoves(parts: seq<Part>, i: nat, e: Json)
    requires i < |parts|
    ensures LastMove(Eager(parts, i, e)).Some?
    decreases |parts| - i
  {
    var acts := Eager(parts, i, e);
    assert acts[0].Visit?;
  }

  lemma LastPart(b: Batch, e: Json)
    requires b.visited < |b.parts| && LastMove(Eager(b.parts, b.visited + 1, e)) == None
    ensures EndsInRequest(b.parts) <==> WantsReply(b.parts[b.visited])
  {
    if b.visited + 1 < |b.parts| { EagerMoves(b.parts, b.visited + 1, e); }
  }

  lemma LeavesNoMove(rest: seq<Act>, a: Act)
    ensures LastMove([a] + rest) == if LastMove(rest).Some? then LastMove(rest) else if a.Leave? then None else Some(a)
  {
    assert ([a] + rest)[1..] == rest;
  }

  /** It is a complete run, and it ends with an answer only if the last part is a request. */
  lemma {:induction false} EagerRuns(b: Batch, e: Json)
    requires Inv(b) && b.open == {} && !b.busy && b.parts != []
    ensures Finishes(b, Eager(b.parts, b.visited, e), EndsInRequest(b.parts))
    decreases |b.parts| - b.visited
  {
    hide Inv, Do, Allowed, Finishes, EndsInRequest, LastMove;
    InRange(b);
    if b.visited == |b.parts| {
      EagerEnds(b, e);
    } else {
      EagerStep(b, e);
      var (part, rest) := (b.parts[b.visited], Eager(b.parts, b.visited + 1, e));
      var v := Visit(if Invalid(part) then Some(e) else None);
      var b1 := Do(b, v);
      if LastMove(rest) == None { LastPart(b, e); }
      if WantsReply(part) {
        var a := Answer(b.visited, Result(e));
        EagerAnswer(b1, b.visited, Result(e));
        EagerRuns(Do(b1, a), e);
        FinishesCons(b1, a, rest, EndsInRequest(b.parts));
        LeavesNoMove(rest, a);
        FinishesCons(b, v, [a] + rest, EndsInRequest(b.parts));
      } else if Notifies(part) {
        EagerLeave(b1);
        EagerRuns(Do(b1, Leave(None)), e);
        FinishesCons(b1, Leave(None), rest, EndsInRequest(b.parts));
        LeavesNoMove(rest, Leave(None));
        FinishesCons(b, v, [Leave(None)] + rest, EndsInRequest(b.parts));
      } else {
        EagerRuns(b1, e);
        FinishesCons(b, v, rest, EndsInRequest(b.parts));
      }
    }
  }

  /** All that may happen to a batch: without a handler handleServerBatch returns before the first part. */
  predicate WholeRun(parts: seq<Part>, found: bool, acts: seq<Act>) {
    if found then CanRun(Start(parts), acts) && Complete(Run(Start(parts), acts)) else acts == []
  }

  function Replies(parts: seq<Part>, found: bool, acts: seq<Act>): seq<seq<Part>>
    requires WholeRun(parts, found, acts)
  {
    Run(Start(parts), acts).replies
  }

  /** A batch is answered exactly once in every whole run if and only if there is a handler and the last
      part is a request. */
  lemma AlwaysRepliesIff(parts: seq<Part>, found: bool)
    requires parts != []
    ensures found && EndsInRequest(parts) <==>
            forall acts :: WholeRun(parts, found, acts) ==> |Replies(parts, found, acts)| == 1
  {
    var b := Start(parts);
    StartInv(parts);
    if !found {
      NoHandlerNoReply(parts);
    } else if EndsInRequest(parts) {
      forall acts | WholeRun(parts, found, acts) ensures |Replies(parts, found, acts)| == 1 {
        LastMoveAnswers(b, acts);
        RepliesIffLastMoveAnswers(b, acts);
        RunKeepsInv(b, acts);
      }
    } else {
      var acts := Eager(parts, 0, Null);
      EagerRuns(b, Null);
      EagerMoves(parts, 0, Null);
      RepliesIffLastMoveAnswers(b, acts);
      assert WholeRun(parts, found, acts) && Replies(parts, found, acts) == [];
    }
  }

  /** Without a handler no batch is answered, not even one that ends in a request. */
  lemma NoHandlerNoReply(parts: seq<Part>)
    ensures WholeRun(parts, false, []) && Replies(parts, false, []) == []
    ensures forall acts :: WholeRun(parts, false, acts) ==> Replies(parts, false, acts) == []
  {}

  // ---------------------------------------------------------------------------------------------
  // What the reply holds
  // ---------------------------------------------------------------------------------------------

  /** The answer that a run gives to a request. */
  function AnswerTo(acts: seq<Act>, i: nat): Option<Reply> {
    if acts == [] then None
    else if acts[0].Answer? && acts[0].i == i then Some(acts[0].r)
    else AnswerTo(acts[1..], i)
  }

  lemma {:induction false} OutGrows(b: Batch, acts: seq<Act>, k: nat)
    requires CanRun(b, acts) && k < |b.out|
    ensures k < |Run(b, acts).out| && Run(b, acts).out[k] == b.out[k]
    decreases acts
  {
    if acts != [] { OutGrows(Do(b, acts[0]), acts[1..], k); }
  }

  /** In a complete run, every request has one part: its own id, its own answer. */
  lemma {:induction false} EveryRequestIsAnswered(b: Batch, acts: seq<Act>, i: nat) returns (k: nat)
    requires Inv(b) && CanRun(b, acts) && Complete(Run(b, acts))
    requires i < |b.parts| && WantsReply(b.parts[i]) && !Answered(b, i)
    ensures AnswerTo(acts, i).Some?
    ensures var out := Run(b, acts).out;
            k < |out| && out[k] == (i, ReplyPart(b.parts[i], AnswerTo(acts, i).value))
            && forall k' :: 0 <= k' < |out| && k' != k ==> out[k'].0 != i
    decreases acts
  {
    hide Complete, WantsReply, ReplyPart, Payload;
    RunKeepsInv(b, acts);
    StillOpen(b, i);
    assert acts != [];
    var b' := Do(b, acts[0]);
    DoKeepsInv(b, acts[0]);
    SameParts(b, acts[0]);
    if acts[0].Answer? && acts[0].i == i {
      k := |b.out|;
      OutGrows(b', acts[1..], k);
      OnlyOnce(Run(b, acts), k);
    } else {
      NotAnsweredYet(b, acts[0], i);
      k := EveryRequestIsAnswered(b', acts[1..], i);
    }
  }

  lemma NotAnsweredYet(b: Batch, a: Act, i: nat)
    requires Countdown(b) && Allowed(b, a) && i < |b.parts| && WantsReply(b.parts[i]) && !Answered(b, i) && !(a.Answer? && a.i == i)
    ensures !Answered(Do(b, a), i)
  {
    var b' := Do(b, a);
    forall k | 0 <= k < |b'.out| ensures b'.out[k].0 != i {
      if k < |b.out| { assert b.out[k].0 != i; }
    }
  }

  lemma StillOpen(b: Batch, i: nat)
    requires Inv(b) && i < |b.parts| && WantsReply(b.parts[i]) && !Answered(b, i)
    ensures !Complete(b)
  {}

  lemma OnlyOnce(b: Batch, k: nat)
    requires Inv(b) && k < |b.out|
    ensures forall k' :: 0 <= k' < |b.out| && k' != k ==> b.out[k'].0 != b.out[k].0
  {}

  /** The reply is the collected parts from the first on; only the error of a notification can be missing. */
  lemma ReplyHolds(b: Batch)
    requires Inv(b) && b.replies != []
    ensures |b.replies| == 1 && |b.replies[0]| <= |b.out|
    ensures forall k :: 0 <= k < |b.replies[0]| ==> b.replies[0][k] == b.out[k].1
    ensures forall k :: 0 <= k < |b.out| && WantsReply(b.parts[b.out[k].0]) ==> k < |b.replies[0]|
  {}

  lemma {:induction false} NoFurtherAnswer(b: Batch, acts: seq<Act>, i: nat)
    requires CanRun(b, acts) && i < b.visited && i !in b.open
    ensures forall m :: 0 <= m < |acts| && acts[m].Answer? ==> acts[m].i != i
    decreases acts
  {
    if acts != [] {
      NoFurtherAnswer(Do(b, acts[0]), acts[1..], i);
      assert forall m :: 0 < m < |acts| ==> acts[m] == acts[1..][m - 1];
    }
  }

  /** The place of the only answer to a request. */
  lemma {:induction false} TheAnswer(b: Batch, acts: seq<Act>, i: nat) returns (m: nat)
    requires Countdown(b) && CanRun(b, acts) && AnswerTo(acts, i).Some?
    ensures m < |acts| && acts[m] == Answer(i, AnswerTo(acts, i).value)
    ensures forall m' :: 0 <= m' < |acts| && acts[m'].Answer? && acts[m'].i == i ==> m' == m
    decreases acts
  {
    hide Countdown;
    DoKeepsCountdown(b, acts[0]);
    if acts[0].Answer? && acts[0].i == i {
      m := 0;
      OpenWasVisited(b, i);
      NoFurtherAnswer(Do(b, acts[0]), acts[1..], i);
    } else {
      m := TheAnswer(Do(b, acts[0]), acts[1..], i);
      m := m + 1;
    }
    assert forall m' :: 0 < m' < |acts| ==> acts[m'] == acts[1..][m' - 1];
  }

  lemma OpenWasVisited(b: Batch, i: nat)
    requires Countdown(b) && i in b.open
    ensures i < b.visited
  {}

  /** The part of a reply that carries that answer. */
  predicate Carries(reply: Part, id: Json, r: Reply) {
    && reply.Part? && reply.called.NoMethod? && reply.id == Some(id)
    && match r
       case Result(v) => reply.result == Some(v) && reply.error == NoError
       case Failure(e) => reply.result == None && reply.error == Error(e)
  }

  lemma ReplyPartCarries(part: Part, r: Reply)
    requires WantsReply(part)
    ensures Carries(ReplyPart(part, r), part.id.value, r)
  {}

  /** A part with a method and an id, be it a number, a string or whatever else is not null: a reply holds a
      part with that very id and the only answer that was given to it, and no second part belongs to it. */
  lemma ReplyAnswersEveryId(parts: seq<Part>, acts: seq<Act>, i: nat) returns (k: nat, m: nat)
    requires CanRun(Start(parts), acts) && Complete(Run(Start(parts), acts)) && Run(Start(parts), acts).replies != []
    requires i < |parts| && parts[i].Part? && parts[i].called.Named? && parts[i].id.Some? && parts[i].id.value != Null
    ensures var b := Run(Start(parts), acts);
            && |b.replies| == 1 && k < |b.replies[0]| && m < |acts| && acts[m].Answer? && acts[m].i == i
            && Carries(b.replies[0][k], parts[i].id.value, acts[m].r)
            && (forall m' :: 0 <= m' < |acts| && acts[m'].Answer? && acts[m'].i == i ==> m' == m)
            && k < |b.out| && (forall k' :: 0 <= k' < |b.out| && b.out[k'].0 == i <==> k' == k)
  {
    var start := Start(parts);
    StartInv(parts);
    assert !Answered(start, i) && Countdown(start);
    hide Complete, Run, CanRun, Inv, Carries, Countdown, AnswerTo;
    var b := Run(start, acts);
    RunKeepsInv(start, acts);
    k := EveryRequestIsAnswered(start, acts, i);
    m := TheAnswer(start, acts, i);
    ReplyHolds(b);
    ReplyPartCarries(parts[i], acts[m].r);
  }

  lemma {:induction false} RunLast(b: Batch, acts: seq<Act>)
    requires CanRun(b, acts) && acts != []
    ensures var (front, last) := (acts[..|acts| - 1], acts[|acts| - 1]);
            CanRun(b, front) && Allowed(Run(b, front), last) && Run(b, acts) == Do(Run(b, front), last)
    decreases acts
  {
    hide Do, Allowed;
    var front := acts[..|acts| - 1];
    if |acts| > 1 {
      assert front[0] == acts[0] && front[1..] == acts[1..][..|acts| - 2];
      RunLast(Do(b, acts[0]), acts[1..]);
    } else {
      assert front == [] && acts[1..] == [];
    }
  }

  /** The reply lacks something exactly when the run ends with a handler that throws: a notification at
      the end of the batch, whose handler answered the last open request before. */
  lemma ReplyIsWholeIff(b: Batch, acts: seq<Act>)
    requires Inv(b) && b.replies == [] && CanRun(b, acts) && Run(b, acts).replies != []
    ensures acts != []
    ensures var last := acts[|acts| - 1];
            Run(b, acts).replies == [Payload(Run(b, acts).out)] <==> !(last.Leave? && last.thrown.Some?)
  {
    assert acts != [];
    RunLast(b, acts);
    var b' := Run(b, acts[..|acts| - 1]);
    RunKeepsInv(b, acts[..|acts| - 1]);
    hide Run, CanRun;
    LastActReplies(b', acts[|acts| - 1]);
  }

  lemma LastActReplies(b: Batch, a: Act)
    requires Inv(b) && Allowed(b, a) && Do(b, a).replies != []
    ensures Do(b, a).replies == [Payload(Do(b, a).out)] <==> !(a.Leave? && a.thrown.Some?)
  {
    DoKeepsInv(b, a);
    if a.Leave? && a.thrown.Some? { assert |Do(b, a).out| == |b.out| + 1; }
    hide Collected, Countdown;
  }

  // ---------------------------------------------------------------------------------------------
  // Parts that are no requests (section 4.1)
  // ---------------------------------------------------------------------------------------------

  /** What processing part i threw, in a run that starts with n parts visited. */
  function ThrownAt(n: nat, acts: seq<Act>, i: nat): Option<Json>
    decreases acts
  {
    if acts == [] then None
    else
      match acts[0]
      case Visit(thrown) => if n == i && thrown.Some? then thrown else ThrownAt(n + 1, acts[1..], i)
      case Leave(thrown) => if n == i + 1 && thrown.Some? then thrown else ThrownAt(n, acts[1..], i)
      case Answer(_, _) => ThrownAt(n, acts[1..], i)
  }

  /** Part i has an entry exactly if something was thrown, and then that error without an id. */
  ghost predicate ErrorOf(b: Batch, i: nat, thrown: Option<Json>) {
    && (Answered(b, i) <==> thrown.Some?)
    && forall k :: 0 <= k < |b.out| && b.out[k].0 == i ==> thrown.Some? && b.out[k].1 == ErrorPart(Null, thrown.value)
  }

  /** A part that is no request is answered exactly if processing it throws, and then with that error and
      no id. */
  lemma {:induction false} OthersAnsweredIff(b: Batch, acts: seq<Act>, i: nat)
    requires Inv(b) && CanRun(b, acts) && i < |b.parts| && !WantsReply(b.parts[i]) && !Answered(b, i)
    ensures ErrorOf(Run(b, acts), i, ThrownAt(b.visited, acts, i))
    decreases acts
  {
    hide Inv, Do, Allowed, WantsReply, Answered, ErrorOf;
    if acts == [] {
      NothingThrown(b, i);
    } else {
      var (a, b') := (acts[0], Do(b, acts[0]));
      DoKeepsInv(b, a);
      SameParts(b, a);
      VisitedAfter(b, a);
      if Throws(b, a, i) {
        ThrownNow(b, a, i, acts[1..]);
      } else {
        NotThrownYet(b, a, i);
        OthersAnsweredIff(b', acts[1..], i);
      }
    }
  }

  predicate Throws(b: Batch, a: Act, i: nat) {
    (a.Visit? && b.visited == i && a.thrown.Some?) || (a.Leave? && b.visited == i + 1 && a.thrown.Some?)
  }

  lemma NothingThrown(b: Batch, i: nat)
    requires !Answered(b, i)
    ensures ErrorOf(b, i, None)
  {}

  lemma VisitedAfter(b: Batch, a: Act)
    requires Allowed(b, a)
    ensures Do(b, a).visited == if a.Visit? then b.visited + 1 else b.visited
  {}

  lemma ThrownNow(b: Batch, a: Act, i: nat, rest: seq<Act>)
    requires Inv(b) && Allowed(b, a) && Throws(b, a, i) && i < |b.parts| && !WantsReply(b.parts[i])
    requires Inv(Do(b, a)) && CanRun(Do(b, a), rest)
    ensures ErrorOf(Run(Do(b, a), rest), i, a.thrown)
  {
    var b' := Do(b, a);
    assert b'.out == b.out + [(i, ErrorPart(Null, a.thrown.value))];
    hide Inv, Do, Allowed, WantsReply, Payload;
    ErrorStays(b', rest, i, |b.out|);
  }

  lemma NotThrownYet(b: Batch, a: Act, i: nat)
    requires Inv(b) && Allowed(b, a) && i < |b.parts| && !WantsReply(b.parts[i]) && !Answered(b, i)
    requires !Throws(b, a, i)
    ensures !Answered(Do(b, a), i)
  {
    var b' := Do(b, a);
    forall k | 0 <= k < |b'.out| ensures b'.out[k].0 != i {
      if k < |b.out| { assert b.out[k].0 != i; }
    }
  }

  lemma ErrorStays(b: Batch, acts: seq<Act>, i: nat, k: nat)
    requires Inv(b) && CanRun(b, acts) && k < |b.out| && b.out[k].0 == i
    ensures var b' := Run(b, acts);
            Answered(b', i) && k < |b'.out| && b'.out[k] == b.out[k]
            && forall k' :: 0 <= k' < |b'.out| && b'.out[k'].0 == i ==> k' == k
  {
    OutGrows(b, acts, k);
    RunKeepsInv(b, acts);
    OnlyOnce(Run(b, acts), k);
  }

  function Visits(acts: seq<Act>): nat { if acts == [] then 0 else (if acts[0].Visit? then 1 else 0) + Visits(acts[1..]) }

  /** Act j throws e while part i is processed: it is the visit to that part, or its handler's return. */
  predicate ThrowsAt(n: nat, acts: seq<Act>, i: nat, j: nat, e: Json) {
    && j < |acts|
    && ((acts[j] == Visit(Some(e)) && n + Visits(acts[..j]) == i) || (acts[j] == Leave(Some(e)) && n + Visits(acts[..j]) == i + 1))
  }

  /** ThrownAt finds an exception exactly if some act throws it. */
  lemma {:induction false} ThrownAtIff(n: nat, acts: seq<Act>, i: nat)
    ensures ThrownAt(n, acts, i).Some? ==> exists j: nat :: ThrowsAt(n, acts, i, j, ThrownAt(n, acts, i).value)
    ensures ThrownAt(n, acts, i).None? ==> forall j: nat, e :: !ThrowsAt(n, acts, i, j, e)
    decreases acts
  {
    if acts != [] {
      var (a, rest) := (acts[0], acts[1..]);
      var n' := if a.Visit? then n + 1 else n;
      ThrownAtIff(n', rest, i);
      forall j: nat, e
        ensures ThrowsAt(n, acts, i, j, e) <==> if j == 0 then ThrowsFirst(n, a, i, e) else ThrowsAt(n', rest, i, j - 1, e)
      {
        ThrowsLater(n, acts, i, j, e);
      }
      if ThrowsFirst(n, a, i, ThrownOr(a)) {
        assert ThrownAt(n, acts, i) == Some(ThrownOr(a));
        assert ThrowsAt(n, acts, i, 0, ThrownAt(n, acts, i).value);
      } else if ThrownAt(n', rest, i).Some? {
        var j: nat :| ThrowsAt(n', rest, i, j, ThrownAt(n', rest, i).value);
        assert ThrownAt(n, acts, i) == ThrownAt(n', rest, i);
        assert ThrowsAt(n, acts, i, j + 1, ThrownAt(n, acts, i).value);
      } else {
        forall j: nat, e ensures !ThrowsAt(n, acts, i, j, e) {
          assert e == ThrownOr(a) || !ThrowsFirst(n, a, i, e);
          if j > 0 { assert !ThrowsAt(n', rest, i, j - 1, e); }
        }
      }
    }
  }

  predicate ThrowsFirst(n: nat, a: Act, i: nat, e: Json) { (a == Visit(Some(e)) && n == i) || (a == Leave(Some(e)) && n == i + 1) }

  function ThrownOr(a: Act): Json { if !a.Answer? && a.thrown.Some? then a.thrown.value else Null }

  lemma ThrowsLater(n: nat, acts: seq<Act>, i: nat, j: nat, e: Json)
    requires acts != []
    ensures var n' := if acts[0].Visit? then n + 1 else n;
            ThrowsAt(n, acts, i, j, e) <==> if j == 0 then ThrowsFirst(n, acts[0], i, e) else ThrowsAt(n', acts[1..], i, j - 1, e)
  {
    if 0 < j < |acts| { assert acts[..j][1..] == acts[1..][..j - 1]; }
  }

  /** Notifications, with a null id or none, get no answer in a batch, as section 4.1 demands, if and only if
      none of their handlers throws. */
  lemma NotificationsUnansweredIff(parts: seq<Part>, acts: seq<Act>)
    requires CanRun(Start(parts), acts)
    ensures (forall i: nat :: i < |parts| && Unasked(parts[i]) ==> !Answered(Run(Start(parts), acts), i)) <==>
            forall i: nat, j: nat, e :: i < |parts| && Unasked(parts[i]) ==> !ThrowsAt(0, acts, i, j, e)
  {
    StartInv(parts);
    forall i: nat | i < |parts| && Unasked(parts[i])
      ensures Answered(Run(Start(parts), acts), i) <==> exists j: nat, e :: ThrowsAt(0, acts, i, j, e)
    {
      OthersAnsweredIff(Start(parts), acts, i);
      ThrownAtIff(0, acts, i);
    }
  }

  predicate Unasked(part: Part) { part.Part? && part.called.Named? && (part.id == None || part.id == Some(Null)) }

  /** The input that shows it: a notification whose handler throws, before a request.  Its error stands in
      the reply. */
  lemma ThrowingNotification(notify: seq<char>, call: seq<char>, params: Json, id: nat, e: Json, v: Json)
    ensures var parts := [Notification(notify, params), MethodCall(id, call, params)];
            var acts := [Visit(None), Leave(Some(e)), Visit(None), Answer(1, Result(v))];
            && WholeRun(parts, true, acts)
            && Replies(parts, true, acts) == [[ErrorPart(Null, e), ResultPart(UInt(id), v)]]
  {
    var parts := [Notification(notify, params), MethodCall(id, call, params)];
    var b1 := Do(Start(parts), Visit(None));
    var b2 := Do(b1, Leave(Some(e)));
    var b3 := Do(b2, Visit(None));
    var b4 := Do(b3, Answer(1, Result(v)));
    assert b3.open == {1} && b4.open == {};
    assert b4.out == [(0, ErrorPart(Null, e)), (1, ResultPart(UInt(id), v))];
    assert Payload(b4.out) == [ErrorPart(Null, e), ResultPart(UInt(id), v)];
    assert b4.replies == [Payload(b4.out)];
    Four(Start(parts), Visit(None), Leave(Some(e)), Visit(None), Answer(1, Result(v)));
  }

  /** The input that loses an error: the handler of the last notification answers the request, and then
      throws. */
  lemma LostError(notify: seq<char>, call: seq<char>, params: Json, id: nat, e: Json, v: Json)
    ensures var parts := [MethodCall(id, call, params), Notification(notify, params)];
            var acts := [Visit(None), Visit(None), Answer(0, Result(v)), Leave(Some(e))];
            && WholeRun(parts, true, acts)
            && Replies(parts, true, acts) == [[ResultPart(UInt(id), v)]]
            && Answered(Run(Start(parts), acts), 1)
  {
    var parts := [MethodCall(id, call, params), Notification(notify, params)];
    var b1 := Do(Start(parts), Visit(None));
    var b2 := Do(b1, Visit(None));
    var b3 := Do(b2, Answer(0, Result(v)));
    var b4 := Do(b3, Leave(Some(e)));
    assert b2.open == {0} && b3.open == {};
    assert b3.out == [(0, ResultPart(UInt(id), v))];
    assert Payload(b3.out) == [ResultPart(UInt(id), v)];
    assert b3.replies == [Payload(b3.out)];
    assert b4.out[1].0 == 1;
    Four(Start(parts), Visit(None), Visit(None), Answer(0, Result(v)), Leave(Some(e)));
  }

  lemma Four(b: Batch, w: Act, x: Act, y: Act, z: Act)
    requires Allowed(b, w) && Allowed(Do(b, w), x) && Allowed(Do(Do(b, w), x), y) && Allowed(Do(Do(Do(b, w), x), y), z)
    ensures CanRun(b, [w, x, y, z]) && Run(b, [w, x, y, z]) == Do(Do(Do(Do(b, w), x), y), z)
  {
    hide Do, Allowed;
    RunOne(Do(Do(Do(b, w), x), y), z, []);
    RunOne(Do(Do(b, w), x), y, [z]);
    RunOne(Do(b, w), x, [y, z]);
    RunOne(b, w, [x, y, z]);
    assert [z] == [z] + [] && [y, z] == [y] + [z] && [x, y, z] == [x] + [y, z] && [w, x, y, z] == [w] + [x, y, z];
  }

  lemma RunOne(b: Batch, a: Act, rest: seq<Act>)
    requires Allowed(b, a) && CanRun(Do(b, a), rest)
    ensures CanRun(b, [a] + rest) && Run(b, [a] + rest) == Run(Do(b, a), rest)
  {
    hide Do, Allowed;
    assert ([a] + rest)[1..] == rest;
  }
}
