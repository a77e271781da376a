/** The server's batch object as it runs: a counter and a growing list of parts. */
module RpcServerCode {
  import opened Wrappers
  import opened JsonTree
  import opened RpcMessages
  import opened RpcServer

  /** What happens in one round of the loop: promises settled while the part is processed, an exception,
      and promises settled after that, before the next part. */
  datatype Turn = Turn(during: seq<Act>, thrown: Option<Json>, after: seq<Act>)

  function ActsAfter(parts: seq<Part>, turns: seq<Turn>, i: nat): seq<Act>
    requires i <= |parts| == |turns|
    decreases |parts| - i, 1
  {
    if i == |parts| then [] else [Visit(if Invalid(parts[i]) then turns[i].thrown else None)] + ActsInside(parts, turns, i)
  }

  /** The rest of round i once its part was begun, and what follows. */
  function ActsInside(parts: seq<Part>, turns: seq<Turn>, i: nat): seq<Act>
    requires i < |parts| == |turns|
    decreases |parts| - i, 0
  {
    turns[i].during + (LeaveOf(parts[i], turns[i]) + (turns[i].after + ActsAfter(parts, turns, i + 1)))
  }

  function LeaveOf(part: Part, turn: Turn): seq<Act> { if Notifies(part) then [Leave(turn.thrown)] else [] }

  predicate OnlyAnswers(acts: seq<Act>) { forall k :: 0 <= k < |acts| ==> acts[k].Answer? }

  lemma RunFirst(b: RpcServer.Batch, acts: seq<Act>)
    requires acts != [] && CanRun(b, acts)
    ensures Allowed(b, acts[0]) && CanRun(Do(b, acts[0]), acts[1..]) && Run(b, acts) == Run(Do(b, acts[0]), acts[1..])
  {}

  lemma RunNone(b: RpcServer.Batch)
    ensures CanRun(b, []) && Run(b, []) == b
  {}

  class ServerBatch {
    var left: nat
    var parts: seq<Part>                 // the reply collected so far
    var sent: seq<seq<Part>>
    const input: seq<Part>
    ghost var visited: nat
    ghost var busy: bool
    ghost var open: set<nat>
    ghost var out: seq<(nat, Part)>

    ghost function Abs(): RpcServer.Batch
      reads this
    {
      RpcServer.Batch(input, visited, busy, open, left, out, sent)
    }

    ghost predicate Valid()
      reads this
    {
      Inv(Abs()) && parts == Payload(out)
    }

    constructor (input: seq<Part>)
      ensures Valid() && Abs() == Start(input)
    {
      this.left, this.parts, this.sent := |input|, [], [];
      this.input, this.visited, this.busy, this.open, this.out := input, 0, false, {}, [];
      new;
      StartInv(input);
    }

    /** addBatchResp, called when the promise of part i settles. */
    method AddBatchResp(i: nat, id: Json, r: Reply)
      requires Valid() && Allowed(Abs(), Answer(i, r)) && input[i].id == Some(id)
      modifies this
      ensures Valid() && Abs() == Do(old(Abs()), Answer(i, r))
    {
      hide Inv;
      LeftIsPositive(Abs(), Answer(i, r));
      var part := match r case Result(v) => ResultPart(id, v) case Failure(e) => ErrorPart(id, e);
      parts := parts + [part];
      left := left - 1;
      if left == 0 { sent := sent + [parts]; }
      open, out := open - {i}, out + [(i, part)];
      assert parts == Payload(out);
    }

    /** The error part of a part that threw; it carries no id. */
    method AddError(ghost i: nat, thrown: Option<Json>)
      requires parts == Payload(out)
      modifies this`parts, this`out
      ensures parts == Payload(out) && out == WithError(old(out), i, thrown)
    {
      if thrown.Some? {
        parts := parts + [ErrorPart(Null, thrown.value)];
        out := out + [(i, ErrorPart(Null, thrown.value))];
        assert parts == Payload(out);
      }
    }

    /** The start of a round of the loop: uncount the part, and count it again if it is a request. */
    method VisitPart(part: Part, thrown: Option<Json>)
      requires Valid() && Allowed(Abs(), Visit(thrown)) && part == input[visited]
      modifies this
      ensures Valid() && Abs() == Do(old(Abs()), Visit(thrown))
    {
      hide Inv;
      LeftIsPositive(Abs(), Visit(thrown));
      left := left - 1;
      if part.NotObject? || !part.called.Named? {
        AddError(visited, thrown);
      } else if part.id.Some? && !part.id.value.Null? {
        left := left + 1;
        open := open + {visited};
      } else {
        busy := true;
      }
      visited := visited + 1;
    }

    /** HandleNotify returns, or throws and the exception becomes an error part. */
    method LeavePart(thrown: Option<Json>)
      requires Valid() && Allowed(Abs(), Leave(thrown))
      modifies this
      ensures Valid() && Abs() == Do(old(Abs()), Leave(thrown))
    {
      hide Inv;
      LeftIsPositive(Abs(), Leave(thrown));
      AddError(visited - 1, thrown);
      busy := false;
    }

    /** Promises that settle one after the other. */
    method Settle(answers: seq<Act>, ghost rest: seq<Act>)
      requires Valid() && OnlyAnswers(answers) && CanRun(Abs(), answers + rest)
      modifies this
      ensures Valid() && visited == old(visited) && CanRun(Abs(), rest)
      ensures CanRun(old(Abs()), answers + rest) && Run(Abs(), rest) == Run(old(Abs()), answers + rest)
    {
      hide Inv, Do, Run, CanRun, Allowed;
      ghost var was := Abs();
      assert answers[0..] == answers;
      for k := 0 to |answers|
        invariant Valid() && visited == old(visited)
        invariant CanRun(Abs(), answers[k..] + rest) && Run(Abs(), answers[k..] + rest) == Run(was, answers + rest)
      {
        ghost var more := answers[k..] + rest;
        assert more[0] == answers[k] && more[1..] == answers[k + 1..] + rest;
        RunFirst(Abs(), more);
        AnswerStep(Abs(), answers[k]);
        var a := answers[k];
        AddBatchResp(a.i, input[a.i].id.value, a.r);
      }
      assert answers[|answers|..] + rest == rest;
    }

    /** One round of the loop, with whatever answers come in it. */
    method Round(i: nat, turns: seq<Turn>)
      requires Valid() && visited == i < |input| == |turns| && CanRun(Abs(), ActsAfter(input, turns, i))
      requires OnlyAnswers(turns[i].during) && OnlyAnswers(turns[i].after)
      modifies this
      ensures CanRun(old(Abs()), ActsAfter(input, turns, i))
      ensures Valid() && visited == i + 1 && CanRun(Abs(), ActsAfter(input, turns, i + 1))
      ensures Run(Abs(), ActsAfter(input, turns, i + 1)) == Run(old(Abs()), ActsAfter(input, turns, i))
    {
      hide Inv, Do, Run, CanRun, Allowed, OnlyAnswers;
      ghost var rest := ActsAfter(input, turns, i + 1);
      var (part, turn) := (input[i], turns[i]);
      var thrown := if part.NotObject? || !part.called.Named? then turn.thrown else None;
      ghost var inside := ActsInside(input, turns, i);
      assert ([Visit(thrown)] + inside)[1..] == inside;
      RunFirst(Abs(), [Visit(thrown)] + inside);
      VisitStep(Abs(), thrown);
      VisitPart(part, thrown);
      Settle(turn.during, LeaveOf(part, turn) + (turn.after + rest));
      if !part.NotObject? && part.called.Named? && (part.id.None? || part.id.value.Null?) {
        assert ([Leave(turn.thrown)] + (turn.after + rest))[1..] == turn.after + rest;
        RunFirst(Abs(), [Leave(turn.thrown)] + (turn.after + rest));
        LeaveStep(Abs(), turn.thrown);
        LeavePart(turn.thrown);
      } else {
        assert [] + (turn.after + rest) == turn.after + rest;
      }
      Settle(turn.after, rest);
    }

    /** The loop over the parts. */
    method EveryRound(turns: seq<Turn>)
      requires Valid() && visited == 0 && |turns| == |input| && CanRun(Abs(), ActsAfter(input, turns, 0))
      requires forall j :: 0 <= j < |turns| ==> OnlyAnswers(turns[j].during) && OnlyAnswers(turns[j].after)
      modifies this
      ensures CanRun(old(Abs()), ActsAfter(input, turns, 0))
      ensures Valid() && visited == |input| && Abs() == Run(old(Abs()), ActsAfter(input, turns, 0))
    {
      hide Inv, Do, Run, CanRun, Allowed, OnlyAnswers, ActsAfter, Valid;
      ghost var was := Abs();
      var i := 0;
      while i < |turns|
        invariant i <= |turns| && Valid() && visited == i && CanRun(Abs(), ActsAfter(input, turns, i))
        invariant Run(Abs(), ActsAfter(input, turns, i)) == Run(was, ActsAfter(input, turns, 0))
      {
        Round(i, turns);
        i := i + 1;
      }
      NothingAfter(input, turns);
      RunNone(Abs());
    }

    /** handleServerBatch: nothing at all without a handler, and otherwise one run of the countdown. */
    method HandleServerBatch(found: bool, turns: seq<Turn>)
      requires Valid() && Abs() == Start(input) && |turns| == |input|
      requires found ==> CanRun(Abs(), ActsAfter(input, turns, 0))
      requires forall j :: 0 <= j < |turns| ==> OnlyAnswers(turns[j].during) && OnlyAnswers(turns[j].after)
      modifies this
      ensures Valid()
      ensures found ==> CanRun(old(Abs()), ActsAfter(input, turns, 0)) && visited == |input|
                        && Abs() == Run(old(Abs()), ActsAfter(input, turns, 0))
      ensures !found ==> Abs() == old(Abs())
    {
      hide Inv, Do, Run, CanRun, Allowed, OnlyAnswers, ActsAfter, Valid;
      if found { EveryRound(turns); }
    }
  }

  lemma NothingAfter(parts: seq<Part>, turns: seq<Turn>)
    requires |parts| == |turns|
    ensures ActsAfter(parts, turns, |parts|) == []
  {}

  lemma LeftIsPositive(b: RpcServer.Batch, a: Act)
    requires Inv(b) && Allowed(b, a)
    ensures Inv(Do(b, a)) && (!a.Leave? ==> b.left >= 1) && b.visited <= |b.parts|
  {
    DoKeepsInv(b, a);
  }

  lemma VisitStep(b: RpcServer.Batch, thrown: Option<Json>)
    requires Allowed(b, Visit(thrown))
    ensures b.visited < |b.parts| && Do(b, Visit(thrown)).parts == b.parts && Do(b, Visit(thrown)).visited == b.visited + 1
  {}

  lemma LeaveStep(b: RpcServer.Batch, thrown: Option<Json>)
    requires Allowed(b, Leave(thrown))
    ensures Do(b, Leave(thrown)).parts == b.parts && Do(b, Leave(thrown)).visited == b.visited
  {}

  lemma AnswerStep(b: RpcServer.Batch, a: Act)
    requires Allowed(b, a) && a.Answer?
    ensures a.i < |b.parts| && b.parts[a.i].Part? && b.parts[a.i].id.Some?
    ensures Do(b, a).parts == b.parts && Do(b, a).visited == b.visited
  {}
}
