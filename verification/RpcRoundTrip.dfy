/** Client to server and back: a batch of requests, answered in any order, settles every promise with
    the answer of its own handler. */
module RpcRoundTrip {
  import opened Wrappers
  import opened JsonTree
  import opened RpcMessages
  import Client = RpcClient
  import opened RpcClientCode
  import Server = RpcServer

  type Step = Client.Step

  /** What SendBatch puts on the wire. */
  function Wire(next: nat, notifs: seq<Notify>, requests: seq<Request>): (r: seq<Part>)
    ensures |r| == |notifs| + |requests|
  {
    Notifications(notifs) + Calls(next, requests)
  }

  /** A batch with any request ends in one: its reply is always sent.  Nor is the batch taken for a batch
      of responses. */
  lemma SentBatchEndsInRequest(next: nat, notifs: seq<Notify>, requests: seq<Request>)
    requires next < Client.ID_END
    ensures requests != [] ==> Server.EndsInRequest(Wire(next, notifs, requests))
    ensures notifs != [] || requests != [] ==>
              var lead := Leading(Many(Wire(next, notifs, requests)));
              lead.Some? && lead.value.called.Named?
  {
    if requests != [] { CallsAt(next, requests, |requests| - 1); }
    if notifs != [] { NotificationsAt(notifs, 0); } else if requests != [] { CallsAt(next, requests, 0); }
  }

  /** An entry stays while fewer than 2^64 further requests are registered. */
  lemma {:induction false} StillPending(t: Client.Table, id: nat, requests: seq<Request>, gap: nat)
    requires Client.Inv(t) && id in t.pending && t.pending[id].promise !in t.settled
    requires id < Client.ID_END && id == (t.next + gap) % Client.ID_END && |requests| <= gap < Client.ID_END
    ensures var t' := Client.Run(t, Registrations(requests));
            id in t'.pending && t'.pending[id] == t.pending[id] && t'.pending[id].promise !in t'.settled
    decreases |requests|
  {
    hide Client.Inv, Client.Do;
    NextInRange(t);
    if requests != [] {
      var s: Step := Client.Register(requests[0].timeout);
      RunFirst(t, s, Registrations(requests[1..]));
      Client.DoKeepsInv(t, s);
      Client.NotYetAgain(t.next, gap);
      RegisterMoves(t, requests[0].timeout);
      OneMore(t, id, requests[0].timeout);
      StillPending(Client.Do(t, s), id, requests[1..], gap - 1);
    }
  }

  lemma OneMore(t: Client.Table, id: nat, timeout: nat)
    requires Client.Inv(t) && id in t.pending && t.pending[id].promise !in t.settled && id != t.next
    ensures var t' := Client.Do(t, Client.Register(timeout));
            id in t'.pending && t'.pending[id] == t.pending[id] && t'.pending[id].promise !in t'.settled
  {}

  /** After SendBatch, request j waits under its own id with its own promise. */
  lemma {:induction false} Registered(t: Client.Table, requests: seq<Request>, j: nat)
    requires Client.Inv(t) && j < |requests| < Client.ID_END
    ensures var t' := Client.Run(t, Registrations(requests));
            var id := (t.next + j) % Client.ID_END;
            && Client.Inv(t')
            && id in t'.pending && t'.pending[id] == Client.Transact(t.issued + j, requests[j].timeout)
            && t.issued + j !in t'.settled
    decreases j
  {
    hide Client.Inv, Client.Do, Client.Run;
    var s: Step := Client.Register(requests[0].timeout);
    var t1 := Client.Do(t, s);
    RegisterMoves(t, requests[0].timeout);
    assert Registrations(requests) == [s] + Registrations(requests[1..]);
    RunFirst(t, s, Registrations(requests[1..]));
    Client.DoKeepsInv(t, s);
    Client.RunKeepsInv(t, Registrations(requests));
    if j == 0 {
      Client.Unsettled(t, requests[0].timeout);
      Back(t.next);
      StillPending(t1, t.next, requests[1..], Client.ID_END - 1);
    } else {
      Registered(t1, requests[1..], j - 1);
      Shift(t.next, j);
    }
  }

  lemma RegisterMoves(t: Client.Table, timeout: nat)
    requires Client.Inv(t)
    ensures t.next < Client.ID_END
    ensures Client.Do(t, Client.Register(timeout)).next == (t.next + 1) % Client.ID_END
    ensures Client.Do(t, Client.Register(timeout)).issued == t.issued + 1
  {}

  lemma Back(next: nat)
    requires next < Client.ID_END
    ensures ((next + 1) % Client.ID_END + (Client.ID_END - 1)) % Client.ID_END == next
  {
    if next + 1 == Client.ID_END {} else { assert next + Client.ID_END == next + 1 * Client.ID_END; }
  }

  /** One part of a reply decides for an id that no other part has. */
  lemma {:induction false} FateOfReply(w: Client.Watch, reply: seq<Part>, k: nat)
    requires k < |reply| && IdNumber(reply[k]) == Some(w.id) && Decisive(reply[k]).Some?
    requires forall k' :: 0 <= k' < |reply| && k' != k ==> IdNumber(reply[k']) != Some(w.id)
    ensures Client.Fate(w, Responses(reply)) == Decisive(reply[k])
    decreases reply
  {
    assert Responses(reply)[1..] == Responses(reply[1..]);
    if k > 0 {
      assert IdNumber(reply[0]) != Some(w.id);
      forall k' | 0 <= k' < |reply[1..]| && k' != k - 1 ensures IdNumber(reply[1..][k']) != Some(w.id) {
        assert reply[1..][k'] == reply[k' + 1];
      }
      FateOfReply(w, reply[1..], k - 1);
    }
  }

  /** Ids of different requests of one batch differ. */
  lemma DifferentIds(next: nat, i: nat, j: nat)
    requires next < Client.ID_END && i < Client.ID_END && j < Client.ID_END
    requires (next + i) % Client.ID_END == (next + j) % Client.ID_END
    ensures i == j
  {
    assert (next + i) % Client.ID_END == if next + i < Client.ID_END then next + i else next + i - Client.ID_END;
    assert (next + j) % Client.ID_END == if next + j < Client.ID_END then next + j else next + j - Client.ID_END;
  }

  /** No other part of a complete reply carries the id of request j. */
  lemma OnlyOneCarriesId(next: nat, notifs: seq<Notify>, requests: seq<Request>, b: Server.Batch, k: nat, j: nat, k': nat)
    requires next < Client.ID_END && |requests| < MAX_LENGTH && j < |requests|
    requires Server.Inv(b) && b.parts == Wire(next, notifs, requests)
    requires k < |b.out| && b.out[k].0 == |notifs| + j
    requires k' < |b.out| && k' != k
    ensures IdNumber(b.out[k'].1) != Some((next + j) % Client.ID_END)
  {
    Server.OnlyOnce(b, k);
    var i := b.out[k'].0;
    OriginFits(b, k');
    if i < |notifs| {
      NotificationsAt(notifs, i);
    } else {
      CallsAt(next, requests, i - |notifs|);
      if (next + (i - |notifs|)) % Client.ID_END == (next + j) % Client.ID_END { DifferentIds(next, i - |notifs|, j); }
    }
  }

  lemma OriginFits(b: Server.Batch, k: nat)
    requires Server.Inv(b) && k < |b.out|
    ensures b.out[k].0 < |b.parts| && Server.Fitting(b.parts[b.out[k].0], b.out[k].1)
  {}

  /** What the server makes of the batch: one reply, in which one part, the k-th, carries the id of
      request j and the answer to it. */
  lemma ServerHalf(next: nat, notifs: seq<Notify>, requests: seq<Request>, acts: seq<Server.Act>, j: nat) returns (k: nat)
    requires next < Client.ID_END && |notifs| + |requests| < MAX_LENGTH && j < |requests|
    requires var b := Server.Start(Wire(next, notifs, requests));
             Server.CanRun(b, acts) && Server.Complete(Server.Run(b, acts))
    ensures var b := Server.Run(Server.Start(Wire(next, notifs, requests)), acts);
            && |b.replies| == 1 && k < |b.replies[0]| && Responding(b.replies[0])
            && AnswersRequest(b.replies[0], k, (next + j) % Client.ID_END, Server.AnswerTo(acts, |notifs| + j))
  {
    hide Server.Inv, Server.CanRun, Server.Run, Server.Complete;
    var wire := Wire(next, notifs, requests);
    var start := Server.Start(wire);
    var b := Server.Run(start, acts);
    Server.StartInv(wire);
    SentBatchEndsInRequest(next, notifs, requests);
    Server.AlwaysRepliesIff(wire, true);
    assert Server.WholeRun(wire, true, acts) && |Server.Replies(wire, true, acts)| == 1;
    Server.RunKeepsInv(start, acts);
    Server.ReplyHolds(b);
    CallsAt(next, requests, j);
    k := Server.EveryRequestIsAnswered(start, acts, |notifs| + j);
    LeadsWithResponse(b);
    forall k' | 0 <= k' < |b.replies[0]| && k' != k ensures IdNumber(b.out[k'].1) != Some((next + j) % Client.ID_END) {
      OnlyOneCarriesId(next, notifs, requests, b, k, j, k');
    }
  }

  /** Led by a response, as it is read when it comes back. */
  predicate Responding(reply: seq<Part>) { reply != [] && reply[0].Part? && reply[0].called.NoMethod? }

  lemma LeadsWithResponse(b: Server.Batch)
    requires Server.Inv(b) && b.replies != [] && b.replies[0] != []
    ensures Responding(b.replies[0])
  {
    Server.ReplyHolds(b);
    OriginFits(b, 0);
  }

  lemma ReceivedWhole(reply: seq<Part>)
    requires Responding(reply)
    ensures StepsOf(Many(reply)) == Responses(reply)
  {}

  ghost predicate AnswersRequest(reply: seq<Part>, k: nat, id: nat, r: Option<Server.Reply>)
    requires k < |reply|
  {
    && r.Some? && IdNumber(reply[k]) == Some(id)
    && Decisive(reply[k]) == Some(match r.value case Result(v) => Value(v) case Failure(e) => Failed(e))
    && forall k' :: 0 <= k' < |reply| && k' != k ==> IdNumber(reply[k']) != Some(id)
  }

  lemma {:induction false} NextAfter(t: Client.Table, requests: seq<Request>)
    requires t.next < Client.ID_END && |requests| < Client.ID_END
    ensures Client.Run(t, Registrations(requests)).next == (t.next + |requests|) % Client.ID_END
    decreases |requests|
  {
    if requests != [] {
      var s: Step := Client.Register(requests[0].timeout);
      RunFirst(t, s, Registrations(requests[1..]));
      NextAfter(Client.Do(t, s), requests[1..]);
      Shift(t.next, |requests|);
    }
  }

  /** How request j of a batch waits right after SendBatch. */
  function WatchOf(t: Client.Table, requests: seq<Request>, j: nat): Client.Watch
    requires j < |requests|
  {
    Client.Watch((t.next + j) % Client.ID_END, requests[j].timeout, (t.next + |requests|) % Client.ID_END)
  }

  /** The whole round: the server answers the batch in any complete run, its one reply comes back, and
      the promise of request j is settled with the answer to request j.  In between the client may do
      anything that does not settle that request: send, check, receive other messages. */
  lemma BatchRoundTrip(t: Client.Table, notifs: seq<Notify>, requests: seq<Request>, acts: seq<Server.Act>,
                       between: seq<Step>, j: nat)
    requires Client.Inv(t) && |notifs| + |requests| < MAX_LENGTH && j < |requests|
    requires Client.Fate(WatchOf(t, requests, j), between) == None
    requires var b := Server.Start(Wire(t.next, notifs, requests));
             Server.CanRun(b, acts) && Server.Complete(Server.Run(b, acts))
    ensures var b := Server.Run(Server.Start(Wire(t.next, notifs, requests)), acts);
            && |b.replies| == 1 && Server.AnswerTo(acts, |notifs| + j).Some?
            && Client.Ended(Client.Run(t, Registrations(requests) + (between + StepsOf(Many(b.replies[0])))), t.issued + j)
               == Some(match Server.AnswerTo(acts, |notifs| + j).value
                       case Result(v) => Value(v)
                       case Failure(e) => Failed(e))
  {
    hide Server.CanRun, Server.Run, Server.Complete, Client.Inv, Client.Run, Client.Fate, Client.Ended, Wire,
         Server.AnswerTo, IdNumber, Decisive, Responding;
    NextInRange(t);
    var k := ServerHalf(t.next, notifs, requests, acts, j);
    var reply := Server.Run(Server.Start(Wire(t.next, notifs, requests)), acts).replies[0];
    ReceivedWhole(reply);
    var w := WatchOf(t, requests, j);
    Registered(t, requests, j);
    NextAfter(t, requests);
    Client.RunConcat(t, Registrations(requests), between + Responses(reply));
    Client.FirstEventWins(Client.Run(t, Registrations(requests)), w.id, between + Responses(reply));
    Client.FateLater(w, between, Responses(reply));
    FateOfReply(Client.After(w, between), reply, k);
  }

  /** Enough for that: no response to the request and no cancelling or teardown comes between, the checks
      charge less than its timeout, and fewer than 2^64 - 2^32 further requests are sent. */
  lemma QuietBetween(t: Client.Table, requests: seq<Request>, between: seq<Step>, j: nat)
    requires Client.Inv(t) && j < |requests| < MAX_LENGTH
    requires Client.Untouched((t.next + j) % Client.ID_END, between)
    requires requests[j].timeout == Client.NO_TIMEOUT || Client.ChargedBy(between) < requests[j].timeout
    requires Client.Registers(between) <= Client.ID_END - MAX_LENGTH
    ensures Client.Fate(WatchOf(t, requests, j), between) == None
  {
    NextInRange(t);
    var w := WatchOf(t, requests, j);
    RoundTo(t.next, |requests|, j);
    Client.QuietSteps(w, between, Client.ID_END - |requests| + j);
  }

  lemma RoundTo(next: nat, n: nat, j: nat)
    requires next < Client.ID_END && j < n < Client.ID_END
    ensures ((next + n) % Client.ID_END + (Client.ID_END - n + j)) % Client.ID_END == (next + j) % Client.ID_END
  {
    if next + n < Client.ID_END {
      assert (next + n) % Client.ID_END == next + n;
      assert next + n + (Client.ID_END - n + j) == next + j + Client.ID_END;
    } else {
      assert (next + n) % Client.ID_END == next + n - Client.ID_END;
      assert next + n - Client.ID_END + (Client.ID_END - n + j) == next + j;
    }
  }

  lemma NextInRange(t: Client.Table)
    requires Client.Inv(t)
    ensures t.next < Client.ID_END
  {}
}
