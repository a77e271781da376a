/** The client's calls as they run, each a sequence of steps of the pending table. */
module RpcClientCode {
  import opened Wrappers
  import opened JsonTree
  import opened RpcMessages
  import opened RpcClient

  datatype Request = Request(name: seq<char>, params: Json, timeout: nat)

  datatype Notify = Notify(name: seq<char>, params: Json)

  function Registrations(requests: seq<Request>): seq<Step> {
    if requests == [] then [] else [Register(requests[0].timeout)] + Registrations(requests[1..])
  }

  function Drops(n: nat): seq<Step> { if n == 0 then [] else [Drop] + Drops(n - 1) }

  function Responses(parts: seq<Part>): seq<Step> {
    if parts == [] then [] else [Respond(parts[0])] + Responses(parts[1..])
  }

  /** The requests of a batch as they are sent, with consecutive ids. */
  function Calls(next: nat, requests: seq<Request>): (r: seq<Part>)
    ensures |r| == |requests|
    decreases requests
  {
    if requests == [] then []
    else [MethodCall(next, requests[0].name, requests[0].params)] + Calls((next + 1) % ID_END, requests[1..])
  }

  function Notifications(notifs: seq<Notify>): (r: seq<Part>)
    ensures |r| == |notifs|
  {
    if notifs == [] then [] else [Notification(notifs[0].name, notifs[0].params)] + Notifications(notifs[1..])
  }

  /** A response that settles something: a pending id, and a result or an error that can be read. */
  ghost predicate Accepted(pending: map<nat, Transact>, part: Part) { exists id: nat, o :: id in pending && Answers(part, id, o) }

  lemma AcceptedIff(pending: map<nat, Transact>, part: Part)
    ensures Accepted(pending, part) <==> IdNumber(part).Some? && IdNumber(part).value in pending && Decisive(part).Some?
  {
    forall id: nat, o ensures Answers(part, id, o) <==> IdNumber(part) == Some(id) && Decisive(part) == Some(o) {
      AnswersIff(part, id, o);
    }
    if IdNumber(part).Some? && Decisive(part).Some? { assert Answers(part, IdNumber(part).value, Decisive(part).value); }
  }

  /** The object that decides where a message goes. */
  function Leading(msg: Message): (part: Option<Part>)
    ensures part.Some? ==> part.value.Part?
  {
    match msg
    case Neither => None
    case Single(part) => if part.Part? then Some(part) else None
    case Many(parts) => if parts != [] && parts[0].Part? then Some(parts[0]) else None
  }

  /** What a message means for the table: nothing, unless it leads with a response. */
  function StepsOf(msg: Message): seq<Step> {
    if Leading(msg).None? || !Leading(msg).value.called.NoMethod? then []
    else if msg.Single? then [Respond(msg.part)]
    else Responses(msg.parts)
  }

  lemma RunFirst(t: Table, s: Step, rest: seq<Step>)
    ensures Run(t, [s] + rest) == Run(Do(t, s), rest)
  {
    assert ([s] + rest)[1..] == rest;
    hide Do;
  }

  lemma RunNone(t: Table)
    ensures Run(t, []) == t
  {}

  lemma {:induction false} CallsAt(next: nat, requests: seq<Request>, j: nat)
    requires j < |requests| && next < ID_END
    ensures Calls(next, requests)[j]
            == Part(Some(UInt((next + j) % ID_END)), Named(requests[j].name), requests[j].params, None, NoError)
    decreases j
  {
    if j > 0 {
      CallsAt((next + 1) % ID_END, requests[1..], j - 1);
      Shift(next, j);
    }
  }

  lemma Shift(next: nat, j: nat)
    requires j > 0 && next < ID_END
    ensures ((next + 1) % ID_END + (j - 1)) % ID_END == (next + j) % ID_END
  {
    if next + 1 == ID_END { assert (next + j) % ID_END == (j - 1) % ID_END; }
  }

  lemma {:induction false} NotificationsAt(notifs: seq<Notify>, j: nat)
    requires j < |notifs|
    ensures Notifications(notifs)[j] == Part(None, Named(notifs[j].name), notifs[j].params, None, NoError)
  {
    if j > 0 { NotificationsAt(notifs[1..], j - 1); }
  }

  /** What SendBatch puts on the wire. */
  ghost predicate OnWire(parts: seq<Part>, next: nat, notifs: seq<Notify>, requests: seq<Request>) {
    && |parts| == |notifs| + |requests|
    && (forall j :: 0 <= j < |notifs| ==>
          parts[j] == Part(None, Named(notifs[j].name), notifs[j].params, None, NoError))
    && (forall j :: 0 <= j < |requests| ==>
          parts[|notifs| + j]
          == Part(Some(UInt((next + j) % ID_END)), Named(requests[j].name), requests[j].params, None, NoError))
  }

  lemma BatchOnWire(next: nat, notifs: seq<Notify>, requests: seq<Request>)
    requires next < ID_END
    ensures OnWire(Notifications(notifs) + Calls(next, requests), next, notifs, requests)
  {
    forall j | 0 <= j < |notifs|
      ensures Notifications(notifs)[j] == Part(None, Named(notifs[j].name), notifs[j].params, None, NoError)
    {
      NotificationsAt(notifs, j);
    }
    forall j | 0 <= j < |requests|
      ensures Calls(next, requests)[j]
              == Part(Some(UInt((next + j) % ID_END)), Named(requests[j].name), requests[j].params, None, NoError)
    {
      CallsAt(next, requests, j);
    }
  }

  lemma SentOnWire(t: Table, notifs: seq<Notify>, requests: seq<Request>)
    requires Inv(t)
    ensures OnWire(Notifications(notifs) + Calls(t.next, requests), t.next, notifs, requests)
  {
    BatchOnWire(t.next, notifs, requests);
  }

  /** Promises handed in and let go are all broken, and nothing else changes. */
  lemma {:induction false} DropsBreak(t: Table, n: nat)
    requires forall p :: p in t.settled ==> p < t.issued
    ensures var t' := Run(t, Drops(n));
            && t'.next == t.next && t'.pending == t.pending && t'.issued == t.issued + n
            && (forall p :: p in t'.settled ==> p < t'.issued)
            && (forall p :: p in t.settled ==> p in t'.settled && t'.settled[p] == t.settled[p])
            && (forall p :: t.issued <= p < t.issued + n ==> p in t'.settled && t'.settled[p] == Broken)
    decreases n
  {
    if n > 0 {
      assert Drops(n)[1..] == Drops(n - 1);
      DropsBreak(Do(t, Drop), n - 1);
    }
  }

  /** The n promises handed in last are broken, and the table is as before. */
  ghost predicate Dropped(t: Table, n: nat, t': Table) {
    && t'.next == t.next && t'.pending == t.pending && t'.issued == t.issued + n
    && (forall p :: p in t.settled ==> p in t'.settled && t'.settled[p] == t.settled[p])
    && (forall p :: t.issued <= p < t.issued + n ==> p in t'.settled && t'.settled[p] == Broken)
  }

  lemma DropsAreBroken(t: Table, n: nat)
    requires Inv(t)
    ensures Dropped(t, n, Run(t, Drops(n)))
  {
    DropsBreak(t, n);
  }

  // ---------------------------------------------------------------------------------------------
  // What a message of responses does to the promises
  // ---------------------------------------------------------------------------------------------

  /** The first part that answers that request. */
  ghost predicate FirstAnswer(parts: seq<Part>, k: nat, id: nat, o: Outcome) {
    k < |parts| && Answers(parts[k], id, o) && forall i, o' :: 0 <= i < k ==> !Answers(parts[i], id, o')
  }

  /** Every request that waits ends with the first answer to it among the parts; without one it waits on
      as before. */
  ghost predicate SettledBy(t: Table, parts: seq<Part>, t': Table) {
    && t'.next == t.next && t'.issued == t.issued
    && forall id :: id in t.pending && t.pending[id].promise !in t.settled ==> EndsBy(t, id, parts, t')
  }

  ghost predicate EndsBy(t: Table, id: nat, parts: seq<Part>, t': Table)
    requires id in t.pending
  {
    var p := t.pending[id].promise;
    && (forall k, o :: FirstAnswer(parts, k, id, o) ==> Ended(t', p) == Some(o))
    && ((forall k, o :: 0 <= k < |parts| ==> !Answers(parts[k], id, o))
        ==> Ended(t', p) == None && id in t'.pending && t'.pending[id] == t.pending[id])
  }

  lemma EndsLater(t: Table, id: nat, parts: seq<Part>, t1: Table, t2: Table)
    requires id in t.pending && parts != [] && forall o :: !Answers(parts[0], id, o)
    requires id in t1.pending && t1.pending[id] == t.pending[id] && EndsBy(t1, id, parts[1..], t2)
    ensures EndsBy(t, id, parts, t2)
  {
    forall k: nat, o | FirstAnswer(parts, k, id, o) ensures FirstAnswer(parts[1..], k - 1, id, o) {
      forall i, o' | 0 <= i < k - 1 ensures !Answers(parts[1..][i], id, o') {
        assert parts[1..][i] == parts[i + 1];
      }
    }
    if forall k, o :: 0 <= k < |parts| ==> !Answers(parts[k], id, o) {
      forall k, o | 0 <= k < |parts[1..]| ensures !Answers(parts[1..][k], id, o) {
        assert parts[1..][k] == parts[k + 1];
      }
    }
    hide Answers;
  }

  lemma EndsNow(t: Table, id: nat, parts: seq<Part>, o: Outcome, t': Table)
    requires id in t.pending && parts != [] && Answers(parts[0], id, o) && Ended(t', t.pending[id].promise) == Some(o)
    ensures EndsBy(t, id, parts, t')
  {
    forall k: nat, o' | FirstAnswer(parts, k, id, o') ensures k == 0 && o' == o {}
  }

  lemma {:induction false} ResponsesEnd(t: Table, parts: seq<Part>, id: nat)
    requires Inv(t) && id in t.pending && t.pending[id].promise !in t.settled
    ensures EndsBy(t, id, parts, Run(t, Responses(parts)))
    decreases parts
  {
    hide Inv, Do, Answers, EndsBy;
    if parts == [] {
      NoParts(t, id);
    } else {
      var (p, t1) := (t.pending[id].promise, Do(t, Respond(parts[0])));
      RunFirst(t, Respond(parts[0]), Responses(parts[1..]));
      DoKeepsInv(t, Respond(parts[0]));
      RespondByName(t, id, parts[0]);
      if p in t1.settled {
        SettledIsFinal(t1, Responses(parts[1..]), p);
        assert Ended(t1, p) == Some(t1.settled[p]);
        EndsNow(t, id, parts, t1.settled[p], Run(t, Responses(parts)));
      } else {
        assert Ended(t1, p) == None;
        ResponsesEnd(t1, parts[1..], id);
        EndsLater(t, id, parts, t1, Run(t, Responses(parts)));
      }
    }
  }

  lemma NoParts(t: Table, id: nat)
    requires id in t.pending && t.pending[id].promise !in t.settled
    ensures EndsBy(t, id, [], Run(t, Responses([])))
  {}

  lemma {:induction false} ResponsesIssueNothing(t: Table, parts: seq<Part>)
    ensures Run(t, Responses(parts)).next == t.next && Run(t, Responses(parts)).issued == t.issued
    decreases parts
  {
    if parts != [] {
      RunFirst(t, Respond(parts[0]), Responses(parts[1..]));
      ResponsesIssueNothing(Do(t, Respond(parts[0])), parts[1..]);
    }
  }

  lemma ResponsesSettle(t: Table, parts: seq<Part>)
    requires Inv(t)
    ensures SettledBy(t, parts, Run(t, Responses(parts)))
  {
    ResponsesIssueNothing(t, parts);
    hide Inv, Run, EndsBy;
    forall id | id in t.pending && t.pending[id].promise !in t.settled ensures EndsBy(t, id, parts, Run(t, Responses(parts))) {
      ResponsesEnd(t, parts, id);
    }
  }

  lemma OneResponse(t: Table, part: Part)
    requires Inv(t)
    ensures SettledBy(t, [part], Do(t, Respond(part)))
  {
    ResponsesSettle(t, [part]);
    assert Responses([part]) == [Respond(part)];
    RunOne(t, Respond(part));
    hide Inv, SettledBy;
  }

  datatype Receipt = Rejected | Handled | ForServer

  class Transport {
    var id: nat
    var pending: map<nat, Transact>
    var last: nat
    var issued: nat
    var settled: map<nat, Outcome>
    var sent: seq<seq<Part>>

    ghost function Tab(): Table
      reads this
    {
      Table(id, pending, issued, settled)
    }

    constructor (now: nat)
      ensures Tab() == Empty && last == now && sent == []
    {
      id, pending, last, issued, settled, sent := 0, map[], now, 0, map[], [];
    }

    /** Calling a promise: only the first call settles it. */
    method Resolve(promise: nat, o: Outcome)
      modifies this`settled
      ensures settled == Settle(old(settled), promise, o)
    {
      if promise !in settled { settled := settled[promise := o]; }
    }

    /** addPending; the promise handed in gets the next number. */
    method AddPending(timeout: nat)
      modifies this`id, this`pending, this`issued, this`settled
      ensures Tab() == Do(old(Tab()), Register(timeout))
      ensures id == (old(id) + 1) % ID_END && issued == old(issued) + 1
      ensures pending == old(pending)[old(id) := Transact(old(issued), timeout)]
      ensures var again := old(id) in old(pending) && old(pending[id].promise) !in old(settled);
              settled == if again then old(settled)[old(pending[id].promise) := TimedOut] else old(settled)
    {
      var next, promise := id, issued;
      id, issued := (id + 1) % ID_END, issued + 1;
      if next in pending { Resolve(pending[next].promise, TimedOut); }
      pending := pending[next := Transact(promise, timeout)];
    }

    method SendMethod(request: Request)
      modifies this
      ensures Tab() == Do(old(Tab()), Register(request.timeout)) && last == old(last)
      ensures pending == old(pending)[old(id) := Transact(old(issued), request.timeout)]
      ensures sent == old(sent) + [[Part(Some(UInt(old(id))), Named(request.name), request.params, None, NoError)]]
    {
      var next := id;
      AddPending(request.timeout);
      sent := sent + [[MethodCall(next, request.name, request.params)]];
    }

    /** SendBatch: notifications first, then the requests; `false` when there are too many, and then
        every promise of the batch is dropped. */
    method SendBatch(notifs: seq<Notify>, requests: seq<Request>) returns (ok: bool)
      modifies this
      ensures ok <==> |notifs| + |requests| < MAX_LENGTH
      ensures ok ==> Tab() == Run(old(Tab()), Registrations(requests))
                     && sent == old(sent) + [Notifications(notifs) + Calls(old(id), requests)]
      ensures ok && Inv(old(Tab())) ==> OnWire(sent[|old(sent)|], old(id), notifs, requests)
      ensures !ok ==> Tab() == Run(old(Tab()), Drops(|requests|)) && sent == old(sent)
      ensures !ok && Inv(old(Tab())) ==> Dropped(old(Tab()), |requests|, Tab())
      ensures last == old(last)
    {
      hide Do, Run, OnWire, Inv, Dropped;
      if |notifs| + |requests| >= MAX_LENGTH {
        if Inv(Tab()) { DropsAreBroken(Tab(), |requests|); }
        DropAll(|requests|);
        return false;
      }
      if Inv(Tab()) { SentOnWire(Tab(), notifs, requests); }
      var parts := PutNotifications(notifs);
      parts := PutRequests(parts, requests);
      sent := sent + [parts];
      ok := true;
    }

    method PutNotifications(notifs: seq<Notify>) returns (parts: seq<Part>)
      ensures parts == Notifications(notifs)
    {
      parts := [];
      var i := 0;
      while i < |notifs|
        invariant i <= |notifs| && parts + Notifications(notifs[i..]) == Notifications(notifs)
      {
        parts := parts + [Notification(notifs[i].name, notifs[i].params)];
        assert notifs[i..][1..] == notifs[i + 1..];
        i := i + 1;
      }
    }

    method PutRequests(before: seq<Part>, requests: seq<Request>) returns (parts: seq<Part>)
      modifies this`id, this`pending, this`issued, this`settled
      ensures Tab() == Run(old(Tab()), Registrations(requests))
      ensures parts == before + Calls(old(id), requests)
    {
      hide Do, Run;
      parts := before;
      var i := 0;
      while i < |requests|
        invariant i <= |requests|
        invariant Run(Tab(), Registrations(requests[i..])) == Run(old(Tab()), Registrations(requests))
        invariant parts + Calls(id, requests[i..]) == before + Calls(old(id), requests)
      {
        assert requests[i..][1..] == requests[i + 1..];
        RunFirst(Tab(), Register(requests[i].timeout), Registrations(requests[i + 1..]));
        ghost var rest := Calls((id + 1) % ID_END, requests[i + 1..]);
        parts := Joined(parts, MethodCall(id, requests[i].name, requests[i].params), rest);
        AddPending(requests[i].timeout);
        i := i + 1;
      }
      assert requests[i..] == [] && parts + [] == parts;
      RunNone(Tab());
    }

    method DropAll(n: nat)
      modifies this`issued, this`settled
      ensures Tab() == Run(old(Tab()), Drops(n))
    {
      var i := 0;
      while i < n
        invariant i <= n && id == old(id) && pending == old(pending)
        invariant Run(Tab(), Drops(n - i)) == Run(old(Tab()), Drops(n))
      {
        RunFirst(Tab(), Drop, Drops(n - i - 1));
        Resolve(issued, Broken);
        issued := issued + 1;
        i := i + 1;
      }
    }

    /** handleRespToClient; `false` stands for the exceptions it throws. */
    method HandleResponse(part: Part) returns (ok: bool)
      modifies this`pending, this`settled
      ensures Tab() == Do(old(Tab()), Respond(part))
      ensures ok <==> Accepted(old(pending), part)
    {
      AcceptedIff(pending, part);
      hide Accepted;
      if part.NotObject? || part.id.None? { return false; }
      var num := IdNumber(part);
      if num.None? || num.value !in pending { return false; }
      var p := pending[num.value].promise;
      if part.result.Some? {
        Resolve(p, Value(part.result.value));
      } else if part.error.Error? {
        Resolve(p, Failed(part.error.e));
      } else {
        return false;
      }
      pending := pending - {num.value};
      ok := true;
    }

    /** Receive, up to the point where a request goes to the server side: one part, or a batch as its
        first part decides.  The exceptions for parts of a batch of responses are swallowed. */
    method Receive(msg: Message) returns (r: Receipt)
      modifies this`pending, this`settled
      ensures Tab() == Run(old(Tab()), StepsOf(msg))
      ensures Inv(old(Tab())) && msg.Single? && msg.part.Part? && msg.part.called.NoMethod?
              ==> SettledBy(old(Tab()), [msg.part], Tab())
      ensures Inv(old(Tab())) && msg.Many? && msg.parts != [] && msg.parts[0].Part? && msg.parts[0].called.NoMethod?
              ==> SettledBy(old(Tab()), msg.parts, Tab())
      ensures r == ForServer ==> Tab() == old(Tab())
      ensures r == ForServer <==> Leading(msg).Some? && !Leading(msg).value.called.NoMethod?
      ensures r == Rejected <==> Leading(msg).None?
                                 || (msg.Single? && msg.part.called.NoMethod? && !Accepted(old(pending), msg.part))
    {
      hide Do, Run, SettledBy, Inv, Accepted;
      RunNone(Tab());
      match msg
      case Neither => return Rejected;
      case Single(part) =>
        if part.NotObject? { return Rejected; }
        if !part.called.NoMethod? { return ForServer; }
        if Inv(Tab()) { OneResponse(Tab(), part); }
        RunFirst(Tab(), Respond(part), []);
        assert [Respond(part)] + [] == [Respond(part)];
        var ok := HandleResponse(part);
        RunNone(Tab());
        return if ok then Handled else Rejected;
      case Many(parts) =>
        if parts == [] || parts[0].NotObject? { return Rejected; }
        if !parts[0].called.NoMethod? { return ForServer; }
        if Inv(Tab()) { ResponsesSettle(Tab(), parts); }
        HandleResponses(parts);
        return Handled;
    }

    method HandleResponses(parts: seq<Part>)
      modifies this`pending, this`settled
      ensures Tab() == Run(old(Tab()), Responses(parts))
    {
      hide Do, Run;
      var i := 0;
      assert parts[0..] == parts;
      while i < |parts|
        invariant i <= |parts|
        invariant Run(Tab(), Responses(parts[i..])) == Run(old(Tab()), Responses(parts))
      {
        assert parts[i..][1..] == parts[i + 1..];
        RunFirst(Tab(), Respond(parts[i]), Responses(parts[i + 1..]));
        var ok := HandleResponse(parts[i]);
        i := i + 1;
      }
      assert parts[i..] == [];
      RunNone(Tab());
    }

    /** CheckTimeouts: the table is walked and shrunk in one loop, in whatever order it is kept. */
    method CheckTimeouts(now: nat)
      requires now >= last
      modifies this`last, this`pending, this`settled
      ensures Tab() == Do(old(Tab()), Check(now - old(last))) && last == now
    {
      hide SettleAll, Expired;
      ghost var elapsed := now - last;
      ghost var was, ended := pending, settled;
      var diff := (now - last) / TICKS;
      last := now;
      var todo := pending.Keys;
      NothingSeen(ended, was, elapsed);
      while todo != {}
        invariant last == now && todo <= pending.Keys <= was.Keys
        invariant forall k :: k in todo ==> pending[k] == was[k]
        invariant forall k :: k in was && k !in todo ==> (k in pending <==> !Expires(was[k], elapsed))
        invariant forall k :: k in pending && k !in todo ==>
                    pending[k] == Transact(was[k].promise, Charge(was[k].timeout, elapsed))
        invariant settled == SettleAll(ended, Expired(Seen(was, todo), elapsed), TimedOut)
      {
        var k :| k in todo;
        var e := pending[k];
        SeenOneMore(ended, was, todo - {k}, k, elapsed);
        assert todo - {k} + {k} == todo;
        todo := todo - {k};
        if e.timeout == NO_TIMEOUT {
        } else if e.timeout > diff {
          pending := pending[k := e.(timeout := e.timeout - diff)];
        } else {
          Resolve(e.promise, TimedOut);
          pending := pending - {k};
        }
      }
      assert Seen(was, todo) == was;
      assert pending == Remaining(was, elapsed);
    }

    /** ClearAllPending settles every entry and keeps it. */
    method ClearAllPending()
      modifies this`settled
      ensures Tab() == Do(old(Tab()), Clear)
    {
      SettlePending(Cancelled);
    }

    method SettlePending(o: Outcome)
      modifies this`settled
      ensures settled == SettleAll(old(settled), Promises(pending), o)
    {
      hide SettleAll;
      var todo := pending.Keys;
      ghost var ended := settled;
      NoneDone(ended, pending, o);
      while todo != {}
        invariant todo <= pending.Keys && settled == SettleAll(ended, Promises(Seen(pending, todo)), o)
      {
        var k :| k in todo;
        OneMoreDone(ended, pending, todo - {k}, k, o);
        assert todo - {k} + {k} == todo;
        todo := todo - {k};
        Resolve(pending[k].promise, o);
      }
      assert Seen(pending, todo) == pending;
    }

    /** Destruction drops the promises that still wait. */
    method Destroy()
      modifies this`pending, this`settled
      ensures Tab() == Do(old(Tab()), Teardown)
    {
      SettlePending(Broken);
      pending := map[];
    }
  }

  function Joined(parts: seq<Part>, part: Part, ghost rest: seq<Part>): (r: seq<Part>)
    ensures r == parts + [part] && r + rest == parts + ([part] + rest)
  {
    parts + [part]
  }

  lemma NothingSeen(ended: map<nat, Outcome>, was: map<nat, Transact>, elapsed: nat)
    ensures SettleAll(ended, Expired(Seen(was, was.Keys), elapsed), TimedOut) == ended
  {
    assert Seen(was, was.Keys) == map[];
  }

  function Seen(was: map<nat, Transact>, todo: set<nat>): map<nat, Transact> {
    map i | i in was && i !in todo :: was[i]
  }

  lemma NoneDone(ended: map<nat, Outcome>, pending: map<nat, Transact>, o: Outcome)
    ensures SettleAll(ended, Promises(Seen(pending, pending.Keys)), o) == ended
  {
    assert Seen(pending, pending.Keys) == map[];
  }

  lemma OneMoreDone(ended: map<nat, Outcome>, pending: map<nat, Transact>, todo: set<nat>, k: nat, o: Outcome)
    requires k in pending && k !in todo
    ensures SettleAll(ended, Promises(Seen(pending, todo)), o)
            == Settle(SettleAll(ended, Promises(Seen(pending, todo + {k})), o), pending[k].promise, o)
  {
    var (a, b) := (Seen(pending, todo + {k}), Seen(pending, todo));
    forall p | p in Promises(b) ensures p in Promises(a) + {pending[k].promise} {
      var i :| i in b && b[i].promise == p;
      if i != k { assert i in a && a[i] == b[i]; }
    }
    forall p | p in Promises(a) + {pending[k].promise} ensures p in Promises(b) {
      if p in Promises(a) {
        var i :| i in a && a[i].promise == p;
        assert i in b && b[i] == a[i];
      } else {
        assert k in b && b[k].promise == p;
      }
    }
    assert Promises(b) == Promises(a) + {pending[k].promise};
    SettleOneMore(ended, Promises(a), pending[k].promise, o);
  }

  lemma ExpiredOneMore(was: map<nat, Transact>, todo: set<nat>, k: nat, elapsed: nat)
    requires k in was && k !in todo
    ensures Expired(Seen(was, todo), elapsed)
            == Expired(Seen(was, todo + {k}), elapsed) + (if Expires(was[k], elapsed) then {was[k].promise} else {})
  {
    var (a, b) := (Seen(was, todo + {k}), Seen(was, todo));
    forall p | p in Expired(b, elapsed) ensures p in Expired(a, elapsed) || (Expires(was[k], elapsed) && p == was[k].promise) {
      var i :| i in b && Expires(b[i], elapsed) && b[i].promise == p;
      if i != k { assert i in a && a[i] == b[i]; }
    }
    forall p | p in Expired(a, elapsed) ensures p in Expired(b, elapsed) {
      var i :| i in a && Expires(a[i], elapsed) && a[i].promise == p;
      assert i in b && b[i] == a[i];
    }
    assert k in b && b[k] == was[k];
  }

  lemma SettleOneMore(ended: map<nat, Outcome>, ps: set<nat>, p: nat, o: Outcome)
    ensures SettleAll(ended, ps + {p}, o) == Settle(SettleAll(ended, ps, o), p, o)
    ensures ps + {} == ps
  {}

  lemma SeenOneMore(ended: map<nat, Outcome>, was: map<nat, Transact>, todo: set<nat>, k: nat, elapsed: nat)
    requires k in was && k !in todo
    ensures var before := SettleAll(ended, Expired(Seen(was, todo + {k}), elapsed), TimedOut);
            SettleAll(ended, Expired(Seen(was, todo), elapsed), TimedOut)
            == if Expires(was[k], elapsed) then Settle(before, was[k].promise, TimedOut) else before
  {
    hide SettleAll, Expired, Settle;
    ExpiredOneMore(was, todo, k, elapsed);
    SettleOneMore(ended, Expired(Seen(was, todo + {k}), elapsed), was[k].promise, TimedOut);
  }
}
