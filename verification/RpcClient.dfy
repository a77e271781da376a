/** The client side: the table of pending requests, one step at a time, and what each promise sees. */
module RpcClient {
  import opened Wrappers
  import opened JsonTree
  import opened RpcMessages

  const ID_END := 0x1_0000_0000_0000_0000
  const NO_TIMEOUT := 0xffff_ffff
  const TICKS := 1_000_000   // clock ticks in a millisecond

  /** An entry of the table: the promise by number, and the milliseconds it has left. */
  datatype Transact = Transact(promise: nat, timeout: nat)

  /** `issued` numbers the promises handed in so far; `settled` says how some of them ended. */
  datatype Table = Table(next: nat, pending: map<nat, Transact>, issued: nat, settled: map<nat, Outcome>)

  /** What can happen to the table.  `Drop` is a promise handed in and let go at once. */
  datatype Step = Register(timeout: nat) | Drop | Respond(part: Part) | Check(elapsed: nat) | Clear | Teardown

  /** A promise settles once: later attempts are refused. */
  function Settle(settled: map<nat, Outcome>, p: nat, o: Outcome): map<nat, Outcome> {
    if p in settled then settled else settled[p := o]
  }

  function Promises(pending: map<nat, Transact>): set<nat> { set id | id in pending :: pending[id].promise }

  function SettleAll(settled: map<nat, Outcome>, ps: set<nat>, o: Outcome): map<nat, Outcome> {
    map p | p in settled.Keys + ps :: if p in settled then settled[p] else o
  }

  predicate Expires(e: Transact, elapsed: nat) { e.timeout != NO_TIMEOUT && e.timeout <= elapsed / TICKS }

  function Charge(timeout: nat, elapsed: nat): nat {
    if timeout == NO_TIMEOUT || timeout <= elapsed / TICKS then timeout else timeout - elapsed / TICKS
  }

  function Expired(pending: map<nat, Transact>, elapsed: nat): set<nat> {
    set id | id in pending && Expires(pending[id], elapsed) :: pending[id].promise
  }

  function Remaining(pending: map<nat, Transact>, elapsed: nat): map<nat, Transact> {
    map id | id in pending && !Expires(pending[id], elapsed)
      :: Transact(pending[id].promise, Charge(pending[id].timeout, elapsed))
  }

  function Do(t: Table, s: Step): Table {
    match s
    case Register(timeout) =>
      Table((t.next + 1) % ID_END, t.pending[t.next := Transact(t.issued, timeout)], t.issued + 1,
            if t.next in t.pending then Settle(t.settled, t.pending[t.next].promise, TimedOut) else t.settled)
    case Drop => t.(issued := t.issued + 1, settled := Settle(t.settled, t.issued, Broken))
    case Respond(part) =>
      if IdNumber(part).Some? && IdNumber(part).value in t.pending && Decisive(part).Some? then
        var id := IdNumber(part).value;
        t.(pending := t.pending - {id}, settled := Settle(t.settled, t.pending[id].promise, Decisive(part).value))
      else t
    case Check(elapsed) =>
      t.(pending := Remaining(t.pending, elapsed),
         settled := SettleAll(t.settled, Expired(t.pending, elapsed), TimedOut))
    case Clear => t.(settled := SettleAll(t.settled, Promises(t.pending), Cancelled))
    case Teardown => t.(pending := map[], settled := SettleAll(t.settled, Promises(t.pending), Broken))
  }

  function Run(t: Table, steps: seq<Step>): Table
    decreases steps
  {
    if steps == [] then t else Run(Do(t, steps[0]), steps[1..])
  }

  const Empty := Table(0, map[], 0, map[])

  // ---------------------------------------------------------------------------------------------
  // Conservation
  // ---------------------------------------------------------------------------------------------

  ghost predicate Waits(t: Table, p: nat) { exists id :: id in t.pending && t.pending[id].promise == p }

  /** Every promise handed in is settled or waits in the table, and waits there only once. */
  ghost predicate Inv(t: Table) {
    && t.next < ID_END
    && (forall id :: id in t.pending ==> id < ID_END && t.pending[id].promise < t.issued)
    && (forall id, id' :: id in t.pending && id' in t.pending && t.pending[id].promise == t.pending[id'].promise ==> id == id')
    && (forall p :: p in t.settled ==> p < t.issued)
    && (forall p: nat :: p < t.issued ==> p in t.settled || Waits(t, p))
  }

  lemma RegisterKeepsInv(t: Table, timeout: nat)
    requires Inv(t)
    ensures Inv(Do(t, Register(timeout)))
  {
    var t' := Do(t, Register(timeout));
    forall p: nat | p < t'.issued ensures p in t'.settled || Waits(t', p) {
      if p == t.issued {
        assert t'.pending[t.next].promise == p;
      } else if p !in t.settled {
        var id :| id in t.pending && t.pending[id].promise == p;
        assert id != t.next ==> t'.pending[id].promise == p;
      }
    }
  }

  lemma RespondKeepsInv(t: Table, part: Part)
    requires Inv(t)
    ensures Inv(Do(t, Respond(part)))
  {
    var t' := Do(t, Respond(part));
    forall p: nat | p < t'.issued ensures p in t'.settled || Waits(t', p) {
      if p !in t.settled {
        var id :| id in t.pending && t.pending[id].promise == p;
        assert id in t'.pending ==> t'.pending[id].promise == p;
      }
    }
  }

  lemma CheckKeepsInv(t: Table, elapsed: nat)
    requires Inv(t)
    ensures Inv(Do(t, Check(elapsed)))
  {
    var t' := Do(t, Check(elapsed));
    forall p: nat | p < t'.issued ensures p in t'.settled || Waits(t', p) {
      if p !in t.settled {
        var id :| id in t.pending && t.pending[id].promise == p;
        if !Expires(t.pending[id], elapsed) { assert id in t'.pending && t'.pending[id].promise == p; }
      }
    }
  }

  lemma SettlingKeepsInv(t: Table, s: Step)
    requires Inv(t) && (s.Drop? || s.Clear? || s.Teardown?)
    ensures Inv(Do(t, s))
  {
    var t' := Do(t, s);
    forall p: nat | p < t'.issued ensures p in t'.settled || Waits(t', p) {
      if p < t.issued && p !in t.settled {
        var id :| id in t.pending && t.pending[id].promise == p;
        if s.Drop? { assert t'.pending[id].promise == p; } else { assert p in Promises(t.pending); }
      }
    }
  }

  lemma DoKeepsInv(t: Table, s: Step)
    requires Inv(t)
    ensures Inv(Do(t, s))
  {
    hide Inv, Do;
    match s {
      case Register(timeout) => RegisterKeepsInv(t, timeout);
      case Respond(part) => RespondKeepsInv(t, part);
      case Check(elapsed) => CheckKeepsInv(t, elapsed);
      case _ => SettlingKeepsInv(t, s);
    }
  }

  lemma {:induction false} RunKeepsInv(t: Table, steps: seq<Step>)
    requires Inv(t)
    ensures Inv(Run(t, steps))
    decreases steps
  {
    if steps != [] {
      DoKeepsInv(t, steps[0]);
      hide Inv, Do;
      RunKeepsInv(Do(t, steps[0]), steps[1..]);
    }
  }

  /** How a promise ended never changes. */
  lemma {:induction false} SettledIsFinal(t: Table, steps: seq<Step>, p: nat)
    requires p in t.settled
    ensures p in Run(t, steps).settled && Run(t, steps).settled[p] == t.settled[p]
    decreases steps
  {
    if steps != [] { SettledIsFinal(Do(t, steps[0]), steps[1..], p); }
  }

  lemma {:induction false} IssuedGrows(t: Table, steps: seq<Step>)
    ensures t.issued <= Run(t, steps).issued
    decreases steps
  {
    if steps != [] { IssuedGrows(Do(t, steps[0]), steps[1..]); }
  }

  lemma {:induction false} RunConcat(t: Table, a: seq<Step>, b: seq<Step>)
    ensures Run(t, a + b) == Run(Run(t, a), b)
    decreases a
  {
    if a == [] {
      assert a + b == b;
    } else {
      assert (a + b)[0] == a[0] && (a + b)[1..] == a[1..] + b;
      RunConcat(Do(t, a[0]), a[1..], b);
    }
  }

  lemma EmptyInv()
    ensures Inv(Empty)
  {}

  lemma RunOne(t: Table, s: Step)
    ensures Run(t, [s]) == Do(t, s)
  {
    assert [s][1..] == [];
    hide Do;
  }

  lemma Unsettled(t: Table, timeout: nat)
    requires Inv(t)
    ensures var t' := Do(t, Register(timeout));
            t.next in t'.pending && t'.pending[t.next] == Transact(t.issued, timeout) && t.issued !in t'.settled
            && t'.next == (t.next + 1) % ID_END
  {}

  /** After teardown no promise is left waiting. */
  lemma TeardownSettlesAll(steps: seq<Step>)
    ensures var t := Run(Empty, steps + [Teardown]);
            forall p: nat :: p < t.issued <==> p in t.settled
  {
    EmptyInv();
    RunKeepsInv(Empty, steps);
    DoKeepsInv(Run(Empty, steps), Teardown);
    RunConcat(Empty, steps, [Teardown]);
    var t := Do(Run(Empty, steps), Teardown);
    RunOne(Run(Empty, steps), Teardown);
    forall p: nat | p < t.issued ensures p in t.settled { assert !Waits(t, p); }
  }

  /** A response changes something exactly if its id is pending and it can be read; a second one with
      the same id never does. */
  lemma UselessResponse(t: Table, part: Part, again: Part)
    ensures Do(t, Respond(part)) == t <==> IdNumber(part).None? || IdNumber(part).value !in t.pending || Decisive(part).None?
    ensures IdNumber(again) == IdNumber(part) && Decisive(part).Some?
            ==> Do(Do(t, Respond(part)), Respond(again)) == Do(t, Respond(part))
  {
    if IdNumber(part).Some? && Decisive(part).Some? {
      var id := IdNumber(part).value;
      assert id !in Do(t, Respond(part)).pending;
    }
  }

  /** Cancelling settles every entry and empties the table only if it was empty; a response that comes
      later settles nothing, but removes its entry. */
  lemma ClearKeepsEntries(t: Table, part: Part)
    requires Inv(t)
    ensures var c := Do(t, Clear);
            && c.pending == t.pending && (c.pending == map[] <==> t.pending == map[])
            && (forall id :: id in c.pending ==> c.pending[id].promise in c.settled)
            && Do(c, Respond(part)).settled == c.settled
            && Do(c, Respond(part)).pending
               == (if IdNumber(part).Some? && Decisive(part).Some? then t.pending - {IdNumber(part).value} else t.pending)
  {
    hide Inv, Decisive, IdNumber;
    var c := Do(t, Clear);
    forall id | id in c.pending ensures c.pending[id].promise in c.settled {
      assert t.pending[id].promise in Promises(t.pending);
    }
    hide SettleAll, Promises;
    if IdNumber(part).Some? && IdNumber(part).value !in t.pending { NothingToRemove(t.pending, IdNumber(part).value); }
  }

  lemma NothingToRemove(pending: map<nat, Transact>, id: nat)
    requires id !in pending
    ensures pending - {id} == pending
  {}

  // ---------------------------------------------------------------------------------------------
  // What one promise sees
  // ---------------------------------------------------------------------------------------------

  /** A promise that waits under an id, with its own clock; `next` is the id to be given out next. */
  datatype Watch = Watch(id: nat, timeout: nat, next: nat)

  /** The first step that concerns this promise decides how it ends; the table plays no part. */
  function Fate(w: Watch, steps: seq<Step>): Option<Outcome>
    decreases steps
  {
    if steps == [] then None
    else
      match steps[0]
      case Register(_) => if w.next == w.id then Some(TimedOut) else Fate(w.(next := (w.next + 1) % ID_END), steps[1..])
      case Drop => Fate(w, steps[1..])
      case Respond(part) =>
        if IdNumber(part) == Some(w.id) && Decisive(part).Some? then Decisive(part) else Fate(w, steps[1..])
      case Check(elapsed) =>
        if w.timeout != NO_TIMEOUT && w.timeout <= elapsed / TICKS then Some(TimedOut)
        else Fate(w.(timeout := Charge(w.timeout, elapsed)), steps[1..])
      case Clear => Some(Cancelled)
      case Teardown => Some(Broken)
  }

  function Ended(t: Table, p: nat): Option<Outcome> { if p in t.settled then Some(t.settled[p]) else None }

  /** One step settles a waiting promise exactly as its own first event says, or keeps it waiting. */
  lemma StepFate(t: Table, id: nat, s: Step, rest: seq<Step>)
    requires Inv(t) && id in t.pending && t.pending[id].promise !in t.settled
    ensures var (p, w, t') := (t.pending[id].promise, Watch(id, t.pending[id].timeout, t.next), Do(t, s));
            if p in t'.settled then Fate(w, [s] + rest) == Some(t'.settled[p])
            else id in t'.pending && t'.pending[id].promise == p
                 && Fate(w, [s] + rest) == Fate(Watch(id, t'.pending[id].timeout, t'.next), rest)
  {
    assert ([s] + rest)[1..] == rest;
    match s {
      case Check(elapsed) => CheckFate(t, id, elapsed);
      case Respond(part) => RespondFate(t, id, part);
      case _ =>
    }
  }

  lemma CheckFate(t: Table, id: nat, elapsed: nat)
    requires Inv(t) && id in t.pending && t.pending[id].promise !in t.settled
    ensures var (e, t') := (t.pending[id], Do(t, Check(elapsed)));
            if Expires(e, elapsed) then e.promise in t'.settled && t'.settled[e.promise] == TimedOut
            else e.promise !in t'.settled && id in t'.pending && t'.pending[id] == Transact(e.promise, Charge(e.timeout, elapsed))
  {
    var e := t.pending[id];
    if e.promise in Expired(t.pending, elapsed) {
      var id' :| id' in t.pending && Expires(t.pending[id'], elapsed) && t.pending[id'].promise == e.promise;
    }
  }

  lemma RespondFate(t: Table, id: nat, part: Part)
    requires Inv(t) && id in t.pending && t.pending[id].promise !in t.settled
    ensures var (e, t') := (t.pending[id], Do(t, Respond(part)));
            if IdNumber(part) == Some(id) && Decisive(part).Some?
            then e.promise in t'.settled && t'.settled[e.promise] == Decisive(part).value
            else e.promise !in t'.settled && id in t'.pending && t'.pending[id] == e
  {}

  /** Event by event: what settles a waiting request, with what, and what is left of its time otherwise. */
  lemma EventByEvent(t: Table, id: nat, s: Step)
    requires Inv(t) && id in t.pending && t.pending[id].promise !in t.settled
    ensures var (e, t') := (t.pending[id], Do(t, s));
            var end := Ended(t', e.promise);
            match s
            case Register(_) => end == if id == t.next then Some(TimedOut) else None
            case Drop => end == None
            case Respond(part) => forall o :: end == Some(o) <==> Answers(part, id, o)
            case Check(elapsed) =>
              end == if e.timeout != 0xffff_ffff && e.timeout * 1_000_000 <= elapsed then Some(TimedOut) else None
            case Clear => end == Some(Cancelled)
            case Teardown => end == Some(Broken)
    ensures var (e, t') := (t.pending[id], Do(t, s));
            Ended(t', e.promise) == None ==>
              id in t'.pending
              && t'.pending[id] == if s.Check? && e.timeout != 0xffff_ffff
                                   then Transact(e.promise, e.timeout - s.elapsed / 1_000_000) else e
  {
    match s {
      case Check(elapsed) => CheckFate(t, id, elapsed);
      case Respond(part) => RespondByName(t, id, part);
      case _ =>
    }
  }

  lemma RespondByName(t: Table, id: nat, part: Part)
    requires Inv(t) && id in t.pending && t.pending[id].promise !in t.settled
    ensures var (e, t') := (t.pending[id], Do(t, Respond(part)));
            && (forall o :: Ended(t', e.promise) == Some(o) <==> Answers(part, id, o))
            && (Ended(t', e.promise) == None ==> id in t'.pending && t'.pending[id] == e)
  {
    RespondFate(t, id, part);
    forall o ensures Answers(part, id, o) <==> IdNumber(part) == Some(id) && Decisive(part) == Some(o) { AnswersIff(part, id, o); }
    hide Answers, IdNumber, Decisive, Inv;
  }

  /** Over every run: a waiting promise ends with the first event for its own id, and only so. */
  lemma {:induction false} FirstEventWins(t: Table, id: nat, steps: seq<Step>)
    requires Inv(t) && id in t.pending && t.pending[id].promise !in t.settled
    ensures Ended(Run(t, steps), t.pending[id].promise) == Fate(Watch(id, t.pending[id].timeout, t.next), steps)
    decreases steps
  {
    if steps != [] {
      var (p, s, rest) := (t.pending[id].promise, steps[0], steps[1..]);
      assert steps == [s] + rest;
      var t' := Do(t, s);
      DoKeepsInv(t, s);
      StepFate(t, id, s, rest);
      hide Inv, Do, Fate;
      if p in t'.settled { SettledIsFinal(t', rest, p); } else { FirstEventWins(t', id, rest); }
    }
  }

  /** The same for the request sent between two stretches of a whole run. */
  lemma EveryRequest(before: seq<Step>, timeout: nat, after: seq<Step>)
    ensures var t := Run(Empty, before);
            Ended(Run(Empty, before + [Register(timeout)] + after), t.issued)
            == Fate(Watch(t.next, timeout, (t.next + 1) % ID_END), after)
  {
    hide Inv, Run, Fate;
    var t := Run(Empty, before);
    EmptyInv();
    RunKeepsInv(Empty, before);
    DoKeepsInv(t, Register(timeout));
    var t' := Do(t, Register(timeout));
    RunOne(t, Register(timeout));
    Unsettled(t, timeout);
    RunConcat(Empty, before, [Register(timeout)]);
    RunConcat(Empty, before + [Register(timeout)], after);
    FirstEventWins(t', t.next, after);
  }

  /** The watch after steps that did not settle it. */
  function After(w: Watch, steps: seq<Step>): Watch
    decreases steps
  {
    if steps == [] then w
    else
      match steps[0]
      case Register(_) => After(w.(next := (w.next + 1) % ID_END), steps[1..])
      case Check(elapsed) => After(w.(timeout := Charge(w.timeout, elapsed)), steps[1..])
      case _ => After(w, steps[1..])
  }

  lemma {:induction false} FateLater(w: Watch, a: seq<Step>, b: seq<Step>)
    requires Fate(w, a) == None
    ensures Fate(w, a + b) == Fate(After(w, a), b) && After(w, a).id == w.id
    decreases a
  {
    if a == [] {
      assert a + b == b;
    } else {
      assert (a + b)[0] == a[0] && (a + b)[1..] == a[1..] + b;
      if a[0].Register? {
        FateLater(w.(next := (w.next + 1) % ID_END), a[1..], b);
      } else if a[0].Check? {
        FateLater(w.(timeout := Charge(w.timeout, a[0].elapsed)), a[1..], b);
      } else {
        FateLater(w, a[1..], b);
      }
    }
  }

  /** No response to this id, no cancelling and no teardown. */
  predicate Untouched(id: nat, steps: seq<Step>) {
    forall i :: 0 <= i < |steps| ==> !steps[i].Clear? && !steps[i].Teardown? && !Answering(id, steps[i])
  }

  predicate Answering(id: nat, s: Step) { s.Respond? && IdNumber(s.part) == Some(id) && Decisive(s.part).Some? }

  function Registers(steps: seq<Step>): nat {
    if steps == [] then 0 else (if steps[0].Register? then 1 else 0) + Registers(steps[1..])
  }

  /** The milliseconds that the checks among the steps charge. */
  function ChargedBy(steps: seq<Step>): nat {
    if steps == [] then 0 else (if steps[0].Check? then steps[0].elapsed / TICKS else 0) + ChargedBy(steps[1..])
  }

  /** Steps that neither answer, cancel nor expire a request, nor come round to its id again, leave it
      waiting. */
  lemma {:induction false} QuietSteps(w: Watch, steps: seq<Step>, gap: nat)
    requires Untouched(w.id, steps) && Registers(steps) <= gap < ID_END
    requires w.next < ID_END && w.id == (w.next + gap) % ID_END
    requires w.timeout == NO_TIMEOUT || ChargedBy(steps) < w.timeout
    ensures Fate(w, steps) == None
    decreases steps
  {
    if steps != [] {
      var (s, rest) := (steps[0], steps[1..]);
      assert forall i :: 0 <= i < |rest| ==> rest[i] == steps[i + 1];
      assert !steps[0].Clear? && !steps[0].Teardown? && !Answering(w.id, steps[0]);
      if s.Register? {
        NotYetAgain(w.next, gap);
        QuietSteps(w.(next := (w.next + 1) % ID_END), rest, gap - 1);
      } else if s.Check? {
        QuietSteps(w.(timeout := Charge(w.timeout, s.elapsed)), rest, gap);
      } else {
        QuietSteps(w, rest, gap);
      }
    }
  }

  lemma NotYetAgain(next: nat, gap: nat)
    requires next < ID_END && 0 < gap < ID_END
    ensures (next + gap) % ID_END != next
    ensures ((next + 1) % ID_END + (gap - 1)) % ID_END == (next + gap) % ID_END
  {
    if next + gap >= ID_END { assert (next + gap) % ID_END == next + gap - ID_END; }
    if next + 1 == ID_END { assert (next + gap) % ID_END == (gap - 1) % ID_END; }
  }

  // ---------------------------------------------------------------------------------------------
  // Timeouts
  // ---------------------------------------------------------------------------------------------

  function Checks(elapsed: seq<nat>): (steps: seq<Step>)
    ensures |steps| == |elapsed|
    ensures forall i :: 0 <= i < |elapsed| ==> steps[i] == Check(elapsed[i])
  {
    seq(|elapsed|, i requires 0 <= i < |elapsed| => Check(elapsed[i]))
  }

  /** The milliseconds charged by a sequence of checks: whole milliseconds of each gap. */
  function Charged(elapsed: seq<nat>): nat { if elapsed == [] then 0 else elapsed[0] / TICKS + Charged(elapsed[1..]) }

  function Total(elapsed: seq<nat>): nat { if elapsed == [] then 0 else elapsed[0] + Total(elapsed[1..]) }

  /** Charged time never runs ahead of the clock, and lags by less than a millisecond per check. */
  lemma {:induction false} ChargedLags(elapsed: seq<nat>)
    ensures Charged(elapsed) * TICKS <= Total(elapsed)
    ensures elapsed != [] ==> Total(elapsed) < (Charged(elapsed) + |elapsed|) * TICKS
  {
    if elapsed != [] {
      ChargedLags(elapsed[1..]);
      assert (elapsed[0] / TICKS) * TICKS <= elapsed[0] < (elapsed[0] / TICKS + 1) * TICKS;
    }
  }

  /** A request expires at the first check at which the charged time reaches its timeout. */
  lemma {:induction false} ExpiresWhenCharged(w: Watch, elapsed: seq<nat>)
    requires w.timeout <= NO_TIMEOUT
    ensures Fate(w, Checks(elapsed))
            == if w.timeout != NO_TIMEOUT && elapsed != [] && w.timeout <= Charged(elapsed) then Some(TimedOut) else None
    decreases elapsed
  {
    if elapsed != [] {
      assert Checks(elapsed)[1..] == Checks(elapsed[1..]);
      ExpiresWhenCharged(w.(timeout := Charge(w.timeout, elapsed[0])), elapsed[1..]);
      ChargedAtLeast(elapsed);
    }
  }

  /** A request sent d ticks after the last check is charged for those too: at the check that expires it,
      the time since its own sending is its timeout less d at least. */
  lemma ExpiresEarlyByAtMost(w: Watch, elapsed: seq<nat>, d: nat)
    requires w.timeout <= NO_TIMEOUT && elapsed != [] && d <= elapsed[0] && Fate(w, Checks(elapsed)) == Some(TimedOut)
    ensures Total(elapsed) - d >= w.timeout * TICKS - d && Total(elapsed) >= d
  {
    ExpiresWhenCharged(w, elapsed);
    ChargedLags(elapsed);
    TotalAtLeast(elapsed);
    assert w.timeout * TICKS <= Charged(elapsed) * TICKS;
  }

  /** A request sent d ticks after a check, and checked after these gaps, the first counted from the check
      before it was sent: it has timed out although its own time was not up. */
  predicate Early(w: Watch, elapsed: seq<nat>, d: nat) {
    elapsed != [] && d <= elapsed[0] && Fate(w, Checks(elapsed)) == Some(TimedOut) && Total(elapsed) - d < w.timeout * TICKS
  }

  /** No schedule of checks expires a request before its time if and only if it was sent at the very
      moment of a check, or its timeout is 0, or it has none. */
  lemma NeverEarlyIff(w: Watch, d: nat)
    requires w.timeout <= NO_TIMEOUT
    ensures (forall elapsed :: !Early(w, elapsed, d)) <==> d == 0 || w.timeout == 0 || w.timeout == NO_TIMEOUT
  {
    if d == 0 || w.timeout == 0 || w.timeout == NO_TIMEOUT {
      forall elapsed ensures !Early(w, elapsed, d) {
        if elapsed != [] && d <= elapsed[0] && Fate(w, Checks(elapsed)) == Some(TimedOut) {
          ExpiresWhenCharged(w, elapsed);
          ExpiresEarlyByAtMost(w, elapsed, d);
        }
      }
    } else {
      var gap := if d < w.timeout * TICKS then w.timeout * TICKS else d;
      OneGap(gap);
      ExpiresWhenCharged(w, [gap]);
      assert w.timeout * TICKS / TICKS == w.timeout && w.timeout <= gap / TICKS;
      assert Early(w, [gap], d);
    }
  }

  lemma OneGap(gap: nat)
    ensures Charged([gap]) == gap / TICKS && Total([gap]) == gap
  {
    assert [gap][1..] == [];
  }

  /** The time of a request is up, counted from its sending, and a check has not noticed. */
  predicate Late(w: Watch, elapsed: seq<nat>, d: nat) {
    elapsed != [] && d <= elapsed[0] && Total(elapsed) - d >= w.timeout * TICKS && Fate(w, Checks(elapsed)) == None
  }

  function Repeat(n: nat, gap: nat): seq<nat> { if n == 0 then [] else [gap] + Repeat(n - 1, gap) }

  lemma {:induction false} RepeatTotal(n: nat, gap: nat)
    ensures Total(Repeat(n, gap)) == n * gap && Charged(Repeat(n, gap)) == n * (gap / TICKS)
  {
    if n > 0 {
      RepeatTotal(n - 1, gap);
      assert Repeat(n, gap)[1..] == Repeat(n - 1, gap);
      assert n * gap == gap + (n - 1) * gap && n * (gap / TICKS) == gap / TICKS + (n - 1) * (gap / TICKS);
    }
  }

  /** No schedule of checks misses that time if and only if the timeout is 0; the schedule that misses it
      checks a tick before every millisecond is full. */
  lemma NeverLateIff(w: Watch)
    requires w.timeout < NO_TIMEOUT
    ensures (forall elapsed, d: nat :: !Late(w, elapsed, d)) <==> w.timeout == 0
  {
    if w.timeout == 0 {
      forall elapsed, d: nat ensures !Late(w, elapsed, d) { ExpiresWhenCharged(w, elapsed); }
    } else {
      var elapsed := Repeat(2 * w.timeout, TICKS - 1);
      RepeatTotal(2 * w.timeout, TICKS - 1);
      assert (TICKS - 1) / TICKS == 0;
      ExpiresWhenCharged(w, elapsed);
      assert Late(w, elapsed, 0);
    }
  }

  /** A schedule charges exactly the time that passes if and only if every gap is whole milliseconds. */
  lemma {:induction false} ChargedExactlyIff(elapsed: seq<nat>)
    ensures Charged(elapsed) * TICKS == Total(elapsed) <==> forall i :: 0 <= i < |elapsed| ==> elapsed[i] % TICKS == 0
  {
    if elapsed != [] {
      ChargedExactlyIff(elapsed[1..]);
      ChargedLags(elapsed[1..]);
      assert elapsed[0] == (elapsed[0] / TICKS) * TICKS + elapsed[0] % TICKS;
      if forall i :: 0 <= i < |elapsed| ==> elapsed[i] % TICKS == 0 {
        assert forall i :: 0 <= i < |elapsed[1..]| ==> elapsed[1..][i] == elapsed[i + 1];
      } else {
        var i :| 0 <= i < |elapsed| && elapsed[i] % TICKS != 0;
        if i > 0 { assert elapsed[1..][i - 1] == elapsed[i]; }
      }
    }
  }

  lemma TotalAtLeast(elapsed: seq<nat>)
    requires elapsed != []
    ensures Total(elapsed) >= elapsed[0]
  {}

  /** The bound is reached: sent when the last check was its whole timeout ago, a request expires at a
      check in the same instant, after no time at all. */
  lemma ExpiresAtOnce(w: Watch)
    requires w.timeout < NO_TIMEOUT
    ensures var (elapsed, d) := ([w.timeout * TICKS], w.timeout * TICKS);
            Fate(w, Checks(elapsed)) == Some(TimedOut) && Total(elapsed) - d == 0
  {
    var elapsed := [w.timeout * TICKS];
    assert elapsed[1..] == [];
    assert Charged(elapsed) == w.timeout && Total(elapsed) == w.timeout * TICKS;
    ExpiresWhenCharged(w, elapsed);
  }

  /** While a request waits, what is left of its time is its timeout less what was charged. */
  lemma {:induction false} TimeLeft(t: Table, id: nat, elapsed: seq<nat>)
    requires id in t.pending && t.pending[id].timeout < NO_TIMEOUT
    ensures var t' := Run(t, Checks(elapsed));
            id in t'.pending ==>
              && t'.pending[id].promise == t.pending[id].promise
              && t'.pending[id].timeout == t.pending[id].timeout - Charged(elapsed)
              && (elapsed != [] ==> t'.pending[id].timeout > 0)
    decreases elapsed
  {
    if elapsed != [] {
      assert Checks(elapsed)[1..] == Checks(elapsed[1..]);
      var t' := Do(t, Check(elapsed[0]));
      if id in t'.pending { TimeLeft(t', id, elapsed[1..]); } else { GoneStaysGone(t', id, elapsed[1..]); }
    }
  }

  lemma {:induction false} GoneStaysGone(t: Table, id: nat, elapsed: seq<nat>)
    requires id !in t.pending
    ensures id !in Run(t, Checks(elapsed)).pending
    decreases elapsed
  {
    if elapsed != [] {
      assert Checks(elapsed)[1..] == Checks(elapsed[1..]);
      GoneStaysGone(Do(t, Check(elapsed[0])), id, elapsed[1..]);
    }
  }

  lemma ChargedAtLeast(elapsed: seq<nat>)
    requires elapsed != []
    ensures Charged(elapsed) >= elapsed[0] / TICKS
  {}

  /** Checked more often than once a millisecond, a request never expires. */
  lemma {:induction false} HastyChecksNeverExpire(w: Watch, elapsed: seq<nat>)
    requires w.timeout > 0 && forall i :: 0 <= i < |elapsed| ==> elapsed[i] < TICKS
    ensures Fate(w, Checks(elapsed)) == None
    decreases elapsed
  {
    if elapsed != [] {
      assert Checks(elapsed)[1..] == Checks(elapsed[1..]);
      assert elapsed[0] / TICKS == 0;
      HastyChecksNeverExpire(w, elapsed[1..]);
    }
  }
}
