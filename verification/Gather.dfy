/** Gather: many results into one, in whatever order they complete. */
module Gather {
  import opened Wrappers

  datatype Result<T> = Ok(value: T) | Error(e: nat)

  /** The completion of input `i`. */
  datatype Done<T> = Done(i: nat, result: Result<T>)

  /** Each of n inputs completes at most once. */
  predicate Order<T>(n: nat, dones: seq<Done<T>>) {
    && (forall k :: 0 <= k < |dones| ==> dones[k].i < n)
    && (forall k, k' :: 0 <= k < k' < |dones| ==> dones[k].i != dones[k'].i)
  }

  /** The first error in completion order. */
  function FirstError<T>(dones: seq<Done<T>>): Option<nat> {
    if dones == [] then None
    else match dones[0].result
         case Error(e) => Some(e)
         case Ok(_) => FirstError(dones[1..])
  }

  lemma {:induction false} FirstErrorOfMore<T>(dones: seq<Done<T>>, d: Done<T>)
    ensures FirstError(dones + [d])
            == if FirstError(dones).Some? then FirstError(dones) else if d.result.Error? then Some(d.result.e) else None
    ensures FirstError(dones) == None <==> forall k :: 0 <= k < |dones| ==> dones[k].result.Ok?
  {
    if dones == [] {
      assert [d][1..] == [];
    } else {
      assert (dones + [d])[0] == dones[0] && (dones + [d])[1..] == dones[1..] + [d];
      FirstErrorOfMore(dones[1..], d);
    }
  }

  lemma {:induction false} FirstErrorIs<T>(dones: seq<Done<T>>, k: nat)
    requires k < |dones| && dones[k].result.Error? && forall j :: 0 <= j < k ==> dones[j].result.Ok?
    ensures FirstError(dones) == Some(dones[k].result.e)
  {
    if k > 0 { FirstErrorIs(dones[1..], k - 1); }
  }

  function Indices<T>(dones: seq<Done<T>>): set<nat> {
    set k | 0 <= k < |dones| :: dones[k].i
  }

  lemma {:induction false} IndexCount<T>(n: nat, dones: seq<Done<T>>)
    requires Order(n, dones)
    ensures |Indices(dones)| == |dones| <= n
  {
    if dones == [] {
      assert Indices(dones) == {};
    } else {
      var front := dones[..|dones| - 1];
      IndexCount(n, front);
      var last := dones[|dones| - 1];
      assert Indices(dones) == Indices(front) + {last.i};
      assert last.i !in Indices(front);
      Below(n, Indices(dones));
    }
  }

  lemma {:induction false} Below(n: nat, s: set<nat>)
    requires forall i :: i in s ==> i < n
    ensures |s| <= n
    ensures |s| == n ==> forall i :: 0 <= i < n ==> i in s
    decreases n
  {
    if n > 0 {
      Below(n - 1, s - {n - 1});
      if n - 1 in s {
        assert |s| == |s - {n - 1}| + 1;
        if |s| == n {
          forall i | 0 <= i < n ensures i in s {
            if i < n - 1 { assert i in s - {n - 1}; }
          }
        }
      } else {
        assert s - {n - 1} == s;
      }
    } else {
      assert s == {};
    }
  }

  /** When all inputs are there, each has its place in the list of completions. */
  lemma Place<T>(n: nat, dones: seq<Done<T>>, i: nat) returns (k: nat)
    requires Order(n, dones) && |dones| == n && i < n
    ensures k < n && dones[k].i == i
  {
    IndexCount(n, dones);
    Below(n, Indices(dones));
    assert i in Indices(dones);
    k :| 0 <= k < |dones| && dones[k].i == i;
  }

  /** The values by input, default where nothing completed. */
  ghost predicate InInputOrder<T>(results: seq<T>, dones: seq<Done<T>>) {
    forall k :: 0 <= k < |dones| ==> dones[k].result.Ok? && dones[k].i < |results| && results[dones[k].i] == dones[k].result.value
  }

  /** Two lists in input order of the same complete set of values are equal, however they completed. */
  lemma OrderDoesNotMatter<T>(a: seq<T>, b: seq<T>, dones: seq<Done<T>>, dones': seq<Done<T>>)
    requires |a| == |b| && Order(|a|, dones) && Order(|a|, dones') && |dones| == |dones'| == |a|
    requires InInputOrder(a, dones) && InInputOrder(b, dones')
    requires forall k, k' :: 0 <= k < |dones| && 0 <= k' < |dones'| && dones[k].i == dones'[k'].i ==>
                               dones[k].result == dones'[k'].result
    ensures a == b
  {
    forall i: nat | i < |a| ensures a[i] == b[i] {
      var k := Place(|a|, dones, i);
      var k' := Place(|a|, dones', i);
    }
  }

  /** GatherCtx with the handlers that share it; `prom` is what the promise was resolved with. */
  class Context<T(0)> {
    var results: seq<T>
    var left: nat
    var prom: Option<Result<seq<T>>>
    var resolved: nat            // how often the promise was resolved
    ghost var dones: seq<Done<T>>
    const n: nat

    ghost predicate Valid()
      reads this
    {
      && Order(n, dones) && |dones| <= n && n > 0 && |results| == n
      && match FirstError(dones)
         case Some(e) => prom == Some(Error(e)) && resolved == 1
         case None =>
           && left == n - |dones| && InInputOrder(results, dones)
           && (if |dones| == n then prom == Some(Ok(results)) && resolved == 1 else prom.None? && resolved == 0)
    }

    constructor (n: nat, blank: T)
      requires n > 0
      ensures Valid() && dones == [] && this.n == n
    {
      this.n, left, prom, resolved, dones := n, n, None, 0, [];
      results := seq(n, i => blank);
    }

    /** GatherHandler::operator() of input `curr`.  While unresolved, `left` counts the inputs that have
        not succeeded yet. */
    method Handle(curr: nat, res: Result<T>)
      requires Valid() && curr < n && curr !in Indices(dones)
      modifies this
      ensures Valid() && dones == old(dones) + [Done(curr, res)]
      ensures prom.None? ==> left == n - |dones|
    {
      ghost var was := dones;
      FirstErrorOfMore(dones, Done(curr, res));
      dones := dones + [Done(curr, res)];
      OneMore(n, was, curr, res);
      if prom.Some? { return; }
      if res.Ok? {
        results := results[curr := res.value];
        left := left - 1;
        if left == 0 {
          prom, resolved := Some(Ok(results)), resolved + 1;
        }
      } else {
        prom, resolved := Some(Error(res.e)), resolved + 1;
      }
    }
  }

  lemma OneMore<T>(n: nat, dones: seq<Done<T>>, i: nat, r: Result<T>)
    requires Order(n, dones) && i < n && i !in Indices(dones)
    ensures Order(n, dones + [Done(i, r)]) && |dones| < n
  {
    var more := dones + [Done(i, r)];
    forall k, k' | 0 <= k < k' < |more| ensures more[k].i != more[k'].i {
      if k' == |dones| { assert dones[k].i in Indices(dones); }
    }
    IndexCount(n, more);
  }

  lemma AllOrFirst<T>(dones: seq<Done<T>>)
    ensures FirstError(dones) == None <==> forall k :: 0 <= k < |dones| ==> dones[k].result.Ok?
    ensures forall k :: 0 <= k < |dones| && dones[k].result.Error? && (forall j :: 0 <= j < k ==> dones[j].result.Ok?)
                        ==> FirstError(dones) == Some(dones[k].result.e)
  {
    if dones != [] { FirstErrorOfMore(dones, dones[0]); }
    forall k | 0 <= k < |dones| && dones[k].result.Error? && forall j :: 0 <= j < k ==> dones[j].result.Ok?
      ensures FirstError(dones) == Some(dones[k].result.e)
    {
      FirstErrorIs(dones, k);
    }
  }

  /** Gather as a whole: the promise is resolved exactly once, with the values in input order if all
      inputs succeed, and otherwise with the first error in completion order. */
  method GatherAll<T(0)>(n: nat, blank: T, order: seq<Done<T>>) returns (r: Result<seq<T>>)
    requires Order(n, order) && |order| == n
    ensures (forall k :: 0 <= k < n ==> order[k].result.Ok?) ==> r.Ok? && |r.value| == n && InInputOrder(r.value, order)
    ensures forall k :: 0 <= k < n && order[k].result.Error? && (forall j :: 0 <= j < k ==> order[j].result.Ok?)
                        ==> r == Error(order[k].result.e)
  {
    if n == 0 { return Ok([]); }
    var ctx := new Context(n, blank);
    var k := 0;
    while k < n
      invariant k <= n && ctx.Valid() && ctx.dones == order[..k] && ctx.n == n
    {
      assert order[k].i !in Indices(order[..k]);
      ctx.Handle(order[k].i, order[k].result);
      assert order[..k + 1] == order[..k] + [order[k]] && Done(order[k].i, order[k].result) == order[k];
      k := k + 1;
    }
    assert order[..n] == order;
    AllOrFirst(order);
    r := ctx.prom.value;
  }
}
