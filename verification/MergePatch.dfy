/** JSON Merge Patch (RFC 7396): the code's route, which copies a new value with its nulls and then
    merges the value onto the copy, computes the function of section 2. */
module MergePatch {
  import opened Wrappers
  import opened JsonTree
  import opened SortedObject
  import opened SortedMap

  /** Every object in the tree is sorted without duplicates, as in a std::map or a sorted view. */
  predicate Canon(v: Json) {
    match v
    case Arr(items) => forall i :: 0 <= i < |items| ==> Canon(items[i])
    case Obj(fs) => SortedFields(fs) && forall i :: 0 <= i < |fs| ==> Canon(fs[i].value)
    case _ => true
  }

  predicate CanonFields(fs: seq<Field>) {
    SortedFields(fs) && forall i :: 0 <= i < |fs| ==> Canon(fs[i].value)
  }

  // ---------------------------------------------------------------------------------------------
  // RFC 7396, section 2
  // ---------------------------------------------------------------------------------------------

  function Or(o: Option<Json>): Json { if o.Some? then o.value else Null }

  function FieldsOf(v: Json): seq<Field> { if v.Obj? then v.fields else [] }

  function Merge(target: Json, patch: Json): Json
    decreases patch, 0
  {
    if patch.Obj? then Obj(MergeAll(FieldsOf(target), patch.fields)) else patch
  }

  function MergeAll(target: seq<Field>, patch: seq<Field>): seq<Field>
    decreases patch, 1
  {
    if patch == [] then target
    else
      var (k, v) := (patch[0].key, patch[0].value);
      MergeAll(if v.Null? then Remove(target, k) else InsertField(target, Field(k, Merge(Or(At(target, k)), v))),
               patch[1..])
  }

  lemma {:induction false} MergeCanon(t: Json, p: Json)
    requires Canon(t) && Canon(p)
    ensures Canon(Merge(t, p))
    decreases p, 0
  {
    if p.Obj? { MergeAllCanon(FieldsOf(t), p.fields); }
  }

  lemma AtCanon(fs: seq<Field>, k: Key)
    requires CanonFields(fs)
    ensures Canon(Or(At(fs, k)))
  {}

  lemma {:induction false} MergeAllCanon(t: seq<Field>, p: seq<Field>)
    requires CanonFields(t) && CanonFields(p)
    ensures CanonFields(MergeAll(t, p))
    decreases p, 1
  {
    if p != [] {
      hide Canon;
      var (k, v) := (p[0].key, p[0].value);
      AtCanon(t, k);
      MergeCanon(Or(At(t, k)), v);
      StepCanon(t, p);
      MergeAllCanon(MergeStep(t, p[0]), p[1..]);
    }
  }

  /** What one member of the patch does to the target. */
  function MergeStep(t: seq<Field>, f: Field): seq<Field> {
    if f.value.Null? then Remove(t, f.key) else InsertField(t, Field(f.key, Merge(Or(At(t, f.key)), f.value)))
  }

  lemma StepCanon(t: seq<Field>, p: seq<Field>)
    requires CanonFields(t) && CanonFields(p) && p != [] && Canon(Merge(Or(At(t, p[0].key)), p[0].value))
    ensures CanonFields(MergeStep(t, p[0])) && CanonFields(p[1..])
  {
    hide Canon, Merge, Remove, InsertField;
    var f := Field(p[0].key, Merge(Or(At(t, p[0].key)), p[0].value));
    RemoveKeepsSorted(t, p[0].key);
    InsertKeepsSorted(t, f);
    var r := MergeStep(t, p[0]);
    forall i | 0 <= i < |r| ensures Canon(r[i].value) {
      if r[i] in t { var j :| 0 <= j < |t| && t[j] == r[i]; }
    }
  }

  /** The member-wise reading of the standard: null removes, any other value is merged with what the
      target has, and members the patch does not name stay. */
  function Merged(was: Option<Json>, p: Option<Json>): Option<Json> {
    match p
    case None => was
    case Some(v) => if v.Null? then None else Some(Merge(Or(was), v))
  }

  lemma {:induction false} MergeAt(t: seq<Field>, p: seq<Field>, k: Key)
    requires CanonFields(t) && CanonFields(p)
    ensures At(MergeAll(t, p), k) == Merged(At(t, k), At(p, k))
    decreases p
  {
    if p != [] {
      AtCons(p, k);
      StepAt(t, p[0], k);
      AtCanon(t, p[0].key);
      MergeCanon(Or(At(t, p[0].key)), p[0].value);
      StepCanon(t, p);
      MergeAt(MergeStep(t, p[0]), p[1..], k);
    }
  }

  lemma StepAt(t: seq<Field>, f: Field, k: Key)
    requires SortedFields(t)
    ensures At(MergeStep(t, f), k) == if k == f.key then Merged(At(t, k), Some(f.value)) else At(t, k)
  {
    hide At, Remove, InsertField, Merge;
    AtRemove(t, f.key, k);
    AtInsert(t, Field(f.key, Merge(Or(At(t, f.key)), f.value)), k);
  }

  // ---------------------------------------------------------------------------------------------
  // Section 2 as a relation
  // ---------------------------------------------------------------------------------------------

  /** The result of a patch as section 2 of RFC 7396 describes it.  A patch that is no object is the result;
      under an object the result is an object, in which null members are absent, every other member is that
      member of the target patched, and all else is as in the target.  A target that is no object counts as
      an empty one, and a member that is not there as null. */
  ghost predicate Patched(target: Json, patch: Json, result: Json)
    decreases patch, 0
  {
    match patch
    case Obj(ps) =>
      var was := match target case Obj(fs) => fs case _ => [];
      && result.Obj?
      && (forall i :: 0 <= i < |ps| ==>
            if ps[i].value == Null then At(result.fields, ps[i].key) == None
            else MemberPatched(At(was, ps[i].key), ps[i].value, At(result.fields, ps[i].key)))
      && (forall k :: (forall i :: 0 <= i < |ps| ==> ps[i].key != k) ==> At(result.fields, k) == At(was, k))
    case _ => result == patch
  }

  ghost predicate MemberPatched(was: Option<Json>, v: Json, now: Option<Json>)
    decreases v, 1
  {
    && now.Some?
    && match was
       case Some(x) => Patched(x, v, now.value)
       case None => Patched(Null, v, now.value)
  }

  lemma AtMissing(fs: seq<Field>, k: Key)
    requires SortedFields(fs) && forall i :: 0 <= i < |fs| ==> fs[i].key != k
    ensures At(fs, k) == None
  {}

  /** What Merge computes stands in the relation. */
  lemma {:induction false} MergeIsPatched(t: Json, p: Json)
    requires Canon(t) && Canon(p)
    ensures Patched(t, p, Merge(t, p))
    decreases p
  {
    if p.Obj? {
      var (was, ps) := (FieldsOf(t), p.fields);
      var now := MergeAll(was, ps);
      forall i | 0 <= i < |ps|
        ensures At(now, ps[i].key) == if ps[i].value.Null? then None else Some(Merge(Or(At(was, ps[i].key)), ps[i].value))
        ensures !ps[i].value.Null? ==> MemberPatched(At(was, ps[i].key), ps[i].value, At(now, ps[i].key))
      {
        MergeAt(was, ps, ps[i].key);
        AtIndex(ps, i);
        AtCanon(was, ps[i].key);
        MergeIsPatched(Or(At(was, ps[i].key)), ps[i].value);
      }
      forall k | forall i :: 0 <= i < |ps| ==> ps[i].key != k ensures At(now, k) == At(was, k) {
        MergeAt(was, ps, k);
        AtMissing(ps, k);
      }
    }
  }

  /** Nothing else does: the relation has exactly one result on canonical documents. */
  lemma {:induction false} PatchedIsMerge(t: Json, p: Json, r: Json)
    requires Canon(t) && Canon(p) && Canon(r) && Patched(t, p, r)
    ensures r == Merge(t, p)
    decreases p
  {
    hide MergeAll, At;
    if p.Obj? {
      var (was, ps, now) := (FieldsOf(t), p.fields, r.fields);
      MergeAllCanon(was, ps);
      forall k ensures At(now, k) == At(MergeAll(was, ps), k) {
        MergeAt(was, ps, k);
        if i :| 0 <= i < |ps| && ps[i].key == k {
          AtIndex(ps, i);
          if !ps[i].value.Null? {
            AtCanon(was, k);
            AtCanon(now, k);
            PatchedIsMerge(Or(At(was, k)), ps[i].value, At(now, k).value);
          }
        } else {
          AtMissing(ps, k);
        }
      }
      SameLookups(now, MergeAll(was, ps));
    }
  }

  lemma PatchedIff(t: Json, p: Json, r: Json)
    requires Canon(t) && Canon(p)
    ensures Canon(r) && Patched(t, p, r) <==> r == Merge(t, p)
  {
    if Canon(r) && Patched(t, p, r) { PatchedIsMerge(t, p, r); }
    MergeIsPatched(t, p);
    MergeCanon(t, p);
  }

  // ---------------------------------------------------------------------------------------------
  // The laws
  // ---------------------------------------------------------------------------------------------

  /** merge(p, p) == merge(absent, p): why copying first is harmless. */
  lemma {:induction false} SelfMerge(p: Json)
    requires Canon(p)
    ensures Merge(p, p) == Merge(Null, p)
    decreases p
  {
    if p.Obj? {
      MergeAllCanon(p.fields, p.fields);
      MergeAllCanon([], p.fields);
      var (a, b) := (MergeAll(p.fields, p.fields), MergeAll([], p.fields));
      forall k ensures At(a, k) == At(b, k) {
        MergeAt(p.fields, p.fields, k);
        MergeAt([], p.fields, k);
        var i := LowerBound(p.fields, k);
        if At(p.fields, k).Some? { SelfMerge(p.fields[i].value); }
      }
      SameLookups(a, b);
    }
  }

  /** The same patch twice is the patch once. */
  lemma {:induction false} MergeTwice(t: Json, p: Json)
    requires Canon(t) && Canon(p)
    ensures Merge(Merge(t, p), p) == Merge(t, p)
    decreases p
  {
    if p.Obj? {
      var once := MergeAll(FieldsOf(t), p.fields);
      MergeAllCanon(FieldsOf(t), p.fields);
      MergeAllCanon(once, p.fields);
      var twice := MergeAll(once, p.fields);
      forall k ensures At(twice, k) == At(once, k) {
        MergeAt(FieldsOf(t), p.fields, k);
        MergeAt(once, p.fields, k);
        var i := LowerBound(p.fields, k);
        if At(p.fields, k).Some? {
          AtCanon(FieldsOf(t), k);
          MergeTwice(Or(At(FieldsOf(t), k)), p.fields[i].value);
        }
      }
      SameLookups(twice, once);
    }
  }

  // ---------------------------------------------------------------------------------------------
  // How deep a patch may be
  // ---------------------------------------------------------------------------------------------

  /** The least depth with which MergePatch does not throw. */
  function Need(t: Json, p: Json): nat
    decreases p, 0
  {
    1 + if p.Obj? then NeedAll(FieldsOf(t), p.fields) else Height(p)
  }

  function NeedAll(t: seq<Field>, p: seq<Field>): nat
    decreases p, 1
  {
    if p == [] then 0
    else
      var (o, v) := (At(t, p[0].key), p[0].value);
      Max(if v.Null? then 0 else if o.Some? then Need(o.value, v) else Max(Height(v), Need(v, v)), NeedAll(t, p[1..]))
  }

  /** One level more than the patch has is always enough; a patch that is no object needs it. */
  lemma {:induction false} NeedBound(t: Json, p: Json)
    ensures Need(t, p) <= Height(p) + 1
    ensures !p.Obj? ==> Need(t, p) == Height(p) + 1
    decreases p, 0
  {
    if p.Obj? { NeedAllBound(FieldsOf(t), p.fields); }
  }

  lemma {:induction false} NeedAllBound(t: seq<Field>, p: seq<Field>)
    ensures NeedAll(t, p) <= FieldsHeight(p) + 1
    decreases p, 1
  {
    if p != [] {
      NeedBound(p[0].value, p[0].value);
      NeedBound(Or(At(t, p[0].key)), p[0].value);
      NeedAllBound(t, p[1..]);
    }
  }

  /** What makes a depth enough, member by member: a level for the patch itself, and below it room for a copy
      of a patch that is no object, for patching each member that is there, and for copying each that is not
      and then patching the copy. */
  ghost predicate Suffices(target: Json, patch: Json, depth: nat)
    decreases patch
  {
    && depth > 0
    && match patch
       case Obj(ps) =>
         var was := match target case Obj(fs) => fs case _ => [];
         forall i :: 0 <= i < |ps| && ps[i].value != Null ==>
           (match At(was, ps[i].key)
            case Some(x) => Suffices(x, ps[i].value, depth - 1)
            case None => Height(ps[i].value) <= depth - 1 && Suffices(ps[i].value, ps[i].value, depth - 1))
       case _ => Height(patch) <= depth - 1
  }

  lemma {:induction false} NeedIff(t: Json, p: Json, depth: nat)
    ensures Need(t, p) <= depth <==> Suffices(t, p, depth)
    decreases p
  {
    hide NeedAll, At, Height;
    if p.Obj? && depth > 0 {
      var (was, ps) := (FieldsOf(t), p.fields);
      NeedAllIff(was, ps, depth - 1);
      forall i | 0 <= i < |ps| ensures MemberNeed(was, ps[i]) <= depth - 1 <==>
          (ps[i].value != Null ==>
             match At(was, ps[i].key)
             case Some(x) => Suffices(x, ps[i].value, depth - 1)
             case None => Height(ps[i].value) <= depth - 1 && Suffices(ps[i].value, ps[i].value, depth - 1))
      {
        NeedIff(ps[i].value, ps[i].value, depth - 1);
        if At(was, ps[i].key).Some? { NeedIff(At(was, ps[i].key).value, ps[i].value, depth - 1); }
      }
    }
  }

  function MemberNeed(t: seq<Field>, f: Field): nat {
    var (o, v) := (At(t, f.key), f.value);
    if v.Null? then 0 else if o.Some? then Need(o.value, v) else Max(Height(v), Need(v, v))
  }

  lemma {:induction false} NeedAllIff(t: seq<Field>, p: seq<Field>, depth: nat)
    ensures NeedAll(t, p) <= depth <==> forall i :: 0 <= i < |p| ==> MemberNeed(t, p[i]) <= depth
  {
    if p != [] {
      NeedAllIff(t, p[1..], depth);
      hide MemberNeed;
      assert forall i :: 0 < i < |p| ==> p[i] == p[1..][i - 1];
      assert NeedAll(t, p) == Max(MemberNeed(t, p[0]), NeedAll(t, p[1..])) by { ThisMember(t, p); }
    }
  }

  lemma ThisMember(t: seq<Field>, p: seq<Field>)
    requires p != []
    ensures NeedAll(t, p) == Max(MemberNeed(t, p[0]), NeedAll(t, p[1..]))
  {}

  lemma {:induction false} NeedSame(t: seq<Field>, t': seq<Field>, p: seq<Field>)
    requires forall i :: 0 <= i < |p| ==> At(t, p[i].key) == At(t', p[i].key)
    ensures NeedAll(t, p) == NeedAll(t', p)
  {
    if p != [] {
      forall i | 0 <= i < |p[1..]| ensures At(t, p[1..][i].key) == At(t', p[1..][i].key) {
        assert p[1..][i] == p[i + 1];
      }
      NeedSame(t, t', p[1..]);
    }
  }

  /** Merging one member leaves the needs of the others as they were. */
  lemma NeedAfterStep(t: seq<Field>, p: seq<Field>)
    requires CanonFields(t) && CanonFields(p) && p != []
    ensures NeedAll(MergeStep(t, p[0]), p[1..]) == NeedAll(t, p[1..])
  {
    forall i | 0 <= i < |p[1..]| ensures At(t, p[1..][i].key) == At(MergeStep(t, p[0]), p[1..][i].key) {
      SortedKeysDiffer(p, 0, i + 1);
      StepAt(t, p[0], p[1..][i].key);
    }
    NeedSame(t, MergeStep(t, p[0]), p[1..]);
  }

  // ---------------------------------------------------------------------------------------------
  // The code
  // ---------------------------------------------------------------------------------------------

  lemma InsertAgain(fs: seq<Field>, k: Key, x: Json, y: Json)
    requires SortedFields(fs)
    ensures SortedFields(InsertField(fs, Field(k, x)))
    ensures InsertField(InsertField(fs, Field(k, x)), Field(k, y)) == InsertField(fs, Field(k, y))
  {
    var (a, b) := (InsertField(InsertField(fs, Field(k, x)), Field(k, y)), InsertField(fs, Field(k, y)));
    InsertKeepsSorted(fs, Field(k, x));
    InsertKeepsSorted(InsertField(fs, Field(k, x)), Field(k, y));
    InsertKeepsSorted(fs, Field(k, y));
    forall k' ensures At(a, k') == At(b, k') {
      AtInsert(fs, Field(k, x), k');
      AtInsert(InsertField(fs, Field(k, x)), Field(k, y), k');
      AtInsert(fs, Field(k, y), k');
    }
    SameLookups(a, b);
  }

  lemma InsertNext(fs: seq<Field>, i: nat)
    requires SortedFields(fs) && i < |fs|
    ensures InsertField(fs[..i], fs[i]) == fs[..i + 1]
  {
    assert fs[..i] + [fs[i]] == fs[..i + 1];
    InsertLast(fs[..i], fs[i]);
  }

  /** BasicMutJson::copy from a view; `false` stands for DepthError. */
  method Copy(src: Json, depth: nat) returns (ok: bool, to: Json)
    requires Canon(src)
    ensures ok <==> Height(src) <= depth
    ensures ok ==> to == src
    decreases src, 0
  {
    hide ItemsHeight, FieldsHeight, SortedFields;
    if depth == 0 { return false, Null; }
    match src {
      case Arr(items) =>
        var copies;
        ok, copies := CopyItems(items, depth - 1);
        to := Arr(copies);
      case Obj(fs) =>
        var copies;
        ok, copies := CopyFields(fs, depth - 1);
        to := Obj(copies);
      case _ => return true, src;
    }
  }

  method CopyItems(items: seq<Json>, depth: nat) returns (ok: bool, copies: seq<Json>)
    requires forall i :: 0 <= i < |items| ==> Canon(items[i])
    ensures ok <==> ItemsHeight(items) <= depth
    ensures ok ==> copies == items
    decreases items, 1
  {
    hide Canon, Height, ItemsHeight;
    ItemsHeightBound(items, depth);
    copies := [];
    var i := 0;
    while i < |items|
      invariant i <= |items| && copies == items[..i]
      invariant forall j :: 0 <= j < i ==> Height(items[j]) <= depth
    {
      var c;
      ok, c := Copy(items[i], depth);
      if !ok { return; }
      copies := copies + [c];
      i := i + 1;
    }
    ok := true;
  }

  method CopyFields(fs: seq<Field>, depth: nat) returns (ok: bool, copies: seq<Field>)
    requires CanonFields(fs)
    ensures ok <==> FieldsHeight(fs) <= depth
    ensures ok ==> copies == fs
    decreases fs, 1
  {
    hide Canon, Height, FieldsHeight, SortedFields, InsertField;
    FieldsHeightBound(fs, depth);
    copies := [];
    var i := 0;
    while i < |fs|
      invariant i <= |fs| && copies == fs[..i]
      invariant forall j :: 0 <= j < i ==> Height(fs[j].value) <= depth
    {
      var c;
      ok, c := Copy(fs[i].value, depth);
      if !ok { return; }
      InsertNext(fs, i);
      copies := InsertField(copies, Field(fs[i].key, c));
      i := i + 1;
    }
    ok := true;
  }

  // ---------------------------------------------------------------------------------------------
  // What DepthError leaves behind
  // ---------------------------------------------------------------------------------------------

  /** Key k is among the first i members. */
  ghost predicate Before(ps: seq<Field>, i: nat, k: Key) { exists j :: 0 <= j < i && j < |ps| && ps[j].key == k }

  /** A merge that was broken off: nothing was done, or the members before some member of the patch are
      merged, that one is broken off itself, and all others are as they were. */
  ghost predicate Torn(t: Json, p: Json, t': Json)
    decreases p, 0
  {
    t' == t
    || (p.Obj? && t'.Obj? && exists i :: 0 <= i < |p.fields| && TornAt(FieldsOf(t), p.fields, i, t'.fields))
  }

  ghost predicate TornAt(t: seq<Field>, ps: seq<Field>, i: nat, t': seq<Field>)
    requires i < |ps|
    decreases ps, 1
  {
    && (forall k :: k != ps[i].key ==> At(t', k) == if Before(ps, i, k) then Merged(At(t, k), At(ps, k)) else At(t, k))
    && TornMember(At(t, ps[i].key), ps[i].value, At(t', ps[i].key))
  }

  /** An absent member is still absent, or there as a copy on which the merge was broken off. */
  ghost predicate TornMember(was: Option<Json>, v: Json, now: Option<Json>)
    decreases v, 2
  {
    match was
    case Some(x) => now.Some? && Torn(x, v, now.value)
    case None => now.None? || Torn(v, v, now.value)
  }

  /** The first i members are merged, the others untouched. */
  ghost predicate MergedUpTo(t: seq<Field>, ps: seq<Field>, i: nat, result: seq<Field>) {
    forall k :: At(result, k) == if Before(ps, i, k) then Merged(At(t, k), At(ps, k)) else At(t, k)
  }

  lemma MergedNext(t: seq<Field>, ps: seq<Field>, i: nat, result: seq<Field>)
    requires CanonFields(ps) && CanonFields(result) && i < |ps| && MergedUpTo(t, ps, i, result)
    ensures MergedUpTo(t, ps, i + 1, MergeStep(result, ps[i]))
    ensures !Before(ps, i, ps[i].key) && At(result, ps[i].key) == At(t, ps[i].key)
  {
    hide At, Merge, MergeStep, Canon;
    if Before(ps, i, ps[i].key) {
      var j :| 0 <= j < i && ps[j].key == ps[i].key;
      SortedKeysDiffer(ps, j, i);
    }
    forall k ensures At(MergeStep(result, ps[i]), k) == if Before(ps, i + 1, k) then Merged(At(t, k), At(ps, k)) else At(t, k) {
      StepAt(result, ps[i], k);
      BeforeNext(ps, i, k);
      if k == ps[i].key { AtIndex(ps, i); }
    }
  }

  lemma BeforeNext(ps: seq<Field>, i: nat, k: Key)
    requires i < |ps|
    ensures Before(ps, i + 1, k) <==> Before(ps, i, k) || k == ps[i].key
  {
    if Before(ps, i, k) {
      var j :| 0 <= j < i && j < |ps| && ps[j].key == k;
      assert j < i + 1;
    }
    if k == ps[i].key { assert i < i + 1 && ps[i].key == k; }
  }

  lemma NothingMerged(t: seq<Field>, ps: seq<Field>)
    ensures MergedUpTo(t, ps, 0, t)
  {}

  lemma TornHere(t: Json, p: Json, i: nat, result: seq<Field>, t': seq<Field>)
    requires p.Obj? && i < |p.fields| && CanonFields(p.fields) && CanonFields(result)
    requires MergedUpTo(FieldsOf(t), p.fields, i, result)
    requires forall k :: k != p.fields[i].key ==> At(t', k) == At(result, k)
    requires TornMember(At(result, p.fields[i].key), p.fields[i].value, At(t', p.fields[i].key))
    ensures Torn(t, p, Obj(t'))
  {
    MergedNext(FieldsOf(t), p.fields, i, result);
    hide At, Merge, TornMember, Canon, Before;
    assert TornAt(FieldsOf(t), p.fields, i, t');
  }

  lemma InsertCanon(fs: seq<Field>, k: Key, x: Json)
    requires CanonFields(fs) && Canon(x)
    ensures CanonFields(InsertField(fs, Field(k, x)))
  {
    InsertKeepsSorted(fs, Field(k, x));
    hide Canon;
    var r := InsertField(fs, Field(k, x));
    forall i | 0 <= i < |r| ensures Canon(r[i].value) {
      if r[i] in fs { var j :| 0 <= j < |fs| && fs[j] == r[i]; }
    }
  }

  lemma InsertElsewhere(fs: seq<Field>, key: Key, x: Json)
    requires SortedFields(fs)
    ensures At(InsertField(fs, Field(key, x)), key) == Some(x)
    ensures forall k :: k != key ==> At(InsertField(fs, Field(key, x)), k) == At(fs, k)
  {
    AtInsert(fs, Field(key, x), key);
    forall k | k != key ensures At(InsertField(fs, Field(key, x)), k) == At(fs, k) { AtInsert(fs, Field(key, x), k); }
  }

  lemma TornSelf(t: Json, p: Json)
    ensures Torn(t, p, t)
  {}

  // ---------------------------------------------------------------------------------------------
  // The code of MergePatch
  // ---------------------------------------------------------------------------------------------

  /** One member of the patch, as the loop of MergePatch treats it. */
  method PatchMember(result: seq<Field>, k: Key, v: Json, depth: nat) returns (ok: bool, merged: seq<Field>)
    requires CanonFields(result) && Canon(v)
    ensures ok <==> NeedAll(result, [Field(k, v)]) <= depth
    ensures ok ==> merged == MergeStep(result, Field(k, v))
    ensures !ok ==> CanonFields(merged) && TornMember(At(result, k), v, At(merged, k))
                    && forall k' :: k' != k ==> At(merged, k') == At(result, k')
    decreases v, 2
  {
    hide Height, Canon, Merge, InsertField, Remove, Torn, SortedFields, Patched;
    var x;
    if v.Null? { return true, Remove(result, k); }
    AtCanon(result, k);
    if At(result, k).Some? {
      ok, x := Patch(At(result, k).value, v, depth);
      merged := InsertField(result, Field(k, x));
      if !ok {
        InsertCanon(result, k, x);
        InsertElsewhere(result, k, x);
      }
    } else {
      var c;
      ok, c := Copy(v, depth);
      if !ok { return false, result; }
      merged := InsertField(result, Field(k, c));
      ok, x := Patch(c, v, depth);
      InsertAgain(result, k, c, x);
      SelfMerge(v);
      merged := InsertField(merged, Field(k, x));
      if !ok {
        InsertCanon(result, k, x);
        InsertElsewhere(result, k, x);
      }
    }
  }

  lemma CanonParts(v: Json)
    requires Canon(v)
    ensures CanonFields(FieldsOf(v))
  {}

  lemma NeedSplit(t: seq<Field>, p: seq<Field>)
    requires p != []
    ensures NeedAll(t, p) == Max(NeedAll(t, [p[0]]), NeedAll(t, p[1..]))
  {
    assert [p[0]][1..] == [];
  }

  /** MergePatch on the value of a node. */
  method Patch(target: Json, patch: Json, depth: nat) returns (ok: bool, merged: Json)
    requires Canon(target) && Canon(patch)
    ensures ok <==> Need(target, patch) <= depth
    ensures ok ==> merged == Merge(target, patch) && Patched(target, patch, merged)
    ensures !ok ==> Torn(target, patch, merged) && Canon(merged)
    decreases patch, 0, 1
  {
    TornSelf(target, patch);
    MergeIsPatched(target, patch);
    if depth == 0 { return false, target; }
    if !patch.Obj? {
      var c;
      ok, c := Copy(patch, depth - 1);
      return ok, if ok then c else target;
    }
    hide Height, Torn, Patched;
    CanonParts(target);
    CanonParts(patch);
    var result;
    ok, result := PatchObject(target, patch, depth - 1);
    if !ok { CanonObject(result); }
    merged := Obj(result);
  }

  lemma CanonObject(fs: seq<Field>)
    requires CanonFields(fs)
    ensures Canon(Obj(fs))
  {}

  /** The loop of MergePatch over the members of an object. */
  method PatchObject(target: Json, patch: Json, depth: nat) returns (ok: bool, result: seq<Field>)
    requires Canon(target) && Canon(patch) && patch.Obj? && CanonFields(FieldsOf(target)) && CanonFields(patch.fields)
    ensures ok <==> NeedAll(FieldsOf(target), patch.fields) <= depth
    ensures ok ==> result == MergeAll(FieldsOf(target), patch.fields)
    ensures !ok ==> Torn(target, patch, Obj(result)) && CanonFields(result)
    decreases patch, 0, 0
  {
    hide Canon, Height, Remove, InsertField, At, Torn, MergedUpTo, TornMember;
    result := FieldsOf(target);
    var fs := patch.fields;
    assert fs[0..] == fs;
    NothingMerged(result, fs);
    var i := 0;
    while i < |fs|
      invariant i <= |fs| && CanonFields(result) && CanonFields(fs[i..])
      invariant MergeAll(result, fs[i..]) == MergeAll(FieldsOf(target), fs)
      invariant NeedAll(FieldsOf(target), fs) <= depth <==> NeedAll(result, fs[i..]) <= depth
      invariant MergedUpTo(FieldsOf(target), fs, i, result)
    {
      var rest := fs[i..];
      assert rest[1..] == fs[i + 1..] && rest[0] == fs[i];
      NeedSplit(result, rest);
      NeedAfterStep(result, rest);
      AtCanon(result, rest[0].key);
      MergeCanon(Or(At(result, rest[0].key)), rest[0].value);
      StepCanon(result, rest);
      MergedNext(FieldsOf(target), fs, i, result);
      var next;
      ok, next := PatchMember(result, fs[i].key, fs[i].value, depth);
      if !ok {
        TornHere(target, patch, i, result, next);
        result := next;
        return;
      }
      result := next;
      i := i + 1;
    }
    ok := true;
  }

  /** A document that is patched in place. */
  class MutableJson {
    var data: Json

    constructor (data: Json)
      ensures this.data == data
    {
      this.data := data;
    }

    /** RFC 7396 in place, given depth enough; what is enough is known before the call. */
    method MergePatch(patch: Json, depth: nat) returns (ok: bool)
      requires Canon(data) && Canon(patch)
      modifies this
      ensures ok <==> Need(old(data), patch) <= depth
      ensures ok <==> Suffices(old(data), patch, depth)
      ensures ok ==> data == Merge(old(data), patch) && Patched(old(data), patch, data)
      ensures !ok ==> Torn(old(data), patch, data)
      ensures Canon(data)
    {
      MergeCanon(data, patch);
      NeedIff(data, patch, depth);
      ok, data := Patch(data, patch, depth);
    }
  }
}
