/** Assign: creating the nodes along a path, and why it is a lens for lookups by path. */
module Assign {
  import opened Wrappers
  import opened JsonTree
  import opened SortedObject
  import opened SortedMap
  import opened MergePatch

  datatype Part = Key(key: seq<byte>) | Index(idx: nat)

  type Path = p: seq<Part> | forall i :: 0 <= i < |p| && p[i].Index? ==> p[i].idx < MAX_LENGTH

  // ---------------------------------------------------------------------------------------------
  // Looking up: JsonView::Find with a pointer
  // ---------------------------------------------------------------------------------------------

  datatype Found = Found(value: Json) | Missing | WrongType

  function Get(doc: Json, path: Path): Found
    decreases path
  {
    if path == [] then Found(doc)
    else
      match path[0]
      case Key(k) =>
        if !doc.Obj? then WrongType
        else (match At(doc.fields, k) case None => Missing case Some(v) => Get(v, path[1..]))
      case Index(i) =>
        if !doc.Arr? then WrongType
        else if i >= |doc.items| then Missing
        else Get(doc.items[i], path[1..])
  }

  // ---------------------------------------------------------------------------------------------
  // Assigning
  // ---------------------------------------------------------------------------------------------

  /** `Overflow` is an absent element with index 2^32 - 1: resize(idx + 1) gets 0, and the element
      is used all the same. */
  datatype Outcome = Done | Mismatch | Overflow

  function ItemsOf(v: Json): seq<Json> { if v.Arr? then v.items else [] }

  function Resized(items: seq<Json>, n: nat): (r: seq<Json>)
    ensures |r| == if |items| < n then n else |items|
    ensures forall i :: 0 <= i < |r| ==> r[i] == if i < |items| then items[i] else Null
  {
    if |items| < n then items + seq(n - |items|, i => Null) else items
  }

  function ItemOr(items: seq<Json>, i: nat): Json { if i < |items| then items[i] else Null }

  /** How Assign ends: the first wrong type or overflow on the way decides. */
  function Ends(doc: Json, path: Path): Outcome
    decreases path
  {
    if path == [] then Done
    else
      match path[0]
      case Key(k) =>
        if doc.Null? || doc.Obj? then Ends(Or(At(FieldsOf(doc), k)), path[1..]) else Mismatch
      case Index(i) =>
        if !doc.Null? && !doc.Arr? then Mismatch
        else if |ItemsOf(doc)| <= i && i == MAX_LENGTH - 1 then Overflow
        else Ends(ItemOr(ItemsOf(doc), i), path[1..])
  }

  /** The child of a node under one part of a path. */
  function Child(node: Json, part: Part): Json {
    match part
    case Key(k) => Or(At(FieldsOf(node), k))
    case Index(i) => ItemOr(ItemsOf(node), i)
  }

  function WithChild(node: Json, part: Part, x: Json): Json {
    match part
    case Key(k) => Obj(InsertField(FieldsOf(node), Field(k, x)))
    case Index(i) => Arr(Resized(ItemsOf(node), i + 1)[i := x])
  }

  /** The node that Assign ends at, as it was; absent nodes are null. */
  function NodeAt(doc: Json, path: Path): Json
    decreases path
  {
    if path == [] then doc else NodeAt(Child(doc, path[0]), path[1..])
  }

  /** The document after Assign(path) = v. */
  function Put(doc: Json, path: Path, v: Json): Json
    decreases path
  {
    if path == [] then v else WithChild(doc, path[0], Put(Child(doc, path[0]), path[1..], v))
  }

  lemma PutField(doc: Json, k: Key, x: Json)
    requires Canon(doc)
    ensures Canon(Or(At(FieldsOf(doc), k)))
    ensures SortedFields(InsertField(FieldsOf(doc), Field(k, x)))
    ensures Canon(x) ==> Canon(Obj(InsertField(FieldsOf(doc), Field(k, x))))
    ensures At(InsertField(FieldsOf(doc), Field(k, x)), k) == Some(x)
  {
    InsertKeepsSorted(FieldsOf(doc), Field(k, x));
    AtInsert(FieldsOf(doc), Field(k, x), k);
  }

  /** One level of the lens. */
  lemma ChildLens(doc: Json, part: Part, x: Json, y: Json)
    requires Canon(doc)
    ensures Canon(Child(doc, part)) && (Canon(x) ==> Canon(WithChild(doc, part, x)))
    ensures Child(WithChild(doc, part, x), part) == x
    ensures WithChild(WithChild(doc, part, x), part, y) == WithChild(doc, part, y)
  {
    match part {
      case Key(k) =>
        hide Canon, At, InsertField;
        PutField(doc, k, x);
        InsertAgain(FieldsOf(doc), k, x, y);
      case Index(i) => IndexLens(doc, i, x, y);
    }
  }

  lemma IndexLens(doc: Json, i: nat, x: Json, y: Json)
    requires Canon(doc)
    ensures Canon(Child(doc, Index(i))) && (Canon(x) ==> Canon(WithChild(doc, Index(i), x)))
    ensures Child(WithChild(doc, Index(i), x), Index(i)) == x
    ensures WithChild(WithChild(doc, Index(i), x), Index(i), y) == WithChild(doc, Index(i), y)
  {
    IndexCanon(doc, i, x);
    hide Canon;
    UpdateTwice(Resized(ItemsOf(doc), i + 1), i, x, y);
  }

  lemma UpdateTwice(items: seq<Json>, i: nat, x: Json, y: Json)
    requires i < |items|
    ensures items[i := x][i] == x && items[i := x][i := y] == items[i := y]
  {}

  lemma IndexCanon(doc: Json, i: nat, x: Json)
    requires Canon(doc)
    ensures Canon(Child(doc, Index(i))) && (Canon(x) ==> Canon(WithChild(doc, Index(i), x)))
  {}

  lemma {:induction false} PutCanon(doc: Json, path: Path, v: Json)
    requires Canon(doc) && Canon(v)
    ensures Canon(Put(doc, path, v))
    decreases path
  {
    hide Canon, Child, WithChild;
    if path != [] {
      ChildLens(doc, path[0], Put(Child(doc, path[0]), path[1..], v), Null);
      PutCanon(Child(doc, path[0]), path[1..], v);
    }
  }

  // ---------------------------------------------------------------------------------------------
  // The lens laws
  // ---------------------------------------------------------------------------------------------

  lemma GetChild(node: Json, part: Part, rest: Path)
    requires part.Index? ==> part.idx < MAX_LENGTH
    ensures [part] + rest != [] && ([part] + rest)[1..] == rest
    ensures part.Key? && node.Obj? && At(node.fields, part.key).Some?
            ==> Get(node, [part] + rest) == Get(Child(node, part), rest)
    ensures part.Index? && node.Arr? && part.idx < |node.items| ==> Get(node, [part] + rest) == Get(Child(node, part), rest)
  {
    hide At;
    assert ([part] + rest)[1..] == rest;
  }

  lemma GetWithChild(doc: Json, part: Part, x: Json, rest: Path)
    requires Canon(doc) && (part.Index? ==> part.idx < MAX_LENGTH)
    ensures Get(WithChild(doc, part, x), [part] + rest) == Get(x, rest)
  {
    hide Canon, InsertField, At, Get;
    GetChild(WithChild(doc, part, x), part, rest);
    if part.Key? { PutField(doc, part.key, x); }
    ChildLens(doc, part, x, x);
  }

  /** What was assigned is what is found. */
  lemma {:induction false} GetPut(doc: Json, path: Path, v: Json)
    requires Canon(doc)
    ensures Get(Put(doc, path, v), path) == Found(v)
    decreases path
  {
    hide Canon, Child, WithChild;
    if path != [] {
      var (part, rest) := (path[0], path[1..]);
      var child := Child(doc, part);
      assert path == [part] + rest;
      ChildLens(doc, part, child, child);
      GetWithChild(doc, part, Put(child, rest, v), rest);
      GetPut(child, rest, v);
    }
  }

  lemma FoundChild(doc: Json, path: Path)
    requires path != [] && Get(doc, path).Found? && Canon(doc)
    ensures Get(doc, path) == Get(Child(doc, path[0]), path[1..]) && Canon(Child(doc, path[0]))
    ensures WithChild(doc, path[0], Child(doc, path[0])) == doc
    ensures Ends(doc, path) == Ends(Child(doc, path[0]), path[1..])
  {
    ChildLens(doc, path[0], Null, Null);
  }

  /** Assigning what is there changes nothing. */
  lemma {:induction false} PutGet(doc: Json, path: Path)
    requires Canon(doc) && Get(doc, path).Found?
    ensures Ends(doc, path) == Done && Put(doc, path, Get(doc, path).value) == doc
    decreases path
  {
    if path != [] {
      FoundChild(doc, path);
      PutGet(Child(doc, path[0]), path[1..]);
      hide Canon, Child, WithChild, Get, Ends;
    }
  }

  /** The last assignment wins. */
  lemma {:induction false} PutPut(doc: Json, path: Path, v: Json, w: Json)
    requires Canon(doc)
    ensures Put(Put(doc, path, v), path, w) == Put(doc, path, w)
    decreases path
  {
    hide Canon, Child, WithChild;
    if path != [] {
      var child := Child(doc, path[0]);
      ChildLens(doc, path[0], Put(child, path[1..], v), Put(child, path[1..], w));
      PutPut(child, path[1..], v, w);
    }
  }

  predicate Prefix(a: Path, b: Path) { |a| <= |b| && b[..|a|] == a }

  lemma PrefixTail(a: Path, b: Path)
    requires a != [] && b != [] && a[0] == b[0] && Prefix(a[1..], b[1..])
    ensures Prefix(a, b)
  {
    assert b[..|a|] == [b[0]] + b[1..][..|a[1..]|] == [a[0]] + a[1..] == a;
  }

  /** A path that resolved before, and is neither above nor below the assigned one, keeps its value. */
  lemma {:induction false} PutFrame(doc: Json, path: Path, v: Json, q: Path)
    requires Canon(doc) && Ends(doc, path) == Done && Get(doc, q).Found?
    requires !Prefix(path, q) && !Prefix(q, path)
    ensures Get(Put(doc, path, v), q) == Get(doc, q)
    decreases path
  {
    var (child, rest) := (Child(doc, path[0]), path[1..]);
    FoundChild(doc, q);
    if path[0] == q[0] {
      if Prefix(rest, q[1..]) { PrefixTail(path, q); }
      if Prefix(q[1..], rest) { PrefixTail(q, path); }
      EndsChild(doc, path);
      PutFrame(child, rest, v, q[1..]);
      assert q == [q[0]] + q[1..];
      hide Canon, Child, WithChild, Get, Ends;
      GetWithChild(doc, path[0], Put(child, rest, v), q[1..]);
    } else {
      EndsType(doc, path);
      OtherChild(doc, path[0], Put(child, rest, v), q);
    }
  }

  lemma EndsChild(doc: Json, path: Path)
    requires path != [] && Ends(doc, path) == Done
    ensures Ends(Child(doc, path[0]), path[1..]) == Done
  {}

  lemma EndsType(node: Json, path: Path)
    requires path != [] && Ends(node, path) == Done
    ensures node.Null? || (if path[0].Key? then node.Obj? else node.Arr?)
  {}

  lemma OtherChild(doc: Json, part: Part, x: Json, q: Path)
    requires Canon(doc) && q != [] && q[0] != part && Get(doc, q).Found?
    requires doc.Null? || (if part.Key? then doc.Obj? else doc.Arr?)
    ensures Get(WithChild(doc, part, x), q) == Get(doc, q)
  {
    hide InsertField, At;
    if part.Key? && q[0].Key? { AtInsert(FieldsOf(doc), Field(part.key, x), q[0].key); }
  }

  /** What is beside a part of a path, at a node that was null or of the part's kind, once that part is
      there: the other members and elements are as they were, and the elements that an array gained before
      the one asked for are null. */
  function Beside(node: Json, part: Part, q: Path): Found
    requires q != []
  {
    match (part, q[0])
    case (Key(_), Key(k)) =>
      (match At(if node.Obj? then node.fields else [], k) case None => Missing case Some(x) => Get(x, q[1..]))
    case (Index(i), Index(j)) =>
      var n := if node.Arr? then |node.items| else 0;
      if j < n then Get(node.items[j], q[1..]) else if j < i then Get(Null, q[1..]) else Missing
    case _ => WrongType
  }

  lemma BesideChild(node: Json, part: Part, x: Json, q: Path)
    requires Canon(node) && q != [] && q[0] != part
    ensures Get(WithChild(node, part, x), q) == Beside(node, part, q)
  {
    hide InsertField, At, Canon;
    if part.Key? && q[0].Key? { BesideKey(node, part.key, x, q[0].key); }
  }

  lemma BesideKey(node: Json, k: Key, x: Json, other: Key)
    requires Canon(node) && other != k
    ensures At(InsertField(FieldsOf(node), Field(k, x)), other) == At(FieldsOf(node), other)
  {
    AtInsert(FieldsOf(node), Field(k, x), other);
  }

  /** Every path that leaves the assigned one at some part, found before or not: what it finds afterwards is
      told by the node at which it leaves. */
  lemma {:induction false} PutElsewhere(doc: Json, a: Path, part: Part, rest: Path, v: Json, q: Path)
    requires Canon(doc) && (part.Index? ==> part.idx < MAX_LENGTH) && q != [] && q[0] != part
    ensures Get(Put(doc, a + ([part] + rest), v), a + q) == Beside(NodeAt(doc, a), part, q)
    decreases a
  {
    hide Canon, Child, WithChild, Get, Beside;
    var path := [part] + rest;
    if a == [] {
      assert a + path == path && a + q == q && path[1..] == rest;
      BesideChild(doc, part, Put(Child(doc, part), rest, v), q);
    } else {
      Cons(a, path);
      Cons(a, q);
      var child := Child(doc, a[0]);
      ChildLens(doc, a[0], child, child);
      assert a + q == [a[0]] + (a[1..] + q);
      GetWithChild(doc, a[0], Put(child, a[1..] + path, v), a[1..] + q);
      PutElsewhere(child, a[1..], part, rest, v, q);
    }
  }

  // ---------------------------------------------------------------------------------------------
  // When Assign fails
  // ---------------------------------------------------------------------------------------------

  /** At step i of the path, the walk is at a node with no element 2^32 - 1 and is asked for it. */
  predicate AsksBeyond(doc: Json, path: Path, i: nat)
    requires i < |path|
  {
    var node := NodeAt(doc, path[..i]);
    && path[i] == Index(MAX_LENGTH - 1) && Ends(doc, path[..i]) == Done
    && (node.Null? || (node.Arr? && |node.items| <= MAX_LENGTH - 1))
  }

  /** At step i of the path, the walk is at a value that is neither null nor of the part's kind. */
  predicate WrongKind(doc: Json, path: Path, i: nat)
    requires i < |path|
  {
    var node := NodeAt(doc, path[..i]);
    && Ends(doc, path[..i]) == Done && !node.Null?
    && (if path[i].Key? then !node.Obj? else !node.Arr?)
  }

  lemma EndsFirst(doc: Json, path: Path)
    requires path != []
    ensures AsksBeyond(doc, path, 0) == (path[0] == Index(MAX_LENGTH - 1) && (doc.Null? || doc.Arr?) && |ItemsOf(doc)| <= path[0].idx)
    ensures WrongKind(doc, path, 0) <==> !doc.Null? && (if path[0].Key? then !doc.Obj? else !doc.Arr?)
    ensures WrongKind(doc, path, 0) ==> Ends(doc, path) == Mismatch
    ensures AsksBeyond(doc, path, 0) ==> Ends(doc, path) == Overflow
    ensures !WrongKind(doc, path, 0) && !AsksBeyond(doc, path, 0) ==> Ends(doc, path) == Ends(Child(doc, path[0]), path[1..])
  {
    hide At;
    assert path[..0] == [];
  }

  lemma EndsLater(doc: Json, path: Path, i: nat)
    requires 0 < i < |path| && !WrongKind(doc, path, 0) && !AsksBeyond(doc, path, 0)
    ensures AsksBeyond(doc, path, i) <==> AsksBeyond(Child(doc, path[0]), path[1..], i - 1)
    ensures WrongKind(doc, path, i) <==> WrongKind(Child(doc, path[0]), path[1..], i - 1)
  {
    var front := path[..i];
    assert front[0] == path[0] && front[1..] == path[1..][..i - 1] && path[1..][i - 1] == path[i];
    EndsFirst(doc, front);
    SameFirst(doc, path, front);
    hide Ends, Child;
  }

  lemma SameFirst(doc: Json, path: Path, front: Path)
    requires path != [] && front != [] && path[0] == front[0]
    ensures WrongKind(doc, front, 0) == WrongKind(doc, path, 0) && AsksBeyond(doc, front, 0) == AsksBeyond(doc, path, 0)
  {
    EndsFirst(doc, front);
    EndsFirst(doc, path);
  }

  lemma FirstFails(doc: Json, path: Path, i: nat)
    requires 0 < i < |path| && (WrongKind(doc, path, 0) || AsksBeyond(doc, path, 0))
    ensures !AsksBeyond(doc, path, i) && !WrongKind(doc, path, i)
  {
    var front := path[..i];
    EndsFirst(doc, front);
    SameFirst(doc, path, front);
  }

  /** Assign overflows if and only if it gets to a node that is asked for an element 2^32 - 1 it does not
      have, and mismatches if and only if it gets to a value of the wrong kind. */
  lemma {:induction false} FailsIff(doc: Json, path: Path)
    ensures Ends(doc, path) == Overflow <==> exists i: nat :: i < |path| && AsksBeyond(doc, path, i)
    ensures Ends(doc, path) == Mismatch <==> exists i: nat :: i < |path| && WrongKind(doc, path, i)
    decreases |path|
  {
    hide Ends, AsksBeyond, WrongKind, Child;
    if path == [] {
      NothingFails(doc);
    } else {
      EndsFirst(doc, path);
      if WrongKind(doc, path, 0) || AsksBeyond(doc, path, 0) {
        FirstOneFails(doc, path);
      } else {
        FailsIff(Child(doc, path[0]), path[1..]);
        LaterFails(doc, path);
      }
    }
  }

  lemma NothingFails(doc: Json)
    ensures Ends(doc, []) == Done
  {}

  lemma FirstOneFails(doc: Json, path: Path)
    requires path != [] && (WrongKind(doc, path, 0) || AsksBeyond(doc, path, 0))
    ensures (exists i: nat :: i < |path| && AsksBeyond(doc, path, i)) <==> AsksBeyond(doc, path, 0)
    ensures (exists i: nat :: i < |path| && WrongKind(doc, path, i)) <==> WrongKind(doc, path, 0)
    ensures !(WrongKind(doc, path, 0) && AsksBeyond(doc, path, 0))
  {
    EndsFirst(doc, path);
    forall i: nat | 0 < i < |path| ensures !AsksBeyond(doc, path, i) && !WrongKind(doc, path, i) { FirstFails(doc, path, i); }
  }

  lemma LaterFails(doc: Json, path: Path)
    requires path != [] && !WrongKind(doc, path, 0) && !AsksBeyond(doc, path, 0)
    ensures (exists i: nat :: i < |path| && AsksBeyond(doc, path, i))
            <==> exists i: nat :: i < |path[1..]| && AsksBeyond(Child(doc, path[0]), path[1..], i)
    ensures (exists i: nat :: i < |path| && WrongKind(doc, path, i))
            <==> exists i: nat :: i < |path[1..]| && WrongKind(Child(doc, path[0]), path[1..], i)
  {
    hide AsksBeyond, WrongKind, Child;
    var (child, rest) := (Child(doc, path[0]), path[1..]);
    forall i: nat | i < |rest|
      ensures AsksBeyond(doc, path, i + 1) <==> AsksBeyond(child, rest, i)
      ensures WrongKind(doc, path, i + 1) <==> WrongKind(child, rest, i)
    {
      EndsLater(doc, path, i + 1);
    }
    if i: nat :| i < |path| && AsksBeyond(doc, path, i) { assert AsksBeyond(child, rest, i - 1); }
    if i: nat :| i < |path| && WrongKind(doc, path, i) { assert WrongKind(child, rest, i - 1); }
    if i: nat :| i < |rest| && AsksBeyond(child, rest, i) { assert AsksBeyond(doc, path, i + 1); }
    if i: nat :| i < |rest| && WrongKind(child, rest, i) { assert WrongKind(doc, path, i + 1); }
  }

  /** Inputs that fail, and a family that never overflows: paths without that index. */
  lemma OverflowWitness(path: Path, doc: Json)
    ensures Ends(Null, [Index(MAX_LENGTH - 1)]) == Overflow && Ends(Bool(true), [Key([])]) == Mismatch
    ensures (forall i :: 0 <= i < |path| ==> path[i] != Index(MAX_LENGTH - 1)) ==> Ends(doc, path) != Overflow
  {
    FailsIff(doc, path);
  }

  // ---------------------------------------------------------------------------------------------
  // Steps on the way: writing through the cursor
  // ---------------------------------------------------------------------------------------------

  lemma {:induction false} NodeIsFound(doc: Json, path: Path)
    requires Get(doc, path).Found? && Canon(doc)
    ensures NodeAt(doc, path) == Get(doc, path).value && Canon(NodeAt(doc, path))
    decreases path
  {
    if path != [] {
      FoundChild(doc, path);
      NodeIsFound(Child(doc, path[0]), path[1..]);
    }
  }

  lemma Cons(p: Path, q: Path)
    requires p != []
    ensures (p + q)[0] == p[0] && (p + q)[1..] == p[1..] + q && p + q != []
  {}

  /** Assigning below a node is assigning the node. */
  lemma {:induction false} PutBelow(doc: Json, p: Path, q: Path, v: Json)
    ensures Put(doc, p + q, v) == Put(doc, p, Put(NodeAt(doc, p), q, v))
    decreases p
  {
    hide Child, WithChild;
    if p == [] {
      assert p + q == q;
    } else {
      Cons(p, q);
      PutBelow(Child(doc, p[0]), p[1..], q, v);
    }
  }

  lemma {:induction false} GetBelow(doc: Json, p: Path, q: Path)
    requires Get(doc, p).Found? && Canon(doc)
    ensures Get(doc, p + q) == Get(Get(doc, p).value, q)
    decreases p
  {
    if p == [] {
      assert p + q == q;
    } else {
      Cons(p, q);
      FoundChild(doc, p);
      GetBelow(Child(doc, p[0]), p[1..], q);
    }
  }

  /** One round of Assign's loop on the node under the cursor: the node afterwards. */
  function Opened(node: Json, part: Part): Json {
    match part
    case Key(k) => Obj(if At(FieldsOf(node), k).Some? then FieldsOf(node) else InsertField(FieldsOf(node), Field(k, Null)))
    case Index(i) => Arr(Resized(ItemsOf(node), i + 1))
  }

  lemma OnePart(node: Json, part: Part, rest: Path, v: Json)
    requires part.Index? ==> part.idx < MAX_LENGTH
    ensures NodeAt(node, [part]) == Child(node, part)
    ensures Put(node, [part] + rest, v) == WithChild(node, part, Put(Child(node, part), rest, v))
    ensures Ends(node, [part]) == Done ==> Ends(node, [part] + rest) == Ends(Child(node, part), rest)
  {
    Cons([part], rest);
    assert [part][1..] + rest == rest;
    hide At, WithChild;
  }

  lemma OpenedKey(node: Json, k: seq<byte>, x: Json)
    requires Canon(node)
    ensures var wide := Opened(node, Key(k));
            && Canon(wide) && At(wide.fields, k) == Some(Child(node, Key(k)))
            && WithChild(wide, Key(k), x) == WithChild(node, Key(k), x)
            && (wide != node ==> Child(node, Key(k)) == Null || !node.Obj?)
  {
    hide At, InsertField;
    PutField(node, k, Null);
    if At(FieldsOf(node), k).None? { InsertAgain(FieldsOf(node), k, Null, x); }
  }

  lemma OpenedIndex(node: Json, i: nat, x: Json)
    requires Canon(node)
    ensures var wide := Opened(node, Index(i));
            && Canon(wide) && |wide.items| > i && wide.items[i] == Child(node, Index(i))
            && WithChild(wide, Index(i), x) == WithChild(node, Index(i), x)
            && (wide != node ==> Child(node, Index(i)) == Null || !node.Arr?)
  {}

  lemma ChildOfNull(part: Part)
    ensures Child(Null, part) == Null
  {}

  lemma ChildThere(node: Json, part: Part)
    ensures part.Key? && node.Obj? ==> Child(node, part) == Or(At(node.fields, part.key))
    ensures part.Index? && node.Arr? && part.idx < |node.items| ==> Child(node, part) == node.items[part.idx]
  {}

  lemma OpenedIsPut(node: Json, part: Part, rest: Path, v: Json)
    requires Canon(node) && (part.Index? ==> part.idx < MAX_LENGTH) && Ends(node, [part]) == Done
    ensures Canon(Opened(node, part))
    ensures Get(Opened(node, part), [part]) == Found(NodeAt(node, [part]))
    ensures Put(Opened(node, part), [part] + rest, v) == Put(node, [part] + rest, v)
    ensures Opened(node, part) != node ==> NodeAt(node, [part]) == Null
    ensures Ends(node, [part] + rest) == Ends(NodeAt(node, [part]), rest)
  {
    assert Get(Child(node, part), []) == Found(Child(node, part)) && [part] + [] == [part];
    hide Get, Put, Ends, NodeAt, Canon, At, Child, WithChild, FieldsOf;
    var wide := Opened(node, part);
    OnePart(node, part, rest, v);
    OnePart(wide, part, rest, v);
    EndsType(node, [part]);
    ChildOfNull(part);
    GetChild(wide, part, []);
    ChildThere(wide, part);
    match part {
      case Key(k) => OpenedKey(node, k, Put(Child(node, part), rest, v));
      case Index(i) => OpenedIndex(node, i, Put(Child(node, part), rest, v));
    }
  }

  class Document {
    var root: Json

    /** Assign(path) = v.  The cursor is the path of the node it points to; every write through it
        is a write of the whole document at that path. */
    method Assign(path: Path, v: Json) returns (r: Outcome)
      requires Canon(root) && Canon(v)
      modifies this
      ensures r == Ends(old(root), path)
      ensures r == Done ==> root == Put(old(root), path, v) && Canon(root) && Get(root, path) == Found(v)
      ensures r == Mismatch ==> root == old(root)
    {
      hide Canon, Get, Put, Ends, Opened;
      ghost var was := root;
      assert path[..0] == [] && path[0..] == path && Get(root, []) == Found(root) by { NothingYet(root, path); }
      var i := 0;
      while i < |path|
        invariant i <= |path| && Canon(root)
        invariant Get(root, path[..i]).Found?
        invariant Put(root, path, v) == Put(was, path, v)
        invariant Ends(was, path) == Ends(Get(root, path[..i]).value, path[i..])
        invariant root != was ==> Get(root, path[..i]).value == Null
      {
        var cursor, part := path[..i], path[i];
        var node := Get(root, cursor).value;
        Stops(node, path, i);
        if part.Key? {
          if !node.Null? && !node.Obj? { return Mismatch; }
        } else {
          if !node.Null? && !node.Arr? { return Mismatch; }
          if |ItemsOf(node)| <= part.idx && part.idx == MAX_LENGTH - 1 { return Overflow; }
        }
        Round(root, path, i, v);
        root := Put(root, cursor, Opened(node, part));
        i := i + 1;
      }
      assert path[..i] == path && path[i..] == [];
      AtTheEnd();
      GetPut(was, path, v);
      PutCanon(was, path, v);
      root := Put(root, path, v);
      r := Done;
    }
  }

  lemma NothingYet(doc: Json, path: Path)
    ensures path[..0] == [] && path[0..] == path && Get(doc, []) == Found(doc)
  {}

  lemma AtTheEnd()
    ensures forall node :: Ends(node, []) == Done
  {}

  /** What stops the walk at a node: the wrong type, or the one index that overflows. */
  lemma Stops(node: Json, path: Path, i: nat)
    requires i < |path|
    ensures var wrong := !node.Null? && (if path[i].Key? then !node.Obj? else !node.Arr?);
            var overflow := path[i].Index? && |ItemsOf(node)| <= path[i].idx && path[i].idx == MAX_LENGTH - 1;
            if wrong then Ends(node, path[i..]) == Mismatch
            else if overflow then Ends(node, path[i..]) == Overflow
            else Ends(node, [path[i]]) == Done
  {
    hide At;
    assert path[i..][0] == path[i];
  }

  lemma Round(doc: Json, path: Path, i: nat, v: Json)
    requires Canon(doc) && i < |path| && Get(doc, path[..i]).Found? && Ends(Get(doc, path[..i]).value, [path[i]]) == Done
    ensures var node := Get(doc, path[..i]).value;
            var next := Put(doc, path[..i], Opened(node, path[i]));
            && Canon(next)
            && Get(next, path[..i + 1]) == Found(NodeAt(node, [path[i]]))
            && Put(next, path, v) == Put(doc, path, v)
            && Ends(node, path[i..]) == Ends(NodeAt(node, [path[i]]), path[i + 1..])
            && (next == doc || NodeAt(node, [path[i]]) == Null)
  {
    hide Put, Get, Ends, NodeAt, Opened, Canon;
    var (p, part, rest) := (path[..i], path[i], path[i + 1..]);
    var node := Get(doc, p).value;
    var wide := Opened(node, part);
    var next := Put(doc, p, wide);
    assert path == p + path[i..] && path[i..] == [part] + rest && path[..i + 1] == p + [part];
    NodeIsFound(doc, p);
    OpenedIsPut(node, part, rest, v);
    PutCanon(doc, p, wide);
    GetPut(doc, p, wide);
    GetBelow(next, p, [part]);
    PutBelow(doc, p, path[i..], v);
    PutBelow(next, p, path[i..], v);
    NodeIsFound(next, p);
    PutPut(doc, p, wide, Put(node, path[i..], v));
    if wide == node { PutGet(doc, p); }
  }
}
