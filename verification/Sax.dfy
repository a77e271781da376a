/** The event-driven builder as a stack machine, and the tree it builds. */
module Sax {
  import opened Wrappers
  import opened JsonTree
  import opened SortedObject
  import opened SortedMap
  import opened MergePatch

  datatype Tag = Val | ArrTag | ObjTag

  datatype Frame = Frame(tag: Tag, items: seq<Json>, fields: seq<Field>, key: Key)

  datatype Machine = Machine(stack: seq<Frame>, current: Frame, result: Json)

  datatype Event = Scalar(v: Json) | Key(k: Key) | StartArray | EndArray | StartObject | EndObject

  /** `Misuse` is an end event that the parser never sends: the code's assertions. */
  datatype Outcome = Going(m: Machine) | TooDeep | Misuse

  /** doAdd */
  function Add(m: Machine, v: Json): Machine {
    match m.current.tag
    case Val => m.(result := v)
    case ArrTag => m.(current := m.current.(items := m.current.items + [v]))
    case ObjTag => m.(current := m.current.(fields := InsertField(m.current.fields, Field(m.current.key, v))))
  }

  function Push(m: Machine, tag: Tag, maxDepth: nat): Outcome {
    if |m.stack| == maxDepth then TooDeep
    else Going(m.(stack := m.stack + [m.current], current := Frame(tag, [], [], [])))
  }

  function Pop(m: Machine, tag: Tag, v: Json): Outcome {
    if m.stack == [] || m.current.tag != tag then Misuse
    else Going(Add(m.(stack := m.stack[..|m.stack| - 1], current := m.stack[|m.stack| - 1]), v))
  }

  function Step(m: Machine, e: Event, maxDepth: nat): Outcome {
    match e
    case Scalar(v) => Going(Add(m, v))
    case Key(k) => Going(m.(current := m.current.(key := k)))
    case StartArray => Push(m, ArrTag, maxDepth)
    case StartObject => Push(m, ObjTag, maxDepth)
    case EndArray => Pop(m, ArrTag, Arr(m.current.items))
    case EndObject => Pop(m, ObjTag, Obj(m.current.fields))
  }

  function Run(m: Machine, es: seq<Event>, maxDepth: nat): Outcome
    decreases es
  {
    if es == [] then Going(m)
    else
      var next := Step(m, es[0], maxDepth);
      if next.Going? then Run(next.m, es[1..], maxDepth) else next
  }

  function Then(o: Outcome, es: seq<Event>, maxDepth: nat): Outcome {
    if o.Going? then Run(o.m, es, maxDepth) else o
  }

  lemma {:induction false} RunConcat(m: Machine, a: seq<Event>, b: seq<Event>, maxDepth: nat)
    ensures Run(m, a + b, maxDepth) == Then(Run(m, a, maxDepth), b, maxDepth)
    decreases a
  {
    if a == [] {
      assert a + b == b;
    } else {
      assert (a + b)[0] == a[0] && (a + b)[1..] == a[1..] + b;
      var next := Step(m, a[0], maxDepth);
      if next.Going? { RunConcat(next.m, a[1..], b, maxDepth); }
    }
  }

  // ---------------------------------------------------------------------------------------------
  // Documents as texts list them: members in any order, keys repeated
  // ---------------------------------------------------------------------------------------------

  function Events(v: Json): seq<Event>
    decreases v, 0
  {
    match v
    case Arr(items) => [StartArray] + (ItemEvents(items) + [EndArray])
    case Obj(fs) => [StartObject] + (FieldEvents(fs) + [EndObject])
    case _ => [Scalar(v)]
  }

  function ItemEvents(items: seq<Json>): seq<Event>
    decreases items, 1
  {
    if items == [] then [] else Events(items[0]) + ItemEvents(items[1..])
  }

  function FieldEvents(fs: seq<Field>): seq<Event>
    decreases fs, 1
  {
    if fs == [] then [] else [Event.Key(fs[0].key)] + (Events(fs[0].value) + FieldEvents(fs[1..]))
  }

  /** The recursive build: members inserted one by one into a sorted object. */
  function Build(v: Json): Json
    decreases v, 0
  {
    match v
    case Arr(items) => Arr(BuildItems(items))
    case Obj(fs) => Obj(InsertAll([], BuildFields(fs)))
    case _ => v
  }

  function BuildItems(items: seq<Json>): (r: seq<Json>)
    ensures |r| == |items|
    decreases items, 1
  {
    if items == [] then [] else [Build(items[0])] + BuildItems(items[1..])
  }

  function BuildFields(fs: seq<Field>): (r: seq<Field>)
    ensures |r| == |fs|
    decreases fs, 1
  {
    if fs == [] then [] else [Field(fs[0].key, Build(fs[0].value))] + BuildFields(fs[1..])
  }

  /** How many containers are open at once. */
  function Nesting(v: Json): nat
    decreases v, 0
  {
    match v
    case Arr(items) => 1 + ItemsNesting(items)
    case Obj(fs) => 1 + FieldsNesting(fs)
    case _ => 0
  }

  function ItemsNesting(items: seq<Json>): nat
    decreases items, 1
  {
    if items == [] then 0 else Max(Nesting(items[0]), ItemsNesting(items[1..]))
  }

  function FieldsNesting(fs: seq<Field>): nat
    decreases fs, 1
  {
    if fs == [] then 0 else Max(Nesting(fs[0].value), FieldsNesting(fs[1..]))
  }

  // ---------------------------------------------------------------------------------------------
  // The machine builds the tree
  // ---------------------------------------------------------------------------------------------

  /** From any state, the events of a tree restore the stack and add exactly the tree; a tree nested
      too deep raises the depth error; the assertions never fail. */
  lemma {:induction false} EventsBuild(m: Machine, v: Json, maxDepth: nat)
    requires |m.stack| <= maxDepth
    ensures Run(m, Events(v), maxDepth)
            == if |m.stack| + Nesting(v) <= maxDepth then Going(Add(m, Build(v))) else TooDeep
    decreases v, 0
  {
    match v {
      case Arr(items) =>
        if |m.stack| < maxDepth {
          var inner := Push(m, ArrTag, maxDepth).m;
          ItemsBuild(inner, items, maxDepth);
          Bracket(m, StartArray, ItemEvents(items), EndArray, maxDepth);
          Closing(Run(inner, ItemEvents(items), maxDepth), EndArray, maxDepth);
          Restored(m);
          assert [] + BuildItems(items) == BuildItems(items);
        }
      case Obj(fs) =>
        if |m.stack| < maxDepth {
          var inner := Push(m, ObjTag, maxDepth).m;
          FieldsBuild(inner, fs, maxDepth);
          Bracket(m, StartObject, FieldEvents(fs), EndObject, maxDepth);
          Closing(Run(inner, FieldEvents(fs), maxDepth), EndObject, maxDepth);
          Restored(m);
        }
      case _ => OneEvent(m, Scalar(v), maxDepth);
    }
  }

  /** Where a value goes: alone it is the result, in an array it comes last, in an object it replaces what its
      key had.  Nothing else changes. */
  lemma AddMeans(m: Machine, v: Json)
    requires SortedFields(m.current.fields)
    ensures var n := Add(m, v);
            && n.stack == m.stack && n.current.tag == m.current.tag && n.current.key == m.current.key
            && n.result == (if m.current.tag == Val then v else m.result)
            && n.current.items == (if m.current.tag == ArrTag then m.current.items + [v] else m.current.items)
            && SortedFields(n.current.fields)
            && forall k :: At(n.current.fields, k)
                           == if m.current.tag == ObjTag && k == m.current.key then Some(v) else At(m.current.fields, k)
  {
    if m.current.tag == ObjTag {
      InsertKeepsSorted(m.current.fields, Field(m.current.key, v));
      forall k { AtInsert(m.current.fields, Field(m.current.key, v), k); }
    }
    hide At, InsertField;
  }

  const Fresh := Machine([], Frame(Val, [], [], []), Null)

  /** A whole document: from the machine as it is made, the events of a tree leave the tree as the result. */
  lemma DocumentBuild(v: Json, maxDepth: nat)
    ensures Run(Fresh, Events(v), maxDepth)
            == if Nesting(v) <= maxDepth then Going(Machine([], Frame(Val, [], [], []), Build(v))) else TooDeep
  {
    EventsBuild(Fresh, v, maxDepth);
  }

  lemma Restored(m: Machine)
    ensures (m.stack + [m.current])[..|m.stack|] == m.stack
  {}

  lemma OneEvent(m: Machine, e: Event, maxDepth: nat)
    ensures Run(m, [e], maxDepth) == Step(m, e, maxDepth)
  {
    hide Step;
    assert [e][1..] == [];
  }

  lemma Closing(o: Outcome, e: Event, maxDepth: nat)
    ensures Then(o, [e], maxDepth) == if o.Going? then Step(o.m, e, maxDepth) else o
  {
    if o.Going? { OneEvent(o.m, e, maxDepth); }
  }

  lemma Bracket(m: Machine, open: Event, body: seq<Event>, close: Event, maxDepth: nat)
    ensures Run(m, [open] + (body + [close]), maxDepth)
            == Then(Then(Step(m, open, maxDepth), body, maxDepth), [close], maxDepth)
  {
    hide Step;
    var all := [open] + (body + [close]);
    assert all[0] == open && all[1..] == body + [close];
    var first := Step(m, open, maxDepth);
    if first.Going? {
      RunConcat(first.m, body, [close], maxDepth);
    }
  }

  lemma {:induction false} ItemsBuild(m: Machine, items: seq<Json>, maxDepth: nat)
    requires |m.stack| <= maxDepth && m.current.tag == ArrTag
    ensures Run(m, ItemEvents(items), maxDepth)
            == if |m.stack| + ItemsNesting(items) <= maxDepth
               then Going(m.(current := m.current.(items := m.current.items + BuildItems(items)))) else TooDeep
    decreases items, 1
  {
    hide Step, Events, Build, Nesting;
    if items == [] {
      assert m.current.items + [] == m.current.items;
    } else {
      RunConcat(m, Events(items[0]), ItemEvents(items[1..]), maxDepth);
      EventsBuild(m, items[0], maxDepth);
      var next := Add(m, Build(items[0]));
      ItemsBuild(next, items[1..], maxDepth);
      assert m.current.items + [Build(items[0])] + BuildItems(items[1..]) == m.current.items + BuildItems(items);
    }
  }

  lemma {:induction false} FieldsBuild(m: Machine, fs: seq<Field>, maxDepth: nat)
    requires |m.stack| <= maxDepth && m.current.tag == ObjTag
    ensures var r := Run(m, FieldEvents(fs), maxDepth);
            if |m.stack| + FieldsNesting(fs) <= maxDepth
            then r.Going? && r.m == m.(current := m.current.(fields := InsertAll(m.current.fields, BuildFields(fs)),
                                                             key := r.m.current.key))
            else r == TooDeep
    decreases fs, 1
  {
    if fs != [] {
      var (k, v, rest) := (fs[0].key, fs[0].value, FieldEvents(fs[1..]));
      var keyed := m.(current := m.current.(key := k));
      RunCons(m, Event.Key(k), Events(v) + rest, maxDepth);
      RunConcat(keyed, Events(v), rest, maxDepth);
      EventsBuild(keyed, v, maxDepth);
      FieldsBuild(Add(keyed, Build(v)), fs[1..], maxDepth);
      assert BuildFields(fs)[0] == Field(k, Build(v)) && BuildFields(fs)[1..] == BuildFields(fs[1..]);
    }
  }

  lemma RunCons(m: Machine, e: Event, es: seq<Event>, maxDepth: nat)
    ensures Run(m, [e] + es, maxDepth)
            == Then(Step(m, e, maxDepth), es, maxDepth)
  {
    hide Step;
    assert ([e] + es)[1..] == es;
  }

  // ---------------------------------------------------------------------------------------------
  // What was built
  // ---------------------------------------------------------------------------------------------

  /** The build is canonical: keys strictly sorted everywhere, the last of a repeated key kept. */
  lemma {:induction false} BuildIsCanonical(v: Json)
    ensures Canon(Build(v))
    ensures v.Obj? ==> Build(v).Obj? && Dict(Build(v).fields) == Dict(BuildFields(v.fields))
    decreases v, 0
  {
    match v {
      case Arr(items) =>
        forall i | 0 <= i < |items| ensures Canon(BuildItems(items)[i]) {
          BuildItemsAt(items, i);
          BuildIsCanonical(items[i]);
        }
      case Obj(fs) =>
        forall i | 0 <= i < |fs| ensures Canon(BuildFields(fs)[i].value) {
          BuildFieldsAt(fs, i);
          BuildIsCanonical(fs[i].value);
        }
        SortedCanon(BuildFields(fs));
      case _ =>
    }
  }

  lemma SortedCanon(built: seq<Field>)
    requires forall i :: 0 <= i < |built| ==> Canon(built[i].value)
    ensures var r := InsertAll([], built);
            Dict(r) == Dict(built) && SortedFields(r) && forall i :: 0 <= i < |r| ==> Canon(r[i].value)
  {
    hide Canon, Dict, InsertAll;
    InsertAllIsDict([], built);
    assert [] + built == built;
    var r := InsertAll([], built);
    forall i | 0 <= i < |r| ensures Canon(r[i].value) {
      DictAt(r, i);
      DictFrom(built, r[i].key);
    }
  }

  lemma {:induction false} BuildItemsAt(items: seq<Json>, i: nat)
    requires i < |items|
    ensures BuildItems(items)[i] == Build(items[i])
  {
    if i > 0 { BuildItemsAt(items[1..], i - 1); }
  }

  lemma {:induction false} BuildFieldsAt(fs: seq<Field>, i: nat)
    requires i < |fs|
    ensures BuildFields(fs)[i] == Field(fs[i].key, Build(fs[i].value))
  {
    if i > 0 { BuildFieldsAt(fs[1..], i - 1); }
  }

  /** Member by member: scalars stay, elements keep their places, and a key has the build of the last value
      that was sent for it, or nothing if none was. */
  lemma BuildMeans(v: Json)
    ensures match v
            case Arr(items) =>
              var r := Build(v);
              r.Arr? && |r.items| == |items| && forall i :: 0 <= i < |items| ==> r.items[i] == Build(items[i])
            case Obj(fs) =>
              var r := Build(v);
              && r.Obj?
              && (forall i :: 0 <= i < |fs| && (forall j :: i < j < |fs| ==> fs[j].key != fs[i].key)
                    ==> At(r.fields, fs[i].key) == Some(Build(fs[i].value)))
              && (forall k :: (forall i :: 0 <= i < |fs| ==> fs[i].key != k) ==> At(r.fields, k) == None)
            case _ => Build(v) == v
  {
    match v {
      case Arr(items) => forall i | 0 <= i < |items| { BuildItemsAt(items, i); }
      case Obj(fs) => ObjectMeans(fs);
      case _ =>
    }
  }

  lemma ObjectMeans(fs: seq<Field>)
    ensures var r := Build(Obj(fs));
            && r.Obj?
            && (forall i :: 0 <= i < |fs| && (forall j :: i < j < |fs| ==> fs[j].key != fs[i].key)
                  ==> At(r.fields, fs[i].key) == Some(Build(fs[i].value)))
            && (forall k :: (forall i :: 0 <= i < |fs| ==> fs[i].key != k) ==> At(r.fields, k) == None)
  {
    BuildIsCanonical(Obj(fs));
    var (built, r) := (BuildFields(fs), Build(Obj(fs)).fields);
    forall i | 0 <= i < |fs| ensures built[i] == Field(fs[i].key, Build(fs[i].value)) { BuildFieldsAt(fs, i); }
    assert SortedFields(r) && Dict(r) == Dict(built);
    hide Build, BuildFields, Dict, At, SortedFields, Canon;
    forall i | 0 <= i < |fs| && forall j :: i < j < |fs| ==> fs[j].key != fs[i].key
      ensures At(r, fs[i].key) == Some(Build(fs[i].value))
    {
      LastWins(built, i);
      AtIsDict(r, fs[i].key);
    }
    forall k | forall i :: 0 <= i < |fs| ==> fs[i].key != k ensures At(r, k) == None {
      DictLacks(built, k);
      AtIsDict(r, k);
    }
  }

  lemma {:induction false} LastWins(fs: seq<Field>, i: nat)
    requires i < |fs| && forall j :: i < j < |fs| ==> fs[j].key != fs[i].key
    ensures fs[i].key in Dict(fs) && Dict(fs)[fs[i].key] == fs[i].value
  {
    if i < |fs| - 1 { LastWins(fs[..|fs| - 1], i); }
  }

  /** A canonical document comes back as it was. */
  lemma {:induction false} BuildCanonical(v: Json)
    requires Canon(v)
    ensures Build(v) == v
    decreases v
  {
    match v {
      case Arr(items) =>
        forall i | 0 <= i < |items| ensures BuildItems(items)[i] == items[i] {
          BuildItemsAt(items, i);
          BuildCanonical(items[i]);
        }
      case Obj(fs) =>
        forall i | 0 <= i < |fs| ensures BuildFields(fs)[i] == fs[i] {
          BuildFieldsAt(fs, i);
          BuildCanonical(fs[i].value);
        }
        assert BuildFields(fs) == fs;
        InsertAnyOrder(fs, fs);
      case _ =>
    }
  }
}
