/** The builder as it runs: frames with growing buffers, updated in place by every event. */
module SaxCode {
  import opened JsonTree
  import opened SortedObject
  import opened Sax

  /** A State of the handler; a null buffer is one of length 0. */
  datatype State = State(tag: Tag, arr: array<Json>, obj: array<Field>, size: nat, key: seq<byte>)

  ghost predicate Fits(s: State)
    reads s.arr, s.obj
  {
    match s.tag
    case Val => true
    case ArrTag => s.size <= s.arr.Length
    case ObjTag => s.size <= s.obj.Length && SortedFields(s.obj[..s.size])
  }

  ghost function FrameOf(s: State): Frame
    reads s.arr, s.obj
    requires Fits(s)
  {
    Frame(s.tag, if s.tag == ArrTag then s.arr[..s.size] else [], if s.tag == ObjTag then s.obj[..s.size] else [], s.key)
  }

  ghost function BuffersOf(ss: seq<State>): set<object> {
    if ss == [] then {}
    else BuffersOf(ss[..|ss| - 1]) + {ss[|ss| - 1].arr as object, ss[|ss| - 1].obj as object}
  }

  /** A state that shares no buffer with the others. */
  ghost predicate Apart(ss: seq<State>, s: State) {
    s.arr as object !in BuffersOf(ss) && s.obj as object !in BuffersOf(ss)
  }

  /** The stacked states stand for these frames, and own their buffers. */
  ghost predicate Stacked(ss: seq<State>, frames: seq<Frame>)
    reads BuffersOf(ss)
  {
    if ss == [] then frames == []
    else
      var (n, last) := (|ss| - 1, ss[|ss| - 1]);
      && |frames| == |ss| && Fits(last) && FrameOf(last) == frames[n]
      && Apart(ss[..n], last) && Stacked(ss[..n], frames[..n])
  }

  lemma StackedPush(ss: seq<State>, frames: seq<Frame>, s: State)
    requires Stacked(ss, frames) && Fits(s) && Apart(ss, s)
    ensures Stacked(ss + [s], frames + [FrameOf(s)])
    ensures BuffersOf(ss + [s]) == BuffersOf(ss) + {s.arr as object, s.obj as object}
    ensures |frames| == |ss|
  {
    assert (ss + [s])[..|ss|] == ss && (frames + [FrameOf(s)])[..|ss|] == frames;
  }

  lemma StackedPop(ss: seq<State>, frames: seq<Frame>)
    requires Stacked(ss, frames) && ss != []
    ensures var n := |ss| - 1;
            && |frames| == |ss| && Fits(ss[n]) && FrameOf(ss[n]) == frames[n]
            && Apart(ss[..n], ss[n]) && Stacked(ss[..n], frames[..n])
            && BuffersOf(ss) == BuffersOf(ss[..n]) + {ss[n].arr as object, ss[n].obj as object}
  {}

  class SaxHandler {
    var stack: seq<State>
    var current: State
    var result: Json
    const maxDepth: nat
    ghost var frames: seq<Frame>
    ghost var stacked: set<object>

    ghost function Buffers(): set<object>
      reads this
    {
      {current.arr as object, current.obj as object} + stacked
    }

    ghost predicate Valid()
      reads this, Buffers()
    {
      && Fits(current) && |stack| == |frames| <= maxDepth && stacked == BuffersOf(stack) && this !in stacked
      && Stacked(stack, frames) && Apart(stack, current)
    }

    ghost function Abs(): Machine
      reads this, Buffers()
      requires Valid()
    {
      Machine(frames, FrameOf(current), result)
    }

    constructor (maxDepth: nat)
      ensures Valid() && fresh(Buffers()) && this.maxDepth == maxDepth
      ensures Abs() == Fresh && current.tag == Val
    {
      this.maxDepth, stack, result, frames, stacked := maxDepth, [], Null, [], {};
      var a, o := new Json[0], new Field[0];
      current := State(Val, a, o, 0, []);
    }

    /** Double a full buffer, from nothing to two slots. */
    method GrowArray()
      requires Valid() && current.tag == ArrTag && current.size == current.arr.Length
      modifies this`current
      ensures Valid() && Abs() == old(Abs()) && current.tag == ArrTag && current.size < current.arr.Length
      ensures fresh(current.arr) && current.obj == old(current.obj)
    {
      hide Stacked, BuffersOf;
      var bigger := new Json[if current.arr.Length > 0 then current.arr.Length * 2 else 2];
      for i := 0 to current.size
        invariant bigger[..i] == current.arr[..i]
        modifies bigger
      {
        bigger[i] := current.arr[i];
      }
      current := current.(arr := bigger);
    }

    method GrowObject()
      requires Valid() && current.tag == ObjTag && current.size == current.obj.Length
      modifies this`current
      ensures Valid() && Abs() == old(Abs()) && current.tag == ObjTag && current.size < current.obj.Length
      ensures fresh(current.obj) && current.arr == old(current.arr)
    {
      hide Stacked, BuffersOf;
      var bigger := new Field[if current.obj.Length > 0 then current.obj.Length * 2 else 2];
      for i := 0 to current.size
        invariant bigger[..i] == current.obj[..i]
        modifies bigger
      {
        bigger[i] := current.obj[i];
      }
      current := current.(obj := bigger);
    }

    method AppendToArray(v: Json)
      requires Valid() && current.tag == ArrTag
      modifies this`current, current.arr
      ensures Valid() && Abs() == Add(old(Abs()), v) && current.obj == old(current.obj)
      ensures current.arr == old(current.arr) || fresh(current.arr)
    {
      hide Stacked, BuffersOf;
      if current.size == current.arr.Length { GrowArray(); }
      ghost var was := current.arr[..current.size];
      current.arr[current.size] := v;
      current := current.(size := current.size + 1);
      assert current.arr[..current.size] == was + [v];
    }

    method AppendToObject(v: Json)
      requires Valid() && current.tag == ObjTag
      modifies this`current, current.obj
      ensures Valid() && Abs() == Add(old(Abs()), v) && current.arr == old(current.arr)
      ensures current.obj == old(current.obj) || fresh(current.obj)
    {
      hide Stacked, BuffersOf;
      if current.size == current.obj.Length { GrowObject(); }
      InsertValue(v);
    }

    /** With a slot to spare. */
    method InsertValue(v: Json)
      requires Valid() && current.tag == ObjTag && current.size < current.obj.Length
      modifies this`current, current.obj
      ensures Valid() && Abs() == Add(old(Abs()), v)
      ensures current.arr == old(current.arr) && current.obj == old(current.obj)
    {
      hide Stacked, BuffersOf, InsertField, Less, LowerBound;
      ghost var was := current.obj[..current.size];
      var f := Field(current.key, v);
      InsertKeepsSorted(was, f);
      var size := InsertInto(current.obj, current.size, f);
      current := current.(size := size);
    }

    method InsertInto(obj: array<Field>, size: nat, f: Field) returns (newSize: nat)
      requires size < obj.Length && SortedFields(obj[..size])
      modifies obj
      ensures newSize <= obj.Length && obj[..newSize] == InsertField(old(obj[..size]), f)
    {
      hide InsertField, SortedFields, Less, LowerBound;
      newSize := SortedInsertJson(obj, size, f);
    }

    method DoAdd(v: Json)
      requires Valid()
      modifies this`current, this`result, current.arr, current.obj
      ensures Valid() && Abs() == Add(old(Abs()), v)
      ensures fresh(Buffers() - old(Buffers()))
    {
      hide Stacked, BuffersOf;
      if current.tag == Val {
        result := v;
      } else if current.tag == ObjTag {
        AppendToObject(v);
      } else {
        AppendToArray(v);
      }
    }

    method DoPush(tag: Tag) returns (ok: bool)
      requires Valid()
      modifies this
      ensures Valid() && fresh(Buffers() - old(Buffers()))
      ensures ok ==> Push(old(Abs()), tag, maxDepth) == Going(Abs())
      ensures !ok ==> Push(old(Abs()), tag, maxDepth) == TooDeep
    {
      hide Stacked, BuffersOf;
      StackedPush(stack, frames, current);
      if |stack| == maxDepth { return false; }
      ghost var frame := FrameOf(current);
      stack, frames, stacked := stack + [current], frames + [frame], Buffers();
      var a, o := new Json[0], new Field[0];
      current := State(tag, a, o, 0, []);
      ok := true;
    }

    method DoPop(v: Json)
      requires Valid() && stack != []
      modifies this, Buffers()
      ensures Valid() && fresh(Buffers() - old(Buffers()))
      ensures |old(frames)| == |old(stack)|
      ensures Abs() == Add(old(Abs()).(stack := old(frames)[..|old(frames)| - 1], current := old(frames)[|old(frames)| - 1]), v)
    {
      hide Stacked, BuffersOf;
      StackedPop(stack, frames);
      current := stack[|stack| - 1];
      stack, frames := stack[..|stack| - 1], frames[..|frames| - 1];
      stacked := BuffersOf(stack);
      DoAdd(v);
    }

    /** One event; `false` stands for DepthError. */
    method Handle(e: Event) returns (ok: bool)
      requires Valid() && Step(Abs(), e, maxDepth) != Misuse
      modifies this, Buffers()
      ensures Valid() && fresh(Buffers() - old(Buffers()))
      ensures ok ==> Step(old(Abs()), e, maxDepth) == Going(Abs())
      ensures !ok ==> Step(old(Abs()), e, maxDepth) == TooDeep
    {
      hide Stacked, BuffersOf;
      ok := true;
      match e {
        case Scalar(v) => DoAdd(v);
        case Key(k) => current := current.(key := k);
        case StartArray => ok := DoPush(ArrTag);
        case StartObject => ok := DoPush(ObjTag);
        case EndArray => DoPop(Arr(current.arr[..current.size]));
        case EndObject => DoPop(Obj(current.obj[..current.size]));
      }
    }

    /** The events of one document, from any state of the builder: the tree that a recursive build
        gives is added, or DepthError is raised, whatever the buffers had to do. */
    method HandleTree(v: Json) returns (ok: bool)
      requires Valid()
      modifies this, Buffers()
      ensures Valid() && fresh(Buffers() - old(Buffers()))
      ensures ok <==> |old(Abs()).stack| + Nesting(v) <= maxDepth
      ensures ok ==> Abs() == Add(old(Abs()), Build(v))
      ensures ok && old(current.tag) == Val ==> result == Build(v)
    {
      hide Step, Run, Events, Build, Nesting, Valid, Abs, Add;
      ghost var start := Abs();
      AbsParts();
      Bounded();
      AddAlone(start, Build(v));
      EventsBuild(start, v, maxDepth);
      var es := Events(v);
      assert es[0..] == es;
      var i := 0;
      while i < |es|
        invariant i <= |es| && Valid() && fresh(Buffers() - old(Buffers()))
        invariant Run(Abs(), es[i..], maxDepth) == Run(start, es, maxDepth)
      {
        RunAt(Abs(), es, i, maxDepth);
        ok := Handle(es[i]);
        if !ok { return; }
        i := i + 1;
      }
      RunAtEnd(Abs(), es[i..], maxDepth);
      AbsParts();
      ok := true;
    }

    lemma AbsParts()
      requires Valid()
      ensures Abs().result == result && Abs().current.tag == current.tag
    {}

    lemma Bounded()
      requires Valid()
      ensures |Abs().stack| <= maxDepth
    {}
  }

  lemma AddAlone(m: Machine, v: Json)
    ensures m.current.tag == Val ==> Add(m, v).result == v
  {}

  lemma RunAt(m: Machine, es: seq<Event>, i: nat, maxDepth: nat)
    requires i < |es|
    ensures var next := Step(m, es[i], maxDepth);
            Run(m, es[i..], maxDepth) == if next.Going? then Run(next.m, es[i + 1..], maxDepth) else next
  {
    assert es[i..][1..] == es[i + 1..];
  }

  lemma RunAtEnd(m: Machine, es: seq<Event>, maxDepth: nat)
    requires |es| == 0
    ensures Run(m, es, maxDepth) == Going(m)
  {}
}
