/** The parser as it runs: recursive calls that share and advance one pointer into the input. */
module MsgPackParser {
  import opened JsonTree
  import opened SortedObject
  import opened MsgPackFormat

  /** What parseOne returns: a view, or a discarded view carrying the reason. */
  datatype View<+T> = View(value: T) | Discarded(reason: ParseError)

  /** The specification's result without the stopping point and the history. */
  function Seen<T>(r: Parsed<T>): View<T> {
    match r case Ok(v, _, _) => View(v) case Fail(e, _) => Discarded(e)
  }

  /** What is left to read decides the whole, once `done` has been read. */
  function Prepend(done: seq<Json>, r: Parsed<seq<Json>>): Parsed<seq<Json>> {
    match r case Ok(vs, p, _) => Ok(done + vs, p, true) case Fail(e, p) => Fail(e, p)
  }

  function Anyhow<T>(r: Parsed<T>): Parsed<T> {
    match r case Ok(v, p, _) => Ok(v, p, true) case Fail(_, _) => r
  }

  lemma ItemsStep(bs: seq<byte>, pos: nat, count: nat, depth: nat, done: seq<Json>)
    requires pos <= |bs| && count > 0
    ensures var one := ParseOne(bs, pos, depth);
            Prepend(done, ParseItems(bs, pos, count, depth))
            == if one.Fail? then Fail(one.error, one.pos)
               else Prepend(done + [one.value], ParseItems(bs, one.pos, count - 1, depth))
  {
    hide ParseOne;
    var one := ParseOne(bs, pos, depth);
    if one.Ok? {
      var rest := ParseItems(bs, one.pos, count - 1, depth);
      if rest.Ok? { assert done + ([one.value] + rest.value) == done + [one.value] + rest.value; }
    }
  }

  lemma NothingPrepended(r: Parsed<seq<Json>>)
    ensures AsArr(Prepend([], r)).pos == AsArr(r).pos && Seen(AsArr(Prepend([], r))) == Seen(AsArr(r))
  {
    if r.Ok? { assert [] + r.value == r.value; }
  }

  lemma ItemsEnd(bs: seq<byte>, pos: nat, depth: nat, done: seq<Json>)
    requires pos <= |bs|
    ensures Prepend(done, ParseItems(bs, pos, 0, depth)) == Ok(done, pos, true)
  {
    assert done + [] == done;
  }

  lemma FieldsStep(bs: seq<byte>, pos: nat, count: nat, acc: seq<Field>, depth: nat)
    requires pos <= |bs| && FieldsFit(acc, depth) && count > 0
    ensures var key := ParseOne(bs, pos, depth);
            var whole := Anyhow(ParseFields(bs, pos, count, acc, depth));
            if key.Fail? then whole == Fail(key.error, key.pos)
            else if !key.value.Str? then whole == Fail(KeyNotString, key.pos)
            else
              var value := ParseOne(bs, key.pos, depth);
              if value.Fail? then whole == Fail(value.error, value.pos)
              else
                var acc' := InsertField(acc, Field(key.value.s, value.value));
                FieldsFit(acc', depth) && |acc'| <= |acc| + 1
                && whole == Anyhow(ParseFields(bs, value.pos, count - 1, acc', depth))
  {
    hide ParseOne, InsertField, FieldsFit;
    var key := ParseOne(bs, pos, depth);
    if key.Ok? && key.value.Str? && ParseOne(bs, key.pos, depth).Ok? {
      KeyFits(key.value);
      InsertFits(acc, Field(key.value.s, ParseOne(bs, key.pos, depth).value), depth);
    }
  }

  lemma KeyFits(v: Json)
    requires v.Str? && WellFormed(v)
    ensures |v.s| < MAX_LENGTH
  {}

  lemma FieldsEnd(bs: seq<byte>, pos: nat, acc: seq<Field>, depth: nat)
    requires pos <= |bs| && FieldsFit(acc, depth)
    ensures Anyhow(ParseFields(bs, pos, 0, acc, depth)) == Ok(acc, pos, true)
  {}

  class State {
    const input: seq<byte>
    var ptr: nat

    ghost predicate Valid()
      reads this
    {
      ptr <= |input|
    }

    constructor (input: seq<byte>)
      ensures Valid() && this.input == input && ptr == 0
    {
      this.input, ptr := input, 0;
    }

    method Bytes(n: nat) returns (r: View<seq<byte>>)
      requires Valid()
      modifies this
      ensures Valid() && ptr == Take(input, old(ptr), n).pos
      ensures r == Seen(Take(input, old(ptr), n))
    {
      if |input| - ptr < n { return Discarded(UnexpectedEof); }
      ptr := ptr + n;
      r := View(input[ptr - n..ptr]);
    }

    /** unpackTrivial, for the unsigned type of k bytes; the other types reinterpret its bits. */
    method UInt(k: nat) returns (r: View<nat>)
      requires Valid() && Width(k)
      modifies this
      ensures Valid() && ptr == TakeUInt(input, old(ptr), k).pos
      ensures r == Seen(TakeUInt(input, old(ptr), k))
    {
      var raw := Bytes(k);
      r := match raw case View(bytes) => View(FromBig(bytes)) case Discarded(e) => Discarded(e);
    }

    method Sized(k: nat) returns (r: View<seq<byte>>)
      requires Valid() && Width(k) && k <= 4
      modifies this
      ensures Valid() && ptr == TakeSized(input, old(ptr), k).pos
      ensures r == Seen(TakeSized(input, old(ptr), k))
    {
      var len := UInt(k);
      if len.Discarded? { return Discarded(len.reason); }
      r := Bytes(len.value);
    }

    method Ext(k: nat) returns (r: View<seq<byte>>)
      requires Valid() && Width(k) && k <= 4
      modifies this
      ensures Valid() && ptr == TakeExt(input, old(ptr), k).pos
      ensures r == Seen(TakeExt(input, old(ptr), k))
    {
      var len := UInt(k);
      if len.Discarded? { return Discarded(len.reason); }
      r := Bytes(len.value + 1);
      if r.View? { r := View(r.value[..(len.value + 1) % MAX_LENGTH]); }
    }

    /** parseOne: the specification's value or error, and the pointer where it says. */
    method One(depth: nat) returns (r: View<Json>)
      requires Valid()
      modifies this
      ensures Valid() && ptr == ParseOne(input, old(ptr), depth).pos
      ensures r == Seen(ParseOne(input, old(ptr), depth))
      decreases depth, 0
    {
      hide ParseScalar, ParseItems, ParseFields, ContainerOf, CountOf;
      if depth == 0 { return Discarded(TooDeep); }
      if ptr == |input| { return Discarded(UnexpectedEof); }
      var head := input[ptr];
      ptr := ptr + 1;
      if ContainerOf(head) == NoContainer {
        r := Scalar(head);
      } else {
        var len := Count(head);
        if len.Discarded? { return Discarded(len.reason); }
        if ContainerOf(head) == ArrayHead {
          r := Array(len.value, depth - 1);
        } else {
          r := Object(len.value, depth - 1);
        }
      }
    }

    method Count(head: byte) returns (r: View<nat>)
      requires Valid() && ContainerOf(head) != NoContainer
      modifies this
      ensures Valid() && ptr == CountOf(head, input, old(ptr)).pos
      ensures r == Seen(CountOf(head, input, old(ptr)))
    {
      if head <= 0x9f { return View(head % 16); }
      r := UInt(if head == 0xdc || head == 0xde then 2 else 4);
    }

    method Scalar(head: byte) returns (r: View<Json>)
      requires Valid()
      modifies this
      ensures Valid() && ptr == ParseScalar(head, input, old(ptr)).pos
      ensures r == Seen(ParseScalar(head, input, old(ptr)))
    {
      hide Take, TakeUInt, TakeSized, TakeExt, Widen, BigEndian, FromBig;
      if head <= 0x7f { return View(Json.UInt(head)); }
      if head >= 0xe0 { return View(Int(head - 256)); }
      if head == 0xc0 { return View(Null); }
      if head == 0xc2 { return View(Bool(false)); }
      if head == 0xc3 { return View(Bool(true)); }
      if 0xa0 <= head <= 0xbf || 0xd9 <= head <= 0xdb {
        r := StringBody(head);
      } else if 0xca <= head <= 0xd3 {
        r := Number(head);
      } else if 0xc4 <= head <= 0xc9 || 0xd4 <= head <= 0xd8 {
        r := BinaryBody(head);
      } else {
        r := Discarded(NotAllowed);
      }
    }

    method StringBody(head: byte) returns (r: View<Json>)
      requires Valid() && (0xa0 <= head <= 0xbf || 0xd9 <= head <= 0xdb)
      modifies this
      ensures Valid() && ptr == ParseScalar(head, input, old(ptr)).pos
      ensures r == Seen(ParseScalar(head, input, old(ptr)))
    {
      hide Take, TakeUInt, TakeSized;
      var s: View<seq<byte>>;
      if head <= 0xbf {
        s := Bytes(head - 0xa0);
      } else {
        s := Sized(if head == 0xd9 then 1 else if head == 0xda then 2 else 4);
      }
      r := match s case View(bytes) => View(Str(bytes)) case Discarded(e) => Discarded(e);
    }

    method BinaryBody(head: byte) returns (r: View<Json>)
      requires Valid() && (0xc4 <= head <= 0xc9 || 0xd4 <= head <= 0xd8)
      modifies this
      ensures Valid() && ptr == ParseScalar(head, input, old(ptr)).pos
      ensures r == Seen(ParseScalar(head, input, old(ptr)))
    {
      hide Take, TakeUInt, TakeSized, TakeExt;
      var s: View<seq<byte>>;
      if head <= 0xc6 {
        s := Sized(if head == 0xc4 then 1 else if head == 0xc5 then 2 else 4);
      } else if head <= 0xc9 {
        s := Ext(if head == 0xc7 then 1 else if head == 0xc8 then 2 else 4);
      } else {
        s := FixedExt(if head == 0xd4 then 1 else if head == 0xd5 then 2 else if head == 0xd6 then 4
                      else if head == 0xd7 then 8 else 16);
      }
      r := match s case View(bytes) => View(Bin(bytes)) case Discarded(e) => Discarded(e);
    }

    method FixedExt(n: nat) returns (r: View<seq<byte>>)
      requires Valid() && n < MAX_LENGTH - 1
      modifies this
      ensures Valid() && ptr == FixExt(input, old(ptr), n).pos
      ensures r == Seen(FixExt(input, old(ptr), n))
    {
      r := Bytes(n + 1);
    }

    method Number(head: byte) returns (r: View<Json>)
      requires Valid() && 0xca <= head <= 0xd3
      modifies this
      ensures Valid() && ptr == ParseScalar(head, input, old(ptr)).pos
      ensures r == Seen(ParseScalar(head, input, old(ptr)))
    {
      hide Take, TakeUInt, Widen, BigEndian, FromBig;
      if head == 0xcb {
        var bits := Bytes(8);
        r := match bits case View(bytes) => View(Num(bytes)) case Discarded(e) => Discarded(e);
      } else {
        var k := if head == 0xca then 4 else if head % 4 == 0 then 1 else if head % 4 == 1 then 2 else if head % 4 == 2 then 4 else 8;
        var u := UInt(k);
        if u.Discarded? { return Discarded(u.reason); }
        r := View(if head == 0xca then Num(BigEndian(Widen(u.value), 8))
                  else if head <= 0xcf then Json.UInt(u.value)
                  else Int(ToSigned(u.value, k)));
      }
    }

    /** parseArray: slots of a fresh array are filled until one is discarded. */
    method Array(count: nat, depth: nat) returns (r: View<Json>)
      requires Valid()
      modifies this
      ensures Valid() && ptr == AsArr(ParseItems(input, old(ptr), count, depth)).pos
      ensures r == Seen(AsArr(ParseItems(input, old(ptr), count, depth)))
      decreases depth, 1, count
    {
      hide ParseOne, ParseItems;
      var arr := new Json[count];
      ghost var whole := Prepend([], ParseItems(input, ptr, count, depth));
      NothingPrepended(ParseItems(input, ptr, count, depth));
      var i := 0;
      while i < count
        invariant i <= count && Valid()
        invariant Prepend(arr[..i], ParseItems(input, ptr, count - i, depth)) == whole
        modifies this, arr
      {
        ghost var done := arr[..i];
        ItemsStep(input, ptr, count - i, depth, done);
        var one := One(depth);
        if one.Discarded? { return Discarded(one.reason); }
        arr[i] := one.value;
        assert arr[..i + 1] == done + [one.value];
        i := i + 1;
      }
      ItemsEnd(input, ptr, depth, arr[..]);
      assert arr[..i] == arr[..];
      r := View(Arr(arr[..]));
    }

    /** One round of parseObject: a key, a value, an insertion; the new size, or why not. */
    method Pair(obj: array<Field>, size: nat, depth: nat, ghost count: nat) returns (r: View<nat>)
      requires Valid() && size < obj.Length && FieldsFit(obj[..size], depth) && count > 0
      modifies this, obj
      ensures Valid()
      ensures r.View? ==> r.value <= size + 1 && FieldsFit(obj[..r.value], depth)
                          && Anyhow(ParseFields(input, ptr, count - 1, obj[..r.value], depth))
                             == old(Anyhow(ParseFields(input, ptr, count, obj[..size], depth)))
      ensures r.Discarded? ==> Fail(r.reason, ptr) == old(Anyhow(ParseFields(input, ptr, count, obj[..size], depth)))
      decreases depth, 1, 0
    {
      FieldsStep(input, ptr, count, obj[..size], depth);
      Sorted(obj[..size], depth);
      hide ParseOne, ParseFields, FieldsFit, InsertField, SortedFields, Anyhow;
      ghost var was := obj[..size];
      var key := One(depth);
      if key.Discarded? { return Discarded(key.reason); }
      if !key.value.Str? { return Discarded(KeyNotString); }
      var value := One(depth);
      if value.Discarded? { return Discarded(value.reason); }
      assert obj[..size] == was;
      var newSize := SortedInsertJson(obj, size, Field(key.value.s, value.value));
      r := View(newSize);
    }

    /** parseObject: pairs are inserted into a fresh array as they come. */
    method Object(count: nat, depth: nat) returns (r: View<Json>)
      requires Valid()
      modifies this
      ensures Valid() && FieldsFit([], depth) && ptr == AsObj(ParseFields(input, old(ptr), count, [], depth)).pos
      ensures r == Seen(AsObj(ParseFields(input, old(ptr), count, [], depth)))
      decreases depth, 1, count + 1
    {
      hide ParseOne, ParseFields, FieldsFit, InsertField;
      var obj := new Field[count];
      var size: nat := 0;
      Nothing(depth, obj[..0]);
      ghost var whole := Anyhow(ParseFields(input, ptr, count, [], depth));
      var i := 0;
      while i < count
        invariant size <= i <= count && Valid() && FieldsFit(obj[..size], depth)
        invariant Anyhow(ParseFields(input, ptr, count - i, obj[..size], depth)) == whole
        modifies this, obj
      {
        var next := Pair(obj, size, depth, count - i);
        if next.Discarded? { return Discarded(next.reason); }
        size := next.value;
        i := i + 1;
      }
      FieldsEnd(input, ptr, obj[..size], depth);
      r := View(Obj(obj[..size]));
    }
  }

  lemma Nothing(depth: nat, none: seq<Field>)
    requires |none| == 0
    ensures none == [] && FieldsFit([], depth)
  {}

  lemma Sorted(fs: seq<Field>, depth: nat)
    requires FieldsFit(fs, depth)
    ensures SortedFields(fs)
  {}
}
