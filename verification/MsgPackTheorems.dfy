/** Encoder and decoder agree: round trip, canonical form, shortest form, depth limits. */
module MsgPackTheorems {
  import opened JsonTree
  import opened SortedObject
  import opened MsgPackFormat

  /** The bytes `part` stand in bs at pos. */
  predicate At(bs: seq<byte>, pos: nat, part: seq<byte>) {
    pos + |part| <= |bs| && bs[pos..pos + |part|] == part
  }

  lemma AtSplit(bs: seq<byte>, pos: nat, a: seq<byte>, b: seq<byte>)
    requires At(bs, pos, a + b)
    ensures At(bs, pos, a) && At(bs, pos + |a|, b) && pos + |a| + |b| <= |bs|
  {
    assert bs[pos..pos + |a|] == (a + b)[..|a|];
    assert bs[pos + |a|..pos + |a| + |b|] == (a + b)[|a|..];
  }

  lemma AtBound(bs: seq<byte>, pos: nat, part: seq<byte>)
    requires At(bs, pos, part)
    ensures pos + |part| <= |bs|
  {}

  lemma AtHead(bs: seq<byte>, pos: nat, part: seq<byte>)
    requires At(bs, pos, part) && part != []
    ensures pos + |part| <= |bs| && bs[pos] == part[0]
  {}

  lemma TakeUIntAt(bs: seq<byte>, pos: nat, n: nat, k: nat)
    requires Width(k) && n < Range(k) && At(bs, pos, BigEndian(n, k))
    ensures TakeUInt(bs, pos, k) == Ok(n, pos + k, true)
  {
    hide BigEndian, FromBig, Pow256;
    PowValues();
    BigRoundTrip(n, k);
  }

  /** What a document looks like after a round trip: non-negative signed integers turn unsigned. */
  function Norm(v: Json): Json {
    match v
    case Int(i) => if i >= 0 then UInt(i) else v
    case Arr(items) => Arr(NormItems(items))
    case Obj(fs) => Obj(NormFields(fs))
    case _ => v
  }

  function NormItems(items: seq<Json>): (r: seq<Json>)
    ensures |r| == |items|
  {
    if items == [] then [] else [Norm(items[0])] + NormItems(items[1..])
  }

  function NormFields(fs: seq<Field>): (r: seq<Field>)
    ensures |r| == |fs|
    ensures forall i :: 0 <= i < |fs| ==> r[i].key == fs[i].key
  {
    if fs == [] then [] else [Field(fs[0].key, Norm(fs[0].value))] + NormFields(fs[1..])
  }

  lemma {:induction false} NormFits(v: Json)
    requires WellFormed(v)
    ensures WellFormed(Norm(v)) && Height(Norm(v)) == Height(v)
    decreases v, 0
  {
    match v {
      case Arr(items) => NormItemsFit(items);
      case Obj(fs) =>
        NormFieldsFit(fs);
        var r := NormFields(fs);
        forall i, j | 0 <= i < j < |r| ensures Less(r[i].key, r[j].key) {}
      case _ =>
    }
  }

  lemma {:induction false} NormItemsFit(items: seq<Json>)
    requires WellFormedItems(items)
    ensures WellFormedItems(NormItems(items)) && ItemsHeight(NormItems(items)) == ItemsHeight(items)
    decreases items, 1
  {
    if items != [] {
      NormFits(items[0]);
      NormItemsFit(items[1..]);
      assert NormItems(items)[1..] == NormItems(items[1..]);
    }
  }

  lemma {:induction false} NormFieldsFit(fs: seq<Field>)
    requires WellFormedFields(fs)
    ensures WellFormedFields(NormFields(fs)) && FieldsHeight(NormFields(fs)) == FieldsHeight(fs)
    decreases fs, 1
  {
    if fs != [] {
      NormFits(fs[0].value);
      NormFieldsFit(fs[1..]);
      assert NormFields(fs)[1..] == NormFields(fs[1..]);
    }
  }

  // ---------------------------------------------------------------------------------------------
  // Round trip
  // ---------------------------------------------------------------------------------------------

  /** After a head byte of a k-byte integer comes TakeUInt. */
  lemma ParseIntHead(bs: seq<byte>, pos: nat, depth: nat, k: nat)
    requires pos < |bs| && depth >= 1 && Width(k)
    ensures bs[pos] == UnsignedHead(k) ==> ParseOne(bs, pos, depth) == Unsigned(TakeUInt(bs, pos + 1, k))
    ensures bs[pos] == SignedHead(k) ==> ParseOne(bs, pos, depth) == Signed(TakeUInt(bs, pos + 1, k), k)
    ensures bs[pos] <= 0x7f ==> ParseOne(bs, pos, depth) == Ok(UInt(bs[pos]), pos + 1, true)
    ensures bs[pos] >= 0xe0 ==> ParseOne(bs, pos, depth) == Ok(Int((bs[pos] as int) - 256), pos + 1, true)
  {
    hide TakeUInt;
  }

  function UnsignedHead(k: nat): byte { if k == 1 then 0xcc else if k == 2 then 0xcd else if k == 4 then 0xce else 0xcf }

  function SignedHead(k: nat): byte { if k == 1 then 0xd0 else if k == 2 then 0xd1 else if k == 4 then 0xd2 else 0xd3 }

  function UnsignedWidth(u: nat): nat { if u <= 0xff then 1 else if u <= 0xffff then 2 else if u <= 0xffff_ffff then 4 else 8 }

  function SignedWidth(i: int): nat {
    if i >= -0x80 then 1 else if i >= -0x8000 then 2 else if i >= -0x8000_0000 then 4 else 8
  }

  lemma IntForms(u: nat, i: int)
    requires INT64_MIN <= i < 0
    ensures u >= 128 ==> EncPosInt(u) == [UnsignedHead(UnsignedWidth(u))] + BigEndian(u, UnsignedWidth(u))
    ensures i < -32 ==> EncNegInt(i) == [SignedHead(SignedWidth(i))] + BigEndian(ToUnsigned(i, SignedWidth(i)), SignedWidth(i))
    ensures ToUnsigned(i, SignedWidth(i)) < Range(SignedWidth(i)) && ToSigned(ToUnsigned(i, SignedWidth(i)), SignedWidth(i)) == i
  {
    hide BigEndian;
  }

  lemma PosIntRoundTrip(u: nat, bs: seq<byte>, pos: nat, depth: nat)
    requires u < UINT64_END && depth >= 1 && At(bs, pos, EncPosInt(u))
    ensures ParseOne(bs, pos, depth) == Ok(UInt(u), pos + |EncPosInt(u)|, true)
  {
    hide At, BigEndian, ParseOne, TakeUInt;
    var k := UnsignedWidth(u);
    IntForms(u, -1);
    AtHead(bs, pos, EncPosInt(u));
    ParseIntHead(bs, pos, depth, k);
    if u >= 128 {
      AtSplit(bs, pos, [UnsignedHead(k)], BigEndian(u, k));
      TakeUIntAt(bs, pos + 1, u, k);
    }
  }

  lemma NegIntRoundTrip(i: int, bs: seq<byte>, pos: nat, depth: nat)
    requires INT64_MIN <= i < 0 && depth >= 1 && At(bs, pos, EncNegInt(i))
    ensures ParseOne(bs, pos, depth) == Ok(Int(i), pos + |EncNegInt(i)|, true)
  {
    hide At, BigEndian, ParseOne, TakeUInt, ToSigned, ToUnsigned;
    var k := SignedWidth(i);
    IntForms(0, i);
    AtHead(bs, pos, EncNegInt(i));
    ParseIntHead(bs, pos, depth, k);
    if i < -32 {
      AtSplit(bs, pos, [SignedHead(k)], BigEndian(ToUnsigned(i, k), k));
      TakeUIntAt(bs, pos + 1, ToUnsigned(i, k), k);
    }
  }

  lemma TakeAt(bs: seq<byte>, pos: nat, s: seq<byte>)
    requires At(bs, pos, s)
    ensures pos + |s| <= |bs| && Take(bs, pos, |s|) == Ok(s, pos + |s|, true)
  {}

  lemma SizedAt(bs: seq<byte>, pos: nat, s: seq<byte>, k: nat)
    requires Width(k) && k <= 4 && |s| < Range(k) && At(bs, pos, BigEndian(|s|, k) + s)
    ensures pos + k + |s| <= |bs| && TakeSized(bs, pos, k) == Ok(s, pos + k + |s|, true)
  {
    hide At, BigEndian, FromBig, TakeUInt, Take;
    AtSplit(bs, pos, BigEndian(|s|, k), s);
    TakeUIntAt(bs, pos, |s|, k);
    TakeAt(bs, pos + k, s);
  }

  /** After a head byte with a length comes TakeSized, or Take when the head holds the length. */
  lemma ParseSizedHead(bs: seq<byte>, pos: nat, depth: nat, n: nat)
    requires pos < |bs| && depth >= 1
    ensures Width(SizeWidth(n)) && SizeWidth(n) <= 4 && (n < MAX_LENGTH ==> n < Range(SizeWidth(n)))
    ensures n > 31 && bs[pos] == StrHead(n) ==> ParseOne(bs, pos, depth) == AsStr(TakeSized(bs, pos + 1, SizeWidth(n)))
    ensures n <= 31 && bs[pos] == StrHead(n) ==> ParseOne(bs, pos, depth) == AsStr(Take(bs, pos + 1, n))
    ensures bs[pos] == BinHead(n) ==> ParseOne(bs, pos, depth) == AsBin(TakeSized(bs, pos + 1, SizeWidth(n)))
  {
    hide TakeSized, Take;
  }

  lemma StringRoundTrip(s: seq<byte>, bs: seq<byte>, pos: nat, depth: nat)
    requires |s| < MAX_LENGTH && depth >= 1 && At(bs, pos, EncString(s))
    ensures ParseOne(bs, pos, depth) == Ok(Str(s), pos + |EncString(s)|, true)
  {
    hide At, BigEndian, EncString, ParseOne, Take, TakeSized, SizeWidth, StrHead, BinHead;
    StringForm(s);
    AtHead(bs, pos, EncString(s));
    ParseSizedHead(bs, pos, depth, |s|);
    if |s| <= 31 {
      AtSplit(bs, pos, [StrHead(|s|)], s);
      TakeAt(bs, pos + 1, s);
    } else {
      AtSplit(bs, pos, [StrHead(|s|)], BigEndian(|s|, SizeWidth(|s|)) + s);
      SizedAt(bs, pos + 1, s, SizeWidth(|s|));
    }
  }

  lemma BinaryRoundTrip(s: seq<byte>, bs: seq<byte>, pos: nat, depth: nat)
    requires |s| < MAX_LENGTH && depth >= 1 && At(bs, pos, EncBinary(s))
    ensures ParseOne(bs, pos, depth) == Ok(Bin(s), pos + |EncBinary(s)|, true)
  {
    hide At, BigEndian, EncBinary, ParseOne, Take, TakeSized, SizeWidth, StrHead, BinHead;
    BinaryForm(s);
    AtHead(bs, pos, EncBinary(s));
    ParseSizedHead(bs, pos, depth, |s|);
    AtSplit(bs, pos, [BinHead(|s|)], BigEndian(|s|, SizeWidth(|s|)) + s);
    SizedAt(bs, pos + 1, s, SizeWidth(|s|));
  }

  lemma HeaderRoundTrip(n: nat, isArray: bool, bs: seq<byte>, pos: nat)
    requires n < MAX_LENGTH && At(bs, pos, if isArray then ArrHeader(n) else ObjHeader(n))
    ensures var head := if isArray then ArrHeader(n) else ObjHeader(n);
            && pos < |bs| && ContainerOf(bs[pos]) == (if isArray then ArrayHead else ObjectHead)
            && CountOf(bs[pos], bs, pos + 1) == Ok(n, pos + |head|, true)
  {
    var head := if isArray then ArrHeader(n) else ObjHeader(n);
    assert bs[pos] == head[0];
    if n > 15 {
      assert head == [head[0]] + BigEndian(n, |head| - 1);
      AtSplit(bs, pos, [head[0]], BigEndian(n, |head| - 1));
      TakeUIntAt(bs, pos + 1, n, |head| - 1);
    }
  }

  lemma ScalarRoundTrip(v: Json, bs: seq<byte>, pos: nat, depth: nat)
    requires WellFormed(v) && !v.Arr? && !v.Obj? && depth >= 1 && At(bs, pos, Enc(v))
    ensures ParseOne(bs, pos, depth) == Ok(Norm(v), pos + |Enc(v)|, true)
  {
    match v {
      case Null => assert bs[pos] == 0xc0;
      case Bool(b) => assert bs[pos] == Enc(v)[0];
      case Num(bits) =>
        AtSplit(bs, pos, [0xcb], bits);
        assert bs[pos] == 0xcb;
      case Int(i) => if i < 0 { NegIntRoundTrip(i, bs, pos, depth); } else { PosIntRoundTrip(i, bs, pos, depth); }
      case UInt(u) => PosIntRoundTrip(u, bs, pos, depth);
      case Str(s) => StringRoundTrip(s, bs, pos, depth);
      case Bin(s) => BinaryRoundTrip(s, bs, pos, depth);
    }
  }

  /** A container head hands over to its elements. */
  lemma ParseContainer(bs: seq<byte>, pos: nat, depth: nat, count: nat, p: nat)
    requires pos < |bs| && depth >= 1 && ContainerOf(bs[pos]) != NoContainer
    requires CountOf(bs[pos], bs, pos + 1) == Ok(count, p, true)
    ensures ParseOne(bs, pos, depth)
            == if ContainerOf(bs[pos]) == ArrayHead then AsArr(ParseItems(bs, p, count, depth - 1))
               else AsObj(ParseFields(bs, p, count, [], depth - 1))
  {
    hide ParseItems, ParseFields, ContainerOf, CountOf;
  }

  lemma ParseFieldsStep(bs: seq<byte>, pos: nat, count: nat, acc: seq<Field>, depth: nat, k: Key, p: nat, v: Json, p': nat)
    requires pos <= |bs| && p <= |bs| && FieldsFit(acc, depth) && count > 0
    requires ParseOne(bs, pos, depth) == Ok(Str(k), p, true)
    requires ParseOne(bs, p, depth) == Ok(v, p', true)
    ensures var acc' := InsertField(acc, Field(k, v));
            && FieldsFit(acc', depth)
            && ParseFields(bs, pos, count, acc, depth) == ParseFields(bs, p', count - 1, acc', depth)
  {
    assert WellFormed(Str(k));
    InsertFits(acc, Field(k, v), depth);
    hide ParseOne;
  }

  lemma NothingBefore(fs: seq<Field>, depth: nat)
    requires SortedFields(fs)
    ensures SortedFields([] + fs) && FieldsFit([], depth) && [] + NormFields(fs) == NormFields(fs)
  {
    assert [] + fs == fs;
  }

  /** The encoding of an array opens the array and goes on with its elements. */
  lemma ArrayOpens(items: seq<Json>, bs: seq<byte>, pos: nat, depth: nat, p: nat)
    requires WellFormedItems(items) && |items| < MAX_LENGTH && depth >= 1
    requires At(bs, pos, ArrHeader(|items|) + EncItems(items)) && p == pos + |ArrHeader(|items|)| <= |bs|
    ensures At(bs, p, EncItems(items)) && p + |EncItems(items)| <= |bs|
    ensures ParseOne(bs, pos, depth) == AsArr(ParseItems(bs, p, |items|, depth - 1))
  {
    hide *;
    AtSplit(bs, pos, ArrHeader(|items|), EncItems(items));
    HeaderRoundTrip(|items|, true, bs, pos);
    ParseContainer(bs, pos, depth, |items|, p);
  }

  lemma ObjectOpens(fs: seq<Field>, bs: seq<byte>, pos: nat, depth: nat, p: nat)
    requires WellFormedFields(fs) && |fs| < MAX_LENGTH && depth >= 1 && FieldsFit([], depth - 1)
    requires At(bs, pos, ObjHeader(|fs|) + EncFields(fs)) && p == pos + |ObjHeader(|fs|)| <= |bs|
    ensures At(bs, p, EncFields(fs)) && p + |EncFields(fs)| <= |bs|
    ensures ParseOne(bs, pos, depth) == AsObj(ParseFields(bs, p, |fs|, [], depth - 1))
  {
    hide *;
    AtSplit(bs, pos, ObjHeader(|fs|), EncFields(fs));
    HeaderRoundTrip(|fs|, false, bs, pos);
    ParseContainer(bs, pos, depth, |fs|, p);
  }

  /** parse(encode(v) ++ rest) consumes exactly the encoding and gives the normal form of v. */
  lemma {:induction false} RoundTrip(v: Json, bs: seq<byte>, pos: nat, depth: nat)
    requires WellFormed(v) && Height(v) <= depth && At(bs, pos, Enc(v))
    ensures ParseOne(bs, pos, depth) == Ok(Norm(v), pos + |Enc(v)|, true)
    decreases v, 0
  {
    hide At, Enc, EncItems, EncFields, ParseOne, ParseItems, ParseFields, ArrHeader, ObjHeader, FieldsFit, NormFields;
    AtBound(bs, pos, Enc(v));
    if v.Arr? || v.Obj? { EncContainer(v); }
    match v {
      case Arr(items) =>
        var p := pos + |ArrHeader(|items|)|;
        ArrayOpens(items, bs, pos, depth, p);
        ItemsRoundTrip(items, bs, p, depth - 1);
      case Obj(fs) =>
        var p := pos + |ObjHeader(|fs|)|;
        NothingBefore(fs, depth - 1);
        ObjectOpens(fs, bs, pos, depth, p);
        FieldsRoundTrip(fs, [], bs, p, depth - 1);
      case _ => ScalarRoundTrip(v, bs, pos, depth);
    }
  }

  lemma {:induction false} ItemsRoundTrip(items: seq<Json>, bs: seq<byte>, pos: nat, depth: nat)
    requires WellFormedItems(items) && ItemsHeight(items) <= depth && At(bs, pos, EncItems(items))
    ensures ParseItems(bs, pos, |items|, depth) == Ok(NormItems(items), pos + |EncItems(items)|, true)
    decreases items, 1
  {
    hide At, Enc, ParseOne;
    if items != [] {
      AtSplit(bs, pos, Enc(items[0]), EncItems(items[1..]));
      RoundTrip(items[0], bs, pos, depth);
      ItemsRoundTrip(items[1..], bs, pos + |Enc(items[0])|, depth);
    }
  }

  /** Moving the next field, with any value, over to what was read keeps everything sorted. */
  lemma ShiftSorted(acc: seq<Field>, fs: seq<Field>, f: Field)
    requires fs != [] && f.key == fs[0].key && SortedFields(acc + fs)
    ensures SortedFields(acc + [f]) && SortedFields(acc + [f] + fs[1..])
  {
    var all, next := acc + fs, acc + [f] + fs[1..];
    assert |next| == |all| && forall i :: 0 <= i < |next| ==> next[i].key == all[i].key;
    assert SortedFields(next);
    assert forall i :: 0 <= i < |acc + [f]| ==> (acc + [f])[i] == next[i];
  }

  lemma EncFieldsCons(fs: seq<Field>)
    requires fs != [] && WellFormedFields(fs)
    ensures WellFormed(fs[0].value) && WellFormedFields(fs[1..])
    ensures EncFields(fs) == EncString(fs[0].key) + (Enc(fs[0].value) + EncFields(fs[1..]))
  {
    hide EncString, Enc;
  }

  lemma FieldAt(fs: seq<Field>, bs: seq<byte>, pos: nat)
    requires fs != [] && WellFormedFields(fs) && At(bs, pos, EncFields(fs))
    ensures var k, v := EncString(fs[0].key), Enc(fs[0].value);
            && At(bs, pos, k) && At(bs, pos + |k|, v) && At(bs, pos + |k| + |v|, EncFields(fs[1..]))
            && |EncFields(fs)| == |k| + |v| + |EncFields(fs[1..])| && pos + |EncFields(fs)| <= |bs|
  {
    hide *;
    EncFieldsCons(fs);
    var k, v := EncString(fs[0].key), Enc(fs[0].value);
    AtSplit(bs, pos, k, v + EncFields(fs[1..]));
    AtSplit(bs, pos + |k|, v, EncFields(fs[1..]));
  }

  /** Reading one encoded field appends its normal form. */
  lemma FieldStep(fs: seq<Field>, acc: seq<Field>, bs: seq<byte>, pos: nat, depth: nat, p: nat, p': nat)
    requires fs != [] && WellFormedFields(fs) && pos <= |bs| && p <= |bs|
    requires SortedFields(acc + fs) && FieldsFit(acc, depth)
    requires ParseOne(bs, pos, depth) == Ok(Str(fs[0].key), p, true)
    requires ParseOne(bs, p, depth) == Ok(Norm(fs[0].value), p', true)
    ensures var acc' := acc + [Field(fs[0].key, Norm(fs[0].value))];
            && FieldsFit(acc', depth) && SortedFields(acc' + fs[1..])
            && ParseFields(bs, pos, |fs|, acc, depth) == ParseFields(bs, p', |fs| - 1, acc', depth)
  {
    var f := Field(fs[0].key, Norm(fs[0].value));
    ShiftSorted(acc, fs, f);
    InsertLast(acc, f);
    ParseFieldsStep(bs, pos, |fs|, acc, depth, f.key, p, f.value, p');
  }

  lemma FieldsSplit(fs: seq<Field>, acc: seq<Field>)
    requires fs != [] && WellFormedFields(fs)
    ensures acc + NormFields(fs) == acc + [Field(fs[0].key, Norm(fs[0].value))] + NormFields(fs[1..])
    ensures FieldsHeight(fs) == Max(Height(fs[0].value), FieldsHeight(fs[1..])) && Height(fs[0].value) >= 1
    ensures WellFormedFields(fs[1..]) && |fs[0].key| < MAX_LENGTH && WellFormed(fs[0].value)
  {
    NormFieldsSplit(fs);
    WellFormedSplit(fs);
    hide WellFormed, WellFormedFields, Height, Norm, NormFields;
  }

  lemma NormFieldsSplit(fs: seq<Field>)
    requires fs != []
    ensures NormFields(fs) == [Field(fs[0].key, Norm(fs[0].value))] + NormFields(fs[1..])
  {
    hide Norm;
  }

  lemma WellFormedSplit(fs: seq<Field>)
    requires fs != [] && WellFormedFields(fs)
    ensures WellFormedFields(fs[1..]) && |fs[0].key| < MAX_LENGTH && WellFormed(fs[0].value)
  {
    hide WellFormed;
  }

  lemma {:induction false} FieldsRoundTrip(fs: seq<Field>, acc: seq<Field>, bs: seq<byte>, pos: nat, depth: nat)
    requires WellFormedFields(fs) && FieldsHeight(fs) <= depth && At(bs, pos, EncFields(fs))
    requires SortedFields(acc + fs) && FieldsFit(acc, depth)
    ensures ParseFields(bs, pos, |fs|, acc, depth) == Ok(acc + NormFields(fs), pos + |EncFields(fs)|, true)
    decreases fs, 1
  {
    hide At, Enc, EncString, EncFields, ParseOne, ParseFields, Norm, NormFields, SortedFields, FieldsHeight,
         WellFormed, WellFormedFields, FieldsFit;
    AtBound(bs, pos, EncFields(fs));
    if fs == [] {
      NoFieldsRoundTrip(acc, bs, pos, depth);
    } else {
      var p := pos + |EncString(fs[0].key)|;
      FieldsSplit(fs, acc);
      var p' := p + |Enc(fs[0].value)|;
      FieldAt(fs, bs, pos);
      StringRoundTrip(fs[0].key, bs, pos, depth);
      RoundTrip(fs[0].value, bs, p, depth);
      FieldStep(fs, acc, bs, pos, depth, p, p');
      FieldsRoundTrip(fs[1..], acc + [Field(fs[0].key, Norm(fs[0].value))], bs, p', depth);
    }
  }

  lemma NoFieldsRoundTrip(acc: seq<Field>, bs: seq<byte>, pos: nat, depth: nat)
    requires pos <= |bs| && FieldsFit(acc, depth)
    ensures ParseFields(bs, pos, 0, acc, depth) == Ok(acc + NormFields([]), pos + |EncFields([])|, true)
  {
    assert acc + [] == acc;
  }

  // ---------------------------------------------------------------------------------------------
  // Depth limits
  // ---------------------------------------------------------------------------------------------

  /** One level too few: the parser gives up with the depth error. */
  lemma {:induction false} TooDeepIsRejected(v: Json, bs: seq<byte>, pos: nat, depth: nat)
    requires WellFormed(v) && Height(v) > depth && At(bs, pos, Enc(v))
    ensures ParseOne(bs, pos, depth).Fail? && ParseOne(bs, pos, depth).error == TooDeep
    decreases v, 0
  {
    hide At, Enc, EncItems, EncFields, ParseItems, ParseFields, ArrHeader, ObjHeader, CountOf, ContainerOf, ParseScalar,
         FieldsFit;
    AtBound(bs, pos, Enc(v));
    if depth > 0 {
      assert v.Arr? || v.Obj?;
      EncContainer(v);
      hide ParseOne;
      if v.Arr? {
        var p := pos + |ArrHeader(|v.items|)|;
        ArrayOpens(v.items, bs, pos, depth, p);
        ItemsTooDeep(v.items, bs, p, depth - 1);
      } else {
        var p := pos + |ObjHeader(|v.fields|)|;
        NothingBefore(v.fields, depth - 1);
        ObjectOpens(v.fields, bs, pos, depth, p);
        FieldsTooDeep(v.fields, [], bs, p, depth - 1);
      }
    }
  }

  lemma {:induction false} ItemsTooDeep(items: seq<Json>, bs: seq<byte>, pos: nat, depth: nat)
    requires WellFormedItems(items) && ItemsHeight(items) > depth && At(bs, pos, EncItems(items))
    ensures ParseItems(bs, pos, |items|, depth).Fail? && ParseItems(bs, pos, |items|, depth).error == TooDeep
    decreases items, 1
  {
    hide At, Enc, ParseOne;
    AtSplit(bs, pos, Enc(items[0]), EncItems(items[1..]));
    if Height(items[0]) > depth {
      TooDeepIsRejected(items[0], bs, pos, depth);
    } else {
      RoundTrip(items[0], bs, pos, depth);
      ItemsTooDeep(items[1..], bs, pos + |Enc(items[0])|, depth);
    }
  }

  lemma FirstFieldTooDeep(fs: seq<Field>, acc: seq<Field>, bs: seq<byte>, pos: nat, depth: nat, p: nat)
    requires fs != [] && FieldsFit(acc, depth) && pos <= |bs| && p <= |bs|
    requires ParseOne(bs, pos, depth) == Ok(Str(fs[0].key), p, true)
    requires ParseOne(bs, p, depth).Fail? && ParseOne(bs, p, depth).error == TooDeep
    ensures ParseFields(bs, pos, |fs|, acc, depth).Fail? && ParseFields(bs, pos, |fs|, acc, depth).error == TooDeep
  {
    hide ParseOne;
  }

  lemma {:induction false} FieldsTooDeep(fs: seq<Field>, acc: seq<Field>, bs: seq<byte>, pos: nat, depth: nat)
    requires WellFormedFields(fs) && FieldsHeight(fs) > depth && At(bs, pos, EncFields(fs))
    requires SortedFields(acc + fs) && FieldsFit(acc, depth)
    ensures ParseFields(bs, pos, |fs|, acc, depth).Fail? && ParseFields(bs, pos, |fs|, acc, depth).error == TooDeep
    decreases fs, 1
  {
    hide At, Enc, EncString, EncFields, ParseOne, ParseFields, Norm, NormFields, SortedFields, FieldsHeight,
         WellFormed, WellFormedFields, FieldsFit;
    AtBound(bs, pos, EncFields(fs));
    NotEmpty(fs, depth);
    if depth == 0 {
      NoRoomForKey(fs, acc, bs, pos);
    } else {
      var p := pos + |EncString(fs[0].key)|;
      FieldsSplit(fs, acc);
      var p' := p + |Enc(fs[0].value)|;
      FieldAt(fs, bs, pos);
      StringRoundTrip(fs[0].key, bs, pos, depth);
      if Height(fs[0].value) > depth {
        TooDeepIsRejected(fs[0].value, bs, p, depth);
        FirstFieldTooDeep(fs, acc, bs, pos, depth, p);
      } else {
        RoundTrip(fs[0].value, bs, p, depth);
        FieldStep(fs, acc, bs, pos, depth, p, p');
        FieldsTooDeep(fs[1..], acc + [Field(fs[0].key, Norm(fs[0].value))], bs, p', depth);
      }
    }
  }

  lemma NotEmpty(fs: seq<Field>, depth: nat)
    requires FieldsHeight(fs) > depth
    ensures fs != []
  {}

  lemma NoRoomForKey(fs: seq<Field>, acc: seq<Field>, bs: seq<byte>, pos: nat)
    requires fs != [] && pos <= |bs| && FieldsFit(acc, 0)
    ensures ParseFields(bs, pos, |fs|, acc, 0).Fail? && ParseFields(bs, pos, |fs|, acc, 0).error == TooDeep
  {}

  /** The view of an ext item holds its type byte and all its data, unless the data is 2^32 - 1 bytes
      long: then the length of the view wraps to 0. */
  lemma ExtIsWhole(bs: seq<byte>, pos: nat, k: nat)
    requires pos <= |bs| && Width(k) && k <= 4 && TakeExt(bs, pos, k).Ok?
    ensures var (r, n) := (TakeExt(bs, pos, k), FromBig(bs[pos..pos + k]));
            && r.pos == pos + k + n + 1 <= |bs|
            && (r.value == bs[pos + k..r.pos] <==> n != MAX_LENGTH - 1)
            && (n == MAX_LENGTH - 1 ==> r.value == [])
  {
    hide FromBig;
  }

  /** The input that shows it: an ext item with 2^32 - 1 bytes of data behind its type byte parses as an
      empty binary view, though all of it is consumed. */
  lemma ExtWraps(payload: seq<byte>, depth: nat)
    requires |payload| == MAX_LENGTH && depth >= 1
    ensures ParseOne([0xc9, 0xff, 0xff, 0xff, 0xff] + payload, 0, depth) == Ok(Bin([]), 5 + MAX_LENGTH, false)
  {
    var (head, len) := ([0xc9], [0xff, 0xff, 0xff, 0xff]);
    var bs := [0xc9, 0xff, 0xff, 0xff, 0xff] + payload;
    assert bs[1..5] == len;
    AllOnes();
    var taken := TakeUInt(bs, 1, 4);
    assert taken == Ok(MAX_LENGTH - 1, 5, true);
    assert TakeExt(bs, 1, 4) == Ok([], 5 + MAX_LENGTH, false) by { hide FromBig, TakeUInt; }
    ExtHead(bs, depth);
  }

  lemma AllOnes()
    ensures FromBig([0xff, 0xff, 0xff, 0xff]) == MAX_LENGTH - 1
  {
    var len: seq<byte> := [0xff, 0xff, 0xff, 0xff];
    assert len[..3] == [0xff, 0xff, 0xff] && len[..3][..2] == [0xff, 0xff] && len[..3][..2][..1] == [0xff];
    assert FromBig([]) == 0 && FromBig([0xff][..0]) == 0;
    assert FromBig([0xff]) == 0xff;
    assert FromBig([0xff, 0xff]) == 0xffff by { assert [0xff, 0xff][..1] == [0xff]; }
    assert FromBig([0xff, 0xff, 0xff]) == 0xff_ffff by { assert [0xff, 0xff, 0xff][..2] == [0xff, 0xff]; }
  }

  lemma ExtHead(bs: seq<byte>, depth: nat)
    requires bs != [] && bs[0] == 0xc9 && depth >= 1
    ensures ParseOne(bs, 0, depth) == AsBin(TakeExt(bs, 1, 4))
  {
    hide TakeExt;
  }

  // ---------------------------------------------------------------------------------------------
  // Canonical and shortest form
  // ---------------------------------------------------------------------------------------------

  /** The normal form has the same bytes: dump(parse(dump(v))) == dump(v). */
  lemma {:induction false} CanonicalForm(v: Json)
    requires WellFormed(v)
    ensures WellFormed(Norm(v)) && Enc(Norm(v)) == Enc(v)
    decreases v, 0
  {
    NormFits(v);
    match v {
      case Arr(items) => CanonicalItems(items);
      case Obj(fs) => CanonicalFields(fs);
      case _ =>
    }
  }

  lemma {:induction false} CanonicalItems(items: seq<Json>)
    requires WellFormedItems(items)
    ensures WellFormedItems(NormItems(items)) && EncItems(NormItems(items)) == EncItems(items)
    decreases items, 1
  {
    NormItemsFit(items);
    if items != [] {
      CanonicalForm(items[0]);
      CanonicalItems(items[1..]);
      assert NormItems(items)[1..] == NormItems(items[1..]);
    }
  }

  lemma {:induction false} CanonicalFields(fs: seq<Field>)
    requires WellFormedFields(fs)
    ensures WellFormedFields(NormFields(fs)) && EncFields(NormFields(fs)) == EncFields(fs)
    decreases fs, 1
  {
    NormFieldsFit(fs);
    if fs != [] {
      CanonicalForm(fs[0].value);
      CanonicalFields(fs[1..]);
      assert NormFields(fs)[1..] == NormFields(fs[1..]);
    }
  }

  /** The whole round trip in one statement. */
  lemma DumpParseDump(v: Json, rest: seq<byte>, depth: nat)
    requires WellFormed(v)
    ensures var r := ParseOne(Enc(v) + rest, 0, depth);
            && (r.Ok? <==> Height(v) <= depth)
            && (r.Ok? ==> r.value == Norm(v) && r.pos == |Enc(v)| && WellFormed(r.value) && Enc(r.value) == Enc(v))
            && (r.Fail? ==> r.error == TooDeep)
  {
    assert At(Enc(v) + rest, 0, Enc(v));
    if Height(v) <= depth {
      RoundTrip(v, Enc(v) + rest, 0, depth);
      CanonicalForm(v);
    } else {
      TooDeepIsRejected(v, Enc(v) + rest, 0, depth);
    }
  }

  lemma {:induction false} EncFieldsConcat(a: seq<Field>, b: seq<Field>)
    requires WellFormedFields(a) && WellFormedFields(b)
    ensures WellFormedFields(a + b) && |EncFields(a + b)| == |EncFields(a)| + |EncFields(b)|
  {
    if a == [] {
      assert a + b == b;
    } else {
      assert (a + b)[1..] == a[1..] + b;
      EncFieldsConcat(a[1..], b);
    }
  }

  lemma EncOneField(f: Field)
    requires |f.key| < MAX_LENGTH && WellFormed(f.value)
    ensures WellFormedFields([f]) && |EncFields([f])| == |EncString(f.key)| + |Enc(f.value)|
  {
    assert EncFields([f]) == EncString(f.key) + (Enc(f.value) + EncFields([f][1..]));
  }

  lemma ThreeParts(a: seq<Field>, b: seq<Field>, c: seq<Field>)
    requires WellFormedFields(a) && WellFormedFields(b) && WellFormedFields(c)
    ensures WellFormedFields(a + b + c) && |EncFields(a + b + c)| == |EncFields(a)| + |EncFields(b)| + |EncFields(c)|
  {
    EncFieldsConcat(a, b);
    EncFieldsConcat(a + b, c);
  }

  /** Inserting a pair adds at most the length of the pair. */
  lemma InsertLength(fs: seq<Field>, f: Field)
    requires SortedFields(fs) && WellFormedFields(fs) && |f.key| < MAX_LENGTH && WellFormed(f.value)
    ensures WellFormedFields(InsertField(fs, f))
    ensures |EncFields(InsertField(fs, f))| <= |EncFields(fs)| + |EncString(f.key)| + |Enc(f.value)|
  {
    var p := LowerBound(fs, f.key);
    hide EncFields, WellFormed, InsertField, EncString, Enc, LowerBound, SortedFields;
    InsertParts(fs, f);
    EncOneField(f);
    if p < |fs| && fs[p].key == f.key {
      ThreeParts(fs[..p], [f], fs[p + 1..]);
      ThreeParts(fs[..p], [fs[p]], fs[p + 1..]);
    } else {
      ThreeParts(fs[..p], [f], fs[p..]);
      EncFieldsConcat(fs[..p], fs[p..]);
    }
  }

  lemma InsertParts(fs: seq<Field>, f: Field)
    ensures var p := LowerBound(fs, f.key);
            if p < |fs| && fs[p].key == f.key
            then InsertField(fs, f) == fs[..p] + [f] + fs[p + 1..] && fs == fs[..p] + [fs[p]] + fs[p + 1..]
            else InsertField(fs, f) == fs[..p] + [f] + fs[p..] && fs == fs[..p] + fs[p..]
  {
    hide LowerBound;
    var p := LowerBound(fs, f.key);
    assert fs == fs[..p] + fs[p..];
    if p < |fs| {
      UpdateParts(fs, p, f);
      assert fs[p].key == f.key ==> Field(fs[p].key, f.value) == f;
    }
  }

  lemma UpdateParts(fs: seq<Field>, p: nat, f: Field)
    requires p < |fs|
    ensures fs[p := f] == fs[..p] + [f] + fs[p + 1..] && fs == fs[..p] + [fs[p]] + fs[p + 1..]
  {}

  /** The encoder's form is the shortest the parser accepts: whatever plain input gave a document,
      dumping that document is no longer than what was consumed. */
  lemma {:induction false} DumpIsShortest(bs: seq<byte>, pos: nat, depth: nat)
    requires pos <= |bs|
    ensures var r := ParseOne(bs, pos, depth);
            r.Ok? && r.plain ==> pos + |Enc(r.value)| <= r.pos
    decreases depth, 0
  {
    hide ParseOne, ParseItems, ParseFields, CountOf, ContainerOf, Enc, EncItems, EncFields, WellFormed, FieldsFit, SortedFields,
         WellFormedItems, WellFormedFields, Height;
    if depth == 0 || pos == |bs| || ContainerOf(bs[pos]) == NoContainer || CountOf(bs[pos], bs, pos + 1).Fail? {
      NoContainerShortest(bs, pos, depth);
    } else {
      ContainerIsShortest(bs, pos, depth);
    }
  }

  lemma NoFields(depth: nat)
    ensures FieldsFit([], depth) && EncFields([]) == []
  {}

  lemma {:induction false} ContainerIsShortest(bs: seq<byte>, pos: nat, depth: nat)
    requires depth > 0 && pos < |bs| && ContainerOf(bs[pos]) != NoContainer && CountOf(bs[pos], bs, pos + 1).Ok?
    ensures var r := ParseOne(bs, pos, depth);
            r.Ok? && r.plain ==> pos + |Enc(r.value)| <= r.pos
    decreases depth - 1, MAX_LENGTH
  {
    hide ParseOne, ParseItems, ParseFields, CountOf, ContainerOf, Enc, EncItems, EncFields, WellFormed, FieldsFit, SortedFields,
         WellFormedItems, WellFormedFields, Height;
    var c := CountOf(bs[pos], bs, pos + 1);
    if ContainerOf(bs[pos]) == ArrayHead {
      ItemsAreShortest(bs, c.pos, c.value, depth - 1);
      ArrayIsShortest(bs, pos, depth);
    } else {
      NoFields(depth - 1);
      FieldsAreShortest(bs, c.pos, c.value, [], depth - 1);
      ObjectIsShortest(bs, pos, depth);
    }
  }

  lemma NoContainerShortest(bs: seq<byte>, pos: nat, depth: nat)
    requires pos <= |bs|
    requires depth == 0 || pos == |bs| || ContainerOf(bs[pos]) == NoContainer || CountOf(bs[pos], bs, pos + 1).Fail?
    ensures var r := ParseOne(bs, pos, depth); r.Ok? && r.plain ==> pos + |Enc(r.value)| <= r.pos
  {
    hide ParseScalar, CountOf, Enc, ContainerOf, WellFormed;
    if depth > 0 && pos < |bs| && ContainerOf(bs[pos]) == NoContainer { ScalarIsShortest(bs, pos); }
  }

  /** A count below n has a header no longer than the one that was read. */
  lemma HeaderIsShortest(bs: seq<byte>, pos: nat, n: nat)
    requires pos < |bs| && ContainerOf(bs[pos]) != NoContainer
    requires CountOf(bs[pos], bs, pos + 1).Ok? && n <= CountOf(bs[pos], bs, pos + 1).value
    ensures pos + |ArrHeader(n)| <= CountOf(bs[pos], bs, pos + 1).pos
    ensures pos + |ObjHeader(n)| <= CountOf(bs[pos], bs, pos + 1).pos
  {
    hide BigEndian;
  }

  lemma ArrayIsShortest(bs: seq<byte>, pos: nat, depth: nat)
    requires depth > 0 && pos < |bs| && ContainerOf(bs[pos]) == ArrayHead && CountOf(bs[pos], bs, pos + 1).Ok?
    requires var c := CountOf(bs[pos], bs, pos + 1);
             var r := ParseItems(bs, c.pos, c.value, depth - 1);
             r.Ok? && r.plain ==> c.pos + |EncItems(r.value)| <= r.pos
    ensures var r := ParseOne(bs, pos, depth);
            r.Ok? && r.plain ==> pos + |Enc(r.value)| <= r.pos
  {
    hide ParseItems, CountOf, Enc, EncItems;
    var c := CountOf(bs[pos], bs, pos + 1);
    var r := ParseItems(bs, c.pos, c.value, depth - 1);
    if r.Ok? {
      EncContainer(ParseOne(bs, pos, depth).value);
      HeaderIsShortest(bs, pos, c.value);
    }
  }

  lemma ObjectIsShortest(bs: seq<byte>, pos: nat, depth: nat)
    requires depth > 0 && pos < |bs| && ContainerOf(bs[pos]) == ObjectHead && CountOf(bs[pos], bs, pos + 1).Ok?
    requires var c := CountOf(bs[pos], bs, pos + 1);
             var r := ParseFields(bs, c.pos, c.value, [], depth - 1);
             r.Ok? && r.plain ==> c.pos + |EncFields(r.value)| <= r.pos
    ensures var r := ParseOne(bs, pos, depth);
            r.Ok? && r.plain ==> pos + |Enc(r.value)| <= r.pos
  {
    hide ParseFields, CountOf, Enc, EncFields;
    var c := CountOf(bs[pos], bs, pos + 1);
    var r := ParseFields(bs, c.pos, c.value, [], depth - 1);
    if r.Ok? {
      EncContainer(ParseOne(bs, pos, depth).value);
      HeaderIsShortest(bs, pos, |r.value|);
    }
  }

  lemma StringLength(s: seq<byte>)
    ensures |EncString(s)| == |s| + (if |s| <= 31 then 1 else if |s| <= 0xff then 2 else if |s| <= 0xffff then 3 else 5)
  {}

  lemma BytesAreShortest(head: byte, bs: seq<byte>, pos: nat)
    requires pos <= |bs| && (0xa0 <= head <= 0xbf || 0xd9 <= head <= 0xdb || 0xc4 <= head <= 0xc6)
    ensures var r := ParseScalar(head, bs, pos);
            r.Ok? && r.plain ==> pos + |Enc(r.value)| <= r.pos + 1
  {
    var r := ParseScalar(head, bs, pos);
    if r.Ok? && r.value.Str? { StringLength(r.value.s); }
  }

  lemma IntsAreShortest(head: byte, bs: seq<byte>, pos: nat)
    requires pos <= |bs| && (head <= 0x7f || head >= 0xe0 || 0xcc <= head <= 0xd3)
    ensures var r := ParseScalar(head, bs, pos);
            r.Ok? && r.plain ==> pos + |Enc(r.value)| <= r.pos + 1
  {
    hide BigEndian, FromBig;
  }

  lemma ScalarIsShortest(bs: seq<byte>, pos: nat)
    requires pos < |bs| && ContainerOf(bs[pos]) == NoContainer
    ensures var r := ParseScalar(bs[pos], bs, pos + 1);
            r.Ok? && r.plain ==> pos + |Enc(r.value)| <= r.pos
  {
    var head := bs[pos];
    if 0xa0 <= head <= 0xbf || 0xd9 <= head <= 0xdb || 0xc4 <= head <= 0xc6 {
      hide ParseScalar, Enc;
      BytesAreShortest(head, bs, pos + 1);
    } else if head <= 0x7f || head >= 0xe0 || 0xcc <= head <= 0xd3 {
      hide ParseScalar, Enc;
      IntsAreShortest(head, bs, pos + 1);
    }
  }

  lemma {:induction false} ItemsAreShortest(bs: seq<byte>, pos: nat, count: nat, depth: nat)
    requires pos <= |bs|
    ensures var r := ParseItems(bs, pos, count, depth);
            r.Ok? && r.plain ==> pos + |EncItems(r.value)| <= r.pos
    decreases depth, count
  {
    if count > 0 {
      DumpIsShortest(bs, pos, depth);
      var v := ParseOne(bs, pos, depth);
      if v.Ok? {
        ItemsAreShortest(bs, v.pos, count - 1, depth);
        var r := ParseItems(bs, pos, count, depth);
        assert r.Ok? ==> r.value[1..] == ParseItems(bs, v.pos, count - 1, depth).value;
      }
    }
  }

  lemma StringParts(v: Json)
    requires v.Str? && WellFormed(v)
    ensures Enc(v) == EncString(v.s) && |v.s| < MAX_LENGTH
  {}

  ghost predicate FieldRead(bs: seq<byte>, pos: nat, depth: nat)
    requires pos <= |bs|
  {
    var k := ParseOne(bs, pos, depth);
    k.Ok? && k.value.Str? && ParseOne(bs, k.pos, depth).Ok?
  }

  lemma FieldLength(bs: seq<byte>, pos: nat, acc: seq<Field>, depth: nat)
    requires pos <= |bs| && FieldsFit(acc, depth) && FieldRead(bs, pos, depth)
    ensures var k := ParseOne(bs, pos, depth);
            var v := ParseOne(bs, k.pos, depth);
            var acc' := InsertField(acc, Field(k.value.s, v.value));
            FieldsFit(acc', depth) && |EncFields(acc')| <= |EncFields(acc)| + |Enc(k.value)| + |Enc(v.value)|
  {
    hide ParseOne, InsertField, EncFields, EncString;
    var k := ParseOne(bs, pos, depth);
    var v := ParseOne(bs, k.pos, depth);
    StringParts(k.value);
    InsertFits(acc, Field(k.value.s, v.value), depth);
    InsertLength(acc, Field(k.value.s, v.value));
  }

  /** Reading one field, and what comes after it. */
  lemma FieldAfter(bs: seq<byte>, pos: nat, count: nat, acc: seq<Field>, depth: nat)
    requires pos <= |bs| && FieldsFit(acc, depth) && count > 0 && FieldRead(bs, pos, depth)
    requires var k := ParseOne(bs, pos, depth);
             FieldsFit(InsertField(acc, Field(k.value.s, ParseOne(bs, k.pos, depth).value)), depth)
    ensures var k := ParseOne(bs, pos, depth);
            var v := ParseOne(bs, k.pos, depth);
            var r := ParseFields(bs, v.pos, count - 1, InsertField(acc, Field(k.value.s, v.value)), depth);
            ParseFields(bs, pos, count, acc, depth)
            == (if r.Fail? then r else Ok(r.value, r.pos, k.plain && v.plain && r.plain))
  {
    hide ParseOne, InsertField, FieldsFit;
  }

  lemma FieldsStop(bs: seq<byte>, pos: nat, count: nat, acc: seq<Field>, depth: nat)
    requires pos <= |bs| && FieldsFit(acc, depth) && (count == 0 || !FieldRead(bs, pos, depth))
    ensures var r := ParseFields(bs, pos, count, acc, depth); r.Ok? ==> r == Ok(acc, pos, true)
  {
    hide ParseOne;
  }

  lemma {:induction false} FieldsAreShortest(bs: seq<byte>, pos: nat, count: nat, acc: seq<Field>, depth: nat)
    requires pos <= |bs| && FieldsFit(acc, depth)
    ensures var r := ParseFields(bs, pos, count, acc, depth);
            r.Ok? && r.plain ==> pos + |EncFields(r.value)| <= r.pos + |EncFields(acc)|
    decreases depth, count
  {
    hide ParseOne, EncFields, InsertField, Enc, ParseFields, WellFormed, SortedFields, WellFormedFields;
    if count == 0 || !FieldRead(bs, pos, depth) {
      FieldsStop(bs, pos, count, acc, depth);
    } else {
      var k := ParseOne(bs, pos, depth);
      var v := ParseOne(bs, k.pos, depth);
      DumpIsShortest(bs, pos, depth);
      DumpIsShortest(bs, k.pos, depth);
      FieldLength(bs, pos, acc, depth);
      FieldAfter(bs, pos, count, acc, depth);
      FieldsAreShortest(bs, v.pos, count - 1, InsertField(acc, Field(k.value.s, v.value)), depth);
    }
  }
}
