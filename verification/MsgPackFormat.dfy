/** MessagePack on values: the bytes of a document and the document of some bytes. */
module MsgPackFormat {
  import opened JsonTree
  import opened SortedObject

  // ---------------------------------------------------------------------------------------------
  // Big-endian integers
  // ---------------------------------------------------------------------------------------------

  function Pow256(k: nat): (r: nat)
    ensures r >= 1
  {
    if k == 0 then 1 else 256 * Pow256(k - 1)
  }

  /** The low k bytes of n, most significant first. */
  function BigEndian(n: nat, k: nat): (r: seq<byte>)
    ensures |r| == k
  {
    if k == 0 then [] else BigEndian(n / 256, k - 1) + [n % 256]
  }

  function FromBig(bs: seq<byte>): nat {
    if bs == [] then 0 else FromBig(bs[..|bs| - 1]) * 256 + bs[|bs| - 1]
  }

  lemma {:induction false} FromBigBound(bs: seq<byte>)
    ensures FromBig(bs) < Pow256(|bs|)
  {
    if bs != [] { FromBigBound(bs[..|bs| - 1]); }
  }

  lemma {:induction false} BigRoundTrip(n: nat, k: nat)
    requires n < Pow256(k)
    ensures FromBig(BigEndian(n, k)) == n
  {
    if k > 0 {
      BigRoundTrip(n / 256, k - 1);
      assert BigEndian(n, k)[..k - 1] == BigEndian(n / 256, k - 1);
    }
  }

  lemma PowValues()
    ensures Pow256(1) == 0x100 && Pow256(2) == 0x1_0000 && Pow256(4) == 0x1_0000_0000
            && Pow256(8) == 0x1_0000_0000_0000_0000
  {
    assert Pow256(2) == 0x1_0000;
    assert Pow256(4) == 256 * (256 * Pow256(2));
    assert Pow256(6) == 256 * (256 * Pow256(4));
    assert Pow256(8) == 256 * (256 * Pow256(6));
  }

  /** The number of values of a k-byte integer, for the widths the format has. */
  function Range(k: nat): nat {
    if k == 1 then 0x100 else if k == 2 then 0x1_0000 else if k == 4 then 0x1_0000_0000 else 0x1_0000_0000_0000_0000
  }

  predicate Width(k: nat) { k == 1 || k == 2 || k == 4 || k == 8 }

  function ToUnsigned(i: int, k: nat): nat
    requires 0 <= i + Range(k)
  {
    if i < 0 then i + Range(k) else i
  }

  function ToSigned(u: nat, k: nat): int {
    if 2 * u >= Range(k) then u - Range(k) else u
  }

  // ---------------------------------------------------------------------------------------------
  // Encoding
  // ---------------------------------------------------------------------------------------------

  function EncString(s: seq<byte>): seq<byte> {
    if |s| <= 31 then [0xa0 + |s|] + s
    else if |s| <= 0xff then [0xd9] + (BigEndian(|s|, 1) + s)
    else if |s| <= 0xffff then [0xda] + (BigEndian(|s|, 2) + s)
    else [0xdb] + (BigEndian(|s|, 4) + s)
  }

  function SizeWidth(n: nat): nat { if n <= 0xff then 1 else if n <= 0xffff then 2 else 4 }

  function StrHead(n: nat): byte {
    if n <= 31 then 0xa0 + n else if n <= 0xff then 0xd9 else if n <= 0xffff then 0xda else 0xdb
  }

  function BinHead(n: nat): byte { if n <= 0xff then 0xc4 else if n <= 0xffff then 0xc5 else 0xc6 }

  function EncNegInt(i: int): seq<byte>
    requires INT64_MIN <= i < 0
  {
    if i >= -32 then [256 + i]
    else if i >= -0x80 then [0xd0] + BigEndian(ToUnsigned(i, 1), 1)
    else if i >= -0x8000 then [0xd1] + BigEndian(ToUnsigned(i, 2), 2)
    else if i >= -0x8000_0000 then [0xd2] + BigEndian(ToUnsigned(i, 4), 4)
    else [0xd3] + BigEndian(ToUnsigned(i, 8), 8)
  }

  function EncPosInt(u: nat): seq<byte> {
    if u < 128 then [u]
    else if u <= 0xff then [0xcc] + BigEndian(u, 1)
    else if u <= 0xffff then [0xcd] + BigEndian(u, 2)
    else if u <= 0xffff_ffff then [0xce] + BigEndian(u, 4)
    else [0xcf] + BigEndian(u, 8)
  }

  function EncBinary(data: seq<byte>): seq<byte> {
    if |data| <= 0xff then [0xc4] + (BigEndian(|data|, 1) + data)
    else if |data| <= 0xffff then [0xc5] + (BigEndian(|data|, 2) + data)
    else [0xc6] + (BigEndian(|data|, 4) + data)
  }

  lemma StringForm(s: seq<byte>)
    ensures |s| <= 31 ==> EncString(s) == [StrHead(|s|)] + s
    ensures |s| > 31 ==> EncString(s) == [StrHead(|s|)] + (BigEndian(|s|, SizeWidth(|s|)) + s)
  {
    hide BigEndian;
  }

  lemma BinaryForm(s: seq<byte>)
    ensures EncBinary(s) == [BinHead(|s|)] + (BigEndian(|s|, SizeWidth(|s|)) + s)
  {
    hide BigEndian;
  }

  function ArrHeader(n: nat): seq<byte> {
    if n <= 15 then [0x90 + n]
    else if n <= 0xffff then [0xdc] + BigEndian(n, 2)
    else [0xdd] + BigEndian(n, 4)
  }

  function ObjHeader(n: nat): seq<byte> {
    if n <= 15 then [0x80 + n]
    else if n <= 0xffff then [0xde] + BigEndian(n, 2)
    else [0xdf] + BigEndian(n, 4)
  }

  function Enc(v: Json): seq<byte>
    requires WellFormed(v)
  {
    match v
    case Null => [0xc0]
    case Bool(b) => if b then [0xc3] else [0xc2]
    case Num(bits) => [0xcb] + bits
    case Int(i) => if i < 0 then EncNegInt(i) else EncPosInt(i)
    case UInt(u) => EncPosInt(u)
    case Bin(data) => EncBinary(data)
    case Str(s) => EncString(s)
    case Arr(items) => ArrHeader(|items|) + EncItems(items)
    case Obj(fs) => ObjHeader(|fs|) + EncFields(fs)
  }

  predicate WellFormedItems(items: seq<Json>) {
    forall i :: 0 <= i < |items| ==> WellFormed(items[i])
  }

  predicate WellFormedFields(fs: seq<Field>) {
    forall i :: 0 <= i < |fs| ==> |fs[i].key| < MAX_LENGTH && WellFormed(fs[i].value)
  }

  /** An object body whose values have at most the given height. */
  predicate FieldsFit(fs: seq<Field>, depth: nat) {
    SortedFields(fs) && WellFormedFields(fs) && forall i :: 0 <= i < |fs| ==> Height(fs[i].value) <= depth
  }

  lemma InsertFits(fs: seq<Field>, f: Field, depth: nat)
    requires FieldsFit(fs, depth) && |f.key| < MAX_LENGTH && WellFormed(f.value) && Height(f.value) <= depth
    ensures FieldsFit(InsertField(fs, f), depth) && |InsertField(fs, f)| <= |fs| + 1
  {
    InsertKeepsSorted(fs, f);
  }

  function EncItems(items: seq<Json>): seq<byte>
    requires WellFormedItems(items)
  {
    if items == [] then [] else Enc(items[0]) + EncItems(items[1..])
  }

  function EncFields(fs: seq<Field>): seq<byte>
    requires WellFormedFields(fs)
  {
    if fs == [] then [] else EncString(fs[0].key) + (Enc(fs[0].value) + EncFields(fs[1..]))
  }

  lemma EncContainer(v: Json)
    requires WellFormed(v)
    ensures v.Arr? ==> WellFormedItems(v.items) && |v.items| < MAX_LENGTH && Enc(v) == ArrHeader(|v.items|) + EncItems(v.items)
    ensures v.Obj? ==> WellFormedFields(v.fields) && |v.fields| < MAX_LENGTH && Enc(v) == ObjHeader(|v.fields|) + EncFields(v.fields)
  {
    hide ArrHeader, ObjHeader, EncItems, EncFields;
  }

  // ---------------------------------------------------------------------------------------------
  // float to double
  // ---------------------------------------------------------------------------------------------

  function Pow2(k: nat): (r: nat)
    ensures r >= 1
  {
    if k == 0 then 1 else 2 * Pow2(k - 1)
  }

  function Log2(n: nat): nat
    requires n > 0
  {
    if n == 1 then 0 else 1 + Log2(n / 2)
  }

  function DoubleExponent(e: nat, m: nat): nat {
    if e == 0xff then 0x7ff
    else if e != 0 then e + 896
    else if m == 0 then 0
    else Log2(m) + 874
  }

  function Times(a: nat, b: nat): nat { a * b }

  function DoubleMantissa(e: nat, m: nat): nat {
    if e == 0xff then (if m == 0 || m >= 0x40_0000 then m else m + 0x40_0000) * 0x2000_0000
    else if e != 0 || m == 0 then m * 0x2000_0000
    else if Log2(m) <= 52 && m >= Pow2(Log2(m)) then Times(m - Pow2(Log2(m)), Pow2(52 - Log2(m)))
    else 0
  }

  /** The double with the value of a float, by their IEEE 754 bit patterns (NaNs become quiet). */
  function Widen(u: nat): nat {
    var e, m := (u / 0x80_0000) % 0x100, u % 0x80_0000;
    (u / 0x8000_0000) % 2 * 0x8000_0000_0000_0000 + DoubleExponent(e, m) * 0x10_0000_0000_0000 + DoubleMantissa(e, m)
  }

  // ---------------------------------------------------------------------------------------------
  // Parsing
  // ---------------------------------------------------------------------------------------------

  datatype ParseError = UnexpectedEof | TooDeep | NotAllowed | KeyNotString

  /** The result of a parser and where it stopped.  `plain` is history: no ext item and no float32
      was read, the two kinds whose value re-encodes longer. */
  datatype Parsed<+T> = Ok(value: T, pos: nat, plain: bool) | Fail(error: ParseError, pos: nat)

  function Take(bs: seq<byte>, pos: nat, n: nat): (r: Parsed<seq<byte>>)
    requires pos <= |bs|
    ensures r.Ok? ==> r.pos == pos + n <= |bs| && r.value == bs[pos..pos + n] && r.plain
    ensures r.Fail? ==> r.pos == pos
  {
    if |bs| - pos < n then Fail(UnexpectedEof, pos) else Ok(bs[pos..pos + n], pos + n, true)
  }

  function TakeUInt(bs: seq<byte>, pos: nat, k: nat): (r: Parsed<nat>)
    requires pos <= |bs| && Width(k)
    ensures r.Ok? ==> r.pos == pos + k <= |bs| && r.value == FromBig(bs[pos..pos + k]) < Range(k) && r.plain
    ensures r.Fail? ==> r.pos == pos
  {
    match Take(bs, pos, k)
    case Fail(e, p) => Fail(e, p)
    case Ok(raw, p, plain) =>
      FromBigBound(raw);
      PowValues();
      Ok(FromBig(raw), p, plain)
  }

  /** unpackStr: a length of k bytes and as many bytes. */
  function TakeSized(bs: seq<byte>, pos: nat, k: nat): (r: Parsed<seq<byte>>)
    requires pos <= |bs| && Width(k) && k <= 4
    ensures pos <= r.pos <= |bs|
    ensures r.Ok? ==> |r.value| < MAX_LENGTH && r.pos == pos + k + |r.value| && r.plain
  {
    match TakeUInt(bs, pos, k)
    case Fail(e, p) => Fail(e, p)
    case Ok(n, p, _) => Take(bs, p, n)
  }

  /** unpackBin with the type byte of an ext item; the view keeps the length modulo 2^32. */
  function TakeExt(bs: seq<byte>, pos: nat, k: nat): (r: Parsed<seq<byte>>)
    requires pos <= |bs| && Width(k) && k <= 4
    ensures pos <= r.pos <= |bs|
    ensures r.Ok? ==> |r.value| < MAX_LENGTH && r.pos > pos && !r.plain
  {
    match TakeUInt(bs, pos, k)
    case Fail(e, p) => Fail(e, p)
    case Ok(n, p, _) =>
      match Take(bs, p, n + 1)
      case Fail(e, p') => Fail(e, p')
      case Ok(raw, p', _) => Ok(raw[..(n + 1) % MAX_LENGTH], p', false)
  }

  function FixExt(bs: seq<byte>, pos: nat, n: nat): (r: Parsed<seq<byte>>)
    requires pos <= |bs| && n < MAX_LENGTH - 1
    ensures pos <= r.pos <= |bs|
    ensures r.Ok? ==> |r.value| < MAX_LENGTH && r.pos > pos && !r.plain
  {
    match Take(bs, pos, n + 1)
    case Fail(e, p) => Fail(e, p)
    case Ok(raw, p, _) => Ok(raw, p, false)
  }

  function Unsigned(r: Parsed<nat>): Parsed<Json> {
    match r case Fail(e, p) => Fail(e, p) case Ok(u, p, plain) => Ok(UInt(u), p, plain)
  }

  function Signed(r: Parsed<nat>, k: nat): Parsed<Json> {
    match r case Fail(e, p) => Fail(e, p) case Ok(u, p, plain) => Ok(Int(ToSigned(u, k)), p, plain)
  }

  function AsStr(r: Parsed<seq<byte>>): Parsed<Json> {
    match r case Fail(e, p) => Fail(e, p) case Ok(s, p, plain) => Ok(Str(s), p, plain)
  }

  function AsBin(r: Parsed<seq<byte>>): Parsed<Json> {
    match r case Fail(e, p) => Fail(e, p) case Ok(s, p, plain) => Ok(Bin(s), p, plain)
  }

  function AsNum(r: Parsed<seq<byte>>): Parsed<Json> {
    match r case Fail(e, p) => Fail(e, p) case Ok(s, p, plain) => Ok(Num(s), p, plain)
  }

  function AsArr(r: Parsed<seq<Json>>): Parsed<Json> {
    match r case Fail(e, p) => Fail(e, p) case Ok(items, p, plain) => Ok(Arr(items), p, plain)
  }

  function AsObj(r: Parsed<seq<Field>>): Parsed<Json> {
    match r case Fail(e, p) => Fail(e, p) case Ok(fs, p, plain) => Ok(Obj(fs), p, plain)
  }

  function Floats(r: Parsed<nat>): Parsed<Json> {
    match r case Fail(e, p) => Fail(e, p) case Ok(u, p, _) => Ok(Num(BigEndian(Widen(u), 8)), p, false)
  }

  /** Everything but containers, after the head byte. */
  function ParseScalar(head: byte, bs: seq<byte>, pos: nat): (r: Parsed<Json>)
    requires pos <= |bs|
    ensures pos <= r.pos <= |bs|
    ensures r.Ok? ==> WellFormed(r.value) && Height(r.value) == 1
  {
    if head <= 0x7f then Ok(UInt(head), pos, true)
    else if 0xa0 <= head <= 0xbf then AsStr(Take(bs, pos, head - 0xa0))
    else if head >= 0xe0 then Ok(Int(head - 256), pos, true)
    else match head
         case 0xc0 => Ok(Null, pos, true)
         case 0xc2 => Ok(Bool(false), pos, true)
         case 0xc3 => Ok(Bool(true), pos, true)
         case 0xcc => Unsigned(TakeUInt(bs, pos, 1))
         case 0xcd => Unsigned(TakeUInt(bs, pos, 2))
         case 0xce => Unsigned(TakeUInt(bs, pos, 4))
         case 0xcf => Unsigned(TakeUInt(bs, pos, 8))
         case 0xd0 => Signed(TakeUInt(bs, pos, 1), 1)
         case 0xd1 => Signed(TakeUInt(bs, pos, 2), 2)
         case 0xd2 => Signed(TakeUInt(bs, pos, 4), 4)
         case 0xd3 => Signed(TakeUInt(bs, pos, 8), 8)
         case 0xca => Floats(TakeUInt(bs, pos, 4))
         case 0xcb => AsNum(Take(bs, pos, 8))
         case 0xd9 => AsStr(TakeSized(bs, pos, 1))
         case 0xda => AsStr(TakeSized(bs, pos, 2))
         case 0xdb => AsStr(TakeSized(bs, pos, 4))
         case 0xc4 => AsBin(TakeSized(bs, pos, 1))
         case 0xc5 => AsBin(TakeSized(bs, pos, 2))
         case 0xc6 => AsBin(TakeSized(bs, pos, 4))
         case 0xd4 => AsBin(FixExt(bs, pos, 1))
         case 0xd5 => AsBin(FixExt(bs, pos, 2))
         case 0xd6 => AsBin(FixExt(bs, pos, 4))
         case 0xd7 => AsBin(FixExt(bs, pos, 8))
         case 0xd8 => AsBin(FixExt(bs, pos, 16))
         case 0xc7 => AsBin(TakeExt(bs, pos, 1))
         case 0xc8 => AsBin(TakeExt(bs, pos, 2))
         case 0xc9 => AsBin(TakeExt(bs, pos, 4))
         case _ => Fail(NotAllowed, pos)
  }

  datatype Container = NoContainer | ArrayHead | ObjectHead

  /** Which container a head byte opens, and how its count is read. */
  function ContainerOf(head: byte): Container {
    if 0x80 <= head <= 0x8f || head == 0xde || head == 0xdf then ObjectHead
    else if 0x90 <= head <= 0x9f || head == 0xdc || head == 0xdd then ArrayHead
    else NoContainer
  }

  function CountOf(head: byte, bs: seq<byte>, pos: nat): (r: Parsed<nat>)
    requires pos <= |bs| && ContainerOf(head) != NoContainer
    ensures pos <= r.pos <= |bs|
    ensures r.Ok? ==> r.value < MAX_LENGTH && r.plain
  {
    if head <= 0x9f then Ok(head % 16, pos, true)
    else if head == 0xdc || head == 0xde then TakeUInt(bs, pos, 2)
    else TakeUInt(bs, pos, 4)
  }

  function ParseOne(bs: seq<byte>, pos: nat, depth: nat): (r: Parsed<Json>)
    requires pos <= |bs|
    ensures pos <= r.pos <= |bs|
    ensures r.Ok? ==> pos < r.pos && WellFormed(r.value) && Height(r.value) <= depth
    decreases depth, 0
  {
    if depth == 0 then Fail(TooDeep, pos)
    else if pos == |bs| then Fail(UnexpectedEof, pos)
    else
      var head := bs[pos];
      if ContainerOf(head) == NoContainer then ParseScalar(head, bs, pos + 1)
      else
        match CountOf(head, bs, pos + 1)
        case Fail(e, p) => Fail(e, p)
        case Ok(count, p, _) =>
          if ContainerOf(head) == ArrayHead then
            var r := ParseItems(bs, p, count, depth - 1);
            if r.Ok? then (ItemsHeightBound(r.value, depth - 1); AsArr(r)) else AsArr(r)
          else
            var r := ParseFields(bs, p, count, [], depth - 1);
            if r.Ok? then (FieldsHeightBound(r.value, depth - 1); AsObj(r)) else AsObj(r)
  }

  function ParseItems(bs: seq<byte>, pos: nat, count: nat, depth: nat): (r: Parsed<seq<Json>>)
    requires pos <= |bs|
    ensures pos <= r.pos <= |bs|
    ensures r.Ok? ==> |r.value| == count && WellFormedItems(r.value)
                      && forall i :: 0 <= i < count ==> Height(r.value[i]) <= depth
    decreases depth, count
  {
    if count == 0 then Ok([], pos, true)
    else
      match ParseOne(bs, pos, depth)
      case Fail(e, p) => Fail(e, p)
      case Ok(v, p, plain) =>
        match ParseItems(bs, p, count - 1, depth)
        case Fail(e, p') => Fail(e, p')
        case Ok(vs, p', plain') => Ok([v] + vs, p', plain && plain')
  }

  /** The pairs still to come are inserted one by one into what was read so far. */
  function ParseFields(bs: seq<byte>, pos: nat, count: nat, acc: seq<Field>, depth: nat): (r: Parsed<seq<Field>>)
    requires pos <= |bs| && FieldsFit(acc, depth)
    ensures pos <= r.pos <= |bs|
    ensures r.Ok? ==> |r.value| <= |acc| + count && FieldsFit(r.value, depth)
    decreases depth, count
  {
    if count == 0 then Ok(acc, pos, true)
    else
      match ParseOne(bs, pos, depth)
      case Fail(e, p) => Fail(e, p)
      case Ok(key, p, plain) =>
        if !key.Str? then Fail(KeyNotString, p)
        else
          match ParseOne(bs, p, depth)
          case Fail(e, p') => Fail(e, p')
          case Ok(v, p', plain') =>
            InsertFits(acc, Field(key.s, v), depth);
            match ParseFields(bs, p', count - 1, InsertField(acc, Field(key.s, v)), depth)
            case Fail(e, p'') => Fail(e, p'')
            case Ok(fs, p'', plain'') => Ok(fs, p'', plain && plain' && plain'')
  }
}
