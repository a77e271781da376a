/** The items of the MessagePack specification, in every form the parser takes, by their bytes. */
module MsgPackForms {
  import opened JsonTree
  import opened SortedObject
  import opened MsgPackFormat
  import opened MsgPackTheorems

  // ---------------------------------------------------------------------------------------------
  // Bytes of integers
  // ---------------------------------------------------------------------------------------------

  lemma SplitDivision(n: nat, k: nat)
    ensures n / 256 / Pow256(k) == n / Pow256(k + 1)
  {
    var (p, q) := (Pow256(k), n / 256 / Pow256(k));
    var r := n / 256 - q * p;
    assert 0 <= r < p;
    assert n == 256 * (q * p + r) + n % 256;
    assert Pow256(k + 1) == 256 * p;
    Quotient(n, 256 * p, q, 256 * r + n % 256);
  }

  lemma Quotient(n: nat, d: nat, q: nat, r: nat)
    requires r < d && n == q * d + r
    ensures n / d == q
  {
    var x := n / d - q;
    assert x * d == n / d * d - q * d == r - n % d;
    if x != 0 { Multiple(x, d); }
  }

  lemma Multiple(x: int, d: nat)
    requires x != 0
    ensures x * d >= d || x * d + d <= 0
  {
    if x > 0 { assert (x - 1) * d >= 0; } else { assert (-x - 1) * d >= 0; }
  }

  /** Byte i is the digit of weight 256^(k - 1 - i): the most significant comes first. */
  lemma {:induction false} BigEndianAt(n: nat, k: nat, i: nat)
    requires i < k
    ensures BigEndian(n, k)[i] == n / Pow256(k - 1 - i) % 256
    decreases k
  {
    if i < k - 1 {
      BigEndianAt(n / 256, k - 1, i);
      SplitDivision(n, k - 2 - i);
    }
  }

  /** Writing back what was read gives the same bytes. */
  lemma {:induction false} BigBytes(bs: seq<byte>)
    ensures BigEndian(FromBig(bs), |bs|) == bs
  {
    if bs != [] {
      var front := bs[..|bs| - 1];
      BigBytes(front);
      assert FromBig(bs) / 256 == FromBig(front) && FromBig(bs) % 256 == bs[|bs| - 1];
      assert front + [bs[|bs| - 1]] == bs;
    }
  }

  /** The signed reading of a k-byte number: congruent to it, and in the signed range. */
  predicate TwosComplement(i: int, u: nat, k: nat) {
    -(Pow256(k) as int) <= 2 * i < Pow256(k) && (i == u || i == u - Pow256(k))
  }

  // ---------------------------------------------------------------------------------------------
  // Scalars
  // ---------------------------------------------------------------------------------------------

  lemma HeadAlone(bs: seq<byte>, pos: nat, depth: nat)
    requires pos < |bs| && depth >= 1
    ensures bs[pos] == 0xc0 ==> ParseOne(bs, pos, depth) == Ok(Null, pos + 1, true)
    ensures bs[pos] == 0xc1 ==> ParseOne(bs, pos, depth) == Fail(NotAllowed, pos + 1)
    ensures bs[pos] == 0xc2 ==> ParseOne(bs, pos, depth) == Ok(Bool(false), pos + 1, true)
    ensures bs[pos] == 0xc3 ==> ParseOne(bs, pos, depth) == Ok(Bool(true), pos + 1, true)
    ensures bs[pos] <= 0x7f ==> ParseOne(bs, pos, depth) == Ok(UInt(bs[pos]), pos + 1, true)
    ensures bs[pos] >= 0xe0 ==> ParseOne(bs, pos, depth) == Ok(Int((bs[pos] as int) - 256), pos + 1, true)
  {}

  lemma TakeUIntRaw(bs: seq<byte>, pos: nat, raw: seq<byte>)
    requires Width(|raw|) && At(bs, pos, raw)
    ensures pos <= |bs| && TakeUInt(bs, pos, |raw|) == Ok(FromBig(raw), pos + |raw|, true)
  {}

  /** Unsigned integers of 1, 2, 4 and 8 bytes, whether or not a shorter form exists. */
  lemma UnsignedItem(head: byte, raw: seq<byte>, bs: seq<byte>, pos: nat, depth: nat)
    requires depth >= 1 && At(bs, pos, [head] + raw)
    requires (head, |raw|) in {(0xcc, 1), (0xcd, 2), (0xce, 4), (0xcf, 8)}
    ensures ParseOne(bs, pos, depth) == Ok(UInt(FromBig(raw)), pos + 1 + |raw|, true)
  {
    hide At, ParseOne, FromBig, TakeUInt;
    AtSplit(bs, pos, [head], raw);
    AtHead(bs, pos, [head]);
    TakeUIntRaw(bs, pos + 1, raw);
    ParseIntHead(bs, pos, depth, |raw|);
  }

  /** Signed integers, in two's complement, negative or not. */
  lemma SignedItem(head: byte, raw: seq<byte>, bs: seq<byte>, pos: nat, depth: nat)
    requires depth >= 1 && At(bs, pos, [head] + raw)
    requires (head, |raw|) in {(0xd0, 1), (0xd1, 2), (0xd2, 4), (0xd3, 8)}
    ensures var r := ParseOne(bs, pos, depth);
            r.Ok? && r.value.Int? && TwosComplement(r.value.i, FromBig(raw), |raw|) && r.pos == pos + 1 + |raw| && r.plain
  {
    hide At, ParseOne, FromBig, Pow256, TakeUInt;
    AtSplit(bs, pos, [head], raw);
    AtHead(bs, pos, [head]);
    TakeUIntRaw(bs, pos + 1, raw);
    ParseIntHead(bs, pos, depth, |raw|);
    FromBigBound(raw);
    PowValues();
  }

  /** A double is its eight bytes. */
  lemma DoubleItem(raw: seq<byte>, bs: seq<byte>, pos: nat, depth: nat)
    requires depth >= 1 && |raw| == 8 && At(bs, pos, [0xcb] + raw)
    ensures ParseOne(bs, pos, depth) == Ok(Num(raw), pos + 9, true)
  {
    AtSplit(bs, pos, [0xcb], raw);
    TakeAt(bs, pos + 1, raw);
  }

  lemma SizedRaw(bs: seq<byte>, pos: nat, len: seq<byte>, s: seq<byte>)
    requires Width(|len|) && |len| <= 4 && FromBig(len) == |s| && At(bs, pos, len + s)
    ensures pos <= |bs| && TakeSized(bs, pos, |len|) == Ok(s, pos + |len| + |s|, true)
  {
    hide FromBig, At, TakeUInt, Take;
    AtSplit(bs, pos, len, s);
    TakeUIntRaw(bs, pos, len);
    TakeAt(bs, pos + |len|, s);
  }

  lemma SizedHead(head: byte, k: nat, bs: seq<byte>, pos: nat, depth: nat)
    requires depth >= 1 && pos < |bs| && bs[pos] == head
    ensures (head, k) in {(0xd9, 1), (0xda, 2), (0xdb, 4)} ==> ParseOne(bs, pos, depth) == AsStr(TakeSized(bs, pos + 1, k))
    ensures (head, k) in {(0xc4, 1), (0xc5, 2), (0xc6, 4)} ==> ParseOne(bs, pos, depth) == AsBin(TakeSized(bs, pos + 1, k))
    ensures (head, k) in {(0xc7, 1), (0xc8, 2), (0xc9, 4)} ==> ParseOne(bs, pos, depth) == AsBin(TakeExt(bs, pos + 1, k))
  {
    hide TakeSized, TakeExt;
  }

  /** Strings and binary data with a length of 1, 2 or 4 bytes before them. */
  lemma SizedItem(head: byte, len: seq<byte>, s: seq<byte>, bs: seq<byte>, pos: nat, depth: nat)
    requires depth >= 1 && FromBig(len) == |s| && At(bs, pos, [head] + (len + s))
    ensures (head, |len|) in {(0xd9, 1), (0xda, 2), (0xdb, 4)}
            ==> ParseOne(bs, pos, depth) == Ok(Str(s), pos + 1 + |len| + |s|, true)
    ensures (head, |len|) in {(0xc4, 1), (0xc5, 2), (0xc6, 4)}
            ==> ParseOne(bs, pos, depth) == Ok(Bin(s), pos + 1 + |len| + |s|, true)
  {
    hide At, FromBig, ParseOne;
    AtSplit(bs, pos, [head], len + s);
    AtHead(bs, pos, [head]);
    if (head, |len|) in {(0xd9, 1), (0xda, 2), (0xdb, 4), (0xc4, 1), (0xc5, 2), (0xc6, 4)} {
      SizedRaw(bs, pos + 1, len, s);
      SizedHead(head, |len|, bs, pos, depth);
    }
  }

  /** Short strings have their length in the head. */
  lemma ShortString(s: seq<byte>, bs: seq<byte>, pos: nat, depth: nat)
    requires depth >= 1 && |s| <= 31 && At(bs, pos, [0xa0 + |s|] + s)
    ensures ParseOne(bs, pos, depth) == Ok(Str(s), pos + 1 + |s|, true)
  {
    hide At, ParseOne, Take;
    AtSplit(bs, pos, [0xa0 + |s|], s);
    AtHead(bs, pos, [0xa0 + |s|]);
    TakeAt(bs, pos + 1, s);
    ParseSizedHead(bs, pos, depth, |s|);
  }

  /** Ext items: the view is the type byte and the data. */
  lemma FixedExt(head: byte, raw: seq<byte>, bs: seq<byte>, pos: nat, depth: nat)
    requires depth >= 1 && At(bs, pos, [head] + raw)
    requires (head, |raw| - 1) in {(0xd4, 1), (0xd5, 2), (0xd6, 4), (0xd7, 8), (0xd8, 16)}
    ensures ParseOne(bs, pos, depth) == Ok(Bin(raw), pos + 1 + |raw|, false)
  {
    hide At, Take;
    AtSplit(bs, pos, [head], raw);
    AtHead(bs, pos, [head]);
    TakeAt(bs, pos + 1, raw);
    FixedHead(head, |raw| - 1, bs, pos, depth);
  }

  lemma FixedHead(head: byte, n: nat, bs: seq<byte>, pos: nat, depth: nat)
    requires depth >= 1 && pos < |bs| && bs[pos] == head
    requires (head, n) in {(0xd4, 1), (0xd5, 2), (0xd6, 4), (0xd7, 8), (0xd8, 16)}
    ensures ParseOne(bs, pos, depth) == AsBin(FixExt(bs, pos + 1, n))
  {
    hide FixExt;
  }

  lemma SizedExt(head: byte, len: seq<byte>, raw: seq<byte>, bs: seq<byte>, pos: nat, depth: nat)
    requires depth >= 1 && |raw| == FromBig(len) + 1 && At(bs, pos, [head] + (len + raw))
    requires (head, |len|) in {(0xc7, 1), (0xc8, 2), (0xc9, 4)}
    ensures ParseOne(bs, pos, depth) == Ok(Bin(if |raw| == MAX_LENGTH then [] else raw), pos + 1 + |len| + |raw|, false)
  {
    hide At, FromBig, ParseOne, TakeExt;
    AtSplit(bs, pos, [head], len + raw);
    AtHead(bs, pos, [head]);
    ExtRaw(bs, pos + 1, len, raw);
    SizedHead(head, |len|, bs, pos, depth);
  }

  lemma ExtRaw(bs: seq<byte>, pos: nat, len: seq<byte>, raw: seq<byte>)
    requires Width(|len|) && |len| <= 4 && |raw| == FromBig(len) + 1 && At(bs, pos, len + raw)
    ensures pos <= |bs|
    ensures TakeExt(bs, pos, |len|) == Ok(if |raw| == MAX_LENGTH then [] else raw, pos + |len| + |raw|, false)
  {
    hide At, FromBig, TakeUInt, Take;
    AtSplit(bs, pos, len, raw);
    TakeUIntRaw(bs, pos, len);
    TakeAt(bs, pos + |len|, raw);
    Cut(raw);
  }

  lemma Cut(raw: seq<byte>)
    requires 0 < |raw| <= MAX_LENGTH
    ensures |raw| % MAX_LENGTH <= |raw| && raw[..|raw| % MAX_LENGTH] == if |raw| == MAX_LENGTH then [] else raw
  {
    if |raw| < MAX_LENGTH { assert |raw| % MAX_LENGTH == |raw|; }
  }

  // ---------------------------------------------------------------------------------------------
  // Containers
  // ---------------------------------------------------------------------------------------------

  lemma CountItem(head: byte, raw: seq<byte>, bs: seq<byte>, pos: nat)
    requires At(bs, pos, [head] + raw) && (head, |raw|) in {(0xdc, 2), (0xdd, 4), (0xde, 2), (0xdf, 4)}
    ensures pos < |bs| && bs[pos] == head && ContainerOf(head) == (if head <= 0xdd then ArrayHead else ObjectHead)
    ensures CountOf(head, bs, pos + 1) == Ok(FromBig(raw), pos + 1 + |raw|, true)
  {
    hide At, FromBig, TakeUInt;
    AtSplit(bs, pos, [head], raw);
    AtHead(bs, pos, [head]);
    TakeUIntRaw(bs, pos + 1, raw);
  }

  /** Arrays and objects with their count in 2 or 4 bytes behind the head. */
  lemma ContainerItem(head: byte, raw: seq<byte>, bs: seq<byte>, pos: nat, depth: nat)
    requires depth >= 1 && At(bs, pos, [head] + raw) && FieldsFit([], depth - 1)
    requires (head, |raw|) in {(0xdc, 2), (0xdd, 4), (0xde, 2), (0xdf, 4)}
    ensures pos + 1 + |raw| <= |bs|
    ensures ParseOne(bs, pos, depth)
            == if head <= 0xdd then AsArr(ParseItems(bs, pos + 1 + |raw|, FromBig(raw), depth - 1))
               else AsObj(ParseFields(bs, pos + 1 + |raw|, FromBig(raw), [], depth - 1))
  {
    hide At, FromBig, ParseOne, ParseItems, ParseFields, FieldsFit, CountOf, ContainerOf;
    AtBound(bs, pos, [head] + raw);
    CountItem(head, raw, bs, pos);
    ParseContainer(bs, pos, depth, FromBig(raw), pos + 1 + |raw|);
  }

  /** Small ones have it in the head. */
  lemma SmallContainer(bs: seq<byte>, pos: nat, depth: nat)
    requires depth >= 1 && pos < |bs| && FieldsFit([], depth - 1)
    ensures 0x90 <= bs[pos] <= 0x9f ==> ParseOne(bs, pos, depth) == AsArr(ParseItems(bs, pos + 1, bs[pos] - 0x90, depth - 1))
    ensures 0x80 <= bs[pos] <= 0x8f ==> ParseOne(bs, pos, depth) == AsObj(ParseFields(bs, pos + 1, bs[pos] - 0x80, [], depth - 1))
  {
    hide ParseItems, ParseFields, FieldsFit, ParseOne;
    if 0x80 <= bs[pos] <= 0x9f { ParseContainer(bs, pos, depth, bs[pos] % 16, pos + 1); }
  }

  // ---------------------------------------------------------------------------------------------
  // Only what is consumed counts
  // ---------------------------------------------------------------------------------------------

  lemma TakeMore(bs: seq<byte>, more: seq<byte>, pos: nat, n: nat)
    requires pos <= |bs| && Take(bs, pos, n).Ok?
    ensures Take(bs + more, pos, n) == Take(bs, pos, n)
  {
    assert (bs + more)[pos..pos + n] == bs[pos..pos + n];
  }

  lemma TakeUIntMore(bs: seq<byte>, more: seq<byte>, pos: nat, k: nat)
    requires pos <= |bs| && Width(k) && TakeUInt(bs, pos, k).Ok?
    ensures TakeUInt(bs + more, pos, k) == TakeUInt(bs, pos, k)
  {
    hide Take, FromBig;
    TakeMore(bs, more, pos, k);
  }

  lemma TakeSizedMore(bs: seq<byte>, more: seq<byte>, pos: nat, k: nat)
    requires pos <= |bs| && Width(k) && k <= 4
    ensures TakeSized(bs, pos, k).Ok? ==> TakeSized(bs + more, pos, k) == TakeSized(bs, pos, k)
    ensures TakeExt(bs, pos, k).Ok? ==> TakeExt(bs + more, pos, k) == TakeExt(bs, pos, k)
  {
    hide TakeUInt, Take;
    var len := TakeUInt(bs, pos, k);
    if len.Ok? {
      TakeUIntMore(bs, more, pos, k);
      if Take(bs, len.pos, len.value).Ok? { TakeMore(bs, more, len.pos, len.value); }
      if Take(bs, len.pos, len.value + 1).Ok? { TakeMore(bs, more, len.pos, len.value + 1); }
    }
  }

  /** How a scalar is read, by its head. */
  datatype Reader = Alone | Number(k: nat) | Sized(k: nat) | Fixed(n: nat)

  function ReaderOf(head: byte): Reader {
    if 0xa0 <= head <= 0xbf then Fixed(head - 0xa0)
    else match head
         case 0xcc => Number(1) case 0xcd => Number(2) case 0xce => Number(4) case 0xcf => Number(8)
         case 0xd0 => Number(1) case 0xd1 => Number(2) case 0xd2 => Number(4) case 0xd3 => Number(8)
         case 0xca => Number(4) case 0xcb => Fixed(8)
         case 0xd9 => Sized(1) case 0xda => Sized(2) case 0xdb => Sized(4)
         case 0xc4 => Sized(1) case 0xc5 => Sized(2) case 0xc6 => Sized(4)
         case 0xc7 => Sized(1) case 0xc8 => Sized(2) case 0xc9 => Sized(4)
         case 0xd4 => Fixed(2) case 0xd5 => Fixed(3) case 0xd6 => Fixed(5) case 0xd7 => Fixed(9) case 0xd8 => Fixed(17)
         case _ => Alone
  }

  lemma ScalarMore(head: byte, bs: seq<byte>, more: seq<byte>, pos: nat)
    requires pos <= |bs| && ParseScalar(head, bs, pos).Ok? && ContainerOf(head) == NoContainer
    ensures ParseScalar(head, bs + more, pos) == ParseScalar(head, bs, pos)
  {
    hide TakeUInt, TakeSized, TakeExt, Take;
    match ReaderOf(head) {
      case Alone =>
      case Number(k) => TakeUIntMore(bs, more, pos, k);
      case Sized(k) => TakeSizedMore(bs, more, pos, k);
      case Fixed(n) => TakeMore(bs, more, pos, n);
    }
  }

  lemma CountMore(head: byte, bs: seq<byte>, more: seq<byte>, pos: nat)
    requires pos <= |bs| && ContainerOf(head) != NoContainer && CountOf(head, bs, pos).Ok?
    ensures CountOf(head, bs + more, pos) == CountOf(head, bs, pos)
  {
    hide TakeUInt;
    if head > 0x9f { TakeUIntMore(bs, more, pos, if head == 0xdc || head == 0xde then 2 else 4); }
  }

  /** What was parsed stays so whatever follows it. */
  lemma {:induction false} ParseMore(bs: seq<byte>, more: seq<byte>, pos: nat, depth: nat)
    requires pos <= |bs| && ParseOne(bs, pos, depth).Ok?
    ensures ParseOne(bs + more, pos, depth) == ParseOne(bs, pos, depth)
    decreases depth, 0
  {
    hide ParseScalar, ContainerOf, CountOf, ParseItems, ParseFields, FieldsFit, WellFormed, ItemsHeight, FieldsHeight;
    var head := bs[pos];
    assert (bs + more)[pos] == head;
    if ContainerOf(head) == NoContainer {
      ScalarMore(head, bs, more, pos + 1);
    } else {
      CountMore(head, bs, more, pos + 1);
      var c := CountOf(head, bs, pos + 1);
      if ContainerOf(head) == ArrayHead {
        ItemsMore(bs, more, c.pos, c.value, depth - 1);
      } else {
        NoFields(depth - 1);
        FieldsMore(bs, more, c.pos, c.value, [], depth - 1);
      }
    }
  }

  lemma {:induction false} ItemsMore(bs: seq<byte>, more: seq<byte>, pos: nat, count: nat, depth: nat)
    requires pos <= |bs| && ParseItems(bs, pos, count, depth).Ok?
    ensures ParseItems(bs + more, pos, count, depth) == ParseItems(bs, pos, count, depth)
    decreases depth, count
  {
    hide ParseOne;
    if count > 0 {
      ParseMore(bs, more, pos, depth);
      ItemsMore(bs, more, ParseOne(bs, pos, depth).pos, count - 1, depth);
    }
  }

  lemma {:induction false} FieldsMore(bs: seq<byte>, more: seq<byte>, pos: nat, count: nat, acc: seq<Field>, depth: nat)
    requires pos <= |bs| && FieldsFit(acc, depth) && ParseFields(bs, pos, count, acc, depth).Ok?
    ensures ParseFields(bs + more, pos, count, acc, depth) == ParseFields(bs, pos, count, acc, depth)
    decreases depth, count
  {
    hide ParseOne, InsertField, FieldsFit;
    if count > 0 {
      var key := ParseOne(bs, pos, depth);
      ParseMore(bs, more, pos, depth);
      var v := ParseOne(bs, key.pos, depth);
      ParseMore(bs, more, key.pos, depth);
      KeyFits(key.value);
      InsertFits(acc, Field(key.value.s, v.value), depth);
      FieldsMore(bs, more, v.pos, count - 1, InsertField(acc, Field(key.value.s, v.value)), depth);
    }
  }

  lemma KeyFits(key: Json)
    requires key.Str? && WellFormed(key)
    ensures |key.s| < MAX_LENGTH
  {}

  /** No encoding is the beginning of another: a document that is cut off anywhere is rejected. */
  lemma CutOffIsRejected(v: Json, n: nat, depth: nat)
    requires WellFormed(v) && n < |Enc(v)|
    ensures ParseOne(Enc(v)[..n], 0, depth).Fail?
  {
    hide ParseOne, Enc, WellFormed;
    var (bs, rest) := (Enc(v)[..n], Enc(v)[n..]);
    if ParseOne(bs, 0, depth).Ok? {
      ParseMore(bs, rest, 0, depth);
      assert bs + rest == Enc(v) == Enc(v) + [];
      DumpParseDump(v, [], depth);
    }
  }
}
