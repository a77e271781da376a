/** DeepEqual: what it identifies, and that a round trip through MessagePack is invisible to it. */
module DeepEquality {
  import opened JsonTree
  import opened MsgPackFormat
  import opened MsgPackTheorems

  type Bits = seq<byte>

  /** Floating point as the comparison uses it: near(a, b) is |a - b| < margin. */
  datatype Floats = Floats(isNan: Bits -> bool, isInf: Bits -> bool, near: (Bits, Bits) -> bool, nearInt: (Bits, int) -> bool)

  datatype Verdict = Equal | Different | TooDeepToTell

  function Judge(same: bool): Verdict { if same then Equal else Different }

  /** The 64 bits of an integer view, read as a signed number. */
  function SignedBits(v: Json): int
    requires v.Int? || v.UInt?
  {
    if v.Int? then v.i else ToSigned(v.u, 8)
  }

  function Deep(a: Json, b: Json, depth: nat, m: Floats): Verdict
    decreases a, 0
  {
    if depth == 0 then TooDeepToTell
    else
      match a
      case Int(_) => DeepInteger(a, b, m)
      case UInt(_) => DeepInteger(a, b, m)
      case Num(x) =>
        if b.Int? then Judge(m.nearInt(x, b.i))
        else if b.UInt? then Judge(m.nearInt(x, b.u))
        else if !b.Num? then Different
        else if m.isNan(x) then Judge(m.isNan(b.bits))
        else if m.isInf(x) then Judge(m.isInf(b.bits))
        else Judge(m.near(x, b.bits))
      case Arr(items) => if b.Arr? && |items| == |b.items| then DeepItems(items, b.items, depth - 1, m) else Different
      case Obj(fs) => if b.Obj? && |fs| == |b.fields| then DeepFields(fs, b.fields, depth - 1, m) else Different
      case Bool(x) => Judge(b.Bool? && b.b == x)
      case Str(s) => Judge(b.Str? && b.s == s)
      case Bin(s) => Judge(b.Bin? && b.data == s)
      case Null => Judge(b.Null?)
  }

  function DeepInteger(a: Json, b: Json, m: Floats): Verdict
    requires a.Int? || a.UInt?
  {
    if b.Int? || b.UInt? then
      Judge(SignedBits(a) == SignedBits(b) && (a.Int? == b.Int? || SignedBits(a) >= 0))
    else if b.Num? then Judge(m.nearInt(b.bits, if a.Int? then a.i else a.u))
    else Different
  }

  /** The loops stop at the first pair that is not equal. */
  function DeepItems(a: seq<Json>, b: seq<Json>, depth: nat, m: Floats): Verdict
    requires |a| == |b|
    decreases a, 1
  {
    if a == [] then Equal
    else
      var first := Deep(a[0], b[0], depth, m);
      if first == Equal then DeepItems(a[1..], b[1..], depth, m) else first
  }

  function DeepFields(a: seq<Field>, b: seq<Field>, depth: nat, m: Floats): Verdict
    requires |a| == |b|
    decreases a, 1
  {
    if a == [] then Equal
    else if a[0].key != b[0].key then Different
    else
      var first := Deep(a[0].value, b[0].value, depth, m);
      if first == Equal then DeepFields(a[1..], b[1..], depth, m) else first
  }

  /** A positive margin: every number that is finite is near itself. */
  ghost predicate Reflexive(m: Floats) { forall x :: !m.isNan(x) && !m.isInf(x) ==> m.near(x, x) }

  /** No doubles anywhere. */
  predicate Exact(v: Json) {
    match v
    case Num(_) => false
    case Arr(items) => forall i :: 0 <= i < |items| ==> Exact(items[i])
    case Obj(fs) => forall i :: 0 <= i < |fs| ==> Exact(fs[i].value)
    case _ => true
  }

  // ---------------------------------------------------------------------------------------------
  // Equal to its round trip, and only the depth can get in the way
  // ---------------------------------------------------------------------------------------------

  lemma {:induction false} EqualToNorm(v: Json, depth: nat, m: Floats)
    requires WellFormed(v) && Reflexive(m)
    ensures Deep(v, Norm(v), depth, m) == if Height(v) <= depth then Equal else TooDeepToTell
    decreases v, 0
  {
    if depth > 0 {
      match v {
        case Arr(items) => EqualItems(items, depth - 1, m);
        case Obj(fs) => EqualFields(fs, depth - 1, m);
        case Int(i) => assert SignedBits(v) == SignedBits(Norm(v));
        case _ =>
      }
    }
  }

  lemma {:induction false} EqualItems(items: seq<Json>, depth: nat, m: Floats)
    requires WellFormedItems(items) && Reflexive(m)
    ensures DeepItems(items, NormItems(items), depth, m) == if ItemsHeight(items) <= depth then Equal else TooDeepToTell
    decreases items, 1
  {
    if items != [] {
      EqualToNorm(items[0], depth, m);
      EqualItems(items[1..], depth, m);
      assert NormItems(items)[1..] == NormItems(items[1..]);
    }
  }

  lemma {:induction false} EqualFields(fs: seq<Field>, depth: nat, m: Floats)
    requires WellFormedFields(fs) && Reflexive(m)
    ensures DeepFields(fs, NormFields(fs), depth, m) == if FieldsHeight(fs) <= depth then Equal else TooDeepToTell
    decreases fs, 1
  {
    if fs != [] {
      EqualToNorm(fs[0].value, depth, m);
      EqualFields(fs[1..], depth, m);
      assert NormFields(fs)[1..] == NormFields(fs[1..]);
    }
  }

  /** dump, then parse: consumed exactly, and equal by the library's own comparison. */
  lemma RoundTripIsEqual(v: Json, rest: seq<byte>, depth: nat, m: Floats)
    requires WellFormed(v) && Reflexive(m)
    ensures var r := ParseOne(Enc(v) + rest, 0, depth);
            if Height(v) <= depth then r.Ok? && r.pos == |Enc(v)| && Deep(v, r.value, depth, m) == Equal
            else r.Fail? && Deep(v, v, depth, m) != Equal
  {
    DumpParseDump(v, rest, depth);
    EqualToNorm(v, depth, m);
    if Height(v) > depth { NeedsDepth(v, v, depth, m); }
  }

  /** Equal only when there was depth enough for the left side. */
  lemma {:induction false} NeedsDepth(a: Json, b: Json, depth: nat, m: Floats)
    ensures Deep(a, b, depth, m) == Equal ==> Height(a) <= depth
    decreases a, 0
  {
    if depth > 0 {
      match a {
        case Arr(items) =>
          if b.Arr? && |items| == |b.items| { NeedsDepthItems(items, b.items, depth - 1, m); }
        case Obj(fs) =>
          if b.Obj? && |fs| == |b.fields| { NeedsDepthFields(fs, b.fields, depth - 1, m); }
        case _ =>
      }
    }
  }

  lemma {:induction false} NeedsDepthItems(a: seq<Json>, b: seq<Json>, depth: nat, m: Floats)
    requires |a| == |b|
    ensures DeepItems(a, b, depth, m) == Equal ==> ItemsHeight(a) <= depth
    decreases a, 1
  {
    if a != [] {
      NeedsDepth(a[0], b[0], depth, m);
      NeedsDepthItems(a[1..], b[1..], depth, m);
    }
  }

  lemma {:induction false} NeedsDepthFields(a: seq<Field>, b: seq<Field>, depth: nat, m: Floats)
    requires |a| == |b|
    ensures DeepFields(a, b, depth, m) == Equal ==> FieldsHeight(a) <= depth
    decreases a, 1
  {
    if a != [] {
      NeedsDepth(a[0].value, b[0].value, depth, m);
      NeedsDepthFields(a[1..], b[1..], depth, m);
    }
  }

  // ---------------------------------------------------------------------------------------------
  // What the comparison identifies
  // ---------------------------------------------------------------------------------------------

  /** Without doubles: equal exactly when the encodings decode to the same document. */
  lemma {:induction false} EqualMeansSameNorm(a: Json, b: Json, depth: nat, m: Floats)
    requires WellFormed(a) && WellFormed(b) && Exact(a) && Exact(b) && Height(a) <= depth
    ensures Deep(a, b, depth, m) == Equal <==> Norm(a) == Norm(b)
    decreases a, 0
  {
    hide DeepItems, DeepFields, DeepInteger, ItemsHeight, FieldsHeight, SortedFields;
    match a {
      case Arr(items) =>
        if b.Arr? && |items| == |b.items| { SameItems(items, b.items, depth - 1, m); }
        if b.Arr? { NormKeepsLength(items, b.items); }
      case Obj(fs) =>
        if b.Obj? && |fs| == |b.fields| { SameFields(fs, b.fields, depth - 1, m); }
      case Int(i) => SameInteger(a, b, m);
      case UInt(u) => SameInteger(a, b, m);
      case _ => SameScalar(a, b, depth, m);
    }
  }

  lemma NormKeepsLength(a: seq<Json>, b: seq<Json>)
    ensures NormItems(a) == NormItems(b) ==> |a| == |b|
  {}

  lemma SameScalar(a: Json, b: Json, depth: nat, m: Floats)
    requires depth > 0 && Exact(a) && (a.Null? || a.Bool? || a.Str? || a.Bin?)
    ensures Deep(a, b, depth, m) == Equal <==> Norm(a) == Norm(b)
  {}

  /** ... and so exactly when they are dumped to the same bytes. */
  lemma EqualMeansSameBytes(a: Json, b: Json, depth: nat, m: Floats)
    requires WellFormed(a) && WellFormed(b) && Exact(a) && Exact(b) && Height(a) <= depth
    ensures Deep(a, b, depth, m) == Equal <==> Enc(a) == Enc(b)
  {
    hide WellFormed, Enc, Deep, Exact, Norm, Height, ParseOne;
    EqualMeansSameNorm(a, b, depth, m);
    CanonicalForm(a);
    CanonicalForm(b);
    if Enc(a) == Enc(b) {
      var d := Max(Height(a), Height(b));
      DumpParseDump(a, [], d);
      DumpParseDump(b, [], d);
    }
  }

  lemma SameInteger(a: Json, b: Json, m: Floats)
    requires WellFormed(a) && WellFormed(b) && (a.Int? || a.UInt?) && !b.Num?
    ensures DeepInteger(a, b, m) == Equal <==> Norm(a) == Norm(b)
  {}

  lemma {:induction false} SameItems(a: seq<Json>, b: seq<Json>, depth: nat, m: Floats)
    requires |a| == |b| && WellFormedItems(a) && WellFormedItems(b) && ItemsHeight(a) <= depth
    requires forall i :: 0 <= i < |a| ==> Exact(a[i]) && Exact(b[i])
    ensures DeepItems(a, b, depth, m) == Equal <==> NormItems(a) == NormItems(b)
    decreases a, 1
  {
    if a != [] {
      EqualMeansSameNorm(a[0], b[0], depth, m);
      SameItems(a[1..], b[1..], depth, m);
      assert NormItems(a)[0] == Norm(a[0]) && NormItems(b)[0] == Norm(b[0]);
      assert NormItems(a)[1..] == NormItems(a[1..]) && NormItems(b)[1..] == NormItems(b[1..]);
    }
  }

  lemma {:induction false} SameFields(a: seq<Field>, b: seq<Field>, depth: nat, m: Floats)
    requires |a| == |b| && WellFormedFields(a) && WellFormedFields(b) && FieldsHeight(a) <= depth
    requires forall i :: 0 <= i < |a| ==> Exact(a[i].value) && Exact(b[i].value)
    ensures DeepFields(a, b, depth, m) == Equal <==> NormFields(a) == NormFields(b)
    decreases a, 1
  {
    if a != [] {
      EqualMeansSameNorm(a[0].value, b[0].value, depth, m);
      SameFields(a[1..], b[1..], depth, m);
      assert NormFields(a)[0] == Field(a[0].key, Norm(a[0].value)) && NormFields(b)[0] == Field(b[0].key, Norm(b[0].value));
      assert NormFields(a)[1..] == NormFields(a[1..]) && NormFields(b)[1..] == NormFields(b[1..]);
    }
  }

  // ---------------------------------------------------------------------------------------------
  // Doubles
  // ---------------------------------------------------------------------------------------------

  /** What IEEE 754 gives |a - b| < margin for a finite margin: it does not depend on the order, and is
      false for what is no finite number. */
  ghost predicate Distance(m: Floats) {
    && (forall x, y :: m.near(x, y) == m.near(y, x))
    && (forall x, y :: m.near(x, y) ==> !m.isNan(x) && !m.isInf(x))
    && (forall x :: m.isNan(x) ==> !m.isInf(x))
  }

  /** Two doubles are equal if neither is a number, both are infinite, or they are near; a double and an
      integer, in either order and however large, if the double is near the integer; and a double equals
      nothing else. */
  lemma DoublesEqualIff(x: Bits, b: Json, depth: nat, m: Floats)
    requires depth > 0 && Distance(m)
    ensures var equal := match b
                         case Num(y) => (m.isNan(x) && m.isNan(y)) || (m.isInf(x) && m.isInf(y)) || m.near(x, y)
                         case Int(i) => m.nearInt(x, i)
                         case UInt(u) => m.nearInt(x, u)
                         case _ => false;
            && (Deep(Num(x), b, depth, m) == Equal <==> equal)
            && (Deep(b, Num(x), depth, m) == Equal <==> equal)
  {}

  /** Equality does not depend on the order of its sides, whatever numbers they hold. */
  lemma {:induction false} EqualBothWays(a: Json, b: Json, depth: nat, m: Floats)
    requires Distance(m)
    ensures Deep(a, b, depth, m) == Equal ==> Deep(b, a, depth, m) == Equal
    decreases a, 0
  {
    hide DeepItems, DeepFields;
    if Deep(a, b, depth, m) == Equal {
      match a {
        case Num(x) => DoublesEqualIff(x, b, depth, m);
        case Arr(items) => ItemsBothWays(items, b.items, depth - 1, m);
        case Obj(fs) => FieldsBothWays(fs, b.fields, depth - 1, m);
        case _ => if b.Num? { DoublesEqualIff(b.bits, a, depth, m); }
      }
    }
  }

  lemma {:induction false} ItemsBothWays(a: seq<Json>, b: seq<Json>, depth: nat, m: Floats)
    requires Distance(m) && |a| == |b|
    ensures DeepItems(a, b, depth, m) == Equal ==> DeepItems(b, a, depth, m) == Equal
    decreases a, 1
  {
    hide Deep;
    if a != [] {
      EqualBothWays(a[0], b[0], depth, m);
      ItemsBothWays(a[1..], b[1..], depth, m);
    }
  }

  lemma {:induction false} FieldsBothWays(a: seq<Field>, b: seq<Field>, depth: nat, m: Floats)
    requires Distance(m) && |a| == |b|
    ensures DeepFields(a, b, depth, m) == Equal ==> DeepFields(b, a, depth, m) == Equal
    decreases a, 1
  {
    hide Deep;
    if a != [] {
      EqualBothWays(a[0].value, b[0].value, depth, m);
      FieldsBothWays(a[1..], b[1..], depth, m);
    }
  }
}
