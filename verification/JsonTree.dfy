/** JSON documents as the library's views describe them. */
module JsonTree {

  type byte = x: int | 0 <= x < 256
  type Key = seq<byte>

  const MAX_LENGTH := 0x1_0000_0000   // lengths are 32-bit unsigned
  const INT64_MIN := -0x8000_0000_0000_0000
  const INT64_MAX := 0x7fff_ffff_ffff_ffff
  const UINT64_END := 0x1_0000_0000_0000_0000

  /** `Num` is a double by its eight bytes, most significant first. */
  datatype Json =
    | Null
    | Bool(b: bool)
    | Int(i: int)
    | UInt(u: nat)
    | Num(bits: seq<byte>)
    | Str(s: seq<byte>)
    | Bin(data: seq<byte>)
    | Arr(items: seq<Json>)
    | Obj(fields: seq<Field>)

  datatype Field = Field(key: Key, value: Json)

  // ---------------------------------------------------------------------------------------------
  // The order of keys: string_view's operator<
  // ---------------------------------------------------------------------------------------------

  predicate Less(a: Key, b: Key) {
    if b == [] then false
    else if a == [] then true
    else if a[0] != b[0] then a[0] < b[0]
    else Less(a[1..], b[1..])
  }

  lemma {:induction false} LessIrreflexive(a: Key)
    ensures !Less(a, a)
  {
    if a != [] { LessIrreflexive(a[1..]); }
  }

  lemma {:induction false} LessTransitive(a: Key, b: Key, c: Key)
    requires Less(a, b) && Less(b, c)
    ensures Less(a, c)
  {
    if a != [] && a[0] == b[0] == c[0] { LessTransitive(a[1..], b[1..], c[1..]); }
  }

  lemma {:induction false} LessTotal(a: Key, b: Key)
    ensures Less(a, b) || a == b || Less(b, a)
  {
    if a != [] && b != [] && a[0] == b[0] {
      LessTotal(a[1..], b[1..]);
      if a[1..] == b[1..] { assert a == [a[0]] + a[1..] == b; }
    }
  }

  lemma LessAsymmetric(a: Key, b: Key)
    requires Less(a, b)
    ensures !Less(b, a) && a != b
  {
    LessIrreflexive(a);
    if Less(b, a) { LessTransitive(a, b, a); }
  }

  /** The order is lexicographic: a proper beginning comes first, and otherwise the first byte that differs
      decides. */
  lemma {:induction false} LessIff(a: Key, b: Key)
    ensures Less(a, b) <==> exists n: nat :: Diverges(a, b, n)
  {
    if Less(a, b) {
      if a == [] {
        assert Diverges(a, b, 0);
      } else if a[0] != b[0] {
        assert Diverges(a, b, 0);
      } else {
        LessIff(a[1..], b[1..]);
        var n: nat :| Diverges(a[1..], b[1..], n);
        assert a[..n + 1] == [a[0]] + a[1..][..n] && b[..n + 1] == [b[0]] + b[1..][..n];
        assert Diverges(a, b, n + 1);
      }
    } else if n: nat :| Diverges(a, b, n) {
      if n > 0 {
        assert a[0] == a[..n][0] == b[..n][0] == b[0];
        assert a[1..][..n - 1] == a[..n][1..] && b[1..][..n - 1] == b[..n][1..];
        assert Diverges(a[1..], b[1..], n - 1);
        LessIff(a[1..], b[1..]);
      }
    }
  }

  /** The same up to n, where a ends or has the smaller byte. */
  predicate Diverges(a: Key, b: Key, n: nat) {
    n <= |a| && n < |b| && a[..n] == b[..n] && (n < |a| ==> a[n] < b[n])
  }

  predicate SortedFields(fs: seq<Field>) {
    forall i, j :: 0 <= i < j < |fs| ==> Less(fs[i].key, fs[j].key)
  }

  // ---------------------------------------------------------------------------------------------
  // Well-formed documents and their height
  // ---------------------------------------------------------------------------------------------

  /** What fits the machine's integers and lengths, with objects strictly sorted by key. */
  predicate WellFormed(v: Json) {
    match v
    case Null => true
    case Bool(_) => true
    case Int(i) => INT64_MIN <= i <= INT64_MAX
    case UInt(u) => u < UINT64_END
    case Num(bits) => |bits| == 8
    case Str(s) => |s| < MAX_LENGTH
    case Bin(s) => |s| < MAX_LENGTH
    case Arr(items) => |items| < MAX_LENGTH && forall i :: 0 <= i < |items| ==> WellFormed(items[i])
    case Obj(fs) =>
      && |fs| < MAX_LENGTH && SortedFields(fs)
      && forall i :: 0 <= i < |fs| ==> |fs[i].key| < MAX_LENGTH && WellFormed(fs[i].value)
  }

  function Max(a: nat, b: nat): nat { if a < b then b else a }

  /** Levels of recursion: 1 for a scalar or an empty container. */
  function Height(v: Json): (h: nat)
    ensures h >= 1
  {
    match v
    case Arr(items) => 1 + ItemsHeight(items)
    case Obj(fs) => 1 + FieldsHeight(fs)
    case _ => 1
  }

  function ItemsHeight(items: seq<Json>): nat {
    if items == [] then 0 else Max(Height(items[0]), ItemsHeight(items[1..]))
  }

  function FieldsHeight(fs: seq<Field>): nat {
    if fs == [] then 0 else Max(Height(fs[0].value), FieldsHeight(fs[1..]))
  }

  lemma {:induction false} ItemsHeightBound(items: seq<Json>, d: nat)
    ensures ItemsHeight(items) <= d <==> forall i :: 0 <= i < |items| ==> Height(items[i]) <= d
  {
    if items != [] {
      ItemsHeightBound(items[1..], d);
      if ItemsHeight(items) <= d {
        forall i | 0 <= i < |items| ensures Height(items[i]) <= d {
          if i > 0 { assert items[i] == items[1..][i - 1]; }
        }
      } else if Height(items[0]) <= d {
        var i :| 0 <= i < |items[1..]| && Height(items[1..][i]) > d;
        assert items[i + 1] == items[1..][i];
      }
    }
  }

  lemma {:induction false} FieldsHeightBound(fs: seq<Field>, d: nat)
    ensures FieldsHeight(fs) <= d <==> forall i :: 0 <= i < |fs| ==> Height(fs[i].value) <= d
  {
    if fs != [] {
      FieldsHeightBound(fs[1..], d);
      if FieldsHeight(fs) <= d {
        forall i | 0 <= i < |fs| ensures Height(fs[i].value) <= d {
          if i > 0 { assert fs[i] == fs[1..][i - 1]; }
        }
      } else if Height(fs[0].value) <= d {
        var i :| 0 <= i < |fs[1..]| && Height(fs[1..][i].value) > d;
        assert fs[i + 1] == fs[1..][i];
      }
    }
  }

  // ---------------------------------------------------------------------------------------------
  // Objects as dictionaries
  // ---------------------------------------------------------------------------------------------

  /** The dictionary a list of pairs stands for: the last pair of a key wins. */
  function Dict(fs: seq<Field>): map<Key, Json> {
    if fs == [] then map[]
    else Dict(fs[..|fs| - 1])[fs[|fs| - 1].key := fs[|fs| - 1].value]
  }

  lemma {:induction false} DictHas(fs: seq<Field>, i: nat)
    requires i < |fs|
    ensures fs[i].key in Dict(fs)
  {
    if i < |fs| - 1 { DictHas(fs[..|fs| - 1], i); }
  }

  lemma {:induction false} DictFrom(fs: seq<Field>, k: Key)
    requires k in Dict(fs)
    ensures exists i :: 0 <= i < |fs| && fs[i].key == k && fs[i].value == Dict(fs)[k]
  {
    if fs[|fs| - 1].key != k {
      DictFrom(fs[..|fs| - 1], k);
      var i :| 0 <= i < |fs| - 1 && fs[..|fs| - 1][i].key == k && fs[..|fs| - 1][i].value == Dict(fs)[k];
      assert fs[i].key == k;
    }
  }

  lemma DictLacks(fs: seq<Field>, k: Key)
    requires forall i :: 0 <= i < |fs| ==> fs[i].key != k
    ensures k !in Dict(fs)
  {
    if k in Dict(fs) { DictFrom(fs, k); }
  }

  lemma SortedDistinct(fs: seq<Field>, i: nat, j: nat)
    requires SortedFields(fs) && i < |fs| && j < |fs| && fs[i].key == fs[j].key
    ensures i == j
  {
    LessIrreflexive(fs[i].key);
  }

  /** In a sorted object every pair is the dictionary entry of its key. */
  lemma DictAt(fs: seq<Field>, i: nat)
    requires SortedFields(fs) && i < |fs|
    ensures fs[i].key in Dict(fs) && Dict(fs)[fs[i].key] == fs[i].value
  {
    DictHas(fs, i);
    DictFrom(fs, fs[i].key);
    var j :| 0 <= j < |fs| && fs[j].key == fs[i].key && fs[j].value == Dict(fs)[fs[i].key];
    SortedDistinct(fs, i, j);
  }

  lemma SameFirst(a: seq<Field>, b: seq<Field>)
    requires SortedFields(a) && SortedFields(b) && Dict(a) == Dict(b) && a != []
    ensures b != [] && a[0] == b[0]
  {
    DictAt(a, 0);
    DictFrom(b, a[0].key);
    var j :| 0 <= j < |b| && b[j].key == a[0].key && b[j].value == Dict(b)[a[0].key];
    DictAt(b, 0);
    DictFrom(a, b[0].key);
    var i :| 0 <= i < |a| && a[i].key == b[0].key && a[i].value == Dict(a)[b[0].key];
    hide Dict, Less;
    if j > 0 {
      assert Less(b[0].key, a[0].key);
      LessAsymmetric(b[0].key, a[0].key);
    }
  }

  lemma SameRest(a: seq<Field>, b: seq<Field>)
    requires SortedFields(a) && SortedFields(b) && Dict(a) == Dict(b) && a != [] && b != [] && a[0] == b[0]
    ensures SortedFields(a[1..]) && SortedFields(b[1..]) && Dict(a[1..]) == Dict(b[1..])
  {
    hide Dict, Less;
    forall k ensures k in Dict(a[1..]) <==> k in Dict(b[1..]) {
      DictTail(a, k);
      DictTail(b, k);
    }
    forall k | k in Dict(a[1..]) ensures Dict(a[1..])[k] == Dict(b[1..])[k] {
      DictTail(a, k);
      DictTail(b, k);
    }
  }

  /** Sorted objects are canonical: the same dictionary means the same list of pairs. */
  lemma {:induction false} SortedUnique(a: seq<Field>, b: seq<Field>)
    requires SortedFields(a) && SortedFields(b) && Dict(a) == Dict(b)
    ensures a == b
    decreases |a|
  {
    if a == [] {
      if b != [] { DictHas(b, 0); }
    } else {
      SameFirst(a, b);
      SameRest(a, b);
      hide Dict, Less;
      SortedUnique(a[1..], b[1..]);
      assert a == [a[0]] + a[1..] && b == [b[0]] + b[1..];
    }
  }

  lemma DictTail(fs: seq<Field>, k: Key)
    requires SortedFields(fs) && fs != []
    ensures k in Dict(fs[1..]) <==> k in Dict(fs) && k != fs[0].key
    ensures k in Dict(fs[1..]) ==> Dict(fs[1..])[k] == Dict(fs)[k]
  {
    hide Dict, Less;
    if k in Dict(fs[1..]) {
      DictFrom(fs[1..], k);
      var i :| 0 <= i < |fs[1..]| && fs[1..][i].key == k && fs[1..][i].value == Dict(fs[1..])[k];
      DictAt(fs, i + 1);
      LessIrreflexive(k);
    }
    if k in Dict(fs) && k != fs[0].key {
      DictFrom(fs, k);
      var i :| 0 <= i < |fs| && fs[i].key == k && fs[i].value == Dict(fs)[k];
      DictHas(fs[1..], i - 1);
    }
  }
}
