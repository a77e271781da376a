/** The sorted pair array behind objects: lower bound, insertion with memmove, binary search. */
module SortedObject {
  import opened Wrappers
  import opened JsonTree

  /** How many keys are below `key`. */
  function LowerBound(fs: seq<Field>, key: Key): (p: nat)
    ensures p <= |fs|
  {
    if fs == [] || !Less(fs[0].key, key) then 0 else 1 + LowerBound(fs[1..], key)
  }

  /** SortedInsertJson on values: append, overwrite the value, or make room. */
  function InsertField(fs: seq<Field>, f: Field): seq<Field> {
    var p := LowerBound(fs, f.key);
    if p < |fs| && fs[p].key == f.key then fs[p := Field(fs[p].key, f.value)]
    else fs[..p] + [f] + fs[p..]
  }

  lemma {:induction false} LowerBoundSplits(fs: seq<Field>, key: Key)
    requires SortedFields(fs)
    ensures var p := LowerBound(fs, key);
            && (forall i :: 0 <= i < p ==> Less(fs[i].key, key))
            && (forall i :: p <= i < |fs| ==> !Less(fs[i].key, key))
  {
    if fs != [] {
      if Less(fs[0].key, key) {
        LowerBoundSplits(fs[1..], key);
        var p := LowerBound(fs, key);
        forall i | 0 <= i < p ensures Less(fs[i].key, key) {
          if i > 0 { assert fs[i] == fs[1..][i - 1]; }
        }
        forall i | p <= i < |fs| ensures !Less(fs[i].key, key) { assert fs[i] == fs[1..][i - 1]; }
      } else {
        forall i | 0 <= i < |fs| ensures !Less(fs[i].key, key) {
          if i > 0 && Less(fs[i].key, key) { LessTransitive(fs[0].key, fs[i].key, key); }
        }
      }
    }
  }

  /** Only one position splits the keys like that. */
  lemma LowerBoundUnique(fs: seq<Field>, key: Key, p: nat)
    requires SortedFields(fs) && p <= |fs|
    requires forall i :: 0 <= i < p ==> Less(fs[i].key, key)
    requires p < |fs| ==> !Less(fs[p].key, key)
    ensures p == LowerBound(fs, key)
  {
    LowerBoundSplits(fs, key);
    var q := LowerBound(fs, key);
    assert q < |fs| ==> !Less(fs[q].key, key);
  }

  lemma AbsentAfter(fs: seq<Field>, m: nat, key: Key, i: nat)
    requires SortedFields(fs) && m <= i < |fs| && !Less(fs[m].key, key) && fs[m].key != key
    ensures fs[i].key != key
  {
    LessTotal(fs[m].key, key);
    LessAsymmetric(key, fs[m].key);
  }

  /** A key at or after its lower bound, and not there, is nowhere. */
  lemma KeyAtLowerBound(fs: seq<Field>, i: nat)
    requires SortedFields(fs) && i < |fs|
    ensures LowerBound(fs, fs[i].key) == i
  {
    LessIrreflexive(fs[i].key);
    LowerBoundUnique(fs, fs[i].key, i);
  }

  lemma InsertKeepsSorted(fs: seq<Field>, f: Field)
    requires SortedFields(fs)
    ensures SortedFields(InsertField(fs, f))
    ensures |fs| <= |InsertField(fs, f)| <= |fs| + 1
    ensures forall i :: 0 <= i < |InsertField(fs, f)| ==>
              InsertField(fs, f)[i] == f || InsertField(fs, f)[i] in fs
  {
    LowerBoundSplits(fs, f.key);
    var p := LowerBound(fs, f.key);
    var r := InsertField(fs, f);
    if !(p < |fs| && fs[p].key == f.key) {
      if p < |fs| { LessTotal(fs[p].key, f.key); }
      forall i, j | 0 <= i < j < |r| ensures Less(r[i].key, r[j].key) {
        if i == p && j > p + 1 { LessTransitive(f.key, fs[p].key, fs[j - 1].key); }
      }
    }
  }

  lemma InsertNothingElse(fs: seq<Field>, f: Field, k: Key)
    requires SortedFields(fs) && k in Dict(InsertField(fs, f)) && k != f.key
    ensures k in Dict(fs) && Dict(fs)[k] == Dict(InsertField(fs, f))[k]
  {
    var r := InsertField(fs, f);
    InsertKeepsSorted(fs, f);
    DictFrom(r, k);
    var i :| 0 <= i < |r| && r[i].key == k && r[i].value == Dict(r)[k];
    var j :| 0 <= j < |fs| && fs[j] == r[i];
    DictAt(fs, j);
  }

  lemma InsertLosesNothing(fs: seq<Field>, f: Field, k: Key)
    requires SortedFields(fs) && k in Dict(fs)
    ensures k in Dict(InsertField(fs, f))
  {
    var r := InsertField(fs, f);
    var p := LowerBound(fs, f.key);
    DictFrom(fs, k);
    var j :| 0 <= j < |fs| && fs[j].key == k && fs[j].value == Dict(fs)[k];
    if j < p || |r| == |fs| {
      DictHas(r, j);
    } else {
      assert r[j + 1] == fs[j];
      DictHas(r, j + 1);
    }
  }

  /** Insertion is dictionary update: a repeated key keeps its last value. */
  lemma InsertIsUpdate(fs: seq<Field>, f: Field)
    requires SortedFields(fs)
    ensures Dict(InsertField(fs, f)) == Dict(fs)[f.key := f.value]
  {
    hide Dict, SortedFields, Less, LowerBound;
    var r := InsertField(fs, f);
    InsertKeepsSorted(fs, f);
    assert r[LowerBound(fs, f.key)] == f;
    DictAt(r, LowerBound(fs, f.key));
    forall k | k in Dict(fs) ensures k in Dict(r) { InsertLosesNothing(fs, f, k); }
    forall k | k in Dict(r) && k != f.key ensures k in Dict(fs) && Dict(r)[k] == Dict(fs)[k] {
      InsertNothingElse(fs, f, k);
    }
  }

  lemma {:induction false} DictSuffix(a: seq<Field>, b: seq<Field>, s: seq<Field>)
    requires Dict(a) == Dict(b)
    ensures Dict(a + s) == Dict(b + s)
    decreases |s|
  {
    if s == [] {
      assert a + s == a && b + s == b;
    } else {
      var f := s[|s| - 1];
      DictSuffix(a, b, s[..|s| - 1]);
      DictLast(a, s);
      DictLast(b, s);
    }
  }

  lemma DictLast(a: seq<Field>, s: seq<Field>)
    requires s != []
    ensures Dict(a + s) == Dict(a + s[..|s| - 1])[s[|s| - 1].key := s[|s| - 1].value]
  {
    assert (a + s)[..|a + s| - 1] == a + s[..|s| - 1];
  }

  /** A key above all others is appended. */
  lemma InsertLast(fs: seq<Field>, f: Field)
    requires SortedFields(fs + [f])
    ensures InsertField(fs, f) == fs + [f]
  {
    var all := fs + [f];
    forall i | 0 <= i < |fs| ensures Less(fs[i].key, f.key) { assert all[i] == fs[i] && all[|fs|] == f; }
    assert SortedFields(fs) by {
      forall i, j | 0 <= i < j < |fs| ensures Less(fs[i].key, fs[j].key) { assert all[i] == fs[i] && all[j] == fs[j]; }
    }
    LowerBoundUnique(fs, f.key, |fs|);
  }

  // ---------------------------------------------------------------------------------------------
  // The algorithms on arrays
  // ---------------------------------------------------------------------------------------------

  /** std::lower_bound over the first `size` slots. */
  method LowerBoundJson(storage: array<Field>, size: nat, key: Key) returns (pos: nat)
    requires size <= storage.Length && SortedFields(storage[..size])
    ensures pos == LowerBound(storage[..size], key)
  {
    var fs := storage[..size];
    LowerBoundSplits(fs, key);
    pos := 0;
    var len := size;
    while len > 0
      invariant pos + len <= size
      invariant pos <= LowerBound(fs, key) <= pos + len
    {
      var half := len / 2;
      if Less(storage[pos + half].key, key) {
        assert fs[pos + half].key == storage[pos + half].key;
        pos, len := pos + half + 1, len - half - 1;
      } else {
        assert fs[pos + half].key == storage[pos + half].key;
        len := half;
      }
    }
  }

  /** memmove(storage + pos + 1, storage + pos, size - pos). */
  method ShiftRight(storage: array<Field>, pos: nat, size: nat)
    requires pos <= size < storage.Length
    modifies storage
    ensures storage[..] == Shifted(old(storage[..]), pos, size)
  {
    hide Shifted;
    ghost var was := storage[..];
    NotShifted(was, size);
    var i := size;
    while i > pos
      invariant pos <= i <= size
      invariant storage[..] == Shifted(was, i, size)
    {
      ShiftStep(was, i, size);
      ghost var now := storage[..];
      storage[i] := storage[i - 1];
      assert storage[..] == now[i := now[i - 1]];
      i := i - 1;
    }
  }

  /** The slots from pos to size, one place up; slot pos is kept. */
  function Shifted(was: seq<Field>, pos: nat, size: nat): (now: seq<Field>)
    requires pos <= size < |was|
    ensures |now| == |was|
  {
    was[..pos] + ([was[pos]] + was[pos..size] + was[size + 1..])
  }

  lemma ShiftedAt(was: seq<Field>, pos: nat, size: nat, j: nat)
    requires pos <= size < |was| && j < |was|
    ensures pos == size ==> Shifted(was, pos, size)[j] == was[j]
    ensures Shifted(was, pos, size)[j] == was[if pos < j <= size then j - 1 else j]
  {}

  lemma NotShifted(was: seq<Field>, size: nat)
    requires size < |was|
    ensures Shifted(was, size, size) == was
  {}

  lemma ShiftStep(was: seq<Field>, i: nat, size: nat)
    requires 0 < i <= size < |was|
    ensures Shifted(was, i, size)[i := Shifted(was, i, size)[i - 1]] == Shifted(was, i - 1, size)
  {
    hide Shifted;
    var now := Shifted(was, i, size)[i := Shifted(was, i, size)[i - 1]];
    forall j | 0 <= j < |was| ensures now[j] == Shifted(was, i - 1, size)[j] {
      ShiftedAt(was, i, size, i - 1);
      ShiftedAt(was, i, size, j);
      ShiftedAt(was, i - 1, size, j);
    }
  }

  lemma MadeRoom(was: seq<Field>, pos: nat, size: nat, f: Field)
    requires pos <= size < |was|
    ensures var now := Shifted(was, pos, size)[pos := f];
            now[..size + 1] == was[..size][..pos] + [f] + was[..size][pos..] && now[size + 1..] == was[size + 1..]
  {
    hide Shifted;
    var now := Shifted(was, pos, size)[pos := f];
    var expected := was[..size][..pos] + [f] + was[..size][pos..];
    forall j | 0 <= j <= size ensures now[j] == expected[j] { ShiftedAt(was, pos, size, j); }
    forall j | size < j < |was| ensures now[j] == was[j] { ShiftedAt(was, pos, size, j); }
  }

  /** SortedInsertJson: insert in place and return the new size; slots behind stay as they were.  A free
      slot is needed only for a key that is not there yet. */
  method SortedInsertJson(storage: array<Field>, size: nat, entry: Field) returns (newSize: nat)
    requires size <= storage.Length && SortedFields(storage[..size])
    requires size < storage.Length || exists i :: 0 <= i < size && storage[i].key == entry.key
    modifies storage
    ensures newSize == |InsertField(old(storage[..size]), entry)| <= storage.Length
    ensures storage[..newSize] == InsertField(old(storage[..size]), entry)
    ensures storage[newSize..] == old(storage[newSize..])
  {
    ghost var was := storage[..];
    assert was[..size] == storage[..size];
    var pos := LowerBoundJson(storage, size, entry.key);
    FoundOrRoom(was, size, entry.key);
    if pos == size {
      storage[size] := entry;
      AppendedAt(was, size, entry);
      return size + 1;
    } else if storage[pos].key == entry.key {
      storage[pos] := Field(storage[pos].key, entry.value);
      OverwrittenAt(was, pos, size, Field(was[pos].key, entry.value));
      return size;
    } else {
      ShiftRight(storage, pos, size);
      MadeRoom(was, pos, size, entry);
      storage[pos] := entry;
      assert storage[..] == Shifted(was, pos, size)[pos := entry];
      return size + 1;
    }
  }

  lemma FoundOrRoom(was: seq<Field>, size: nat, key: Key)
    requires size <= |was| && SortedFields(was[..size])
    requires size < |was| || exists i :: 0 <= i < size && was[i].key == key
    ensures var p := LowerBound(was[..size], key); size < |was| || (p < size && was[p].key == key)
  {
    if i :| 0 <= i < size && was[i].key == key {
      assert was[..size][i] == was[i];
      KeyAtLowerBound(was[..size], i);
    }
  }

  lemma AppendedAt(was: seq<Field>, size: nat, f: Field)
    requires size < |was|
    ensures was[size := f][..size + 1] == was[..size] + [f] && was[size := f][size + 1..] == was[size + 1..]
  {}

  lemma OverwrittenAt(was: seq<Field>, pos: nat, size: nat, f: Field)
    requires pos < size <= |was|
    ensures was[pos := f][..size] == was[..size][pos := f] && was[pos := f][size..] == was[size..]
  {}

  /** detail::sortedFind: halve the range until the key is met or nothing is left. */
  method SortedFind(pairs: array<Field>, size: nat, key: Key) returns (found: Option<nat>)
    requires size <= pairs.Length && SortedFields(pairs[..size])
    ensures found.Some? <==> key in Dict(pairs[..size])
    ensures found.Some? ==> found.value < size && pairs[found.value].key == key
                            && pairs[found.value].value == Dict(pairs[..size])[key]
  {
    var fs := pairs[..size];
    LowerBoundSplits(fs, key);
    LessIrreflexive(key);
    var first, len := 0, size;
    while len > 0
      invariant first + len <= size
      invariant first <= LowerBound(fs, key) <= first + len
      invariant forall i :: first + len <= i < size ==> fs[i].key != key
    {
      var half := len / 2;
      var middle := first + half;
      assert fs[middle] == pairs[middle];
      if Less(pairs[middle].key, key) {
        first, len := middle + 1, len - half - 1;
      } else {
        if pairs[middle].key == key {
          DictAt(fs, middle);
          return Some(middle);
        }
        forall i | middle <= i < size ensures fs[i].key != key { AbsentAfter(fs, middle, key, i); }
        len := half;
      }
    }
    forall i | 0 <= i < size ensures fs[i].key != key {
      if i < first { assert Less(fs[i].key, key); }
    }
    DictLacks(fs, key);
    found := None;
  }
}
