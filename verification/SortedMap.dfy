/** Sorted pair lists as ordered maps: lookup, removal, and equality by lookups. */
module SortedMap {
  import opened Wrappers
  import opened JsonTree
  import opened SortedObject

  function At(fs: seq<Field>, k: Key): Option<Json> {
    var p := LowerBound(fs, k);
    if p < |fs| && fs[p].key == k then Some(fs[p].value) else None
  }

  function Remove(fs: seq<Field>, k: Key): seq<Field> {
    var p := LowerBound(fs, k);
    if p < |fs| && fs[p].key == k then fs[..p] + fs[p + 1..] else fs
  }

  lemma AtIsDict(fs: seq<Field>, k: Key)
    requires SortedFields(fs)
    ensures At(fs, k) == if k in Dict(fs) then Some(Dict(fs)[k]) else None
  {
    if k in Dict(fs) {
      DictFrom(fs, k);
      var i :| 0 <= i < |fs| && fs[i].key == k && fs[i].value == Dict(fs)[k];
      KeyAtLowerBound(fs, i);
    } else if At(fs, k).Some? {
      DictHas(fs, LowerBound(fs, k));
    }
  }

  lemma AtIndex(fs: seq<Field>, i: nat)
    requires SortedFields(fs) && i < |fs|
    ensures At(fs, fs[i].key) == Some(fs[i].value)
  {
    KeyAtLowerBound(fs, i);
  }

  /** A lookup finds exactly what is there. */
  lemma AtIff(fs: seq<Field>, k: Key, x: Json)
    requires SortedFields(fs)
    ensures At(fs, k) == Some(x) <==> Field(k, x) in fs
  {
    if Field(k, x) in fs {
      var i :| 0 <= i < |fs| && fs[i] == Field(k, x);
      AtIndex(fs, i);
    }
  }

  lemma AtInsert(fs: seq<Field>, f: Field, k: Key)
    requires SortedFields(fs)
    ensures SortedFields(InsertField(fs, f))
    ensures At(InsertField(fs, f), k) == if k == f.key then Some(f.value) else At(fs, k)
  {
    InsertKeepsSorted(fs, f);
    InsertIsUpdate(fs, f);
    AtIsDict(fs, k);
    AtIsDict(InsertField(fs, f), k);
  }

  lemma RemoveKeepsSorted(fs: seq<Field>, k: Key)
    requires SortedFields(fs)
    ensures SortedFields(Remove(fs, k))
    ensures forall i :: 0 <= i < |Remove(fs, k)| ==> Remove(fs, k)[i] in fs && Remove(fs, k)[i].key != k
  {
    hide Less;
    LowerBoundSplits(fs, k);
    LessIrreflexive(k);
    var p := LowerBound(fs, k);
    if p < |fs| {
      forall i | p < i < |fs| ensures fs[i].key != k {
        if fs[p].key == k { SortedKeysDiffer(fs, p, i); } else { AbsentAfter(fs, p, k, i); }
      }
    }
  }

  lemma SortedKeysDiffer(fs: seq<Field>, i: nat, j: nat)
    requires SortedFields(fs) && i < j < |fs|
    ensures fs[i].key != fs[j].key
  {
    LessIrreflexive(fs[i].key);
  }

  lemma AtRemove(fs: seq<Field>, x: Key, k: Key)
    requires SortedFields(fs)
    ensures SortedFields(Remove(fs, x))
    ensures At(Remove(fs, x), k) == if k == x then None else At(fs, k)
  {
    RemoveKeepsSorted(fs, x);
    var r := Remove(fs, x);
    var p := LowerBound(fs, x);
    if At(r, k).Some? {
      var i := LowerBound(r, k);
      var j :| 0 <= j < |fs| && fs[j] == r[i];
      AtIndex(fs, j);
    } else if k != x && At(fs, k).Some? {
      var j := LowerBound(fs, k);
      AtIndex(r, if |r| == |fs| || j < p then j else j - 1);
    }
  }

  lemma AtCons(fs: seq<Field>, k: Key)
    requires SortedFields(fs) && fs != []
    ensures SortedFields(fs[1..])
    ensures At(fs, k) == if k == fs[0].key then Some(fs[0].value) else At(fs[1..], k)
    ensures At(fs[1..], fs[0].key) == None
  {
    AtIsDict(fs, k);
    AtIsDict(fs[1..], k);
    AtIsDict(fs[1..], fs[0].key);
    DictTail(fs, k);
    DictTail(fs, fs[0].key);
    DictAt(fs, 0);
  }

  /** Two ordered maps with the same lookups are the same. */
  lemma SameLookups(a: seq<Field>, b: seq<Field>)
    requires SortedFields(a) && SortedFields(b)
    requires forall k :: At(a, k) == At(b, k)
    ensures a == b
  {
    forall k ensures k in Dict(a) <==> k in Dict(b) {
      AtIsDict(a, k);
      AtIsDict(b, k);
      assert At(a, k) == At(b, k);
    }
    forall k | k in Dict(a) ensures Dict(a)[k] == Dict(b)[k] {
      AtIsDict(a, k);
      AtIsDict(b, k);
      assert At(a, k) == At(b, k);
    }
    assert Dict(a) == Dict(b);
    SortedUnique(a, b);
  }

  /** Inserting one pair after the other. */
  function InsertAll(acc: seq<Field>, fs: seq<Field>): seq<Field>
    decreases fs
  {
    if fs == [] then acc else InsertAll(InsertField(acc, fs[0]), fs[1..])
  }

  /** The result is sorted, and it is the dictionary of the pairs: the last of a key wins. */
  lemma {:induction false} InsertAllIsDict(acc: seq<Field>, fs: seq<Field>)
    requires SortedFields(acc)
    ensures SortedFields(InsertAll(acc, fs)) && Dict(InsertAll(acc, fs)) == Dict(acc + fs)
    decreases fs
  {
    hide Dict, InsertField;
    if fs == [] {
      assert acc + fs == acc;
    } else {
      InsertKeepsSorted(acc, fs[0]);
      InsertAllIsDict(InsertField(acc, fs[0]), fs[1..]);
      InsertIsUpdate(acc, fs[0]);
      DictLast(acc, [fs[0]]);
      assert acc + [fs[0]][..0] == acc;
      DictSuffix(InsertField(acc, fs[0]), acc + [fs[0]], fs[1..]);
      assert acc + [fs[0]] + fs[1..] == acc + fs;
    }
  }

  /** In whatever order the pairs of an ordered map come, inserting them gives that map. */
  lemma InsertAnyOrder(order: seq<Field>, fs: seq<Field>)
    requires SortedFields(fs) && Dict(order) == Dict(fs)
    ensures InsertAll([], order) == fs
  {
    InsertAllIsDict([], order);
    assert [] + order == order;
    SortedUnique(InsertAll([], order), fs);
  }
}
