/** Objects with repeated keys: what a lookup finds after parsing. */
module MsgPackObjects {
  import opened Wrappers
  import opened JsonTree
  import opened SortedObject
  import opened MsgPackFormat

  /** The key/value pairs of an object body, in the order and number in which they were sent. */
  function PairsSent(bs: seq<byte>, pos: nat, count: nat, depth: nat): seq<Field>
    requires pos <= |bs|
    decreases count
  {
    if count == 0 then []
    else
      var key := ParseOne(bs, pos, depth);
      if key.Fail? || !key.value.Str? then []
      else
        var value := ParseOne(bs, key.pos, depth);
        if value.Fail? then [] else [Field(key.value.s, value.value)] + PairsSent(bs, value.pos, count - 1, depth)
  }

  /** An object is accepted exactly if all its pairs are read, and then it is the dictionary of the pairs
      sent, the last of a repeated key winning. */
  lemma {:induction false} ObjectIsDictionary(bs: seq<byte>, pos: nat, count: nat, acc: seq<Field>, depth: nat)
    requires pos <= |bs| && FieldsFit(acc, depth)
    ensures var (r, sent) := (ParseFields(bs, pos, count, acc, depth), PairsSent(bs, pos, count, depth));
            && |sent| <= count && (r.Ok? <==> |sent| == count)
            && (r.Ok? ==> Dict(r.value) == Dict(acc + sent))
    decreases count
  {
    hide FieldsFit, Dict, ParseOne, InsertField;
    var r := ParseFields(bs, pos, count, acc, depth);
    if count == 0 {
      assert acc + [] == acc;
    } else if PairsSent(bs, pos, count, depth) != [] {
      var key := ParseOne(bs, pos, depth);
      var value := ParseOne(bs, key.pos, depth);
      var f := Field(key.value.s, value.value);
      OnePair(acc, f, key.value, value.value, depth);
      var acc' := InsertField(acc, f);
      ObjectIsDictionary(bs, value.pos, count - 1, acc', depth);
      var rest := PairsSent(bs, value.pos, count - 1, depth);
      DictSuffix(acc', acc + [f], rest);
      assert acc + [f] + rest == acc + PairsSent(bs, pos, count, depth);
    }
  }

  lemma OnePair(acc: seq<Field>, f: Field, key: Json, value: Json, depth: nat)
    requires FieldsFit(acc, depth) && key.Str? && f == Field(key.s, value)
    requires WellFormed(key) && WellFormed(value) && Height(value) <= depth
    ensures FieldsFit(InsertField(acc, f), depth) && Dict(InsertField(acc, f)) == Dict(acc + [f])
  {
    InsertFits(acc, f, depth);
    InsertIsUpdate(acc, f);
    assert (acc + [f])[..|acc|] == acc;
  }

  /** Binary search in a parsed object: None exactly when the key was never sent, and otherwise the
      value of its last occurrence. */
  method FindInParsed(bs: seq<byte>, pos: nat, count: nat, depth: nat, pairs: array<Field>, size: nat, key: Key)
    returns (found: Option<Json>)
    requires pos <= |bs| && size <= pairs.Length && FieldsFit([], depth)
    requires ParseFields(bs, pos, count, [], depth).Ok? && pairs[..size] == ParseFields(bs, pos, count, [], depth).value
    ensures var sent := PairsSent(bs, pos, count, depth);
            && (found.None? <==> forall i :: 0 <= i < |sent| ==> sent[i].key != key)
            && (found.Some? ==> exists i :: 0 <= i < |sent| && sent[i] == Field(key, found.value)
                                            && forall j :: i < j < |sent| ==> sent[j].key != key)
  {
    hide ParseFields, PairsSent, Dict, SortedFields, FieldsFit;
    FitsSorted(pairs[..size], depth);
    ObjectIsDictionary(bs, pos, count, [], depth);
    ghost var sent := PairsSent(bs, pos, count, depth);
    assert [] + sent == sent;
    Lookup(sent, key);
    var i := SortedFind(pairs, size, key);
    found := if i.Some? then Some(pairs[i.value].value) else None;
  }

  lemma FitsSorted(fs: seq<Field>, depth: nat)
    ensures FieldsFit(fs, depth) ==> SortedFields(fs)
  {}

  lemma {:induction false} Lookup(sent: seq<Field>, key: Key)
    ensures key !in Dict(sent) <==> forall i :: 0 <= i < |sent| ==> sent[i].key != key
    ensures key in Dict(sent) ==> exists i :: 0 <= i < |sent| && sent[i] == Field(key, Dict(sent)[key])
                                              && forall j :: i < j < |sent| ==> sent[j].key != key
  {
    if sent != [] {
      var front := sent[..|sent| - 1];
      Lookup(front, key);
      var last := sent[|sent| - 1];
      if last.key == key {
        assert sent[|sent| - 1] == Field(key, Dict(sent)[key]);
      } else if key in Dict(front) {
        var i :| 0 <= i < |front| && front[i] == Field(key, Dict(front)[key]) && forall j :: i < j < |front| ==> front[j].key != key;
        assert sent[i] == Field(key, Dict(sent)[key]);
        forall j | i < j < |sent| ensures sent[j].key != key { if j < |front| { assert sent[j] == front[j]; } }
      } else {
        forall i | 0 <= i < |sent| ensures sent[i].key != key { if i < |front| { assert sent[i] == front[i]; } }
      }
    }
  }
}
