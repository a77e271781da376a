/** From a mutable tree to a view: what is looked up in one is looked up in the other. */
module View {
  import opened Wrappers
  import opened JsonTree
  import opened SortedObject
  import opened SortedMap
  import opened MergePatch
  import opened Sax
  import opened Assign

  /** A mutable tree is a document whose members stand in the order in which its object containers
      iterate: sorted for the default std::map, any order for a hash map.  The view of it is the sorted
      build of the tree. */
  function ViewOf(tree: Json): Json { Build(tree) }

  /** Looking up in the mutable tree itself, by the containers' own find. */
  function Find(tree: Json, path: Path): Found
    decreases path
  {
    if path == [] then Found(tree)
    else
      match path[0]
      case Key(k) =>
        if !tree.Obj? then WrongType
        else if k !in Dict(tree.fields) then Missing
        else Find(Dict(tree.fields)[k], path[1..])
      case Index(i) =>
        if !tree.Arr? then WrongType
        else if i >= |tree.items| then Missing
        else Find(tree.items[i], path[1..])
  }

  function Viewed(f: Found): Found { if f.Found? then Found(ViewOf(f.value)) else f }

  lemma {:induction false} DictOfBuilt(fs: seq<Field>, k: Key)
    ensures k in Dict(BuildFields(fs)) <==> k in Dict(fs)
    ensures k in Dict(fs) ==> Dict(BuildFields(fs))[k] == Build(Dict(fs)[k])
    decreases |fs|
  {
    if fs != [] {
      var n := |fs| - 1;
      DictOfBuilt(fs[..n], k);
      BuildFieldsAt(fs, n);
      BuiltFront(fs, n);
    }
  }

  lemma {:induction false} BuiltFront(fs: seq<Field>, n: nat)
    requires n <= |fs|
    ensures BuildFields(fs)[..n] == BuildFields(fs[..n])
  {
    forall i | 0 <= i < n ensures BuildFields(fs)[i] == BuildFields(fs[..n])[i] {
      BuildFieldsAt(fs, i);
      BuildFieldsAt(fs[..n], i);
    }
  }

  lemma MemberOfView(fs: seq<Field>, k: Key)
    ensures SortedFields(InsertAll([], BuildFields(fs)))
    ensures At(InsertAll([], BuildFields(fs)), k) == if k in Dict(fs) then Some(Build(Dict(fs)[k])) else None
  {
    var built := BuildFields(fs);
    InsertAllIsDict([], built);
    assert [] + built == built;
    AtIsDict(InsertAll([], built), k);
    DictOfBuilt(fs, k);
  }

  lemma {:induction false} TypeOfView(tree: Json)
    ensures Build(tree).Obj? == tree.Obj? && Build(tree).Arr? == tree.Arr?
    ensures tree.Arr? ==> |Build(tree).items| == |tree.items|
  {}

  /** A lookup in the view finds the view of what a lookup in the tree finds. */
  lemma {:induction false} ViewFinds(tree: Json, path: Path)
    ensures Get(ViewOf(tree), path) == Viewed(Find(tree, path))
    decreases path
  {
    if path != [] {
      TypeOfView(tree);
      match path[0] {
        case Key(k) =>
          if tree.Obj? {
            MemberOfView(tree.fields, k);
            if k in Dict(tree.fields) { ViewFinds(Dict(tree.fields)[k], path[1..]); }
          }
        case Index(i) =>
          if tree.Arr? && i < |tree.items| {
            BuildItemsAt(tree.items, i);
            ViewFinds(tree.items[i], path[1..]);
          }
      }
    }
  }

  /** After Assign, a lookup through the view finds the view of what was assigned; and a path that
      resolved elsewhere is seen unchanged through it. */
  lemma AssignThenView(doc: Json, path: Path, v: Json, q: Path)
    requires Canon(doc) && Canon(v) && Ends(doc, path) == Done
    ensures Get(ViewOf(Put(doc, path, v)), path) == Found(v)
    ensures Get(doc, q).Found? && !Prefix(path, q) && !Prefix(q, path) ==> Get(ViewOf(Put(doc, path, v)), q) == Get(ViewOf(doc), q)
  {
    PutCanon(doc, path, v);
    BuildCanonical(Put(doc, path, v));
    BuildCanonical(doc);
    GetPut(doc, path, v);
    if Get(doc, q).Found? && !Prefix(path, q) && !Prefix(q, path) { PutFrame(doc, path, v, q); }
  }

  // ---------------------------------------------------------------------------------------------
  // The code
  // ---------------------------------------------------------------------------------------------

  lemma InsertAllNext(acc: seq<Field>, fs: seq<Field>, i: nat)
    requires i < |fs|
    ensures InsertAll(acc, fs[i..]) == InsertAll(InsertField(acc, fs[i]), fs[i + 1..])
  {
    assert fs[i..][1..] == fs[i + 1..];
  }

  /** BasicMutJson::View; `false` stands for DepthError.  With sorted containers the members are copied
      as they come, otherwise each is inserted. */
  method MakeView(tree: Json, depth: nat, alreadySorted: bool) returns (ok: bool, view: Json)
    requires alreadySorted ==> Canon(tree)
    ensures ok <==> Height(tree) <= depth
    ensures ok ==> view == ViewOf(tree) && Canon(view)
    ensures ok && alreadySorted ==> view == tree
    decreases tree, 0
  {
    BuildIsCanonical(tree);
    if alreadySorted { BuildCanonical(tree); }
    hide Canon, ItemsHeight, FieldsHeight, InsertAll, BuildItems, BuildFields;
    if depth == 0 { return false, Null; }
    match tree {
      case Arr(items) =>
        CanonItems(tree);
        var views;
        ok, views := ViewItems(items, depth - 1, alreadySorted);
        view := Arr(views);
      case Obj(fs) =>
        CanonParts(tree);
        var views;
        ok, views := ViewFields(fs, depth - 1, alreadySorted);
        view := Obj(views);
      case _ => return true, tree;
    }
  }

  lemma CanonItems(v: Json)
    requires v.Arr?
    ensures Canon(v) ==> forall i :: 0 <= i < |v.items| ==> Canon(v.items[i])
  {}

  lemma CanonParts(v: Json)
    requires v.Obj?
    ensures Canon(v) ==> CanonFields(v.fields)
  {}

  method ViewItems(items: seq<Json>, depth: nat, alreadySorted: bool) returns (ok: bool, views: seq<Json>)
    requires alreadySorted ==> forall i :: 0 <= i < |items| ==> Canon(items[i])
    ensures ok <==> ItemsHeight(items) <= depth
    ensures ok ==> views == BuildItems(items)
    decreases items, 1
  {
    hide Canon, Height, ItemsHeight, Build, BuildItems;
    ItemsHeightBound(items, depth);
    views := [];
    var i := 0;
    while i < |items|
      invariant i <= |items| && views == BuildItems(items)[..i]
      invariant forall j :: 0 <= j < i ==> Height(items[j]) <= depth
    {
      var v;
      ok, v := MakeView(items[i], depth, alreadySorted);
      if !ok { return; }
      BuildItemsAt(items, i);
      views := views + [v];
      i := i + 1;
    }
    ok := true;
  }

  method ViewFields(fs: seq<Field>, depth: nat, alreadySorted: bool) returns (ok: bool, views: seq<Field>)
    requires alreadySorted ==> CanonFields(fs)
    ensures ok <==> FieldsHeight(fs) <= depth
    ensures ok ==> views == InsertAll([], BuildFields(fs))
    decreases fs, 2
  {
    hide CanonFields;
    if alreadySorted {
      SortedBuild(fs);
      ok, views := CopyMembers(fs, depth);
    } else {
      ok, views := InsertMembers(fs, depth);
    }
  }

  method CopyMembers(fs: seq<Field>, depth: nat) returns (ok: bool, views: seq<Field>)
    requires CanonFields(fs)
    ensures ok <==> FieldsHeight(fs) <= depth
    ensures ok ==> views == BuildFields(fs)
    decreases fs, 1
  {
    hide Canon, Height, FieldsHeight, Build, BuildFields, SortedFields;
    FieldsHeightBound(fs, depth);
    views := [];
    var i := 0;
    while i < |fs|
      invariant i <= |fs| && views == BuildFields(fs)[..i]
      invariant forall j :: 0 <= j < i ==> Height(fs[j].value) <= depth
    {
      var v;
      ok, v := MakeView(fs[i].value, depth, true);
      if !ok { return; }
      BuildFieldsAt(fs, i);
      views := views + [Field(fs[i].key, v)];
      i := i + 1;
    }
    ok := true;
  }

  method InsertMembers(fs: seq<Field>, depth: nat) returns (ok: bool, views: seq<Field>)
    ensures ok <==> FieldsHeight(fs) <= depth
    ensures ok ==> views == InsertAll([], BuildFields(fs))
    decreases fs, 1
  {
    hide Height, FieldsHeight, Build, BuildFields, InsertField, InsertAll;
    FieldsHeightBound(fs, depth);
    ghost var built := BuildFields(fs);
    assert built[0..] == built;
    views := [];
    var i := 0;
    while i < |fs|
      invariant i <= |fs| && InsertAll(views, built[i..]) == InsertAll([], built)
      invariant forall j :: 0 <= j < i ==> Height(fs[j].value) <= depth
    {
      var v;
      ok, v := MakeView(fs[i].value, depth, false);
      if !ok { return; }
      BuildFieldsAt(fs, i);
      InsertAllNext(views, built, i);
      views := InsertField(views, Field(fs[i].key, v));
      i := i + 1;
    }
    assert built[i..] == [];
    InsertNothing(views);
    ok := true;
  }

  lemma InsertNothing(acc: seq<Field>)
    ensures InsertAll(acc, []) == acc
  {}

  lemma SortedBuild(fs: seq<Field>)
    requires CanonFields(fs)
    ensures BuildFields(fs) == fs && InsertAll([], fs) == fs
  {
    forall i | 0 <= i < |fs| ensures BuildFields(fs)[i] == fs[i] {
      BuildFieldsAt(fs, i);
      BuildCanonical(fs[i].value);
    }
    InsertAnyOrder(fs, fs);
  }
}
