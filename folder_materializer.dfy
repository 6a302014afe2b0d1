/**
 * The folder materializer, `_indexFolders`: for a folder-scoped type (documents,
 * dashboards, ...) one folder listing is requested per level-2 folder node, and
 * the items of each listing are appended, as level-3 leaves, under the folder
 * node the listing names.
 */
module FolderMaterializer {
  import opened Json
  import opened Strings

  /** `listFolder(xmlName, folder.fullName)`. */
  datatype FolderRequest = FolderRequest(xmlName: string, folder: Json)

  /** `folder.fullName` of a level-2 node (`undefined` for anything but an object). */
  function FullNameOf(node: Json): Json
  {
    if node.Obj? then Member(node.fields, "fullName") else Undefined
  }

  /** The request loop: one folder listing per level-2 node, in order. */
  method ListFolderRequests(children: seq<Json>, xmlName: string) returns (requests: seq<FolderRequest>)
    ensures |requests| == |children|
    ensures forall i :: 0 <= i < |children| ==> requests[i] == FolderRequest(xmlName, FullNameOf(children[i]))
  {
    requests := [];
    var i := 0;
    while i < |children|
      invariant 0 <= i <= |children| && |requests| == i
      invariant forall k :: 0 <= k < i ==> requests[k] == FolderRequest(xmlName, FullNameOf(children[k]))
    {
      requests := requests + [FolderRequest(xmlName, FullNameOf(children[i]))];
      i := i + 1;
    }
  }

  /**
   * The items of one listing result: the value under its first key, iterated as
   * `_.each` does (an array's elements, an object's values, nothing otherwise).
   */
  function ResultItems(r: Object): seq<Json>
  {
    if r == [] then []
    else match r[0].value
      case Arr(s) => s
      case Obj(fs) => seq(|fs|, i requires 0 <= i < |fs| => fs[i].value)
      case _ => []
  }

  /** The folder a listing result names: its first key. */
  function ResultFolder(r: Object): string
    requires r != []
  {
    r[0].key
  }

  /** The level-3 leaf for a listed item whose full name is `folder/name`. */
  function FolderLeaf(xmlName: string, fullName: string): Json
  {
    var parts := Split(fullName, '/');
    var name := if |parts| > 1 then Str(parts[1]) else Undefined;
    Obj([
      Field("leaf", Bool(true)),
      Field("title", name),
      Field("checked", Bool(false)),
      Field("text", name),
      Field("level", Num(3)),
      Field("isFolder", Bool(false)),
      Field("id", Str(xmlName + "." + parts[0] + "." + (if |parts| > 1 then parts[1] else ""))),
      Field("select", Bool(false))
    ])
  }

  /** `item.fullName.split('/')` throws unless the item is an object with a string `fullName`. */
  predicate ItemOk(item: Json)
  {
    item.Obj? && Member(item.fields, "fullName").Str?
  }

  function ItemName(item: Json): string
    requires ItemOk(item)
  {
    Member(item.fields, "fullName").s
  }

  /** The leaves of a listing's items, in order. */
  function FolderLeaves(xmlName: string, items: seq<Json>): (r: seq<Json>)
    requires forall i :: 0 <= i < |items| ==> ItemOk(items[i])
    ensures |r| == |items|
    ensures forall i :: 0 <= i < |items| ==> r[i] == FolderLeaf(xmlName, ItemName(items[i]))
  {
    seq(|items|, i requires 0 <= i < |items| => FolderLeaf(xmlName, ItemName(items[i])))
  }

  /**
   * What a result needs for the merge not to throw: its contents are not a
   * non-empty string, every item has a string full name, and a result with items
   * names a folder node whose `children` is an array.
   */
  predicate ResultOk(children: seq<Json>, r: Object)
  {
    var items := ResultItems(r);
    // `_.each` walks a string's characters, whose `fullName` is undefined.
    !(r != [] && r[0].value.Str? && r[0].value.s != "") &&
    (forall i :: 0 <= i < |items| ==> ItemOk(items[i])) &&
    (items != [] ==>
      var k := FindWhere(children, "text", ResultFolder(r));
      k < |children| && Member(children[k].fields, "children").Arr?)
  }

  /** The level-2 nodes after one result: its leaves appended under the folder it names. */
  function MergeResult(children: seq<Json>, xmlName: string, r: Object): (c: seq<Json>)
    requires ResultOk(children, r)
    ensures |c| == |children|
  {
    var items := ResultItems(r);
    if items == [] then children
    else
      var k := FindWhere(children, "text", ResultFolder(r));
      var node := children[k].fields;
      children[k := Obj(Put(node, "children", Arr(Member(node, "children").elems + FolderLeaves(xmlName, items))))]
  }

  predicate ResultsOk(children: seq<Json>, xmlName: string, results: seq<Object>)
    decreases |results|, 0
  {
    results == [] ||
    var n := |results| - 1;
    ResultsOk(children, xmlName, results[..n]) && ResultOk(Merge(children, xmlName, results[..n]), results[n])
  }

  /** The level-2 nodes after all results, in the order the listings were requested. */
  function Merge(children: seq<Json>, xmlName: string, results: seq<Object>): (c: seq<Json>)
    requires ResultsOk(children, xmlName, results)
    decreases |results|, 1
    ensures |c| == |children|
  {
    if results == [] then children
    else
      var n := |results| - 1;
      MergeResult(Merge(children, xmlName, results[..n]), xmlName, results[n])
  }

  /**
   * One result: the named folder node's children grow by one leaf per item, in
   * order, the node's other fields are kept, and every other node is unchanged.
   */
  lemma MergeResultEffect(children: seq<Json>, xmlName: string, r: Object)
    requires ResultOk(children, r) && ResultItems(r) != []
    ensures var k := FindWhere(children, "text", ResultFolder(r));
      var c := MergeResult(children, xmlName, r);
      && k < |children| && c[k].Obj?
      && Member(c[k].fields, "children") ==
           Arr(Member(children[k].fields, "children").elems + FolderLeaves(xmlName, ResultItems(r)))
      && (forall key :: key != "children" ==> Member(c[k].fields, key) == Member(children[k].fields, key))
      && forall i :: 0 <= i < |children| && i != k ==> c[i] == children[i]
  {
    var k := FindWhere(children, "text", ResultFolder(r));
    var node := children[k].fields;
    var v := Arr(Member(node, "children").elems + FolderLeaves(xmlName, ResultItems(r)));
    forall key | key != "children" ensures Member(Put(node, "children", v), key) == Member(node, key) {
      MemberPutOther(node, "children", v, key);
    }
  }

  /** A node no result with items names is left exactly as it was. */
  lemma {:induction false} UnnamedFolderUnchanged(children: seq<Json>, xmlName: string, results: seq<Object>, i: nat)
    requires ResultsOk(children, xmlName, results) && i < |children|
    requires forall j :: 0 <= j < |results| && ResultItems(results[j]) != [] ==>
      !(children[i].Obj? && Member(children[i].fields, "text") == Str(ResultFolder(results[j])))
    ensures Merge(children, xmlName, results)[i] == children[i]
    ensures Merge(children, xmlName, results)[i].Obj? <==> children[i].Obj?
  {
    if results != [] {
      var n := |results| - 1;
      assert forall j :: 0 <= j < n ==> results[..n][j] == results[j];
      UnnamedFolderUnchanged(children, xmlName, results[..n], i);
      var prev := Merge(children, xmlName, results[..n]);
      var r := results[n];
      if ResultItems(r) != [] {
        MergeResultEffect(prev, xmlName, r);
      }
    }
  }

  /** A leaf: level 3, not a folder, unchecked; its text and title are the part after the '/'. */
  lemma FolderLeafShape(xmlName: string, folder: string, name: string)
    requires '/' !in folder && '/' !in name
    ensures var l := FolderLeaf(xmlName, folder + "/" + name);
      && l.Obj?
      && Member(l.fields, "id") == Str(xmlName + "." + folder + "." + name)
      && Member(l.fields, "text") == Str(name)
      && Member(l.fields, "title") == Str(name)
      && Member(l.fields, "level") == Num(3)
      && Member(l.fields, "leaf") == Bool(true)
      && Member(l.fields, "isFolder") == Bool(false)
      && Member(l.fields, "checked") == Bool(false)
      && Member(l.fields, "select") == Bool(false)
  {
    SplitTwo(folder, name, '/');
    assert folder + "/" + name == folder + ['/'] + name;
    var fs := FolderLeaf(xmlName, folder + "/" + name).fields;
    assert DistinctKeys(fs);
    MemberOfLiteral(fs, 0);
    MemberOfLiteral(fs, 1);
    MemberOfLiteral(fs, 2);
    MemberOfLiteral(fs, 3);
    MemberOfLiteral(fs, 4);
    MemberOfLiteral(fs, 5);
    MemberOfLiteral(fs, 6);
    MemberOfLiteral(fs, 7);
  }

  /** A name without '/' has no part after it: text and title are `undefined` and the id ends in '.'. */
  lemma FolderLeafWithoutSlash(xmlName: string, fullName: string)
    requires '/' !in fullName
    ensures var l := FolderLeaf(xmlName, fullName);
      && l.Obj?
      && Member(l.fields, "text") == Undefined
      && Member(l.fields, "id") == Str(xmlName + "." + fullName + ".")
  {
    SplitWithoutSeparator(fullName, '/');
    var fs := FolderLeaf(xmlName, fullName).fields;
    assert DistinctKeys(fs);
    MemberOfLiteral(fs, 3);
    MemberOfLiteral(fs, 6);
  }

  /**
   * A listing whose items are named `folders[i]/names[i]`: the i-th leaf has the
   * id xmlName.folder.name and the name as its text and title.
   */
  lemma FolderLeavesOfNames(xmlName: string, items: seq<Json>, folders: seq<string>, names: seq<string>)
    requires |folders| == |items| && |names| == |items|
    requires forall i :: 0 <= i < |items| ==>
      ItemOk(items[i]) && ItemName(items[i]) == folders[i] + "/" + names[i] && '/' !in folders[i] && '/' !in names[i]
    ensures var r := FolderLeaves(xmlName, items);
      |r| == |items| &&
      forall i :: 0 <= i < |items| ==>
        && r[i].Obj?
        && Member(r[i].fields, "id") == Str(xmlName + "." + folders[i] + "." + names[i])
        && Member(r[i].fields, "text") == Str(names[i])
        && Member(r[i].fields, "title") == Str(names[i])
        && Member(r[i].fields, "level") == Num(3)
  {
    forall i | 0 <= i < |items|
      ensures var l := FolderLeaf(xmlName, ItemName(items[i]));
        && l.Obj?
        && Member(l.fields, "id") == Str(xmlName + "." + folders[i] + "." + names[i])
        && Member(l.fields, "text") == Str(names[i])
        && Member(l.fields, "title") == Str(names[i])
        && Member(l.fields, "level") == Num(3)
    {
      FolderLeafShape(xmlName, folders[i], names[i]);
    }
  }

  // ---------------------------------------------------------------------------
  // The merge loop
  // ---------------------------------------------------------------------------

  lemma ResultsPrefix(children: seq<Json>, xmlName: string, results: seq<Object>, j: nat)
    requires ResultsOk(children, xmlName, results) && j < |results|
    ensures ResultsOk(children, xmlName, results[..j + 1])
    ensures ResultsOk(children, xmlName, results[..j]) && ResultOk(Merge(children, xmlName, results[..j]), results[j])
    ensures Merge(children, xmlName, results[..j + 1]) == MergeResult(Merge(children, xmlName, results[..j]), xmlName, results[j])
  {
    assert results[..j + 1][..j] == results[..j];
    ResultsOkPrefix(children, xmlName, results, j + 1);
  }

  lemma {:induction false} ResultsOkPrefix(children: seq<Json>, xmlName: string, results: seq<Object>, j: nat)
    requires ResultsOk(children, xmlName, results) && j <= |results|
    ensures ResultsOk(children, xmlName, results[..j])
    decreases |results|
  {
    if j < |results| {
      var n := |results| - 1;
      assert results[..n][..j] == results[..j];
      ResultsOkPrefix(children, xmlName, results[..n], j);
    } else {
      assert results[..j] == results;
    }
  }

  /** `_.each(folderContents, ...)`: the leaves pushed one at a time. */
  method AppendLeaves(existing: seq<Json>, xmlName: string, items: seq<Json>) returns (c: seq<Json>)
    requires forall i :: 0 <= i < |items| ==> ItemOk(items[i])
    ensures c == existing + FolderLeaves(xmlName, items)
  {
    c := existing;
    var j := 0;
    while j < |items|
      invariant 0 <= j <= |items| && c == existing + FolderLeaves(xmlName, items[..j])
    {
      var item := items[j];
      var parts := Split(ItemName(item), '/');
      c := c + [FolderLeaf(xmlName, ItemName(item))];
      assert FolderLeaves(xmlName, items[..j + 1]) == FolderLeaves(xmlName, items[..j]) + [FolderLeaf(xmlName, ItemName(item))];
      j := j + 1;
    }
    assert items[..j] == items;
  }

  /** `_.each(results, ...)`: the listing results merged in request order into the level-1 node. */
  method IndexFolders(level1: Object, xmlName: string, results: seq<Object>) returns (r: Object)
    requires Member(level1, "children").Arr?
    requires ResultsOk(Member(level1, "children").elems, xmlName, results)
    ensures r == Put(level1, "children", Arr(Merge(Member(level1, "children").elems, xmlName, results)))
  {
    var children := Member(level1, "children").elems;
    var c := children;
    var j := 0;
    while j < |results|
      invariant 0 <= j <= |results| && ResultsOk(children, xmlName, results[..j])
      invariant c == Merge(children, xmlName, results[..j])
    {
      ResultsPrefix(children, xmlName, results, j);
      var res := results[j];
      var items := ResultItems(res);
      if items != [] {
        var k := FindWhere(c, "text", ResultFolder(res));
        var node := c[k].fields;
        var grown := AppendLeaves(Member(node, "children").elems, xmlName, items);
        c := c[k := Obj(Put(node, "children", Arr(grown)))];
      }
      j := j + 1;
    }
    assert results[..j] == results;
    r := Put(level1, "children", Arr(c));
  }
}
