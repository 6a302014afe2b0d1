/**
 * The hierarchy builder `_indexType`: one list result `{key: [stubs]}` becomes a
 * level-1 node for the type whose children are the stubs, rewritten in place as
 * level-2 nodes and sorted by title. It also collects the names whose child
 * metadata must be retrieved, and decides which materializer runs next.
 */
module Hierarchy {
  import opened Json
  import opened Strings
  import opened FolderNames
  import opened SortByTitle

  /** One key of a list result and its array of item stubs. */
  datatype ListEntry = ListEntry(key: string, items: seq<Object>)

  /** What `_indexType` does after building the two levels. */
  datatype Next = ChildMaterializer | FolderMaterializer | Complete

  /** The level-1 node, the type it was built for, the collected child names and the next step. */
  datatype IndexedType = IndexedType(node: Object, xmlName: string, childNames: seq<string>, next: Next)

  /** A listing key that ends in "Folder" names a folder-scoped type by its list-request name. */
  function NormalizeKey(key: string): string
  {
    if EndsWith(key, "Folder") then ToBaseName(key) else key
  }

  /**
   * `item.fullName || ...`: stubs whose `fullName` is truthy carry a string
   * there (a truthy non-string would be stringified by `join`, which is not modelled).
   */
  predicate StubOk(item: Object)
  {
    Truthy(Member(item, "fullName")) ==> Member(item, "fullName").Str?
  }

  /** The key is known to the type map and every stub's `fullName` is a string or falsy. */
  predicate EntryOk(e: ListEntry, typeMap: map<string, Object>)
  {
    NormalizeKey(e.key) in typeMap && forall j :: 0 <= j < |e.items| ==> StubOk(e.items[j])
  }

  predicate ListingOk(listing: seq<ListEntry>, typeMap: map<string, Object>)
  {
    forall i :: 0 <= i < |listing| ==> EntryOk(listing[i], typeMap)
  }

  /**
   * The stub's full name: its own `fullName`, or else the name derived from its
   * `fileName` (`nameOf` stands for the file helper that derives a name from a path).
   */
  function FullName(item: Object, nameOf: Json -> string): string
    requires StubOk(item)
  {
    var own := Member(item, "fullName");
    if Truthy(own) then own.s else nameOf(Member(item, "fileName"))
  }

  function FullNames(items: seq<Object>, nameOf: Json -> string): (names: seq<string>)
    requires forall j :: 0 <= j < |items| ==> StubOk(items[j])
    ensures |names| == |items|
    ensures forall j :: 0 <= j < |items| ==> names[j] == FullName(items[j], nameOf)
  {
    if items == [] then []
    else FullNames(items[..|items| - 1], nameOf) + [FullName(items[|items| - 1], nameOf)]
  }

  /** The assignments a stub receives, in the order they are made. */
  function StubFields(key: string, fullName: string, hasChildTypes: bool, inFolder: Json): Object
  {
    var folderish := hasChildTypes || Truthy(inFolder);
    [ Field("fullName", Str(fullName)),
      Field("leaf", Bool(!folderish)),
      Field("title", Str(fullName)),
      Field("checked", Bool(false)),
      Field("id", Str(key + "." + fullName)),
      Field("text", Str(fullName)),
      Field("cls", Str(if folderish then "folder" else "")),
      Field("level", Num(2)),
      Field("isFolder", if hasChildTypes then Bool(true) else inFolder),
      Field("children", Arr([])),
      Field("select", Bool(false)) ]
  }

  /** A stub rewritten in place as a level-2 node. */
  function Stub(item: Object, key: string, hasChildTypes: bool, inFolder: Json, nameOf: Json -> string): Object
    requires StubOk(item)
  {
    Assign(item, StubFields(key, FullName(item, nameOf), hasChildTypes, inFolder))
  }

  function Stubs(items: seq<Object>, key: string, hasChildTypes: bool, inFolder: Json, nameOf: Json -> string): (stubs: seq<Object>)
    requires forall j :: 0 <= j < |items| ==> StubOk(items[j])
    ensures |stubs| == |items|
    ensures forall j :: 0 <= j < |items| ==> stubs[j] == Stub(items[j], key, hasChildTypes, inFolder, nameOf)
  {
    if items == [] then []
    else
      var n := |items| - 1;
      Stubs(items[..n], key, hasChildTypes, inFolder, nameOf) + [Stub(items[n], key, hasChildTypes, inFolder, nameOf)]
  }

  /** The assignments the level-1 node receives for a key, in order; `children` comes last. */
  function Level1Fields(key: string, descriptor: Object, hasChildTypes: bool, inFolder: Json): Object
  {
    [ Field("id", Str(key)),
      Field("type", Obj(descriptor)),
      Field("title", Str(key)),
      Field("xmlName", Str(key)),
      Field("text", Str(key)),
      Field("key", Str(key)),
      Field("level", Num(1)),
      Field("hasChildTypes", Bool(hasChildTypes)),
      Field("isFolder", Bool(true)),
      Field("inFolder", inFolder),
      Field("cls", Str("folder")),
      Field("select", Bool(false)),
      Field("expanded", Bool(false)) ]
  }

  /** The level-1 node after the assignments for a key, its `children` assigned last. */
  function Level1Node(prev: Object, key: string, descriptor: Object, hasChildTypes: bool, inFolder: Json, children: Json): Object
  {
    Put(Assign(prev, Level1Fields(key, descriptor, hasChildTypes, inFolder)), "children", children)
  }

  /** The state after one more key of the list result. */
  function Step(st: IndexedType, e: ListEntry, typeMap: map<string, Object>, nameOf: Json -> string): IndexedType
    requires EntryOk(e, typeMap)
  {
    var key := NormalizeKey(e.key);
    var descriptor := typeMap[key];
    var hasChildTypes := Has(descriptor, "childXmlNames");
    var inFolder := Member(descriptor, "inFolder");
    var stubs := Stubs(e.items, key, hasChildTypes, inFolder, nameOf);
    IndexedType(
      Level1Node(st.node, key, descriptor, hasChildTypes, inFolder, Arr(Objects(SortBy(stubs)))),
      key,
      st.childNames + (if hasChildTypes then FullNames(e.items, nameOf) else []),
      if hasChildTypes then ChildMaterializer
      else if Truthy(inFolder) then FolderMaterializer
      else Complete)
  }

  /** `_indexType` on a list result whose keys, in order, are `listing`. */
  function Indexed(listing: seq<ListEntry>, typeMap: map<string, Object>, nameOf: Json -> string): IndexedType
    requires ListingOk(listing, typeMap)
    decreases |listing|
  {
    if listing == [] then IndexedType([], "", [], Complete)
    else
      var n := |listing| - 1;
      Step(Indexed(listing[..n], typeMap, nameOf), listing[n], typeMap, nameOf)
  }

  lemma IndexedPrefix(listing: seq<ListEntry>, typeMap: map<string, Object>, nameOf: Json -> string, i: nat)
    requires ListingOk(listing, typeMap) && i < |listing|
    ensures ListingOk(listing[..i], typeMap)
    ensures Indexed(listing[..i + 1], typeMap, nameOf) == Step(Indexed(listing[..i], typeMap, nameOf), listing[i], typeMap, nameOf)
  {
    assert listing[..i + 1][..i] == listing[..i];
  }

  /**
   * The loop over one key's stubs: each is rewritten as a level-2 node, and its
   * full name is collected when the type has child types.
   */
  method RewriteStubs(items: seq<Object>, key: string, hasChildTypes: bool, inFolder: Json, nameOf: Json -> string)
    returns (stubs: seq<Object>, names: seq<string>)
    requires forall j :: 0 <= j < |items| ==> StubOk(items[j])
    ensures stubs == Stubs(items, key, hasChildTypes, inFolder, nameOf)
    ensures names == if hasChildTypes then FullNames(items, nameOf) else []
  {
    stubs, names := [], [];
    var j := 0;
    while j < |items|
      invariant 0 <= j <= |items|
      invariant stubs == Stubs(items[..j], key, hasChildTypes, inFolder, nameOf)
      invariant names == if hasChildTypes then FullNames(items[..j], nameOf) else []
    {
      var item := items[j];
      var fullName := FullName(item, nameOf);
      StubsStep(items, key, hasChildTypes, inFolder, nameOf, j);
      stubs := stubs + [Stub(item, key, hasChildTypes, inFolder, nameOf)];
      if hasChildTypes {
        names := names + [fullName];
      }
      j := j + 1;
    }
    assert items[..j] == items;
  }

  lemma StubsStep(items: seq<Object>, key: string, hasChildTypes: bool, inFolder: Json, nameOf: Json -> string, j: nat)
    requires (forall j :: 0 <= j < |items| ==> StubOk(items[j])) && j < |items|
    ensures Stubs(items[..j + 1], key, hasChildTypes, inFolder, nameOf) ==
      Stubs(items[..j], key, hasChildTypes, inFolder, nameOf) + [Stub(items[j], key, hasChildTypes, inFolder, nameOf)]
    ensures FullNames(items[..j + 1], nameOf) == FullNames(items[..j], nameOf) + [FullName(items[j], nameOf)]
  {
    assert items[..j + 1][..j] == items[..j];
  }

  /** The loop of `_indexType` over the keys of the list result, and the dispatch after it. */
  method IndexType(listing: seq<ListEntry>, typeMap: map<string, Object>, nameOf: Json -> string)
    returns (r: IndexedType)
    requires ListingOk(listing, typeMap)
    ensures r == Indexed(listing, typeMap, nameOf)
  {
    var node: Object := [];
    var childNames: seq<string> := [];
    var xmlName := "";
    var next := Complete;
    var i := 0;
    while i < |listing|
      invariant 0 <= i <= |listing|
      invariant IndexedType(node, xmlName, childNames, next) == Indexed(listing[..i], typeMap, nameOf)
    {
      var e := listing[i];
      IndexedPrefix(listing, typeMap, nameOf, i);
      var key := NormalizeKey(e.key);
      var descriptor := typeMap[key];
      var hasChildTypes := Has(descriptor, "childXmlNames");
      var inFolder := Member(descriptor, "inFolder");
      node := Assign(node, Level1Fields(key, descriptor, hasChildTypes, inFolder));
      var stubs, names := RewriteStubs(e.items, key, hasChildTypes, inFolder, nameOf);
      childNames := childNames + names;
      node := Put(node, "children", Arr(Objects(SortBy(stubs))));
      xmlName := key;
      next := if hasChildTypes then ChildMaterializer
        else if Truthy(inFolder) then FolderMaterializer
        else Complete;
      i := i + 1;
    }
    assert listing[..i] == listing;
    r := IndexedType(node, xmlName, childNames, next);
  }

  // ---------------------------------------------------------------------------
  // What the builder promises
  // ---------------------------------------------------------------------------

  lemma StubFieldsDistinct(key: string, fullName: string, hasChildTypes: bool, inFolder: Json)
    ensures DistinctKeys(StubFields(key, fullName, hasChildTypes, inFolder))
  {
  }

  lemma Level1FieldsDistinct(key: string, descriptor: Object, hasChildTypes: bool, inFolder: Json)
    ensures DistinctKeys(Level1Fields(key, descriptor, hasChildTypes, inFolder))
  {
  }

  /** The keys a level-2 node receives. */
  predicate IsStubKey(k: string)
  {
    k in ["fullName", "leaf", "title", "checked", "id", "text", "cls", "level", "isFolder", "children", "select"]
  }

  /**
   * A level-2 node: `id` is the key and the full name joined by '.', `title` and
   * `text` are the full name, it is a leaf exactly when the type has neither child
   * types nor folders, and it starts unchecked with no children.
   */
  lemma StubShape(item: Object, key: string, hasChildTypes: bool, inFolder: Json, nameOf: Json -> string)
    requires StubOk(item)
    ensures var s := Stub(item, key, hasChildTypes, inFolder, nameOf);
      var fullName := FullName(item, nameOf);
      var folderish := hasChildTypes || Truthy(inFolder);
      && Member(s, "fullName") == Str(fullName)
      && Member(s, "title") == Str(fullName)
      && Member(s, "text") == Str(fullName)
      && Member(s, "id") == Str(key + "." + fullName)
      && Member(s, "leaf") == Bool(!folderish)
      && Member(s, "cls") == Str(if folderish then "folder" else "")
      && Member(s, "isFolder") == (if hasChildTypes then Bool(true) else inFolder)
      && Truthy(Member(s, "isFolder")) == folderish
      && Member(s, "level") == Num(2)
      && Member(s, "children") == Arr([])
      && Member(s, "checked") == Bool(false)
      && Member(s, "select") == Bool(false)
  {
    StubAssigned(item, key, hasChildTypes, inFolder, nameOf, 0);
    StubAssigned(item, key, hasChildTypes, inFolder, nameOf, 1);
    StubAssigned(item, key, hasChildTypes, inFolder, nameOf, 2);
    StubAssigned(item, key, hasChildTypes, inFolder, nameOf, 3);
    StubAssigned(item, key, hasChildTypes, inFolder, nameOf, 4);
    StubAssigned(item, key, hasChildTypes, inFolder, nameOf, 5);
    StubAssigned(item, key, hasChildTypes, inFolder, nameOf, 6);
    StubAssigned(item, key, hasChildTypes, inFolder, nameOf, 7);
    StubAssigned(item, key, hasChildTypes, inFolder, nameOf, 8);
    StubAssigned(item, key, hasChildTypes, inFolder, nameOf, 9);
    StubAssigned(item, key, hasChildTypes, inFolder, nameOf, 10);
  }

  lemma StubAssigned(item: Object, key: string, hasChildTypes: bool, inFolder: Json, nameOf: Json -> string, i: nat)
    requires StubOk(item) && i < 11
    ensures var fs := StubFields(key, FullName(item, nameOf), hasChildTypes, inFolder);
      Member(Stub(item, key, hasChildTypes, inFolder, nameOf), fs[i].key) == fs[i].value
  {
    StubFieldsDistinct(key, FullName(item, nameOf), hasChildTypes, inFolder);
    AssignedAt(item, StubFields(key, FullName(item, nameOf), hasChildTypes, inFolder), i);
  }

  /** Every other field of the stub is kept, and so is the order of its fields. */
  lemma StubKeepsOtherFields(item: Object, key: string, hasChildTypes: bool, inFolder: Json, nameOf: Json -> string, k: string)
    requires StubOk(item) && !IsStubKey(k)
    ensures var s := Stub(item, key, hasChildTypes, inFolder, nameOf);
      && Member(s, k) == Member(item, k)
      && (Has(s, k) <==> Has(item, k))
      && |s| >= |item|
      && forall i :: 0 <= i < |item| ==> s[i].key == item[i].key
  {
    var fullName := FullName(item, nameOf);
    var fs := StubFields(key, fullName, hasChildTypes, inFolder);
    StubFieldsDistinct(key, fullName, hasChildTypes, inFolder);
    HasIff(fs, k);
    AssignMember(item, fs, k);
    AssignKeepsKeys(item, fs);
  }

  /** The last key of the listing in normalized form. */
  function LastKey(listing: seq<ListEntry>): string
    requires listing != []
  {
    NormalizeKey(listing[|listing| - 1].key)
  }

  /** The level-1 fields of a node after the assignments for a key and its `children`. */
  lemma Level1Assigned(prev: Object, key: string, descriptor: Object, hasChildTypes: bool, inFolder: Json, children: Json)
    ensures var node := Level1Node(prev, key, descriptor, hasChildTypes, inFolder, children);
      && Member(node, "id") == Str(key)
      && Member(node, "type") == Obj(descriptor)
      && Member(node, "title") == Str(key)
      && Member(node, "xmlName") == Str(key)
      && Member(node, "text") == Str(key)
      && Member(node, "key") == Str(key)
      && Member(node, "level") == Num(1)
      && Member(node, "hasChildTypes") == Bool(hasChildTypes)
      && Member(node, "isFolder") == Bool(true)
      && Member(node, "inFolder") == inFolder
      && Member(node, "cls") == Str("folder")
      && Member(node, "select") == Bool(false)
      && Member(node, "expanded") == Bool(false)
      && Member(node, "children") == children
  {
    Level1AssignedAt(prev, key, descriptor, hasChildTypes, inFolder, children, 0);
    Level1AssignedAt(prev, key, descriptor, hasChildTypes, inFolder, children, 1);
    Level1AssignedAt(prev, key, descriptor, hasChildTypes, inFolder, children, 2);
    Level1AssignedAt(prev, key, descriptor, hasChildTypes, inFolder, children, 3);
    Level1AssignedAt(prev, key, descriptor, hasChildTypes, inFolder, children, 4);
    Level1AssignedAt(prev, key, descriptor, hasChildTypes, inFolder, children, 5);
    Level1AssignedAt(prev, key, descriptor, hasChildTypes, inFolder, children, 6);
    Level1AssignedAt(prev, key, descriptor, hasChildTypes, inFolder, children, 7);
    Level1AssignedAt(prev, key, descriptor, hasChildTypes, inFolder, children, 8);
    Level1AssignedAt(prev, key, descriptor, hasChildTypes, inFolder, children, 9);
    Level1AssignedAt(prev, key, descriptor, hasChildTypes, inFolder, children, 10);
    Level1AssignedAt(prev, key, descriptor, hasChildTypes, inFolder, children, 11);
    Level1AssignedAt(prev, key, descriptor, hasChildTypes, inFolder, children, 12);
  }

  lemma Level1AssignedAt(prev: Object, key: string, descriptor: Object, hasChildTypes: bool, inFolder: Json, children: Json, i: nat)
    requires i < 13
    ensures var fs := Level1Fields(key, descriptor, hasChildTypes, inFolder);
      Member(Level1Node(prev, key, descriptor, hasChildTypes, inFolder, children), fs[i].key) == fs[i].value
  {
    Level1FieldsDistinct(key, descriptor, hasChildTypes, inFolder);
    AssignedAtThenPut(prev, Level1Fields(key, descriptor, hasChildTypes, inFolder), i, "children", children);
  }

  /** The stubs of the last key, rewritten as level-2 nodes. */
  function LastStubs(listing: seq<ListEntry>, typeMap: map<string, Object>, nameOf: Json -> string): seq<Object>
    requires ListingOk(listing, typeMap) && listing != []
  {
    var key := LastKey(listing);
    var descriptor := typeMap[key];
    Stubs(listing[|listing| - 1].items, key, Has(descriptor, "childXmlNames"), Member(descriptor, "inFolder"), nameOf)
  }

  /**
   * The level-1 node after the last key: `id`, `title`, `text`, `key` and
   * `xmlName` are that key, it is a folder at level 1, unselected and collapsed,
   * it carries the type's descriptor and whether it has child types, and its
   * children are the rewritten stubs sorted by title.
   */
  lemma Level1Shape(listing: seq<ListEntry>, typeMap: map<string, Object>, nameOf: Json -> string)
    requires ListingOk(listing, typeMap) && listing != []
    ensures var r := Indexed(listing, typeMap, nameOf);
      var key := LastKey(listing);
      var descriptor := typeMap[key];
      && r.xmlName == key
      && Member(r.node, "id") == Str(key)
      && Member(r.node, "title") == Str(key)
      && Member(r.node, "text") == Str(key)
      && Member(r.node, "key") == Str(key)
      && Member(r.node, "xmlName") == Str(key)
      && Member(r.node, "type") == Obj(descriptor)
      && Member(r.node, "level") == Num(1)
      && Member(r.node, "hasChildTypes") == Bool(Has(descriptor, "childXmlNames"))
      && Member(r.node, "isFolder") == Bool(true)
      && Member(r.node, "inFolder") == Member(descriptor, "inFolder")
      && Member(r.node, "cls") == Str("folder")
      && Member(r.node, "select") == Bool(false)
      && Member(r.node, "expanded") == Bool(false)
      && Member(r.node, "children") == Arr(Objects(SortBy(LastStubs(listing, typeMap, nameOf))))
  {
    var n := |listing| - 1;
    var key := LastKey(listing);
    var descriptor := typeMap[key];
    var prev := Indexed(listing[..n], typeMap, nameOf).node;
    var children := Arr(Objects(SortBy(LastStubs(listing, typeMap, nameOf))));
    Level1Assigned(prev, key, descriptor, Has(descriptor, "childXmlNames"), Member(descriptor, "inFolder"), children);
  }

  /**
   * The level-2 children of the node are exactly the rewritten stubs of the last
   * key, sorted by title, with stubs of equal title in listing order.
   */
  lemma ChildrenAreSortedStubs(listing: seq<ListEntry>, typeMap: map<string, Object>, nameOf: Json -> string, t: string)
    requires ListingOk(listing, typeMap) && listing != []
    ensures var stubs := LastStubs(listing, typeMap, nameOf);
      exists sorted ::
        && Member(Indexed(listing, typeMap, nameOf).node, "children") == Arr(Objects(sorted))
        && SortedByTitle(sorted)
        && multiset(sorted) == multiset(stubs)
        && WithTitle(sorted, t) == WithTitle(stubs, t)
  {
    Level1Shape(listing, typeMap, nameOf);
    var stubs := LastStubs(listing, typeMap, nameOf);
    SortBySorted(stubs);
    SortByPermutes(stubs);
    SortByStable(stubs, t);
  }

  /**
   * For a list result with one key, the collected child names are the stubs' full
   * names in listing order (before the sort) when the type has child types, and
   * none otherwise; each is the title its stub received.
   */
  lemma ChildNamesOfOneKey(e: ListEntry, typeMap: map<string, Object>, nameOf: Json -> string)
    requires EntryOk(e, typeMap)
    ensures var key := NormalizeKey(e.key);
      var descriptor := typeMap[key];
      var hasChildTypes := Has(descriptor, "childXmlNames");
      var names := Indexed([e], typeMap, nameOf).childNames;
      && (hasChildTypes ==>
            && |names| == |e.items|
            && forall j :: 0 <= j < |e.items| ==>
                 Str(names[j]) == Member(Stub(e.items[j], key, hasChildTypes, Member(descriptor, "inFolder"), nameOf), "title"))
      && (!hasChildTypes ==> names == [])
  {
    assert [e][..0] == [];
    var key := NormalizeKey(e.key);
    var descriptor := typeMap[key];
    forall j | 0 <= j < |e.items|
      ensures Str(FullName(e.items[j], nameOf)) ==
        Member(Stub(e.items[j], key, Has(descriptor, "childXmlNames"), Member(descriptor, "inFolder"), nameOf), "title")
    {
      StubShape(e.items[j], key, Has(descriptor, "childXmlNames"), Member(descriptor, "inFolder"), nameOf);
    }
  }

  /**
   * The dispatch after the last key: the child materializer when the type has
   * child types, otherwise the folder materializer when it is folder-scoped,
   * otherwise the two-level node is complete; an empty list result builds an
   * empty node and stops.
   */
  lemma Dispatch(listing: seq<ListEntry>, typeMap: map<string, Object>, nameOf: Json -> string)
    requires ListingOk(listing, typeMap)
    ensures var r := Indexed(listing, typeMap, nameOf);
      if listing == [] then r.node == [] && r.childNames == [] && r.next == Complete
      else
        var descriptor := typeMap[LastKey(listing)];
        && (r.next == ChildMaterializer <==> Has(descriptor, "childXmlNames"))
        && (r.next == FolderMaterializer <==> !Has(descriptor, "childXmlNames") && Truthy(Member(descriptor, "inFolder")))
  {
  }
}
