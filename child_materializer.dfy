/**
 * The child materializer, the body `_indexChildren` runs for every retrieved
 * file of a type with child types (a custom object, a workflow, ...): the
 * file's child tags that the child-tag table tracks become level-3 nodes under
 * the file's level-2 node, and the entries under each tag become level-4 leaves.
 */
module ChildMaterializer {
  import opened Json
  import opened Strings
  import opened ChildTypes

  /** One parsed entry under a tag: its `fullName` and `actionName` element lists, when present. */
  datatype Entry = Entry(fullName: Option<seq<string>>, actionName: Option<seq<string>>)

  /** A tag's parsed value: a single entry, or a list of entries. */
  datatype TagValue = One(entry: Entry) | Many(entries: seq<Entry>)

  datatype Tag = Tag(name: string, value: TagValue)

  /** A parsed metadata file: the name of its root element and the root's child tags, in order. */
  datatype XmlDoc = XmlDoc(root: string, tags: seq<Tag>)

  /** A file of the retrieve result: its path and its parsed contents. */
  datatype RetrievedFile = RetrievedFile(path: string, doc: XmlDoc)

  /**
   * The retrieve request: it names the type exactly when there are child names,
   * lists each of them under it, in order, and names nothing else.
   */
  function RetrievePackage(xmlName: string, childNames: seq<string>): (r: Object)
    ensures Has(r, xmlName) <==> |childNames| > 0
    ensures forall k :: k != xmlName ==> !Has(r, k)
    ensures |childNames| > 0 ==>
      var v := Member(r, xmlName);
      v.Arr? && |v.elems| == |childNames| && forall i :: 0 <= i < |childNames| ==> v.elems[i] == Str(childNames[i])
  {
    if |childNames| > 0 then [Field(xmlName, Arr(seq(|childNames|, i requires 0 <= i < |childNames| => Str(childNames[i]))))]
    else []
  }

  /** `path.basename(file).split('.')[0]`: the file name up to its first '.'. */
  function FileBase(path: string): string
  {
    Split(Basename(path), '.')[0]
  }

  /** The base holds no '.', and the file name is the base, or the base followed by a '.' and the rest. */
  lemma FileBaseIsPrefix(path: string)
    ensures var name := Basename(path); var base := FileBase(path);
      && '.' !in base
      && |base| <= |name| && name[..|base|] == base
      && (|base| == |name| || name[|base|] == '.')
  {
    var name := Basename(path);
    SplitFirst(name, '.');
    SplitPiecesFree(name, '.');
  }

  /** The tags of the file's root, when the root is the type itself (`xmlObject[xmlName]`). */
  function RootTags(doc: XmlDoc, xmlName: string): seq<Tag>
  {
    if doc.root == xmlName then doc.tags else []
  }

  /** `if (!_.isArray(value)) value = [value]`. */
  function Entries(v: TagValue): seq<Entry>
  {
    match v
    case One(e) => [e]
    case Many(es) => es
  }

  /** The first element of a parsed list, when there is one and it is not empty (a truthy key). */
  function FirstKey(names: seq<string>): Option<string>
  {
    if |names| > 0 && names[0] != "" then Some(names[0]) else None
  }

  /**
   * The leaf key of an entry: the first `fullName` when the entry has a
   * `fullName` list, else the first `actionName`; an entry with neither, or whose
   * chosen list gives no truthy key, has no leaf.
   */
  function LeafKey(e: Entry): (r: Option<string>)
    ensures r.Some? ==> r.value != ""
    ensures e.fullName.Some? ==> r == FirstKey(e.fullName.value)
    ensures e.fullName.None? && e.actionName.Some? ==> r == FirstKey(e.actionName.value)
    ensures e.fullName.None? && e.actionName.None? ==> r == None
  {
    if e.fullName.Some? then FirstKey(e.fullName.value)
    else if e.actionName.Some? then FirstKey(e.actionName.value)
    else None
  }

  /** A level-4 leaf under the level-3 node whose id is `prefix`. */
  function Leaf(prefix: string, key: string): Json
  {
    Obj([
      Field("leaf", Bool(true)),
      Field("checked", Bool(false)),
      Field("level", Num(4)),
      Field("text", Str(key)),
      Field("title", Str(key)),
      Field("isFolder", Bool(false)),
      Field("id", Str(prefix + "." + key)),
      Field("select", Bool(false))
    ])
  }

  /** The keys of the entries that have one, in entry order. */
  function LeafKeys(entries: seq<Entry>): seq<string>
  {
    if entries == [] then []
    else
      var n := |entries| - 1;
      LeafKeys(entries[..n]) + (if LeafKey(entries[n]).Some? then [LeafKey(entries[n]).value] else [])
  }

  /** The leaves of a tag: one per entry with a key, in entry order. */
  function Leaves(entries: seq<Entry>, prefix: string): (r: seq<Json>)
    ensures |r| == |LeafKeys(entries)|
    ensures forall i :: 0 <= i < |r| ==> r[i] == Leaf(prefix, LeafKeys(entries)[i])
  {
    if entries == [] then []
    else
      var n := |entries| - 1;
      var k := LeafKey(entries[n]);
      Leaves(entries[..n], prefix) + (if k.Some? then [Leaf(prefix, k.value)] else [])
  }

  /** When every entry has a key, there is one leaf key per entry, in entry order. */
  lemma {:induction false} LeafKeysOfKeyedEntries(entries: seq<Entry>)
    requires forall i :: 0 <= i < |entries| ==> LeafKey(entries[i]).Some?
    ensures |LeafKeys(entries)| == |entries|
    ensures forall i :: 0 <= i < |entries| ==> LeafKeys(entries)[i] == LeafKey(entries[i]).value
  {
    if entries != [] {
      var n := |entries| - 1;
      assert forall i :: 0 <= i < n ==> entries[..n][i] == entries[i];
      LeafKeysOfKeyedEntries(entries[..n]);
    }
  }

  /** Entries without a key give no leaf at all. */
  lemma {:induction false} LeafKeysOfUnkeyedEntries(entries: seq<Entry>)
    requires forall i :: 0 <= i < |entries| ==> LeafKey(entries[i]).None?
    ensures LeafKeys(entries) == []
  {
    if entries != [] {
      var n := |entries| - 1;
      assert forall i :: 0 <= i < n ==> entries[..n][i] == entries[i];
      LeafKeysOfUnkeyedEntries(entries[..n]);
    }
  }

  /** The level-3 node for a tracked tag. */
  function TagNode(prefix: string, tag: string, leaves: seq<Json>): Json
  {
    Obj([
      Field("checked", Bool(false)),
      Field("level", Num(3)),
      Field("id", Str(prefix)),
      Field("text", Str(tag)),
      Field("title", Str(tag)),
      Field("isFolder", Bool(true)),
      Field("children", Arr(leaves)),
      Field("select", Bool(false)),
      Field("cls", Str("folder"))
    ])
  }

  /** The id of the level-2 node a file belongs to, and of the level-3 node of one of its tags. */
  function NodeId(xmlName: string, base: string): string
  {
    xmlName + "." + base
  }

  function TagId(xmlName: string, base: string, tag: string): string
  {
    xmlName + "." + base + "." + tag
  }

  /** The level-3 node a tracked tag of the file gets. */
  function TagNodeFor(xmlName: string, base: string, tag: Tag): Json
  {
    var prefix := TagId(xmlName, base, tag.name);
    TagNode(prefix, tag.name, Leaves(Entries(tag.value), prefix))
  }

  /**
   * The guard `_.find(indexedChildType, { text: tagName })`: it searches the
   * values of the level-2 node's own fields for an object whose `text` is the tag.
   */
  predicate GuardFinds(node: Object, tag: string)
  {
    exists i :: 0 <= i < |node| && node[i].value.Obj? && Member(node[i].value.fields, "text") == Str(tag)
  }

  /** No own field of the node holds an object (a level-2 stub whose listing item held only primitives). */
  predicate NoObjectValues(node: Object)
  {
    forall i :: 0 <= i < |node| ==> !node[i].value.Obj?
  }

  /** The node's `children` is an array, as every level-2 stub's is. */
  predicate HasChildArray(node: Object)
  {
    Member(node, "children").Arr?
  }

  /** One tag of the file: appended as a level-3 node when the table tracks it and the guard finds nothing. */
  function AddTag(node: Object, xmlName: string, base: string, tag: Tag): (r: Object)
    requires HasChildArray(node)
    ensures HasChildArray(r)
  {
    if FindByTag(tag.name).None? || GuardFinds(node, tag.name) then node
    else Put(node, "children", Arr(Member(node, "children").elems + [TagNodeFor(xmlName, base, tag)]))
  }

  /** `_.forOwn(xmlObject[xmlName], ...)`: the tags in document order. */
  function AddTags(node: Object, xmlName: string, base: string, tags: seq<Tag>): (r: Object)
    requires HasChildArray(node)
    ensures HasChildArray(r)
  {
    if tags == [] then node
    else
      var n := |tags| - 1;
      AddTag(AddTags(node, xmlName, base, tags[..n]), xmlName, base, tags[n])
  }

  /** The level-3 nodes of the tracked tags, in document order. */
  function TrackedNodes(xmlName: string, base: string, tags: seq<Tag>): seq<Json>
  {
    if tags == [] then []
    else
      var n := |tags| - 1;
      TrackedNodes(xmlName, base, tags[..n]) +
        (if FindByTag(tags[n].name).Some? then [TagNodeFor(xmlName, base, tags[n])] else [])
  }

  /** A node without object values never satisfies the guard. */
  lemma GuardNeverFires(node: Object, tag: string)
    requires NoObjectValues(node)
    ensures !GuardFinds(node, tag)
  {
  }

  /** Replacing `children` with an array keeps a node free of object values. */
  lemma PutChildrenKeepsNoObjectValues(node: Object, children: seq<Json>)
    requires NoObjectValues(node)
    ensures NoObjectValues(Put(node, "children", Arr(children)))
  {
    PutFrame(node, "children", Arr(children));
  }

  /** One tag on a node without object values: a tracked tag appends its node, and nothing else changes. */
  lemma AddTagStep(node: Object, xmlName: string, base: string, tag: Tag)
    requires HasChildArray(node) && NoObjectValues(node)
    ensures NoObjectValues(AddTag(node, xmlName, base, tag))
    ensures Member(AddTag(node, xmlName, base, tag), "children") ==
      Arr(Member(node, "children").elems + if FindByTag(tag.name).Some? then [TagNodeFor(xmlName, base, tag)] else [])
    ensures forall k :: k != "children" ==> Member(AddTag(node, xmlName, base, tag), k) == Member(node, k)
  {
    GuardNeverFires(node, tag.name);
    if FindByTag(tag.name).Some? {
      var c := Member(node, "children").elems + [TagNodeFor(xmlName, base, tag)];
      PutChildrenKeepsNoObjectValues(node, c);
      forall k | k != "children" ensures Member(Put(node, "children", Arr(c)), k) == Member(node, k) {
        MemberPutOther(node, "children", Arr(c), k);
      }
    } else {
      assert Member(node, "children").elems + [] == Member(node, "children").elems;
    }
  }

  /**
   * On a node without object values the guard never fires, so every tracked tag
   * appends exactly one level-3 node, in document order, whether or not it has
   * leaves; untracked tags append nothing; every other field of the node is kept.
   */
  lemma {:induction false} AddTagsAppendsTracked(node: Object, xmlName: string, base: string, tags: seq<Tag>)
    requires HasChildArray(node) && NoObjectValues(node)
    ensures NoObjectValues(AddTags(node, xmlName, base, tags))
    ensures Member(AddTags(node, xmlName, base, tags), "children") ==
      Arr(Member(node, "children").elems + TrackedNodes(xmlName, base, tags))
    ensures forall k :: k != "children" ==> Member(AddTags(node, xmlName, base, tags), k) == Member(node, k)
  {
    if tags != [] {
      var n := |tags| - 1;
      AddTagsAppendsTracked(node, xmlName, base, tags[..n]);
      var prev := AddTags(node, xmlName, base, tags[..n]);
      AddTagStep(prev, xmlName, base, tags[n]);
      var added := if FindByTag(tags[n].name).Some? then [TagNodeFor(xmlName, base, tags[n])] else [];
      assert TrackedNodes(xmlName, base, tags) == TrackedNodes(xmlName, base, tags[..n]) + added;
      assert Member(node, "children").elems + TrackedNodes(xmlName, base, tags) ==
        Member(node, "children").elems + TrackedNodes(xmlName, base, tags[..n]) + added;
    }
  }

  /** A tracked tag gets one node with its id, text, title and leaves, a folder at level 3. */
  lemma TagNodeShape(xmlName: string, base: string, tag: Tag)
    ensures var t := TagNodeFor(xmlName, base, tag);
      var prefix := xmlName + "." + base + "." + tag.name;
      && t.Obj?
      && Member(t.fields, "id") == Str(prefix)
      && Member(t.fields, "text") == Str(tag.name)
      && Member(t.fields, "title") == Str(tag.name)
      && Member(t.fields, "level") == Num(3)
      && Member(t.fields, "isFolder") == Bool(true)
      && Member(t.fields, "cls") == Str("folder")
      && Member(t.fields, "checked") == Bool(false)
      && Member(t.fields, "select") == Bool(false)
      && Member(t.fields, "children") == Arr(Leaves(Entries(tag.value), prefix))
  {
    var fs := TagNodeFor(xmlName, base, tag).fields;
    assert DistinctKeys(fs);
    MemberOfLiteral(fs, 0);
    MemberOfLiteral(fs, 1);
    MemberOfLiteral(fs, 2);
    MemberOfLiteral(fs, 3);
    MemberOfLiteral(fs, 4);
    MemberOfLiteral(fs, 5);
    MemberOfLiteral(fs, 6);
    MemberOfLiteral(fs, 7);
    MemberOfLiteral(fs, 8);
  }

  /** A leaf's id is the tag node's id and the key joined by '.', and it is an unchecked non-folder at level 4. */
  lemma LeafShape(prefix: string, key: string)
    ensures var l := Leaf(prefix, key);
      && l.Obj?
      && Member(l.fields, "id") == Str(prefix + "." + key)
      && Member(l.fields, "text") == Str(key)
      && Member(l.fields, "title") == Str(key)
      && Member(l.fields, "level") == Num(4)
      && Member(l.fields, "leaf") == Bool(true)
      && Member(l.fields, "isFolder") == Bool(false)
      && Member(l.fields, "checked") == Bool(false)
      && Member(l.fields, "select") == Bool(false)
  {
    var fs := Leaf(prefix, key).fields;
    assert DistinctKeys(fs);
    MemberOfLiteral(fs, 0);
    MemberOfLiteral(fs, 1);
    MemberOfLiteral(fs, 2);
    MemberOfLiteral(fs, 3);
    MemberOfLiteral(fs, 4);
    MemberOfLiteral(fs, 5);
    MemberOfLiteral(fs, 6);
    MemberOfLiteral(fs, 7);
  }

  /** A tag absent from the table, whatever the file, adds nothing. */
  lemma UntrackedTagAddsNothing(node: Object, xmlName: string, base: string, tag: Tag)
    requires HasChildArray(node) && FindByTag(tag.name).None?
    ensures AddTag(node, xmlName, base, tag) == node
  {
  }

  /** Some tag of the file is tracked. */
  predicate HasTrackedTag(tags: seq<Tag>)
  {
    exists i :: 0 <= i < |tags| && FindByTag(tags[i].name).Some?
  }

  /**
   * What the file needs for the insertion not to throw: the level-1 node has a
   * children array, and a file with tracked tags has a level-2 node whose own
   * `children` is an array.
   */
  predicate FileOk(level1: Object, xmlName: string, file: RetrievedFile)
  {
    Member(level1, "children").Arr? &&
    var children := Member(level1, "children").elems;
    var i := FindWhere(children, "id", NodeId(xmlName, FileBase(file.path)));
    HasTrackedTag(RootTags(file.doc, xmlName)) ==> i < |children| && HasChildArray(children[i].fields)
  }

  /** The level-1 node after one file. */
  function IndexFile(level1: Object, xmlName: string, file: RetrievedFile): (r: Object)
    requires FileOk(level1, xmlName, file)
    ensures Member(r, "children").Arr?
  {
    var base := FileBase(file.path);
    var tags := RootTags(file.doc, xmlName);
    var children := Member(level1, "children").elems;
    var i := FindWhere(children, "id", NodeId(xmlName, base));
    if i < |children| && HasChildArray(children[i].fields) then
      Put(level1, "children", Arr(children[i := Obj(AddTags(children[i].fields, xmlName, base, tags))]))
    else level1
  }

  /** Tags none of which is tracked add nothing. */
  lemma {:induction false} UntrackedTagsAddNothing(node: Object, xmlName: string, base: string, tags: seq<Tag>)
    requires HasChildArray(node) && !HasTrackedTag(tags)
    ensures AddTags(node, xmlName, base, tags) == node
  {
    if tags != [] {
      var n := |tags| - 1;
      assert !HasTrackedTag(tags[..n]) by {
        forall i | 0 <= i < n ensures FindByTag(tags[..n][i].name).None? {
          assert tags[..n][i] == tags[i];
        }
      }
      UntrackedTagsAddNothing(node, xmlName, base, tags[..n]);
    }
  }

  /**
   * One file: the level-2 node with id `xmlName.base` receives the level-3 nodes
   * of the tracked tags after its existing children; the other level-2 nodes and
   * every other field of the level-1 node are kept. A file whose root is not the
   * type, or without tracked tags, changes nothing.
   */
  lemma IndexFileEffect(level1: Object, xmlName: string, file: RetrievedFile)
    requires FileOk(level1, xmlName, file)
    ensures var base := FileBase(file.path);
      var tags := RootTags(file.doc, xmlName);
      var children := Member(level1, "children").elems;
      var i := FindWhere(children, "id", NodeId(xmlName, base));
      var r := IndexFile(level1, xmlName, file);
      && (forall k :: k != "children" ==> Member(r, k) == Member(level1, k))
      && (!HasTrackedTag(tags) ==> Member(r, "children") == Member(level1, "children"))
      && (HasTrackedTag(tags) && NoObjectValues(children[i].fields) ==>
            var node := children[i].fields;
            var node' := AddTags(node, xmlName, base, tags);
            && Member(r, "children") == Arr(children[i := Obj(node')])
            && Member(node', "children") == Arr(Member(node, "children").elems + TrackedNodes(xmlName, base, tags))
            && forall k :: k != "children" ==> Member(node', k) == Member(node, k))
  {
    var base := FileBase(file.path);
    var tags := RootTags(file.doc, xmlName);
    var children := Member(level1, "children").elems;
    var i := FindWhere(children, "id", NodeId(xmlName, base));
    if i < |children| && HasChildArray(children[i].fields) {
      var v := Arr(children[i := Obj(AddTags(children[i].fields, xmlName, base, tags))]);
      forall k | k != "children" ensures Member(Put(level1, "children", v), k) == Member(level1, k) {
        MemberPutOther(level1, "children", v, k);
      }
      if !HasTrackedTag(tags) {
        UntrackedTagsAddNothing(children[i].fields, xmlName, base, tags);
        assert children[i := Obj(children[i].fields)] == children;
      }
      if HasTrackedTag(tags) && NoObjectValues(children[i].fields) {
        AddTagsAppendsTracked(children[i].fields, xmlName, base, tags);
      }
    }
  }

  /** The files of the retrieve result, in crawl order. */
  predicate FilesOk(level1: Object, xmlName: string, files: seq<RetrievedFile>)
    decreases |files|, 0
  {
    files == [] ||
    var n := |files| - 1;
    FilesOk(level1, xmlName, files[..n]) && FileOk(IndexFiles(level1, xmlName, files[..n]), xmlName, files[n])
  }

  /** The level-1 node after the files, one after another. */
  function IndexFiles(level1: Object, xmlName: string, files: seq<RetrievedFile>): Object
    requires FilesOk(level1, xmlName, files)
    decreases |files|, 1
  {
    if files == [] then level1
    else
      var n := |files| - 1;
      IndexFile(IndexFiles(level1, xmlName, files[..n]), xmlName, files[n])
  }

  // ---------------------------------------------------------------------------
  // The loops
  // ---------------------------------------------------------------------------

  /** `_.each(value, ...)`: the leaves of one tag. */
  method CollectLeaves(entries: seq<Entry>, prefix: string) returns (leaves: seq<Json>)
    ensures leaves == Leaves(entries, prefix)
  {
    leaves := [];
    var j := 0;
    while j < |entries|
      invariant 0 <= j <= |entries| && leaves == Leaves(entries[..j], prefix)
    {
      assert entries[..j + 1][..j] == entries[..j];
      var key := LeafKey(entries[j]);
      if key.Some? {
        leaves := leaves + [Leaf(prefix, key.value)];
      }
      j := j + 1;
    }
    assert entries[..j] == entries;
  }

  /** `_.forOwn(xmlObject[xmlName], ...)` on the file's level-2 node. */
  method InsertTags(node: Object, xmlName: string, base: string, tags: seq<Tag>) returns (r: Object)
    requires HasChildArray(node)
    ensures r == AddTags(node, xmlName, base, tags)
  {
    r := node;
    var j := 0;
    while j < |tags|
      invariant 0 <= j <= |tags| && r == AddTags(node, xmlName, base, tags[..j])
    {
      TagsPrefix(node, xmlName, base, tags, j);
      var tag := tags[j];
      if FindByTag(tag.name).Some? {
        var prefix := TagId(xmlName, base, tag.name);
        var leaves := CollectLeaves(Entries(tag.value), prefix);
        if !GuardFinds(r, tag.name) {
          r := Put(r, "children", Arr(Member(r, "children").elems + [TagNode(prefix, tag.name, leaves)]));
        }
      }
      j := j + 1;
    }
    assert tags[..j] == tags;
  }

  lemma TagsPrefix(node: Object, xmlName: string, base: string, tags: seq<Tag>, j: nat)
    requires HasChildArray(node) && j < |tags|
    ensures AddTags(node, xmlName, base, tags[..j + 1]) == AddTag(AddTags(node, xmlName, base, tags[..j]), xmlName, base, tags[j])
  {
    assert tags[..j + 1][..j] == tags[..j];
  }

  /** The `file` handler of the crawl, run for each file in turn. */
  method IndexChildren(level1: Object, xmlName: string, files: seq<RetrievedFile>) returns (r: Object)
    requires FilesOk(level1, xmlName, files)
    ensures r == IndexFiles(level1, xmlName, files)
  {
    r := level1;
    var j := 0;
    while j < |files|
      invariant 0 <= j <= |files| && FilesOk(level1, xmlName, files[..j])
      invariant r == IndexFiles(level1, xmlName, files[..j])
    {
      FilesPrefix(level1, xmlName, files, j);
      var file := files[j];
      var base := FileBase(file.path);
      var children := Member(r, "children").elems;
      var i := FindWhere(children, "id", NodeId(xmlName, base));
      if i < |children| && HasChildArray(children[i].fields) {
        var node := InsertTags(children[i].fields, xmlName, base, RootTags(file.doc, xmlName));
        r := Put(r, "children", Arr(children[i := Obj(node)]));
      }
      j := j + 1;
    }
    assert files[..j] == files;
  }

  lemma FilesPrefix(level1: Object, xmlName: string, files: seq<RetrievedFile>, j: nat)
    requires FilesOk(level1, xmlName, files) && j < |files|
    ensures FilesOk(level1, xmlName, files[..j + 1])
    ensures FilesOk(level1, xmlName, files[..j]) && FileOk(IndexFiles(level1, xmlName, files[..j]), xmlName, files[j])
    ensures IndexFiles(level1, xmlName, files[..j + 1]) == IndexFile(IndexFiles(level1, xmlName, files[..j]), xmlName, files[j])
  {
    assert files[..j + 1][..j] == files[..j];
    FilesOkPrefix(level1, xmlName, files, j + 1);
  }

  lemma {:induction false} FilesOkPrefix(level1: Object, xmlName: string, files: seq<RetrievedFile>, j: nat)
    requires FilesOk(level1, xmlName, files) && j <= |files|
    ensures FilesOk(level1, xmlName, files[..j])
    decreases |files|
  {
    if j < |files| {
      var n := |files| - 1;
      assert files[..n][..j] == files[..j];
      FilesOkPrefix(level1, xmlName, files[..n], j);
    } else {
      assert files[..j] == files;
    }
  }
}
