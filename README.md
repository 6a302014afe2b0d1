# MavensMate metadata index, modelled in Dafny

MavensMate's `Indexer` (`app/lib/org/index.js`) builds the tree a Salesforce
org's metadata is browsed in: one level-1 node per metadata type (Apex
classes, custom objects, documents, ...), the type's members as level-2
nodes, and for some types two more levels. A custom object's file is
retrieved and parsed, and its fields, record types and so on become level-3
tag nodes with level-4 leaves. A folder-scoped type's listing is merged in
folder by folder. The same module holds the walks a client runs over the
finished tree: checking the nodes whose ids are selected, the two
parent-state rules, and the search that hides every node whose title, and
every title below it, misses the query. The constant table
`app/lib/org/helpers/child-types.js` says which tags of a retrieved file are
child metadata.

The project models that engine on values. A JavaScript value is the `Json`
datatype, and an object is an ordered sequence of fields. Ordering matters
because every walk visits own fields in enumeration order. The assignment
`o.k = v` is `Json.Put`: an existing key keeps its place, a new key is
appended at the end.

Each walk is a recursive function. A method with the source's loops is proved
equal to that function, and lemmas state what the function does.

The modules, in dependency order:

- `Json`: field lookup (`Member`, `Has`), assignment (`Put`, `Assign`), JavaScript truthiness, and paths into a tree.
- `Strings`: `indexOf`, `replace` of the first occurrence, `endsWith`, ASCII lower-casing, `split`, `basename`, and JavaScript's string order.
- `FolderNames`: the two folder-name transforms.
- `ChildTypes`: the 25-entry child-tag table and its lookup by tag.
- `Resolution`: the subscription loop of `index()`.
- `SortByTitle`: `_.sortBy(items, 'title')`.
- `Hierarchy`: `_indexType`, from one list result to the two-level node and the dispatch that follows.
- `ChildMaterializer`: the per-file body of `_indexChildren`.
- `FolderMaterializer`: the request loop and the result merge of `_indexFolders`.
- `Selection`: `setChecked`.
- `ParentSelection`: `ensureParentsAreCheckedIfNecessary` as written, and the rule it was meant to apply.
- `ThirdState`: `_setThirdStateChecked`.
- `Visibility`: `setVisibility`, `_crawl`, `_crawlDict` and `_crawlArray`.

Four places where the code does less, or other, than its shape suggests. The model follows the code:

- The guard at `index.js:309` looks like a dedup of level-3 nodes by `text`. `_.find` over the level-2 node itself searches that node's own field values, not its `children` array. On a stub whose fields hold no object it never fires (`ChildMaterializer.GuardNeverFires`).
- `_setThirdStateChecked` returns at the first object element of any array, so it never visits an element of a `children` array. Only the root object and objects reached through object-valued fields are updated (`ThirdState.ThirdStateChecked`).
- The comparison `children > 0` in `ensureParentsAreCheckedIfNecessary` is false for every children array. JavaScript converts the array to a string first. For an array of objects that string is `"[object Object]..."`, which reads as `NaN`, and an empty array gives `0`. The function never changes anything (see Findings).
- Every object whose crawl finds no match is hidden by `_crawlDict` (`cls` "hidden", `addClass` "dynatree-hidden", `index.js:565-570`), whatever its parent's visibility; `_crawlArray` repeats that write at 592-595. The visibility handed to the array decides only whether such an element, when it is a folder, also gets `expanded = true` (596-599).

## Model

| member | source | states |
|---|---|---|
| `FolderNames.RequestNameEndsInFolder` | app/lib/org/index.js:510-516 | every list-request name of a folder-scoped type ends in "Folder" |
| `FolderNames.BaseNameInvertsRequestName` | app/lib/org/index.js:510-524 | mapping a request name back gives the type name, for every name without "Folder" other than "Email" |
| `FolderNames.EmailIsNotRecovered` | app/lib/org/index.js:510-524 | "Email" and "EmailTemplate" share the request name "EmailFolder", which maps back to "EmailTemplate" |
| `FolderNames.FolderInNameIsNotRecovered` | app/lib/org/index.js:518-524 | `replace` removes only the first "Folder", so "FolderX" comes back as "XFolder" |
| `FolderNames.ForListRequest` | app/lib/org/index.js:510-516 | `X` becomes `XFolder`, and `EmailTemplate` becomes `EmailFolder`; its properties are the lemmas above |
| `FolderNames.ToBaseName` | app/lib/org/index.js:518-524 | `EmailFolder` becomes `EmailTemplate`, any other name loses its first "Folder"; its properties are the lemmas above |
| `Resolution.FindType` | app/lib/org/index.js:49-51 | a descriptor found is one of the descriptors and carries the subscribed name as `xmlName` |
| `Resolution.FindTypeNone` | app/lib/org/index.js:49-58 | the lookup fails exactly when no descriptor carries the name |
| `Resolution.FindTypeIsFirst` | app/lib/org/index.js:49-51 | the descriptor found is the first one with that name |
| `Resolution.RequestName` | app/lib/org/index.js:61-68 | the list-request name: `FolderNames.ForListRequest` of the name when the descriptor's `inFolder` is truthy, the name itself otherwise |
| `Resolution.Resolve` | app/lib/org/index.js:45-80 | one request per subscribed name, in order, under the folder request name when the descriptor has `inFolder`; the first unknown name fails with `Unknown metadata type: <name>`, no request is made for it or for later names, and the earlier names' requests were already made; the type map holds exactly the resolved names and their descriptors |
| `Resolution.ListKeyMapsBack` | app/lib/org/index.js:425-428 | the list key of a folder-scoped type ends in "Folder" and the hierarchy builder maps it back to the subscribed name |
| `ChildTypes.FindIn` | app/lib/org/index.js:277 | the entry found has the tag and is in the table; nothing is found exactly when no entry has the tag |
| `ChildTypes.TableIsInjective` | app/lib/org/helpers/child-types.js:1-127 | the table has 25 entries with pairwise distinct tag names and pairwise distinct type names |
| `ChildTypes.TagNamesDistinct` | app/lib/org/helpers/child-types.js:4-124 | no two entries share a `tagName` |
| `ChildTypes.XmlNamesDistinct` | app/lib/org/helpers/child-types.js:3-123 | no two entries share an `xmlName` |
| `ChildTypes.FindByTagIff` | app/lib/org/helpers/child-types.js:1-127 | the lookup returns an entry exactly when that entry is in the table with that tag, so table order does not matter |
| `ChildTypes.FieldsLookup` | app/lib/org/helpers/child-types.js:7-11 | `fields` is `CustomField` under `CustomObject` |
| `ChildTypes.LabelIsNotTracked` | app/lib/org/helpers/child-types.js:1-127 | `label` is not in the table |
| `ChildTypes.ParentTypes` | app/lib/org/helpers/child-types.js:1-127 | entries 0-12 belong to `CustomObject`, entry 13 to `CustomLabels`, 14-16 to `SharingRules`, 17-24 to `Workflow` |
| `SortByTitle.SortBySorted` | app/lib/org/index.js:475 | the sorted stubs are in ascending title order, by JavaScript string comparison |
| `SortByTitle.SortByPermutes` | app/lib/org/index.js:475 | the sorted stubs are a permutation of the input |
| `SortByTitle.SortByStable` | app/lib/org/index.js:475 | stubs with equal titles keep their input order |
| `Hierarchy.FullNames` | app/lib/org/index.js:458 | one full name per stub, in order |
| `Hierarchy.Stub` | app/lib/org/index.js:455-468 | one listed item rewritten in place as a level-2 node; `Hierarchy.StubShape` and `Hierarchy.StubKeepsOtherFields` state its fields |
| `Hierarchy.Level1Node` | app/lib/org/index.js:439-476 | the level-1 node after the assignments for one key, `children` last; `Hierarchy.Level1Shape` states its fields |
| `Hierarchy.Step` | app/lib/org/index.js:425-476 | one key of the list result: its normalized name, the level-1 node, the child names it adds and the next step |
| `Hierarchy.Indexed` | app/lib/org/index.js:425-487 | `_indexType` over the list result's keys in order; `Hierarchy.IndexType` computes it and the lemmas below state what it holds |
| `Hierarchy.Stubs` | app/lib/org/index.js:455-473 | one rewritten stub per listed item, in order |
| `Hierarchy.RewriteStubs` | app/lib/org/index.js:455-473 | the loop rewrites every stub, and collects the full names in listing order exactly when the type has child types |
| `Hierarchy.IndexType` | app/lib/org/index.js:425-487 | the loop over the list result's keys builds the node, the child names and the dispatch of `Hierarchy.Indexed` |
| `Hierarchy.StubShape` | app/lib/org/index.js:455-468 | a level-2 node: `id` is key.fullName; `title` and `text` are the full name; `leaf` is the negation of `hasChildTypes \|\| inFolder` and `isFolder` is that disjunction; `cls` is "folder" or ""; level 2; `children` empty; unchecked and unselected |
| `Hierarchy.StubKeepsOtherFields` | app/lib/org/index.js:455-468 | every other field of the listed item is kept, with its key order |
| `Hierarchy.Level1Shape` | app/lib/org/index.js:434-476 | the level-1 node's `id`, `title`, `text`, `key` and `xmlName` are the normalized key; `type` is the descriptor; `hasChildTypes` is whether it has `childXmlNames`; `inFolder` is copied; level 1, a folder, `cls` "folder", not selected, not expanded; `children` are the sorted stubs |
| `Hierarchy.ChildrenAreSortedStubs` | app/lib/org/index.js:475-476 | the level-2 children are the rewritten stubs, sorted by title, a permutation, stable |
| `Hierarchy.ChildNamesOfOneKey` | app/lib/org/index.js:470-472 | the child names are the stubs' titles in listing order when the type has child types, and none otherwise |
| `Hierarchy.Dispatch` | app/lib/org/index.js:483-487 | the child materializer runs exactly when the type has child types; the folder materializer runs exactly when it has none and is folder-scoped |
| `ChildMaterializer.RetrievePackage` | app/lib/org/index.js:244-248 | the package names the type exactly when there are child names, lists each child name under it in order, and names no other type |
| `ChildMaterializer.FileBase` | app/lib/org/index.js:259-260 | `path.basename(file).split('.')[0]`; `ChildMaterializer.FileBaseIsPrefix` states what it is |
| `ChildMaterializer.FileBaseIsPrefix` | app/lib/org/index.js:259-260 | the base holds no '.' and is the file name up to its first '.' |
| `ChildMaterializer.LeafKey` | app/lib/org/index.js:286-295 | the key is the first `fullName`, else the first `actionName`, and is never empty |
| `ChildMaterializer.Leaves` | app/lib/org/index.js:280-307 | one leaf per entry with a key, in entry order |
| `ChildMaterializer.LeafKeysOfKeyedEntries` | app/lib/org/index.js:286-306 | when every entry has a key, the leaf keys are the entries' keys one for one |
| `ChildMaterializer.LeafKeysOfUnkeyedEntries` | app/lib/org/index.js:286-306 | entries without keys give no leaves |
| `ChildMaterializer.Leaf` | app/lib/org/index.js:296-305 | the level-4 leaf for one key; `ChildMaterializer.LeafShape` states its fields |
| `ChildMaterializer.TagNode` | app/lib/org/index.js:310-320 | the level-3 node for one tag; `ChildMaterializer.TagNodeShape` states its fields |
| `ChildMaterializer.AddTag` | app/lib/org/index.js:277-321 | one tag of the file applied to its level-2 node; `ChildMaterializer.AddTagStep` states the effect |
| `ChildMaterializer.AddTags` | app/lib/org/index.js:273-323 | the file's tags in document order; `ChildMaterializer.AddTagsAppendsTracked` states the effect |
| `ChildMaterializer.LeafShape` | app/lib/org/index.js:296-305 | a leaf: `id` xmlName.base.tag.key; `text` and `title` are the key; level 4; a leaf, not a folder; unchecked and unselected |
| `ChildMaterializer.TagNodeShape` | app/lib/org/index.js:310-320 | a level-3 node: `id` xmlName.base.tag; `text` and `title` are the tag; level 3; a folder with `cls` "folder"; unchecked and unselected; its children are the tag's leaves |
| `ChildMaterializer.GuardNeverFires` | app/lib/org/index.js:309 | on a level-2 node with no object-valued field the dedup guard finds nothing |
| `ChildMaterializer.AddTagStep` | app/lib/org/index.js:277-321 | one tag: a tracked tag's node is appended to `children`, an untracked tag adds nothing, and every other field is kept |
| `ChildMaterializer.AddTagsAppendsTracked` | app/lib/org/index.js:273-323 | the file's tags append exactly the level-3 nodes of the tracked tags, in document order, leaves or not; every other field is kept |
| `ChildMaterializer.UntrackedTagAddsNothing` | app/lib/org/index.js:277-278 | a tag not in the table changes nothing |
| `ChildMaterializer.UntrackedTagsAddNothing` | app/lib/org/index.js:273-323 | a file without tracked tags changes nothing |
| `Json.FindWhere` | app/lib/org/index.js:267 | `_.find(nodes, { k: v })`: the position of the first object whose `k` is `v`, or none; used for the level-2 node with `id` xmlName.base here and for the folder node with `text` the result's first key at line 374 |
| `ChildMaterializer.IndexFileEffect` | app/lib/org/index.js:259-324 | one file: the level-2 node with `id` xmlName.base gets the tracked tags' nodes after its children; the other level-2 nodes and the level-1 node's other fields are kept |
| `ChildMaterializer.IndexFile` | app/lib/org/index.js:259-324 | the level-1 node after one retrieved file; `ChildMaterializer.IndexFileEffect` states the effect |
| `ChildMaterializer.IndexFiles` | app/lib/org/index.js:257-325 | the level-1 node after the files in crawl order; `ChildMaterializer.IndexChildren` computes it |
| `ChildMaterializer.CollectLeaves` | app/lib/org/index.js:286-307 | the loop builds the tag's leaves |
| `ChildMaterializer.InsertTags` | app/lib/org/index.js:273-323 | the loop over a file's tags builds `ChildMaterializer.AddTags` |
| `ChildMaterializer.IndexChildren` | app/lib/org/index.js:257-325 | the files, in crawl order, build `ChildMaterializer.IndexFiles` |
| `FolderMaterializer.ListFolderRequests` | app/lib/org/index.js:358-361 | one folder listing per level-2 node, in order, with the type and the node's `fullName` |
| `FolderMaterializer.FolderLeaf` | app/lib/org/index.js:377-386 | the level-3 leaf built from `item.fullName.split('/')`; `FolderMaterializer.FolderLeafShape` and `FolderMaterializer.FolderLeafWithoutSlash` state its fields |
| `FolderMaterializer.FolderLeavesOfNames` | app/lib/org/index.js:376-387 | for items named folder/name, the i-th leaf has `id` xmlName.folder.name, the name as `text` and `title`, and level 3 |
| `FolderMaterializer.FolderLeafShape` | app/lib/org/index.js:377-386 | the leaf of folder/name: `id` xmlName.folder.name; `text` and `title` are the name; level 3; a leaf, not a folder; unchecked and unselected |
| `FolderMaterializer.FolderLeafWithoutSlash` | app/lib/org/index.js:377-386 | a full name without '/' gives `text` undefined and an `id` ending in '.' |
| `FolderMaterializer.MergeResultEffect` | app/lib/org/index.js:369-387 | a result with items appends their leaves, in order, to the folder node it names; that node's other fields and all other level-2 nodes are unchanged |
| `FolderMaterializer.MergeResult` | app/lib/org/index.js:369-387 | one listing result merged into the level-2 nodes; `FolderMaterializer.MergeResultEffect` states the effect |
| `FolderMaterializer.Merge` | app/lib/org/index.js:369-389 | the results merged in request order; `FolderMaterializer.UnnamedFolderUnchanged` and `FolderMaterializer.IndexFolders` state what it does |
| `FolderMaterializer.UnnamedFolderUnchanged` | app/lib/org/index.js:369-389 | a folder node that no result with items names is left as it was |
| `FolderMaterializer.AppendLeaves` | app/lib/org/index.js:376-387 | the loop appends the items' leaves after the existing children |
| `FolderMaterializer.IndexFolders` | app/lib/org/index.js:369-389 | the results, in request order, are merged into the level-1 node's children |
| `Selection.SetChecked` | app/lib/org/index.js:107-130 | the walk keeps every value's kind and every object's and array's size; primitives are unchanged |
| `Selection.SetCheckedElement` | app/lib/org/index.js:116-124 | one array element walked and, when its `id` is listed, flagged; `Selection.TargetFlagged` and `Selection.ElementInSourceOrder` state it |
| `Selection.ElementInSourceOrder` | app/lib/org/index.js:116-124 | flagging an element before walking it, as the source does, gives the same tree as flagging after |
| `Selection.TargetFlagged` | app/lib/org/index.js:117-121 | an array element whose `id` is listed gets `checked` and `select` true; every other field is the walked one |
| `Selection.RootNotFlagged` | app/lib/org/index.js:125-129 | a root object keeps its keys and is not flagged, only walked |
| `Selection.SetCheckedAt` | app/lib/org/index.js:107-130 | every position of the tree survives; it holds the walked value, flagged when it is a listed array element |
| `Selection.TargetsAreFlagged` | app/lib/org/index.js:115-124 | each listed object at any depth inside an array ends up checked and selected |
| `Selection.PrimitivesKept` | app/lib/org/index.js:107-130 | no primitive anywhere changes, so nothing is set to false |
| `Selection.FlagTwice` | app/lib/org/index.js:119-120 | flagging twice is flagging once |
| `Selection.TargetKept` | app/lib/org/index.js:118 | the walk keeps whether an element is listed |
| `Selection.SetCheckedIdempotent` | app/lib/org/index.js:107-130 | the walk applied twice equals the walk applied once |
| `Selection.ElementIdempotent` | app/lib/org/index.js:116-124 | the element step applied twice equals it applied once |
| `ParentSelection.NotNumeral` | app/lib/org/index.js:145 | a string whose first character is neither white space nor one a numeric literal can start with (a digit, `+`, `-`, `.`, the `I` of `Infinity`) is no numeric literal, so it reads as `NaN` and is not above zero |
| `ParentSelection.AboveZeroReadsAsNumber` | app/lib/org/index.js:145 | a string above zero is a numeric literal of the string grammar |
| `ParentSelection.NumeralExamples` | app/lib/org/index.js:145 | `"+1"`, `".5"`, `"Infinity"`, `"1e3"` and `"0x1F"` are above zero |
| `ParentSelection.NonPositiveExamples` | app/lib/org/index.js:145 | `"-1"` and `"0.0"` read as numbers and are not above zero |
| `ParentSelection.ObjectArrayNotAboveZero` | app/lib/org/index.js:145 | an array whose first element is an object is not `> 0` |
| `ParentSelection.CountSelectedAll` | app/lib/org/index.js:139-145 | the count equals the length exactly when every child is selected |
| `ParentSelection.GuardAsWrittenNeverHolds` | app/lib/org/index.js:145 | the guard as written holds for no node |
| `ParentSelection.GuardAsWritten` | app/lib/org/index.js:145 | the guard as written: all children selected and `children > 0` of `ParentSelection.ArrayAboveZero` |
| `ParentSelection.ParentCheckedAsWritten` | app/lib/org/index.js:145-148 | a type node after the written guard: flagged checked and selected when it holds |
| `ParentSelection.CountSelectedLoop` | app/lib/org/index.js:139-144 | the loop counts the selected children |
| `ParentSelection.EnsureParentsAreCheckedIfNecessary` | app/lib/org/index.js:136-151 | the loop as written makes each node `ParentSelection.ParentCheckedAsWritten` of itself, and so returns the forest unchanged |
| `ParentSelection.EnsureParentsChecked` | app/lib/org/index.js:136-151 | with the intended guard, each top-level node becomes `ParentSelection.ParentChecked` of itself |
| `ParentSelection.ParentChecked` | app/lib/org/index.js:145-148 | a type node after the intended guard `children.length > 0`; `ParentSelection.ParentCheckedIff` states it |
| `ParentSelection.ParentCheckedIff` | app/lib/org/index.js:145-148 | under the intended guard, a node is flagged checked and selected exactly when its children array is non-empty and fully selected; other nodes are kept |
| `ParentSelection.FullySelectedParentIsMissed` | app/lib/org/index.js:145 | a node with one selected child: the guard as written rejects it, the intended one flags it |
| `ThirdState.CountCheckedBounds` | app/lib/org/index.js:644-654 | the count equals the length exactly when all children are checked, and is positive exactly when one is |
| `ThirdState.ThirdStateChecked` | app/lib/org/index.js:625-661 | an array, or any other non-object, is returned unchanged; an object stays an object |
| `ThirdState.MarkNode` | app/lib/org/index.js:641-655 | the node's own update from its children's `checked` flags; `ThirdState.CheckedWhenAllChildrenChecked` and `ThirdState.MarkNodeKeeps` state it |
| `ThirdState.WalkKeepsChildren` | app/lib/org/index.js:657-659 | walking the fields leaves the `children` array as it was |
| `ThirdState.MarkInSourceOrder` | app/lib/org/index.js:640-660 | updating the node before walking its fields, as the source does, gives the same tree as updating it after |
| `ThirdState.CheckedWhenAllChildrenChecked` | app/lib/org/index.js:641-655 | with non-empty children: `checked` becomes true when all are checked; when some but not all are, the node gets the partly-checked class; with none checked, only the fields are walked |
| `ThirdState.MarkNodeKeeps` | app/lib/org/index.js:650-654 | the update writes only `checked` and `cls` |
| `ThirdState.SelectAndChildrenKept` | app/lib/org/index.js:640-660 | `select` is never written and the `children` array is never changed |
| `ThirdState.MarkNodeTwice` | app/lib/org/index.js:641-655 | updating a node twice is updating it once |
| `ThirdState.ThirdStateIdempotent` | app/lib/org/index.js:625-661 | the walk applied twice equals the walk applied once |
| `ThirdState.CountCheckedLoop` | app/lib/org/index.js:645-649 | the loop counts the checked children |
| `ThirdState.MarkNodeInPlace` | app/lib/org/index.js:641-655 | the node's update with its counter loop |
| `ThirdState.SetThirdStateChecked` | app/lib/org/index.js:625-661 | the loops compute `ThirdState.ThirdStateChecked` |
| `Visibility.Crawled` | app/lib/org/index.js:606-623 | the crawl keeps every value's kind and every array's length; primitives are unchanged |
| `Visibility.Matches` | app/lib/org/index.js:541-563 | the visibility a value is crawled to: its own title hit or a visible field, and for an array a visible object element; `Visibility.MatchesIffPath` states it |
| `Visibility.Mark` | app/lib/org/index.js:565-570 | `visibility` recorded and the hidden classes when it is 0; `Visibility.MarkFacts` states it |
| `Visibility.Finish` | app/lib/org/index.js:587-600 | the array's writes on a crawled object element; `Visibility.FinishFacts` states them |
| `Visibility.CrawledElement` | app/lib/org/index.js:582-603 | one array element crawled and finished; `Visibility.ElementMarks` states it |
| `Visibility.SetVisibilityOf` | app/lib/org/index.js:132-134 | the crawl from the root with the query lower-cased; `Visibility.EveryObjectRecordsVisibility` states it |
| `Visibility.MarkFacts` | app/lib/org/index.js:565-570 | the object records its visibility; an invisible one gets `cls` "hidden" and `addClass` "dynatree-hidden"; a visible one keeps its `cls` |
| `Visibility.MarkKeeps` | app/lib/org/index.js:565-570 | marking writes nothing but `visibility`, `cls` and `addClass` |
| `Visibility.ObjectVisibility` | app/lib/org/index.js:541-570 | a crawled object's `visibility` is 1 exactly when its string title holds the query or some field is visible, and the hidden classes are set when it is 0 |
| `Visibility.PrimitiveFieldsKept` | app/lib/org/index.js:554-570 | every other primitive field keeps its value, and no other key appears or disappears |
| `Visibility.TruthinessKept` | app/lib/org/index.js:597 | the crawl keeps whether `isFolder` is truthy |
| `Visibility.FinishFacts` | app/lib/org/index.js:587-600 | an object element gets its `index`; the hidden classes when hidden; `expanded` true when not hidden and a folder |
| `Visibility.ElementMarks` | app/lib/org/index.js:582-603 | an object element records its position and visibility; it is hidden when neither it nor the visibility handed to the array is set; otherwise, as a folder, it is expanded; strings are left alone |
| `Visibility.MatchesIffPath` | app/lib/org/index.js:541-563 | a value is visible exactly when some object at or below it has a string title holding the query |
| `Visibility.ScanFindsMatch` | app/lib/org/index.js:610-617 | the scan after `_crawlArray` finds an element with `visibility` 1 exactly when some object element is visible |
| `Visibility.Crawl` | app/lib/org/index.js:606-623 | `_crawl` builds the crawled tree and returns 1 exactly for a visible object or array, 0 for a primitive |
| `Visibility.CrawlDict` | app/lib/org/index.js:529-573 | the running visibility starts at the title hit and turns 1 at the first visible field; the object is then marked |
| `Visibility.CrawlArray` | app/lib/org/index.js:575-604 | each element is crawled with its position and the visibility handed to the array |
| `Visibility.CrawlObjectElement` | app/lib/org/index.js:585-600 | one object element: crawl, `index`, then hidden or expanded |
| `Visibility.SetVisibility` | app/lib/org/index.js:132-134 | the crawl from the root with the query lower-cased |
| `Visibility.CrawledAt` | app/lib/org/index.js:529-623 | every object reached along a path survives the crawl and records its own visibility |
| `Visibility.EveryObjectRecordsVisibility` | app/lib/org/index.js:132-134 | after the search, every object in the tree has `visibility` 1 exactly when some object at or below it has a title holding the lower-cased query |
| `Visibility.CrawlKeepsMatches` | app/lib/org/index.js:529-623 | on a tree satisfying `Visibility.Clean`, crawling does not change whether the tree is visible |
| `Visibility.SetVisibilityIdempotent` | app/lib/org/index.js:132-134 | searching twice for the same text leaves the tree as one search did |

## Left out

- Remote calls are inputs. `describe` is the descriptor list. `list` results are the `Hierarchy.ListEntry` sequence. `listFolder` results are the result objects of `FolderMaterializer`. The retrieve result is the sequence of parsed files. Promise fan-out, fan-in and completion order are not modelled.
- The temporary directory, the `findit` directory crawl, reading files and `xml2js` parsing are outside the model. A parsed file is a root name and a sequence of tags, and each tag holds one entry or a list of entries with optional `fullName` and `actionName` lists. A parse error, which the source ignores, is not modelled.
- `util.endsWith` (used at `index.js:426`) is not part of this model; it is modelled as a suffix test. `util.getFileBodySync` is not part of this model.
- `MavensMateFile` is not part of this model. The name it gives an item without a `fullName` is the function parameter `nameOf`. A truthy non-string `fullName` is excluded by `Hierarchy.StubOk`, because its string conversion is not modelled.
- State is modelled on values. The level-1 node's `type` is a copy of the descriptor, so the search's writes into the descriptor are not seen by the type map that shares it. Shared references inside a tree are not modelled.
- Crash paths are preconditions, not modelled errors:
  - a list key that does not normalize to a resolved type, so `typeMap[key].inFolder` throws (`Hierarchy.EntryOk`);
  - no level-2 node for a file with tracked tags (`ChildMaterializer.FileOk`);
  - no folder node for a listing with items, or an item without a string `fullName` (`FolderMaterializer.ResultOk`);
  - a `null` or `undefined` type node or child element (`ParentSelection.TypeNodeOk`);
  - a title that is neither a string nor an object, or an array element that is neither a string nor an object (`Visibility.CrawlOk`).
- An array nested directly in an array is excluded by `Visibility.CrawlOk`. JavaScript would record `index` on it as an array property, and that is not modelled.
- The tree positions the walks' lemmas cover:
  - `Selection.SetCheckedAt`, `Selection.TargetsAreFlagged` and `Selection.PrimitivesKept` speak of positions reached through no `checked` or `select` field;
  - `Visibility.CrawledAt` and `Visibility.EveryObjectRecordsVisibility` speak of positions reached through no field the crawl writes.
  - Below such a field, a flagged or marked value has been replaced.
- `Visibility.CrawlKeepsMatches`: requires `Visibility.Clean`, like the idempotence below. A written field that holds a matching object is overwritten by the crawl, so the crawled tree can lose its match.
- `Visibility.SetVisibilityIdempotent`: requires `Visibility.Clean`, meaning no `visibility`, `cls`, `addClass`, `index` or `expanded` field holds an object or array. Otherwise overwriting such a field on the first search can remove a matching title, and the second search differs.
- The first pass of `_crawlDict` (`index.js:541-552`) is modelled as a lookup of the first `title` field. JavaScript keys are unique, so the pass meets one `title` at most.
- `toLowerCase` is modelled on ASCII letters only. String comparison in `_.sortBy` is modelled on `char` codes, which agrees with JavaScript's UTF-16 code-unit order for characters of the Basic Multilingual Plane.
- Numbers are integers; no node field in the engine holds a fraction.
- `ParentSelection.ArrayAboveZero` reads numeric strings by the `StringToNumber` grammar of section 7.1.4.1.1 of ECMAScript, without floating-point rounding: a decimal numeral with a non-zero digit counts as above zero even where its exponent underflows to 0 (`"1e-400"`). Arrays of objects and empty arrays, the cases the guard meets, do not depend on this.
- JavaScript enumerates integer-like keys before the other keys. `Json.Object` keeps plain insertion order for all keys, and index nodes have no integer-like keys.
- Not modelled, because they have no effect:
  - the depth and key parameters of the walks;
  - the unused `parentVisiblity` parameter of `_crawlDict`;
  - the unused `elementsToRemove` array of `_crawlArray`;
  - the logging.
- The commented-out `getIndexWithLocalSubscription` (`index.js:153-227`) is dead code and is not modelled.
- `app/lib/commands/misc/list-metadata.js` is command wiring and is not part of this model.
- `Hierarchy.ChildNamesOfOneKey`: states the child names for a list result with a single key, which is what `list` returns. `Hierarchy.IndexType` models any number of keys.

## Findings

| source | as written | input that shows it | evidently intended | confidence | as-written member | corrected member |
|---|---|---|---|---|---|---|
| app/lib/org/index.js:145 | `metadataType.children > 0` compares the array itself with 0. JavaScript turns the array into a string: "[object Object]..." (`NaN`) for objects, "" (0) for an empty array. The guard never holds, so no parent is ever checked. | a type node whose `children` is `[{select: true}]` | `children.length > 0`: flag the node checked and selected when it has children and all of them are selected | not executed | `ParentSelection.GuardAsWrittenNeverHolds` | `ParentSelection.ParentCheckedIff` |
