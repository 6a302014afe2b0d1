/**
 * Subscription resolution, the first loop of `Indexer.index`: every subscribed
 * type name is looked up among the org's metadata descriptors, recorded in the
 * type map, and turned into the name its list request is issued under.
 */
module Resolution {
  import opened Json
  import opened Strings
  import opened FolderNames
  import opened ChildTypes

  /** Index `i` holds the first descriptor named `name`. */
  predicate FirstMatchAt(descriptors: seq<Object>, name: string, i: int)
  {
    0 <= i < |descriptors| && Member(descriptors[i], "xmlName") == Str(name) &&
    forall j :: 0 <= j < i ==> Member(descriptors[j], "xmlName") != Str(name)
  }

  /** `_.find(descriptors, d => name === d.xmlName)`: the first descriptor of that name. */
  function FindType(descriptors: seq<Object>, name: string): (r: Option<Object>)
    ensures r.Some? ==> r.value in descriptors && Member(r.value, "xmlName") == Str(name)
  {
    if descriptors == [] then None
    else if Member(descriptors[0], "xmlName") == Str(name) then Some(descriptors[0])
    else FindType(descriptors[1..], name)
  }

  /** The lookup fails exactly when no descriptor carries the name. */
  lemma {:induction false} FindTypeNone(descriptors: seq<Object>, name: string)
    ensures FindType(descriptors, name).None? <==>
      forall i :: 0 <= i < |descriptors| ==> Member(descriptors[i], "xmlName") != Str(name)
  {
    if descriptors != [] && Member(descriptors[0], "xmlName") != Str(name) {
      FindTypeNone(descriptors[1..], name);
      assert forall i :: 0 < i < |descriptors| ==> descriptors[i] == descriptors[1..][i - 1];
    }
  }

  /** The descriptor found is the first one of that name. */
  lemma {:induction false} FindTypeIsFirst(descriptors: seq<Object>, name: string)
    requires FindType(descriptors, name).Some?
    ensures exists i :: FirstMatchAt(descriptors, name, i) && descriptors[i] == FindType(descriptors, name).value
  {
    if Member(descriptors[0], "xmlName") == Str(name) {
      assert FirstMatchAt(descriptors, name, 0);
    } else {
      FindTypeIsFirst(descriptors[1..], name);
      var i :| FirstMatchAt(descriptors[1..], name, i) && descriptors[1..][i] == FindType(descriptors[1..], name).value;
      assert FirstMatchAt(descriptors, name, i + 1);
    }
  }

  predicate Known(descriptors: seq<Object>, name: string)
  {
    FindType(descriptors, name).Some?
  }

  /** The name a list request is issued under: folder-scoped types are listed by folder. */
  function RequestName(name: string, descriptor: Object): string
  {
    if Truthy(Member(descriptor, "inFolder")) then ForListRequest(name) else name
  }

  /** The error a subscription with an unknown type name fails with. */
  function UnknownTypeError(name: string): string
  {
    "Unknown metadata type: " + name
  }

  /**
   * The resolution loop. On success one request is issued per subscribed name, in
   * order; the first unknown name stops the loop with its error, after the
   * requests of the names before it were already issued.
   */
  method Resolve(subscription: seq<string>, descriptors: seq<Object>)
    returns (requests: seq<string>, typeMap: map<string, Object>, error: Option<string>)
    ensures |requests| <= |subscription|
    ensures forall i :: 0 <= i < |requests| ==>
      Known(descriptors, subscription[i]) &&
      requests[i] == RequestName(subscription[i], FindType(descriptors, subscription[i]).value)
    ensures error.None? ==> |requests| == |subscription|
    ensures error.Some? ==>
      |requests| < |subscription| && !Known(descriptors, subscription[|requests|]) &&
      error.value == UnknownTypeError(subscription[|requests|])
    ensures error.None? <==> forall i :: 0 <= i < |subscription| ==> Known(descriptors, subscription[i])
    ensures typeMap.Keys == set k | 0 <= k < |requests| :: subscription[k]
    ensures forall name :: name in typeMap ==> Some(typeMap[name]) == FindType(descriptors, name)
  {
    requests, typeMap, error := [], map[], None;
    var i := 0;
    while i < |subscription|
      invariant 0 <= i <= |subscription| && |requests| == i
      invariant forall k :: 0 <= k < i ==>
        Known(descriptors, subscription[k]) &&
        requests[k] == RequestName(subscription[k], FindType(descriptors, subscription[k]).value)
      invariant typeMap.Keys == set k | 0 <= k < i :: subscription[k]
      invariant forall name :: name in typeMap ==> Some(typeMap[name]) == FindType(descriptors, name)
    {
      var name := subscription[i];
      var found := FindType(descriptors, name);
      if found.None? {
        error := Some(UnknownTypeError(name));
        return;
      }
      typeMap := typeMap[name := found.value];
      requests := requests + [RequestName(name, typeMap[name])];
      i := i + 1;
    }
  }

  /**
   * The list result of a folder-scoped type comes back under its request name,
   * and the hierarchy builder maps that key back to the subscribed name, as long
   * as the name holds no "Folder" and is not "Email".
   */
  lemma ListKeyMapsBack(name: string, descriptor: Object)
    requires Truthy(Member(descriptor, "inFolder"))
    requires !Contains(name, "Folder") && name != "Email"
    ensures EndsWith(RequestName(name, descriptor), "Folder")
    ensures ToBaseName(RequestName(name, descriptor)) == name
  {
    RequestNameEndsInFolder(name);
    BaseNameInvertsRequestName(name);
  }
}
