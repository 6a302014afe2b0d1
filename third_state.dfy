/**
 * `_setThirdStateChecked`: a node whose children are all checked becomes checked
 * itself, and a node with only some checked children gets the "partly checked"
 * style. The walk continues into every own field that holds an object, but an
 * array stops it at its first object element, so no element of any array (the
 * `children` arrays included) is ever visited.
 */
module ThirdState {
  import opened Json

  /** The style a node with some, but not all, children checked receives. */
  const PartlyChecked := "x-tree-checkbox-checked-disabled"

  /** `_.has(c, 'checked') && c.checked`. */
  predicate CheckedChild(c: Json)
  {
    c.Obj? && Has(c.fields, "checked") && Truthy(Member(c.fields, "checked"))
  }

  /** The number of checked elements of `s`. */
  function CountChecked(s: seq<Json>): (n: nat)
    ensures n <= |s|
  {
    if s == [] then 0 else CountChecked(s[..|s| - 1]) + (if CheckedChild(s[|s| - 1]) then 1 else 0)
  }

  lemma {:induction false} CountCheckedBounds(s: seq<Json>)
    ensures CountChecked(s) == |s| <==> forall i :: 0 <= i < |s| ==> CheckedChild(s[i])
    ensures CountChecked(s) > 0 <==> exists i :: 0 <= i < |s| && CheckedChild(s[i])
  {
    if s != [] {
      var n := |s| - 1;
      CountCheckedBounds(s[..n]);
      assert forall i :: 0 <= i < n ==> s[..n][i] == s[i];
    }
  }

  /**
   * The node's own update: with a non-empty `children` array, `checked = true`
   * when every child is checked, otherwise the partly-checked style when some are.
   */
  function MarkNode(o: Object): Object
  {
    var children := Member(o, "children");
    if children.Arr? && |children.elems| > 0 then
      var n := CountChecked(children.elems);
      if n == |children.elems| then Put(o, "checked", Bool(true))
      else if n > 0 then Put(o, "cls", Str(PartlyChecked))
      else o
    else o
  }

  /** The tree after the walk: arrays are returned as they are; an object is marked and its fields walked. */
  function ThirdStateChecked(j: Json): (r: Json)
    decreases j
    ensures j.Obj? <==> r.Obj?
    ensures !j.Obj? ==> r == j
  {
    match j
    case Obj(fs) =>
      Obj(MarkNode(seq(|fs|, i requires 0 <= i < |fs| => Field(fs[i].key, ThirdStateChecked(fs[i].value)))))
    case _ => j
  }

  /** The walk, as a function on values. */
  function Walker(): Json -> Json
  {
    v => ThirdStateChecked(v)
  }

  lemma Walked(fs: Object)
    ensures ThirdStateChecked(Obj(fs)).fields == MarkNode(MapValues(fs, Walker()))
  {
    var a := seq(|fs|, i requires 0 <= i < |fs| => Field(fs[i].key, ThirdStateChecked(fs[i].value)));
    assert a == MapValues(fs, Walker());
  }

  /** Walking the fields leaves the `children` array as it is, so the node's update decides the same way. */
  lemma WalkKeepsChildren(fs: Object)
    ensures Member(MapValues(fs, Walker()), "children").Arr? ==> Member(MapValues(fs, Walker()), "children") == Member(fs, "children")
    ensures Member(fs, "children").Arr? ==> Member(MapValues(fs, Walker()), "children") == Member(fs, "children")
  {
    MemberMapValues(fs, Walker(), "children");
    if !Has(fs, "children") {
      MemberAbsent(fs, "children");
    }
  }

  /**
   * The source updates the node first and then walks its fields; the update only
   * writes a boolean or a string, which the walk leaves alone, so the order does
   * not matter.
   */
  lemma MarkInSourceOrder(fs: Object)
    ensures ThirdStateChecked(Obj(fs)).fields == MapValues(MarkNode(fs), Walker())
  {
    Walked(fs);
    WalkKeepsChildren(fs);
    MapValuesPut(fs, "checked", Bool(true), Walker());
    MapValuesPut(fs, "cls", Str(PartlyChecked), Walker());
  }

  /** A node with a non-empty children array: checked exactly when all of its children are. */
  lemma CheckedWhenAllChildrenChecked(fs: Object)
    requires Member(fs, "children").Arr? && |Member(fs, "children").elems| > 0
    ensures var r := ThirdStateChecked(Obj(fs)).fields;
      var s := Member(fs, "children").elems;
      && ((forall i :: 0 <= i < |s| ==> CheckedChild(s[i])) ==> Member(r, "checked") == Bool(true))
      && (!(forall i :: 0 <= i < |s| ==> CheckedChild(s[i])) ==> Member(r, "checked") == ThirdStateChecked(Member(fs, "checked")))
      && ((exists i :: 0 <= i < |s| && !CheckedChild(s[i])) && (exists i :: 0 <= i < |s| && CheckedChild(s[i])) ==> Member(r, "cls") == Str(PartlyChecked))
      && ((forall i :: 0 <= i < |s| ==> !CheckedChild(s[i])) ==> r == MapValues(fs, Walker()))
  {
    var s := Member(fs, "children").elems;
    CountCheckedBounds(s);
    Walked(fs);
    WalkKeepsChildren(fs);
    var w := MapValues(fs, Walker());
    MemberMapValues(fs, Walker(), "checked");
    if !Has(fs, "checked") {
      MemberAbsent(fs, "checked");
    }
    MemberPutOther(w, "cls", Str(PartlyChecked), "checked");
  }

  /** The node's update writes only `checked` and `cls`. */
  lemma MarkNodeKeeps(o: Object, k: string)
    requires k != "checked" && k != "cls"
    ensures Member(MarkNode(o), k) == Member(o, k)
  {
    MemberPutOther(o, "checked", Bool(true), k);
    MemberPutOther(o, "cls", Str(PartlyChecked), k);
  }

  /** The walk never writes `select` and never changes a `children` array. */
  lemma SelectAndChildrenKept(fs: Object)
    ensures Member(ThirdStateChecked(Obj(fs)).fields, "select") == ThirdStateChecked(Member(fs, "select"))
    ensures Member(fs, "children").Arr? ==> Member(ThirdStateChecked(Obj(fs)).fields, "children") == Member(fs, "children")
  {
    Walked(fs);
    WalkKeepsChildren(fs);
    var w := MapValues(fs, Walker());
    MarkNodeKeeps(w, "select");
    MarkNodeKeeps(w, "children");
    MemberMapValues(fs, Walker(), "select");
    if !Has(fs, "select") {
      MemberAbsent(fs, "select");
    }
  }

  /** Updating a node twice is updating it once: the writes leave `children` alone. */
  lemma MarkNodeTwice(o: Object)
    ensures MarkNode(MarkNode(o)) == MarkNode(o)
  {
    MemberPutOther(o, "checked", Bool(true), "children");
    MemberPutOther(o, "cls", Str(PartlyChecked), "children");
    PutTwice(o, "checked", Bool(true));
    PutTwice(o, "cls", Str(PartlyChecked));
  }

  /** Running the walk twice gives the same tree as running it once. */
  lemma {:induction false} ThirdStateIdempotent(j: Json)
    decreases j
    ensures ThirdStateChecked(ThirdStateChecked(j)) == ThirdStateChecked(j)
  {
    if j.Obj? {
      var fs := j.fields;
      var w := MapValues(fs, Walker());
      forall i | 0 <= i < |fs| ensures ThirdStateChecked(w[i].value) == w[i].value {
        ThirdStateIdempotent(fs[i].value);
      }
      assert MapValues(w, Walker()) == w;
      Walked(fs);
      MarkInSourceOrder(MarkNode(w));
      MarkInSourceOrder(w);
      Walked(w);
      MarkNodeTwice(w);
    }
  }

  /** The counter loop over a node's children. */
  method CountCheckedLoop(children: seq<Json>) returns (n: nat)
    ensures n == CountChecked(children)
  {
    n := 0;
    var j := 0;
    while j < |children|
      invariant 0 <= j <= |children| && n == CountChecked(children[..j])
    {
      assert children[..j + 1][..j] == children[..j];
      if CheckedChild(children[j]) {
        n := n + 1;
      }
      j := j + 1;
    }
    assert children[..j] == children;
  }

  /** The node's own update, with its counter loop. */
  method MarkNodeInPlace(o: Object) returns (r: Object)
    ensures r == MarkNode(o)
  {
    r := o;
    var children := Member(o, "children");
    if children.Arr? && |children.elems| > 0 {
      var n := CountCheckedLoop(children.elems);
      if n == |children.elems| {
        r := Put(r, "checked", Bool(true));
      } else if n > 0 {
        r := Put(r, "cls", Str(PartlyChecked));
      }
    }
  }

  /**
   * The walk. On an array the loop ends at the first object element and the
   * primitives before it are left alone; on an object the fields are walked and
   * the node updated.
   */
  method SetThirdStateChecked(src: Json) returns (r: Json)
    decreases src
    ensures r == ThirdStateChecked(src)
  {
    match src
    case Arr(s) =>
      var i := 0;
      while i < |s| && !IsObjectLike(s[i])
        invariant 0 <= i <= |s|
      {
        var v := SetThirdStateChecked(s[i]);
        // A primitive element comes back as it was.
        assert v == s[i];
        i := i + 1;
      }
      r := src;
    case Obj(fs) =>
      var out: Object := [];
      var i := 0;
      while i < |fs|
        invariant 0 <= i <= |fs| && |out| == i
        invariant forall k :: 0 <= k < i ==> out[k] == Field(fs[k].key, ThirdStateChecked(fs[k].value))
      {
        var v := SetThirdStateChecked(fs[i].value);
        out := out + [Field(fs[i].key, v)];
        i := i + 1;
      }
      assert out == MapValues(fs, Walker());
      var marked := MarkNodeInPlace(out);
      Walked(fs);
      r := Obj(marked);
    case _ =>
      r := src;
  }
}
