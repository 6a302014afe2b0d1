/**
 * The visibility crawl behind the tree's search box, `setVisibility`: every
 * object of the index is given a `visibility` of 1 when its title, or the title
 * of some object below it, holds the lower-cased query, and 0 otherwise; hidden
 * nodes get the `hidden` classes, and each object inside an array records its
 * position and, when visible and a folder, is expanded.
 */
module Visibility {
  import opened Json
  import opened Strings

  /** The number JavaScript code keeps for a flag. */
  function Bit(b: bool): int
  {
    if b then 1 else 0
  }

  /** The object's `title` is a string that holds the query once lower-cased. */
  predicate TitleHit(o: Object, q: string)
  {
    Member(o, "title").Str? && Contains(Lower(Member(o, "title").s), q)
  }

  /**
   * Visible: the object's own title holds the query, or some field value is
   * visible; an array is visible when one of its object elements is.
   */
  predicate Matches(j: Json, q: string)
    decreases j
  {
    match j
    case Obj(fs) => TitleHit(fs, q) || exists i :: 0 <= i < |fs| && Matches(fs[i].value, q)
    case Arr(es) => exists i :: 0 <= i < |es| && es[i].Obj? && Matches(es[i], q)
    case _ => false
  }

  /** Some field before position `i` is visible. */
  predicate SomeBefore(o: Object, q: string, i: int)
  {
    exists k :: 0 <= k < i && k < |o| && Matches(o[k].value, q)
  }

  /** The running visibility the walk hands to field `i`: the title hit, or an earlier field was visible. */
  predicate SeenBefore(o: Object, q: string, i: int)
  {
    TitleHit(o, q) || SomeBefore(o, q, i)
  }

  /**
   * What the crawl needs not to throw: a `title` that is not a string is an
   * object or an array (`value.toLowerCase()` is called on anything else), and an
   * array holds only strings and objects (a property cannot be recorded on an
   * array element that is itself an array in this model, and other primitives
   * throw).
   */
  predicate CrawlOk(j: Json)
    decreases j
  {
    match j
    case Obj(fs) =>
      (Has(fs, "title") ==> Member(fs, "title").Str? || IsObjectLike(Member(fs, "title"))) &&
      forall i :: 0 <= i < |fs| ==> CrawlOk(fs[i].value)
    case Arr(es) => forall i :: 0 <= i < |es| ==> (es[i].Str? || es[i].Obj?) && CrawlOk(es[i])
    case _ => true
  }

  function Hide(o: Object): Object
  {
    Put(Put(o, "cls", Str("hidden")), "addClass", Str("dynatree-hidden"))
  }

  /** `jsonData.visibility = visibility`, and the hidden classes when it is 0. */
  function Mark(o: Object, visible: bool): Object
  {
    var r := Put(o, "visibility", Num(Bit(visible)));
    if visible then r else Hide(r)
  }

  /**
   * The tree after the crawl. An object's fields are crawled in order, each with
   * the running visibility as its parent's; then the object is marked. An
   * array's elements are crawled with the array's parent visibility.
   */
  function Crawled(j: Json, q: string, pv: int): (r: Json)
    decreases j, 0
    ensures r.Obj? <==> j.Obj?
    ensures r.Arr? <==> j.Arr?
    ensures !j.Obj? && !j.Arr? ==> r == j
    ensures j.Arr? ==> |r.elems| == |j.elems|
  {
    match j
    case Obj(fs) =>
      Obj(Mark(seq(|fs|, i requires 0 <= i < |fs| => Field(fs[i].key, Crawled(fs[i].value, q, Bit(SeenBefore(fs, q, i))))),
               Matches(j, q)))
    case Arr(es) => Arr(seq(|es|, i requires 0 <= i < |es| => CrawledElement(es[i], i, q, pv)))
    case _ => j
  }

  /**
   * One array element: an object is crawled and given its `index`, then hidden
   * when neither it nor the parent is visible, or otherwise expanded when it is a
   * folder; a string is left alone.
   */
  function CrawledElement(e: Json, i: nat, q: string, pv: int): (r: Json)
    decreases e, 1
  {
    if e.Obj? then Obj(Finish(Crawled(e, q, pv).fields, i, !Matches(e, q) && pv == 0)) else e
  }

  /** The array's own writes on a crawled object element: `index`, then hidden or expanded. */
  function Finish(c: Object, i: nat, hidden: bool): Object
  {
    var c1 := Put(c, "index", Num(i));
    if hidden then Hide(c1)
    else if Truthy(Member(c1, "isFolder")) then Put(c1, "expanded", Bool(true))
    else c1
  }

  /** `setVisibility(jsonData, query)`: the crawl from the root with the query lower-cased. */
  function SetVisibilityOf(j: Json, query: string): Json
  {
    Crawled(j, Lower(query), 0)
  }

  // ---------------------------------------------------------------------------
  // What the crawl records
  // ---------------------------------------------------------------------------

  /** The fields of a crawled object before it is marked. */
  function Walked(fs: Object, q: string): (r: Object)
    ensures |r| == |fs|
  {
    seq(|fs|, i requires 0 <= i < |fs| => Field(fs[i].key, Crawled(fs[i].value, q, Bit(SeenBefore(fs, q, i)))))
  }

  lemma CrawledObject(fs: Object, q: string, pv: int)
    ensures Crawled(Obj(fs), q, pv).fields == Mark(Walked(fs, q), Matches(Obj(fs), q))
  {
  }

  /** Marking writes `visibility`, and the hidden classes when invisible. */
  lemma MarkFacts(o: Object, visible: bool)
    ensures Has(Mark(o, visible), "visibility") && Member(Mark(o, visible), "visibility") == Num(Bit(visible))
    ensures !visible ==> (Member(Mark(o, visible), "cls") == Str("hidden") &&
      Member(Mark(o, visible), "addClass") == Str("dynatree-hidden"))
    ensures visible ==> Member(Mark(o, visible), "cls") == Member(o, "cls")
  {
    var r := Put(o, "visibility", Num(Bit(visible)));
    MemberPutOther(o, "visibility", Num(Bit(visible)), "cls");
    if !visible {
      var r1 := Put(r, "cls", Str("hidden"));
      MemberPutOther(r, "cls", Str("hidden"), "visibility");
      MemberPutOther(r1, "addClass", Str("dynatree-hidden"), "visibility");
      MemberPutOther(r1, "addClass", Str("dynatree-hidden"), "cls");
    }
  }

  /** Marking leaves every other key as it was. */
  lemma MarkKeeps(o: Object, visible: bool, k: string)
    requires k != "visibility" && k != "cls" && k != "addClass"
    ensures Member(Mark(o, visible), k) == Member(o, k)
    ensures Has(Mark(o, visible), k) <==> Has(o, k)
  {
    var r := Put(o, "visibility", Num(Bit(visible)));
    MemberPutOther(o, "visibility", Num(Bit(visible)), k);
    if !visible {
      MemberPutOther(r, "cls", Str("hidden"), k);
      MemberPutOther(Put(r, "cls", Str("hidden")), "addClass", Str("dynatree-hidden"), k);
    }
  }

  /** A field of the walked object holds the crawled value of the original field, found at the same place. */
  lemma MemberWalked(fs: Object, q: string, k: string)
    ensures Has(Walked(fs, q), k) <==> Has(fs, k)
    ensures Member(Walked(fs, q), k).Obj? <==> Member(fs, k).Obj?
    ensures Member(Walked(fs, q), k).Arr? <==> Member(fs, k).Arr?
    ensures !IsObjectLike(Member(fs, k)) ==> Member(Walked(fs, q), k) == Member(fs, k)
  {
    var w := Walked(fs, q);
    MemberSameKeys(fs, w, k);
    if Has(fs, k) {
      var i := KeyIndex(fs, k);
      assert Member(w, k) == Crawled(Member(fs, k), q, Bit(SeenBefore(fs, q, i)));
    } else {
      MemberAbsent(fs, k);
    }
  }

  /**
   * A crawled object records whether it is visible, and an invisible one carries
   * the `hidden` classes.
   */
  lemma ObjectVisibility(fs: Object, q: string, pv: int)
    ensures var r := Crawled(Obj(fs), q, pv).fields;
      && Has(r, "visibility")
      && Member(r, "visibility") == Num(Bit(Matches(Obj(fs), q)))
      && (!Matches(Obj(fs), q) ==> Member(r, "cls") == Str("hidden") && Member(r, "addClass") == Str("dynatree-hidden"))
  {
    MarkFacts(Walked(fs, q), Matches(Obj(fs), q));
  }

  /**
   * Nothing else changes: a field other than the three the crawl writes, whose
   * value is not an object or array, keeps its value, and no such key appears or
   * disappears.
   */
  lemma PrimitiveFieldsKept(fs: Object, q: string, pv: int, k: string)
    requires k != "visibility" && k != "cls" && k != "addClass"
    ensures Has(Crawled(Obj(fs), q, pv).fields, k) <==> Has(fs, k)
    ensures !IsObjectLike(Member(fs, k)) ==> Member(Crawled(Obj(fs), q, pv).fields, k) == Member(fs, k)
  {
    MarkKeeps(Walked(fs, q), Matches(Obj(fs), q), k);
    MemberWalked(fs, q, k);
  }

  /** Crawling keeps a value's truthiness: objects stay objects, arrays arrays, primitives as they were. */
  lemma TruthinessKept(fs: Object, q: string, k: string)
    ensures Truthy(Member(Walked(fs, q), k)) <==> Truthy(Member(fs, k))
  {
    MemberWalked(fs, q, k);
  }

  lemma FinishFacts(c: Object, i: nat, hidden: bool)
    ensures Member(Finish(c, i, hidden), "index") == Num(i)
    ensures Has(Finish(c, i, hidden), "visibility") <==> Has(c, "visibility")
    ensures Member(Finish(c, i, hidden), "visibility") == Member(c, "visibility")
    ensures hidden ==> (Member(Finish(c, i, hidden), "cls") == Str("hidden") &&
      Member(Finish(c, i, hidden), "addClass") == Str("dynatree-hidden"))
    ensures !hidden && Truthy(Member(c, "isFolder")) ==> Member(Finish(c, i, hidden), "expanded") == Bool(true)
  {
    var c1 := Put(c, "index", Num(i));
    MemberPutOther(c, "index", Num(i), "visibility");
    MemberPutOther(c, "index", Num(i), "isFolder");
    HasPutOther(c, "index", Num(i), "visibility");
    if hidden {
      var c2 := Put(c1, "cls", Str("hidden"));
      MemberPutOther(c1, "cls", Str("hidden"), "index");
      MemberPutOther(c1, "cls", Str("hidden"), "visibility");
      MemberPutOther(c2, "addClass", Str("dynatree-hidden"), "index");
      MemberPutOther(c2, "addClass", Str("dynatree-hidden"), "visibility");
      MemberPutOther(c2, "addClass", Str("dynatree-hidden"), "cls");
      HasPutOther(c1, "cls", Str("hidden"), "visibility");
      HasPutOther(c2, "addClass", Str("dynatree-hidden"), "visibility");
    } else if Truthy(Member(c1, "isFolder")) {
      MemberPutOther(c1, "expanded", Bool(true), "index");
      MemberPutOther(c1, "expanded", Bool(true), "visibility");
      HasPutOther(c1, "expanded", Bool(true), "visibility");
    }
  }

  /**
   * An object element of an array records its position and its visibility; it
   * is hidden when neither it nor the array's parent is visible, and a visible
   * folder is expanded. Any other element is left as it was.
   */
  lemma ElementMarks(e: Json, i: nat, q: string, pv: int)
    ensures !e.Obj? ==> CrawledElement(e, i, q, pv) == e
    ensures e.Obj? ==> var r := CrawledElement(e, i, q, pv);
      && r.Obj?
      && Member(r.fields, "index") == Num(i)
      && Has(r.fields, "visibility") && Member(r.fields, "visibility") == Num(Bit(Matches(e, q)))
      && (!Matches(e, q) && pv == 0 ==>
            Member(r.fields, "cls") == Str("hidden") && Member(r.fields, "addClass") == Str("dynatree-hidden"))
      && (!(!Matches(e, q) && pv == 0) && Truthy(Member(e.fields, "isFolder")) ==>
            Member(r.fields, "expanded") == Bool(true))
  {
    if e.Obj? {
      var fs := e.fields;
      var m := Mark(Walked(fs, q), Matches(e, q));
      var h := !Matches(e, q) && pv == 0;
      CrawledObject(fs, q, pv);
      assert CrawledElement(e, i, q, pv) == Obj(Finish(m, i, h));
      MarkFacts(Walked(fs, q), Matches(e, q));
      MarkKeeps(Walked(fs, q), Matches(e, q), "isFolder");
      TruthinessKept(fs, q, "isFolder");
      FinishFacts(m, i, h);
    }
  }

  // ---------------------------------------------------------------------------
  // Visibility as a property of the tree
  // ---------------------------------------------------------------------------

  /** A path to an object whose own title holds the query. */
  predicate HitAt(j: Json, q: string, p: seq<Step>)
  {
    IsPath(j, p) && At(j, p).Obj? && TitleHit(At(j, p).fields, q)
  }

  lemma {:induction false} MatchesHasPath(j: Json, q: string)
    requires Matches(j, q)
    ensures exists p :: HitAt(j, q, p)
    decreases j
  {
    match j
    case Obj(fs) =>
      if TitleHit(fs, q) {
        assert HitAt(j, q, []);
      } else {
        var i :| 0 <= i < |fs| && Matches(fs[i].value, q);
        MatchesHasPath(fs[i].value, q);
        var p :| HitAt(fs[i].value, q, p);
        var p' := [FieldAt(i)] + p;
        assert p'[1..] == p;
        assert HitAt(j, q, p');
      }
    case Arr(es) =>
      var i :| 0 <= i < |es| && es[i].Obj? && Matches(es[i], q);
      MatchesHasPath(es[i], q);
      var p :| HitAt(es[i], q, p);
      var p' := [Elem(i)] + p;
      assert p'[1..] == p;
      assert HitAt(j, q, p');
  }

  /** A string has no steps below it, so no hit lies at or below one. */
  lemma HitIsInsideObjectOrArray(j: Json, q: string, p: seq<Step>)
    requires HitAt(j, q, p)
    ensures IsObjectLike(j)
  {
  }

  lemma {:induction false} PathMatches(j: Json, q: string, p: seq<Step>)
    requires CrawlOk(j) && HitAt(j, q, p)
    ensures Matches(j, q)
    decreases |p|
  {
    if p != [] {
      match p[0]
      case FieldAt(i) =>
        PathMatches(j.fields[i].value, q, p[1..]);
      case Elem(i) =>
        var e := j.elems[i];
        HitIsInsideObjectOrArray(e, q, p[1..]);
        PathMatches(e, q, p[1..]);
    }
  }

  /**
   * The search hides exactly what it should: under the crawl's own
   * preconditions, a node is visible precisely when some object at or below it
   * has a title holding the query.
   */
  lemma MatchesIffPath(j: Json, q: string)
    requires CrawlOk(j)
    ensures Matches(j, q) <==> exists p :: HitAt(j, q, p)
  {
    if Matches(j, q) {
      MatchesHasPath(j, q);
    }
    if exists p :: HitAt(j, q, p) {
      var p :| HitAt(j, q, p);
      PathMatches(j, q, p);
    }
  }

  // ---------------------------------------------------------------------------
  // The crawl, step by step
  // ---------------------------------------------------------------------------

  /** An array element the final scan of `_crawl` counts: an object whose `visibility` is 1. */
  predicate ShowsVisible(e: Json)
  {
    e.Obj? && Has(e.fields, "visibility") && Member(e.fields, "visibility") == Num(1)
  }

  /** The scan after `_crawlArray` finds a visible element exactly when some object element matches. */
  lemma ScanFindsMatch(es: seq<Json>, q: string, pv: int)
    ensures (exists k :: 0 <= k < |es| && ShowsVisible(Crawled(Arr(es), q, pv).elems[k])) ==> Matches(Arr(es), q)
    ensures Matches(Arr(es), q) ==> exists k :: 0 <= k < |es| && ShowsVisible(Crawled(Arr(es), q, pv).elems[k])
  {
    var r := Crawled(Arr(es), q, pv).elems;
    forall k | 0 <= k < |es|
      ensures ShowsVisible(r[k]) <==> es[k].Obj? && Matches(es[k], q)
    {
      assert r[k] == CrawledElement(es[k], k, q, pv);
      ElementMarks(es[k], k, q, pv);
    }
    if Matches(Arr(es), q) {
      var k :| 0 <= k < |es| && es[k].Obj? && Matches(es[k], q);
      assert ShowsVisible(r[k]);
    }
    if exists k :: 0 <= k < |es| && ShowsVisible(r[k]) {
      var k :| 0 <= k < |es| && ShowsVisible(r[k]);
      assert es[k].Obj? && Matches(es[k], q);
      assert Matches(Arr(es), q);
    }
  }

  /**
   * `_crawl`: arrays are crawled element by element and then scanned for a
   * visible object (the scan's boolean is returned as 0 or 1), objects are
   * crawled field by field, and anything else is invisible.
   */
  method Crawl(j: Json, q: string, pv: int) returns (r: Json, v: int)
    requires CrawlOk(j)
    decreases j, 1
    ensures r == Crawled(j, q, pv)
    ensures v == Bit(Matches(j, q))
  {
    match j
    case Arr(es) =>
      var elems := CrawlArray(es, q, pv);
      var hv := false;
      var i := 0;
      while i < |elems| && !hv
        invariant 0 <= i <= |elems|
        invariant hv <==> exists k :: 0 <= k < i && ShowsVisible(elems[k])
      {
        if ShowsVisible(elems[i]) {
          hv := true;
        }
        i := i + 1;
      }
      ScanFindsMatch(es, q, pv);
      r, v := Arr(elems), Bit(hv);
    case Obj(fs) =>
      var o;
      o, v := CrawlDict(fs, q);
      CrawledObject(fs, q, pv);
      r := Obj(o);
    case _ =>
      r, v := j, 0;
  }

  /** One more field: the running visibility turns on when that field is visible. */
  lemma SeenStep(fs: Object, q: string, i: nat)
    requires i < |fs|
    ensures SomeBefore(fs, q, i + 1) <==> SomeBefore(fs, q, i) || Matches(fs[i].value, q)
    ensures Walked(fs, q)[..i + 1] ==
      Walked(fs, q)[..i] + [Field(fs[i].key, Crawled(fs[i].value, q, Bit(SeenBefore(fs, q, i))))]
  {
  }

  /** After the last field the running visibility is the object's. */
  lemma SeenAll(fs: Object, q: string)
    ensures SeenBefore(fs, q, |fs|) <==> Matches(Obj(fs), q)
  {
  }

  /**
   * `_crawlDict`: the title decides the starting visibility (JavaScript keys are
   * unique, so the first pass meets one `title` at most); each field is then
   * crawled with the running visibility, which turns 1 once a field is visible;
   * finally the object is marked.
   */
  method CrawlDict(fs: Object, q: string) returns (r: Object, v: int)
    requires CrawlOk(Obj(fs))
    decreases Obj(fs), 0
    ensures r == Mark(Walked(fs, q), Matches(Obj(fs), q))
    ensures v == Bit(Matches(Obj(fs), q))
  {
    var visibility := if TitleHit(fs, q) then 1 else 0;
    var childVisibility := 0;
    var out: Object := [];
    var i := 0;
    while i < |fs|
      invariant 0 <= i <= |fs| && |out| == i
      invariant out == Walked(fs, q)[..i]
      invariant childVisibility == Bit(SomeBefore(fs, q, i))
      invariant visibility == Bit(SeenBefore(fs, q, i))
    {
      SeenStep(fs, q, i);
      var c, cv := Crawl(fs[i].value, q, visibility);
      if cv > 0 {
        childVisibility := 1;
      }
      visibility := if visibility > childVisibility then visibility else childVisibility;
      out := out + [Field(fs[i].key, c)];
      i := i + 1;
    }
    assert Walked(fs, q)[..i] == Walked(fs, q);
    SeenAll(fs, q);
    r := Put(out, "visibility", Num(visibility));
    if visibility == 0 {
      r := Put(r, "cls", Str("hidden"));
      r := Put(r, "addClass", Str("dynatree-hidden"));
    }
    v := visibility;
  }

  /**
   * `_crawlArray`: each element is handled in turn, with its position. A string
   * element's visibility is a boolean, never `=== 0`, and a string has no
   * `isFolder`, so strings are left alone.
   */
  method CrawlArray(es: seq<Json>, q: string, pv: int) returns (r: seq<Json>)
    requires CrawlOk(Arr(es))
    decreases Arr(es), 0
    ensures r == Crawled(Arr(es), q, pv).elems
  {
    r := [];
    var index := 0;
    while index < |es|
      invariant 0 <= index <= |es| && |r| == index
      invariant forall k :: 0 <= k < index ==> r[k] == CrawledElement(es[k], k, q, pv)
    {
      var value := es[index];
      if value.Obj? {
        value := CrawlObjectElement(value, index, q, pv);
      }
      r := r + [value];
      index := index + 1;
    }
  }

  /**
   * One object element of `_crawlArray`: crawled with the array's parent
   * visibility and given its `index`, then hidden when the crawl returned 0 and
   * the parent visibility is 0, or else expanded when it is a folder.
   */
  method CrawlObjectElement(value: Json, index: nat, q: string, pv: int) returns (r: Json)
    requires value.Obj? && CrawlOk(value)
    decreases value, 2
    ensures r == CrawledElement(value, index, q, pv)
  {
    var c, childVisibility := Crawl(value, q, pv);
    var o := Put(c.fields, "index", Num(index));
    if childVisibility == 0 && pv == 0 {
      o := Put(o, "cls", Str("hidden"));
      o := Put(o, "addClass", Str("dynatree-hidden"));
    } else if Truthy(Member(o, "isFolder")) {
      o := Put(o, "expanded", Bool(true));
    }
    r := Obj(o);
  }

  /** `setVisibility(jsonData, query)`. */
  method SetVisibility(j: Json, query: string) returns (r: Json)
    requires CrawlOk(j)
    ensures r == SetVisibilityOf(j, query)
  {
    var v;
    r, v := Crawl(j, Lower(query), 0);
  }

  // ---------------------------------------------------------------------------
  // Every object of the tree
  // ---------------------------------------------------------------------------

  /** The keys the crawl writes. */
  predicate Written(k: string)
  {
    k in {"visibility", "cls", "addClass", "index", "expanded"}
  }

  /** No step of `p` enters a field the crawl writes, which would replace what lies below it. */
  predicate ClearPath(j: Json, p: seq<Step>)
    requires IsPath(j, p)
    decreases |p|
  {
    p == [] ||
    match p[0]
    case Elem(i) => ClearPath(j.elems[i], p[1..])
    case FieldAt(i) => !Written(j.fields[i].key) && ClearPath(j.fields[i].value, p[1..])
  }

  /** Marking keeps a field whose key it does not write, in its place. */
  lemma MarkKeepsField(o: Object, visible: bool, i: nat)
    requires i < |o| && !Written(o[i].key)
    ensures i < |Mark(o, visible)| && Mark(o, visible)[i] == o[i]
  {
    var r := Put(o, "visibility", Num(Bit(visible)));
    PutFrame(o, "visibility", Num(Bit(visible)));
    PutFrame(r, "cls", Str("hidden"));
    PutFrame(Put(r, "cls", Str("hidden")), "addClass", Str("dynatree-hidden"));
  }

  /** The array's writes keep a field whose key they do not write, in its place. */
  lemma FinishKeepsField(c: Object, i: nat, hidden: bool, k: nat)
    requires k < |c| && !Written(c[k].key)
    ensures k < |Finish(c, i, hidden)| && Finish(c, i, hidden)[k] == c[k]
  {
    var c1 := Put(c, "index", Num(i));
    PutFrame(c, "index", Num(i));
    PutFrame(c1, "cls", Str("hidden"));
    PutFrame(Put(c1, "cls", Str("hidden")), "addClass", Str("dynatree-hidden"));
    PutFrame(c1, "expanded", Bool(true));
  }

  /**
   * Every object reached along a clear path is still there after the crawl and
   * records its own visibility.
   */
  lemma {:induction false} CrawledAt(j: Json, q: string, pv: int, p: seq<Step>)
    requires CrawlOk(j) && IsPath(j, p) && ClearPath(j, p) && At(j, p).Obj?
    decreases |p|
    ensures CrawlOk(At(j, p))
    ensures IsPath(Crawled(j, q, pv), p) && At(Crawled(j, q, pv), p).Obj?
    ensures Member(At(Crawled(j, q, pv), p).fields, "visibility") == Num(Bit(Matches(At(j, p), q)))
  {
    if p == [] {
      ObjectVisibility(j.fields, q, pv);
    } else {
      var rest := p[1..];
      match p[0]
      case FieldAt(i) =>
        var fs := j.fields;
        MarkKeepsField(Walked(fs, q), Matches(j, q), i);
        CrawledAt(fs[i].value, q, Bit(SeenBefore(fs, q, i)), rest);
      case Elem(i) =>
        var e := j.elems[i];
        assert Crawled(j, q, pv).elems[i] == CrawledElement(e, i, q, pv);
        if rest == [] {
          ElementMarks(e, i, q, pv);
        } else {
          HitlessStepIsInside(e, rest);
          match rest[0]
          case FieldAt(k) =>
            var m := Crawled(e, q, pv).fields;
            CrawledObject(e.fields, q, pv);
            MarkKeepsField(Walked(e.fields, q), Matches(e, q), k);
            FinishKeepsField(m, i, !Matches(e, q) && pv == 0, k);
            CrawledAt(e, q, pv, rest);
        }
    }
  }

  /** A path that goes on from a value goes on from an object or an array. */
  lemma HitlessStepIsInside(j: Json, p: seq<Step>)
    requires p != [] && IsPath(j, p)
    ensures IsObjectLike(j)
    ensures j.Obj? ==> p[0].FieldAt?
  {
  }

  /**
   * After `setVisibility`, every object along a clear path has `visibility` 1
   * exactly when some object at or below it has a title holding the query,
   * compared lower-cased.
   */
  lemma EveryObjectRecordsVisibility(j: Json, query: string, p: seq<Step>)
    requires CrawlOk(j) && IsPath(j, p) && ClearPath(j, p) && At(j, p).Obj?
    ensures IsPath(SetVisibilityOf(j, query), p) && At(SetVisibilityOf(j, query), p).Obj?
    ensures Member(At(SetVisibilityOf(j, query), p).fields, "visibility") == Num(1) <==>
      exists p' :: HitAt(At(j, p), Lower(query), p')
  {
    CrawledAt(j, Lower(query), 0, p);
    MatchesIffPath(At(j, p), Lower(query));
  }

  // ---------------------------------------------------------------------------
  // Re-running the crawl
  // ---------------------------------------------------------------------------

  /** The fields the crawl writes hold no object or array. */
  predicate PlainWritten(o: Object)
  {
    forall i :: 0 <= i < |o| && Written(o[i].key) ==> !IsObjectLike(o[i].value)
  }

  /**
   * Every object of the tree keeps its written fields plain, as the nodes of the
   * index do, so overwriting them cannot hide a title.
   */
  predicate Clean(j: Json)
    decreases j
  {
    match j
    case Obj(fs) => PlainWritten(fs) && forall i :: 0 <= i < |fs| ==> Clean(fs[i].value)
    case Arr(es) => forall i :: 0 <= i < |es| ==> Clean(es[i])
    case _ => true
  }

  /**
   * `o'` is `o` after writes of plain values to written keys: every field keeps
   * its key and place, a field that changed held and holds a plain value, and
   * every field added is a plain value under a written key.
   */
  predicate WrittenOver(o': Object, o: Object)
  {
    && |o'| >= |o|
    && (forall i :: 0 <= i < |o| ==> o'[i].key == o[i].key)
    && (forall i :: 0 <= i < |o| && o'[i] != o[i] ==>
          Written(o[i].key) && !IsObjectLike(o[i].value) && !IsObjectLike(o'[i].value))
    && (forall i :: |o| <= i < |o'| ==> Written(o'[i].key) && !IsObjectLike(o'[i].value))
  }

  lemma PutWrittenOver(o: Object, k: string, v: Json)
    requires Written(k) && !IsObjectLike(v) && PlainWritten(o)
    ensures WrittenOver(Put(o, k, v), o) && PlainWritten(Put(o, k, v))
  {
    var n := KeyIndex(o, k);
    KeyIndexIsFirst(o, k);
    if n < |o| {
      assert Put(o, k, v) == o[n := Field(k, v)];
    }
  }

  lemma WrittenOverTrans(a: Object, b: Object, c: Object)
    requires WrittenOver(a, b) && WrittenOver(b, c)
    ensures WrittenOver(a, c)
  {
  }

  /** A key the crawl does not write reads the same before and after the writes. */
  lemma WrittenOverMember(o': Object, o: Object, k: string)
    requires WrittenOver(o', o) && !Written(k)
    ensures Member(o', k) == Member(o, k)
  {
    var n := KeyIndex(o, k);
    KeyIndexIsFirst(o, k);
    if n < |o| {
      MemberIsFirst(o, k, n);
      MemberIsFirst(o', k, n);
    } else {
      MemberAbsent(o, k);
      HasIff(o', k);
      MemberAbsent(o', k);
    }
  }

  /** Plain writes change neither the title hit nor which fields are visible. */
  lemma WrittenOverSeen(o': Object, o: Object, q: string)
    requires WrittenOver(o', o)
    ensures forall i :: 0 <= i <= |o| ==> (SeenBefore(o', q, i) <==> SeenBefore(o, q, i))
    ensures Matches(Obj(o'), q) <==> Matches(Obj(o), q)
  {
    WrittenOverMember(o', o, "title");
    assert forall k :: 0 <= k < |o| ==> (Matches(o'[k].value, q) <==> Matches(o[k].value, q));
    assert forall k :: |o| <= k < |o'| ==> !Matches(o'[k].value, q);
  }

  lemma WalkedPlain(fs: Object, q: string)
    requires PlainWritten(fs)
    ensures PlainWritten(Walked(fs, q))
  {
  }

  lemma MarkWrittenOver(o: Object, visible: bool)
    requires PlainWritten(o)
    ensures WrittenOver(Mark(o, visible), o) && PlainWritten(Mark(o, visible))
  {
    var r := Put(o, "visibility", Num(Bit(visible)));
    PutWrittenOver(o, "visibility", Num(Bit(visible)));
    if !visible {
      var r1 := Put(r, "cls", Str("hidden"));
      PutWrittenOver(r, "cls", Str("hidden"));
      PutWrittenOver(r1, "addClass", Str("dynatree-hidden"));
      WrittenOverTrans(r1, r, o);
      WrittenOverTrans(Put(r1, "addClass", Str("dynatree-hidden")), r1, o);
    }
  }

  lemma FinishWrittenOver(c: Object, i: nat, hidden: bool)
    requires PlainWritten(c)
    ensures WrittenOver(Finish(c, i, hidden), c) && PlainWritten(Finish(c, i, hidden))
  {
    var c1 := Put(c, "index", Num(i));
    PutWrittenOver(c, "index", Num(i));
    if hidden {
      var c2 := Put(c1, "cls", Str("hidden"));
      PutWrittenOver(c1, "cls", Str("hidden"));
      PutWrittenOver(c2, "addClass", Str("dynatree-hidden"));
      WrittenOverTrans(c2, c1, c);
      WrittenOverTrans(Put(c2, "addClass", Str("dynatree-hidden")), c2, c);
    } else if Truthy(Member(c1, "isFolder")) {
      PutWrittenOver(c1, "expanded", Bool(true));
      WrittenOverTrans(Put(c1, "expanded", Bool(true)), c1, c);
    }
  }

  /** Crawling a tree does not change whether it is visible. */
  lemma CrawlKeepsMatches(j: Json, q: string, pv: int)
    requires Clean(j)
    decreases j, 1
    ensures Matches(Crawled(j, q, pv), q) <==> Matches(j, q)
  {
    match j
    case Obj(fs) =>
      WalkedSeen(fs, q);
      WalkedPlain(fs, q);
      MarkWrittenOver(Walked(fs, q), Matches(j, q));
      WrittenOverSeen(Mark(Walked(fs, q), Matches(j, q)), Walked(fs, q), q);
    case Arr(es) =>
      var r := Crawled(j, q, pv).elems;
      forall i | 0 <= i < |es| ensures (r[i].Obj? && Matches(r[i], q)) <==> (es[i].Obj? && Matches(es[i], q)) {
        ElementKeepsMatches(es[i], i, q, pv);
      }
    case _ =>
  }

  /** The walk over the fields keeps the running visibility the walk hands on, at every position. */
  lemma WalkedSeen(fs: Object, q: string)
    requires Clean(Obj(fs))
    decreases Obj(fs), 0
    ensures forall i :: 0 <= i <= |fs| ==> (SeenBefore(Walked(fs, q), q, i) <==> SeenBefore(fs, q, i))
    ensures Matches(Obj(Walked(fs, q)), q) <==> Matches(Obj(fs), q)
  {
    var w := Walked(fs, q);
    MemberWalked(fs, q, "title");
    forall k | 0 <= k < |fs| ensures Matches(w[k].value, q) <==> Matches(fs[k].value, q) {
      CrawlKeepsMatches(fs[k].value, q, Bit(SeenBefore(fs, q, k)));
    }
  }

  lemma ElementKeepsMatches(e: Json, i: nat, q: string, pv: int)
    requires Clean(e)
    decreases e, 2
    ensures CrawledElement(e, i, q, pv).Obj? <==> e.Obj?
    ensures Matches(CrawledElement(e, i, q, pv), q) <==> Matches(e, q)
  {
    if e.Obj? {
      var w := Walked(e.fields, q);
      var c := Mark(w, Matches(e, q));
      CrawlKeepsMatches(e, q, pv);
      CrawledObject(e.fields, q, pv);
      WalkedPlain(e.fields, q);
      MarkWrittenOver(w, Matches(e, q));
      FinishWrittenOver(c, i, !Matches(e, q) && pv == 0);
      WrittenOverSeen(Finish(c, i, !Matches(e, q) && pv == 0), c, q);
    }
  }

  /** An object that already records a visibility and its classes is not changed by marking it so again. */
  lemma MarkRecorded(o: Object, visible: bool)
    requires Member(o, "visibility") == Num(Bit(visible))
    requires !visible ==> Member(o, "cls") == Str("hidden") && Member(o, "addClass") == Str("dynatree-hidden")
    ensures Mark(o, visible) == o
  {
    MemberDefined(o, "visibility");
    PutExisting(o, "visibility", Num(Bit(visible)));
    if !visible {
      MemberDefined(o, "cls");
      MemberDefined(o, "addClass");
      PutExisting(o, "cls", Str("hidden"));
      PutExisting(o, "addClass", Str("dynatree-hidden"));
    }
  }

  /** The array's writes leave the classes alone on an element they do not hide. */
  lemma FinishKeepsClasses(c: Object, i: nat)
    ensures Member(Finish(c, i, false), "cls") == Member(c, "cls")
    ensures Member(Finish(c, i, false), "addClass") == Member(c, "addClass")
  {
    var c1 := Put(c, "index", Num(i));
    MemberPutOther(c, "index", Num(i), "cls");
    MemberPutOther(c, "index", Num(i), "addClass");
    MemberPutOther(c1, "expanded", Bool(true), "cls");
    MemberPutOther(c1, "expanded", Bool(true), "addClass");
  }

  /** The array's writes, made twice, are made once. */
  lemma FinishTwice(c: Object, i: nat, hidden: bool)
    ensures Finish(Finish(c, i, hidden), i, hidden) == Finish(c, i, hidden)
  {
    var c1 := Put(c, "index", Num(i));
    var f := Finish(c, i, hidden);
    FinishFacts(c, i, hidden);
    MemberDefined(f, "index");
    PutExisting(f, "index", Num(i));
    if hidden {
      MemberDefined(f, "cls");
      MemberDefined(f, "addClass");
      PutExisting(f, "cls", Str("hidden"));
      PutExisting(f, "addClass", Str("dynatree-hidden"));
    } else if Truthy(Member(c1, "isFolder")) {
      MemberPutOther(c1, "expanded", Bool(true), "isFolder");
      PutTwice(c1, "expanded", Bool(true));
    }
  }

  /** Crawling a crawled tree again gives the same tree. */
  lemma CrawlIdempotent(j: Json, q: string, pv: int)
    requires Clean(j)
    decreases j, 1
    ensures Crawled(Crawled(j, q, pv), q, pv) == Crawled(j, q, pv)
  {
    match j
    case Obj(fs) =>
      var w := Walked(fs, q);
      var m := Matches(j, q);
      var c := Mark(w, m);
      CrawledObject(fs, q, pv);
      WalkedPlain(fs, q);
      MarkWrittenOver(w, m);
      WalkedFixed(fs, c, q);
      WalkedSeen(fs, q);
      WrittenOverSeen(c, w, q);
      MarkFacts(w, m);
      MarkRecorded(c, m);
      CrawledObject(c, q, pv);
    case Arr(es) =>
      var r := Crawled(j, q, pv);
      forall i | 0 <= i < |es| ensures Crawled(r, q, pv).elems[i] == r.elems[i] {
        ElementIdem(es[i], i, q, pv);
      }
    case _ =>
  }

  /** A walked object after plain writes is not changed by walking its fields again. */
  lemma WalkedFixed(fs: Object, o: Object, q: string)
    requires Clean(Obj(fs)) && WrittenOver(o, Walked(fs, q))
    decreases Obj(fs), 0
    ensures Walked(o, q) == o
  {
    var w := Walked(fs, q);
    WalkedSeen(fs, q);
    WrittenOverSeen(o, w, q);
    forall i | 0 <= i < |o| ensures Walked(o, q)[i] == o[i] {
      if i < |fs| && o[i] == w[i] {
        CrawlIdempotent(fs[i].value, q, Bit(SeenBefore(fs, q, i)));
      }
    }
  }

  lemma ElementIdem(e: Json, i: nat, q: string, pv: int)
    requires Clean(e)
    decreases e, 2
    ensures CrawledElement(CrawledElement(e, i, q, pv), i, q, pv) == CrawledElement(e, i, q, pv)
  {
    if e.Obj? {
      var fs := e.fields;
      var w := Walked(fs, q);
      var m := Matches(e, q);
      var c := Mark(w, m);
      var h := !m && pv == 0;
      var f := Finish(c, i, h);
      CrawledObject(fs, q, pv);
      assert CrawledElement(e, i, q, pv) == Obj(f);
      WalkedPlain(fs, q);
      MarkWrittenOver(w, m);
      FinishWrittenOver(c, i, h);
      WrittenOverTrans(f, c, w);
      WalkedFixed(fs, f, q);
      WalkedSeen(fs, q);
      WrittenOverSeen(f, w, q);
      MarkFacts(w, m);
      FinishFacts(c, i, h);
      if !h {
        FinishKeepsClasses(c, i);
      }
      MarkRecorded(f, m);
      CrawledObject(f, q, pv);
      FinishTwice(c, i, h);
    }
  }

  /**
   * Searching twice for the same text leaves the tree as one search did, on a
   * tree whose `visibility`, `cls`, `addClass`, `index` and `expanded` fields
   * hold plain values.
   */
  lemma SetVisibilityIdempotent(j: Json, query: string)
    requires Clean(j)
    ensures SetVisibilityOf(SetVisibilityOf(j, query), query) == SetVisibilityOf(j, query)
  {
    CrawlIdempotent(j, Lower(query), 0);
  }
}
