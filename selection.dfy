/**
 * `setChecked`: marks the nodes whose ids are in a given list as checked and
 * selected. It walks every array element and every own field at any depth; only
 * objects met as array elements are candidates.
 */
module Selection {
  import opened Json

  /** An object element whose `id` is one of `ids`. */
  predicate IsTarget(e: Json, ids: seq<string>)
  {
    e.Obj? && Member(e.fields, "id").Str? && Member(e.fields, "id").s in ids
  }

  /** `litem.checked = true; litem.select = true`. */
  function Flag(o: Object): Object
  {
    Put(Put(o, "checked", Bool(true)), "select", Bool(true))
  }

  /**
   * The tree after the walk. An object's fields are walked in place; an array
   * element is walked and, when it is a target, flagged.
   */
  function SetChecked(j: Json, ids: seq<string>): (r: Json)
    decreases j, 0
    ensures j.Obj? <==> r.Obj?
    ensures j.Arr? <==> r.Arr?
    ensures j.Obj? ==> |r.fields| == |j.fields|
    ensures j.Arr? ==> |r.elems| == |j.elems|
    ensures !j.Obj? && !j.Arr? ==> r == j
  {
    match j
    case Arr(s) => Arr(seq(|s|, i requires 0 <= i < |s| => SetCheckedElement(s[i], ids)))
    case Obj(fs) => Obj(seq(|fs|, i requires 0 <= i < |fs| => Field(fs[i].key, SetChecked(fs[i].value, ids))))
    case _ => j
  }

  /** What the walk makes of one array element. */
  function SetCheckedElement(e: Json, ids: seq<string>): Json
    decreases e, 1
  {
    if IsTarget(e, ids) then Obj(Flag(SetChecked(e, ids).fields)) else SetChecked(e, ids)
  }

  /** The walk, as a function on values. */
  function Walker(ids: seq<string>): Json -> Json
  {
    v => SetChecked(v, ids)
  }

  /** The walk over an object's fields is the walk applied to each value. */
  lemma FieldsWalked(fs: Object, ids: seq<string>)
    ensures SetChecked(Obj(fs), ids).fields == MapValues(fs, Walker(ids))
  {
  }

  /**
   * The source flags an element before walking it; the flags are primitive
   * values the walk leaves alone, so flagging after the walk gives the same tree.
   */
  lemma ElementInSourceOrder(e: Json, ids: seq<string>)
    ensures SetCheckedElement(e, ids) == SetChecked(if IsTarget(e, ids) then Obj(Flag(e.fields)) else e, ids)
  {
    if IsTarget(e, ids) {
      var f := Walker(ids);
      var fs := e.fields;
      FieldsWalked(fs, ids);
      FieldsWalked(Flag(fs), ids);
      MapValuesPut(fs, "checked", Bool(true), f);
      MapValuesPut(Put(fs, "checked", Bool(true)), "select", Bool(true), f);
    }
  }

  /** A flagged element has `checked` and `select` true and every other field as walked. */
  lemma TargetFlagged(e: Json, ids: seq<string>, k: string)
    requires IsTarget(e, ids)
    ensures SetCheckedElement(e, ids).Obj?
    ensures Member(SetCheckedElement(e, ids).fields, "checked") == Bool(true)
    ensures Member(SetCheckedElement(e, ids).fields, "select") == Bool(true)
    ensures k != "checked" && k != "select" ==>
      Member(SetCheckedElement(e, ids).fields, k) == SetChecked(Member(e.fields, k), ids)
  {
    var w := SetChecked(e, ids).fields;
    FieldsWalked(e.fields, ids);
    MemberPutOther(Put(w, "checked", Bool(true)), "select", Bool(true), "checked");
    if k != "checked" && k != "select" {
      MemberPutOther(Put(w, "checked", Bool(true)), "select", Bool(true), k);
      MemberPutOther(w, "checked", Bool(true), k);
      RootNotFlagged(e.fields, ids, k);
    }
  }

  /**
   * A root that is not an array element is never flagged: a root object keeps its
   * keys in order, each value walked.
   */
  lemma RootNotFlagged(fs: Object, ids: seq<string>, k: string)
    ensures Has(SetChecked(Obj(fs), ids).fields, k) <==> Has(fs, k)
    ensures Member(SetChecked(Obj(fs), ids).fields, k) == SetChecked(Member(fs, k), ids)
  {
    FieldsWalked(fs, ids);
    MemberMapValues(fs, Walker(ids), k);
    if !Has(fs, k) {
      MemberAbsent(fs, k);
    }
  }

  /** No step of `p` enters a `checked` or `select` field, the two fields flagging overwrites. */
  predicate ClearPath(j: Json, p: seq<Step>)
    requires IsPath(j, p)
    decreases |p|
  {
    p == [] ||
    match p[0]
    case Elem(i) => ClearPath(j.elems[i], p[1..])
    case FieldAt(i) =>
      j.fields[i].key != "checked" && j.fields[i].key != "select" && ClearPath(j.fields[i].value, p[1..])
  }

  /** Past a field other than `checked` or `select`, a flagged element reads like the walked one. */
  lemma FlagKeepsField(e: Json, ids: seq<string>, k: nat)
    requires e.Obj? && k < |e.fields| && e.fields[k].key != "checked" && e.fields[k].key != "select"
    ensures SetCheckedElement(e, ids).Obj? && k < |SetCheckedElement(e, ids).fields|
    ensures SetCheckedElement(e, ids).fields[k] == SetChecked(e, ids).fields[k]
  {
    var w := SetChecked(e, ids).fields;
    PutFrame(w, "checked", Bool(true));
    PutFrame(Put(w, "checked", Bool(true)), "select", Bool(true));
  }

  /**
   * Every position of the tree survives the walk, and what it holds is the value
   * there walked, flagged when the position is an array element that is a target.
   */
  lemma {:induction false} SetCheckedAt(j: Json, ids: seq<string>, p: seq<Step>)
    requires IsPath(j, p) && ClearPath(j, p)
    decreases |p|
    ensures IsPath(SetChecked(j, ids), p)
    ensures At(SetChecked(j, ids), p) ==
      if EndsInElement(p) then SetCheckedElement(At(j, p), ids) else SetChecked(At(j, p), ids)
  {
    if p != [] {
      var rest := p[1..];
      match p[0]
      case FieldAt(i) =>
        SetCheckedAt(j.fields[i].value, ids, rest);
        assert EndsInElement(p) <==> EndsInElement(rest) by {
          if rest != [] { assert p[|p| - 1] == rest[|rest| - 1]; }
        }
      case Elem(i) =>
        var e := j.elems[i];
        if rest == [] {
          assert EndsInElement(p);
        } else {
          assert p[|p| - 1] == rest[|rest| - 1];
          match rest[0]
          case FieldAt(k) =>
            FlagKeepsField(e, ids, k);
            SetCheckedAt(e.fields[k].value, ids, rest[1..]);
            assert EndsInElement(rest) <==> EndsInElement(rest[1..]) by {
              if rest[1..] != [] { assert rest[|rest| - 1] == rest[1..][|rest[1..]| - 1]; }
            }
          case Elem(_) =>
            SetCheckedAt(e, ids, rest);
        }
    }
  }

  /** Along a clear path, a target array element ends up checked and selected. */
  lemma TargetsAreFlagged(j: Json, ids: seq<string>, p: seq<Step>)
    requires IsPath(j, p) && ClearPath(j, p) && EndsInElement(p) && IsTarget(At(j, p), ids)
    ensures IsPath(SetChecked(j, ids), p)
    ensures At(SetChecked(j, ids), p).Obj?
    ensures Member(At(SetChecked(j, ids), p).fields, "checked") == Bool(true)
    ensures Member(At(SetChecked(j, ids), p).fields, "select") == Bool(true)
  {
    SetCheckedAt(j, ids, p);
    TargetFlagged(At(j, p), ids, "checked");
  }

  /** Every string, number, boolean, `null` and `undefined` along a clear path is left as it was. */
  lemma PrimitivesKept(j: Json, ids: seq<string>, p: seq<Step>)
    requires IsPath(j, p) && ClearPath(j, p) && !At(j, p).Obj? && !At(j, p).Arr?
    ensures IsPath(SetChecked(j, ids), p) && At(SetChecked(j, ids), p) == At(j, p)
  {
    SetCheckedAt(j, ids, p);
  }

  /** Flagging twice is flagging once. */
  lemma FlagTwice(o: Object)
    ensures Flag(Flag(o)) == Flag(o)
  {
    var a := Put(o, "checked", Bool(true));
    var b := Put(a, "select", Bool(true));
    MemberPutOther(a, "select", Bool(true), "checked");
    PutExisting(b, "checked", Bool(true));
    PutTwice(b, "select", Bool(true));
    PutExisting(b, "select", Bool(true));
  }

  /** The walk keeps an element's `id`, so whether it is a target. */
  lemma TargetKept(e: Json, ids: seq<string>)
    ensures IsTarget(SetCheckedElement(e, ids), ids) <==> IsTarget(e, ids)
  {
    if e.Obj? {
      var w := SetChecked(e, ids).fields;
      RootNotFlagged(e.fields, ids, "id");
      if IsTarget(e, ids) {
        TargetFlagged(e, ids, "id");
      }
    }
  }

  /** Running the walk twice with the same ids gives the same tree as running it once. */
  lemma {:induction false} SetCheckedIdempotent(j: Json, ids: seq<string>)
    decreases j, 0
    ensures SetChecked(SetChecked(j, ids), ids) == SetChecked(j, ids)
  {
    match j
    case Arr(s) =>
      var r := SetChecked(j, ids);
      forall i | 0 <= i < |s| ensures SetCheckedElement(r.elems[i], ids) == r.elems[i] {
        ElementIdempotent(s[i], ids);
      }
    case Obj(fs) =>
      forall i | 0 <= i < |fs| ensures SetChecked(SetChecked(fs[i].value, ids), ids) == SetChecked(fs[i].value, ids) {
        SetCheckedIdempotent(fs[i].value, ids);
      }
    case _ =>
  }

  lemma {:induction false} ElementIdempotent(e: Json, ids: seq<string>)
    decreases e, 1
    ensures SetCheckedElement(SetCheckedElement(e, ids), ids) == SetCheckedElement(e, ids)
  {
    var once := SetCheckedElement(e, ids);
    SetCheckedIdempotent(e, ids);
    TargetKept(e, ids);
    if IsTarget(e, ids) {
      var w := SetChecked(e, ids).fields;
      // Walking the flagged tree is flagging the walked one, and both steps settle.
      ElementInSourceOrder(Obj(w), ids);
      assert SetChecked(Obj(w), ids) == Obj(w);
      assert IsTarget(Obj(w), ids) by { RootNotFlagged(e.fields, ids, "id"); }
      FlagTwice(w);
      assert SetChecked(Obj(Flag(w)), ids) == Obj(Flag(Flag(w)));
    }
  }
}
