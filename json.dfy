/**
 * JavaScript values as the indexer sees them: the metadata index is a tree of
 * plain objects and arrays. Objects keep their own keys in insertion order,
 * because the tree walks visit every own field in that order.
 */
module Json {

  datatype Json =
    | Undefined
    | Null
    | Bool(b: bool)
    | Num(n: int)
    | Str(s: string)
    | Arr(elems: seq<Json>)
    | Obj(fields: seq<Field>)

  datatype Field = Field(key: string, value: Json)

  /** The own fields of a plain object, in enumeration order. */
  type Object = seq<Field>

  /** `o.k`: the value of the first field named `k`, or `undefined`. */
  function Member(o: Object, k: string): Json
  {
    if o == [] then Undefined
    else if o[0].key == k then o[0].value
    else Member(o[1..], k)
  }

  /** `_.has(o, k)`: `k` is an own key of `o`. */
  predicate Has(o: Object, k: string)
  {
    o != [] && (o[0].key == k || Has(o[1..], k))
  }

  /** The position of the first field named `k`, or `|o|` when there is none. */
  function KeyIndex(o: Object, k: string): (i: nat)
    ensures i <= |o|
    ensures i < |o| <==> Has(o, k)
  {
    if o == [] then 0
    else if o[0].key == k then 0
    else KeyIndex(o[1..], k) + 1
  }

  /**
   * `o.k = v`: an existing field keeps its place and takes the new value;
   * a new key is appended at the end of the enumeration order.
   */
  function Put(o: Object, k: string, v: Json): (r: Object)
    ensures |r| == if Has(o, k) then |o| else |o| + 1
    ensures Has(r, k) && Member(r, k) == v
    ensures !Has(o, k) ==> r == o + [Field(k, v)]
  {
    var i := KeyIndex(o, k);
    var r := if i < |o| then o[i := Field(k, v)] else o + [Field(k, v)];
    KeyIndexIsFirst(o, k);
    assert forall j :: 0 <= j < i ==> r[j] == o[j];
    MemberIsFirst(r, k, i);
    HasAt(r, k, i);
    r
  }

  /** The array holding the objects of `s`, in order. */
  function Objects(s: seq<Object>): seq<Json>
  {
    seq(|s|, i requires 0 <= i < |s| => Obj(s[i]))
  }

  /** `_.find(s, { k: v })`: the position of the first object whose `k` is the string `v`, or `|s|`. */
  function FindWhere(s: seq<Json>, k: string, v: string): (i: nat)
    ensures i <= |s|
    ensures i < |s| ==> s[i].Obj? && Member(s[i].fields, k) == Str(v)
    ensures forall j :: 0 <= j < i ==> !(s[j].Obj? && Member(s[j].fields, k) == Str(v))
  {
    if s == [] then 0
    else if s[0].Obj? && Member(s[0].fields, k) == Str(v) then 0
    else
      var i := FindWhere(s[1..], k, v) + 1;
      assert forall j :: 0 < j < |s| ==> s[j] == s[1..][j - 1];
      i
  }

  /** JavaScript truthiness of a value (numbers are integers here). */
  predicate Truthy(v: Json)
  {
    match v
    case Undefined => false
    case Null => false
    case Bool(b) => b
    case Num(n) => n != 0
    case Str(s) => s != ""
    case _ => true
  }

  /** `a || b` on JavaScript values: the first operand when it is truthy, else the second. */
  function Or(a: Json, b: Json): (r: Json)
    ensures Truthy(r) <==> Truthy(a) || Truthy(b)
  {
    if Truthy(a) then a else b
  }

  /** `_.isObject(v)`: arrays count as objects too. */
  predicate IsObjectLike(v: Json)
  {
    v.Arr? || v.Obj?
  }

  // ---------------------------------------------------------------------------
  // Facts about field lookup and update
  // ---------------------------------------------------------------------------

  lemma {:induction false} HasAt(o: Object, k: string, i: nat)
    requires i < |o| && o[i].key == k
    ensures Has(o, k)
  {
    if i > 0 {
      HasAt(o[1..], k, i - 1);
    }
  }

  /** `k` is an own key exactly when some field carries it. */
  lemma {:induction false} HasIff(o: Object, k: string)
    ensures Has(o, k) <==> exists i :: 0 <= i < |o| && o[i].key == k
  {
    if exists i :: 0 <= i < |o| && o[i].key == k {
      var i :| 0 <= i < |o| && o[i].key == k;
      HasAt(o, k, i);
    }
    if Has(o, k) {
      KeyIndexIsFirst(o, k);
      assert o[KeyIndex(o, k)].key == k;
    }
  }

  lemma {:induction false} KeyIndexIsFirst(o: Object, k: string)
    ensures KeyIndex(o, k) < |o| ==> o[KeyIndex(o, k)].key == k
    ensures forall j :: 0 <= j < KeyIndex(o, k) ==> o[j].key != k
  {
    if o != [] && o[0].key != k {
      KeyIndexIsFirst(o[1..], k);
      assert forall j :: 0 < j <= |o[1..]| ==> o[j] == o[1..][j - 1];
    }
  }

  lemma {:induction false} MemberIsFirst(o: Object, k: string, i: nat)
    requires i < |o| && o[i].key == k
    requires forall j :: 0 <= j < i ==> o[j].key != k
    ensures Member(o, k) == o[i].value
  {
    if i > 0 {
      MemberIsFirst(o[1..], k, i - 1);
    }
  }

  lemma {:induction false} MemberAbsent(o: Object, k: string)
    requires !Has(o, k)
    ensures Member(o, k) == Undefined
  {
    if o != [] {
      MemberAbsent(o[1..], k);
    }
  }

  /** A key whose value is not `undefined` is an own key. */
  lemma {:induction false} MemberDefined(o: Object, k: string)
    ensures Member(o, k) != Undefined ==> Has(o, k)
  {
    if o != [] && o[0].key != k {
      MemberDefined(o[1..], k);
    }
  }

  /** Every field keeps its key and place, and fields with other keys keep their values. */
  lemma PutFrame(o: Object, k: string, v: Json)
    ensures forall i :: 0 <= i < |o| ==> Put(o, k, v)[i].key == o[i].key
    ensures forall i :: 0 <= i < |o| && o[i].key != k ==> Put(o, k, v)[i] == o[i]
  {
    KeyIndexIsFirst(o, k);
  }

  /** Writing one key leaves every other key's value as it was. */
  lemma MemberPutOther(o: Object, k: string, v: Json, k': string)
    requires k' != k
    ensures Member(Put(o, k, v), k') == Member(o, k')
    ensures Has(Put(o, k, v), k') <==> Has(o, k')
  {
    var r := Put(o, k, v);
    HasPutOther(o, k, v, k');
    PutFrame(o, k, v);
    KeyIndexIsFirst(o, k');
    var j := KeyIndex(o, k');
    if j < |o| {
      MemberIsFirst(o, k', j);
      MemberIsFirst(r, k', j);
    } else {
      MemberAbsent(o, k');
      MemberAbsent(r, k');
    }
  }

  lemma HasPutOther(o: Object, k: string, v: Json, k': string)
    requires k' != k
    ensures Has(Put(o, k, v), k') <==> Has(o, k')
  {
    var r := Put(o, k, v);
    PutFrame(o, k, v);
    HasIff(o, k');
    HasIff(r, k');
    if Has(o, k') {
      var i :| 0 <= i < |o| && o[i].key == k';
      assert r[i].key == k';
    }
    if Has(r, k') {
      var i :| 0 <= i < |r| && r[i].key == k';
      if i < |o| {
        assert o[i].key == k';
      }
    }
  }

  /** Writing a key the object already holds with that very value changes nothing. */
  lemma PutExisting(o: Object, k: string, v: Json)
    requires Has(o, k) && Member(o, k) == v
    ensures Put(o, k, v) == o
  {
    KeyIndexIsFirst(o, k);
    var i := KeyIndex(o, k);
    MemberIsFirst(o, k, i);
    assert o[i] == Field(k, v);
  }

  /** Assigning the same value twice is the same as assigning it once. */
  lemma PutTwice(o: Object, k: string, v: Json)
    ensures Put(Put(o, k, v), k, v) == Put(o, k, v)
  {
    PutExisting(Put(o, k, v), k, v);
  }

  // ---------------------------------------------------------------------------
  // A run of assignments `o.k1 = v1; o.k2 = v2; ...`
  // ---------------------------------------------------------------------------

  /** No key occurs twice among `fs`. */
  predicate DistinctKeys(fs: Object)
  {
    forall i, j :: 0 <= i < j < |fs| ==> fs[i].key != fs[j].key
  }

  /** In an object literal with distinct keys, each key holds the value written beside it. */
  lemma MemberOfLiteral(fs: Object, i: nat)
    requires DistinctKeys(fs) && i < |fs|
    ensures Member(fs, fs[i].key) == fs[i].value
  {
    MemberIsFirst(fs, fs[i].key, i);
  }

  /** The assignments `o[f.key] = f.value` for each field `f` of `fs`, in order. */
  function Assign(o: Object, fs: Object): Object
    decreases |fs|
  {
    if fs == [] then o else Assign(Put(o, fs[0].key, fs[0].value), fs[1..])
  }

  /** After the run, each assigned key holds its assigned value and every other key is untouched. */
  lemma {:induction false} AssignMember(o: Object, fs: Object, k: string)
    requires DistinctKeys(fs)
    decreases |fs|
    ensures Member(Assign(o, fs), k) == if Has(fs, k) then Member(fs, k) else Member(o, k)
    ensures Has(Assign(o, fs), k) <==> Has(fs, k) || Has(o, k)
  {
    if fs != [] {
      var o' := Put(o, fs[0].key, fs[0].value);
      assert DistinctKeys(fs[1..]) by {
        forall i, j | 0 <= i < j < |fs[1..]| ensures fs[1..][i].key != fs[1..][j].key {
          assert fs[1..][i] == fs[i + 1] && fs[1..][j] == fs[j + 1];
        }
      }
      AssignMember(o', fs[1..], k);
      if k == fs[0].key {
        assert !Has(fs[1..], k) by {
          HasIff(fs[1..], k);
          forall i | 0 <= i < |fs[1..]| ensures fs[1..][i].key != k {
            assert fs[1..][i] == fs[i + 1];
          }
        }
      } else {
        MemberPutOther(o, fs[0].key, fs[0].value, k);
      }
    }
  }

  /** The `i`-th assignment of a run over distinct keys is the one its key ends up holding. */
  lemma AssignedAt(o: Object, fs: Object, i: nat)
    requires DistinctKeys(fs) && i < |fs|
    ensures Member(Assign(o, fs), fs[i].key) == fs[i].value
  {
    AssignMember(o, fs, fs[i].key);
    MemberIsFirst(fs, fs[i].key, i);
    HasAt(fs, fs[i].key, i);
  }

  /** ... and keeps it through a later assignment to another key. */
  lemma AssignedAtThenPut(o: Object, fs: Object, i: nat, k: string, v: Json)
    requires DistinctKeys(fs) && i < |fs| && fs[i].key != k
    ensures Member(Put(Assign(o, fs), k, v), fs[i].key) == fs[i].value
  {
    AssignedAt(o, fs, i);
    MemberPutOther(Assign(o, fs), k, v, fs[i].key);
  }

  /** The run keeps every existing key in its place and appends only keys that are new. */
  lemma {:induction false} AssignKeepsKeys(o: Object, fs: Object)
    decreases |fs|
    ensures |Assign(o, fs)| >= |o|
    ensures forall i :: 0 <= i < |o| ==> Assign(o, fs)[i].key == o[i].key
  {
    if fs != [] {
      PutFrame(o, fs[0].key, fs[0].value);
      AssignKeepsKeys(Put(o, fs[0].key, fs[0].value), fs[1..]);
    }
  }

  // ---------------------------------------------------------------------------
  // Rewriting every own field's value, keys and order kept
  // ---------------------------------------------------------------------------

  /** The object with `f` applied to the value of each field. */
  function MapValues(o: Object, f: Json -> Json): (r: Object)
    ensures |r| == |o|
    ensures forall i :: 0 <= i < |o| ==> r[i] == Field(o[i].key, f(o[i].value))
  {
    seq(|o|, i requires 0 <= i < |o| => Field(o[i].key, f(o[i].value)))
  }

  /** Two objects with the same keys in the same order agree on where each key first occurs. */
  lemma {:induction false} KeyIndexSameKeys(o: Object, o': Object, k: string)
    requires |o| == |o'| && forall i :: 0 <= i < |o| ==> o[i].key == o'[i].key
    ensures KeyIndex(o, k) == KeyIndex(o', k)
  {
    if o != [] && o[0].key != k {
      KeyIndexSameKeys(o[1..], o'[1..], k);
    }
  }

  /** Two objects with the same keys in the same order find a key at the same place, or both miss it. */
  lemma MemberSameKeys(o: Object, o': Object, k: string)
    requires |o| == |o'| && forall i :: 0 <= i < |o| ==> o[i].key == o'[i].key
    ensures Has(o', k) <==> Has(o, k)
    ensures Has(o, k) ==> (KeyIndex(o, k) < |o| &&
      Member(o, k) == o[KeyIndex(o, k)].value && Member(o', k) == o'[KeyIndex(o, k)].value)
    ensures !Has(o, k) ==> Member(o', k) == Undefined
  {
    KeyIndexSameKeys(o, o', k);
    KeyIndexIsFirst(o, k);
    KeyIndexIsFirst(o', k);
    if Has(o, k) {
      MemberIsFirst(o, k, KeyIndex(o, k));
      MemberIsFirst(o', k, KeyIndex(o, k));
    } else {
      MemberAbsent(o', k);
    }
  }

  /** Rewriting the values commutes with a write, the written value rewritten too. */
  lemma MapValuesPut(o: Object, k: string, v: Json, f: Json -> Json)
    ensures MapValues(Put(o, k, v), f) == Put(MapValues(o, f), k, f(v))
  {
    KeyIndexSameKeys(o, MapValues(o, f), k);
    var i := KeyIndex(o, k);
    if i < |o| {
      assert MapValues(Put(o, k, v), f) == MapValues(o, f)[i := Field(k, f(v))];
    } else {
      assert MapValues(Put(o, k, v), f) == MapValues(o, f) + [Field(k, f(v))];
    }
  }

  /** Looking up a key of the rewritten object rewrites the value found (`undefined` mapped too). */
  lemma {:induction false} MemberMapValues(o: Object, f: Json -> Json, k: string)
    ensures Has(MapValues(o, f), k) <==> Has(o, k)
    ensures Has(o, k) ==> Member(MapValues(o, f), k) == f(Member(o, k))
    ensures !Has(o, k) ==> Member(MapValues(o, f), k) == Undefined
  {
    if o != [] {
      MemberMapValues(o[1..], f, k);
      assert MapValues(o, f)[1..] == MapValues(o[1..], f);
    }
  }

  // ---------------------------------------------------------------------------
  // Positions inside a tree
  // ---------------------------------------------------------------------------

  /** One step down: to an array element, or to the value of an object's field, by position. */
  datatype Step = Elem(index: nat) | FieldAt(index: nat)

  /** Following `p` from `j` stays inside the tree. */
  predicate IsPath(j: Json, p: seq<Step>)
    decreases |p|
  {
    p == [] ||
    match p[0]
    case Elem(i) => j.Arr? && i < |j.elems| && IsPath(j.elems[i], p[1..])
    case FieldAt(i) => j.Obj? && i < |j.fields| && IsPath(j.fields[i].value, p[1..])
  }

  /** The value `p` leads to. */
  function At(j: Json, p: seq<Step>): Json
    requires IsPath(j, p)
    decreases |p|
  {
    if p == [] then j
    else match p[0]
      case Elem(i) => At(j.elems[i], p[1..])
      case FieldAt(i) => At(j.fields[i].value, p[1..])
  }

  /** The last step of `p` enters an array element. */
  predicate EndsInElement(p: seq<Step>)
  {
    p != [] && p[|p| - 1].Elem?
  }
}
