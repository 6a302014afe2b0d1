/**
 * `_.sortBy(items, 'title')`: a stable ascending sort of objects by their string
 * `title`, comparing strings the way JavaScript's `<` does.
 */
module SortByTitle {
  import opened Json
  import opened Strings

  /** The sort key: the object's `title` string (the empty string for any other value). */
  function Title(o: Object): string
  {
    if Member(o, "title").Str? then Member(o, "title").s else ""
  }

  predicate SortedByTitle(s: seq<Object>)
  {
    forall i, j :: 0 <= i < j < |s| ==> LexLe(Title(s[i]), Title(s[j]))
  }

  /** The objects of `s` whose title is `t`, in their order in `s`. */
  function WithTitle(s: seq<Object>, t: string): (r: seq<Object>)
    ensures forall i :: 0 <= i < |r| ==> Title(r[i]) == t
  {
    if s == [] then []
    else (if Title(s[0]) == t then [s[0]] else []) + WithTitle(s[1..], t)
  }

  /** Places `x` before the first element whose title is not below its own. */
  function Insert(x: Object, s: seq<Object>): seq<Object>
  {
    if s == [] || LexLe(Title(x), Title(s[0])) then [x] + s
    else [s[0]] + Insert(x, s[1..])
  }

  /** The sorted sequence: each element is inserted, from the back, ahead of its equals. */
  function SortBy(s: seq<Object>): seq<Object>
  {
    if s == [] then [] else Insert(s[0], SortBy(s[1..]))
  }

  lemma {:induction false} LexLeRefl(a: string)
    ensures LexLe(a, a)
  {
    if |a| > 0 {
      LexLeRefl(a[1..]);
    }
  }

  lemma {:induction false} InsertPermutes(x: Object, s: seq<Object>)
    ensures multiset(Insert(x, s)) == multiset{x} + multiset(s)
  {
    if s != [] && !LexLe(Title(x), Title(s[0])) {
      InsertPermutes(x, s[1..]);
      assert s == [s[0]] + s[1..];
    }
  }

  /** Every title in `s` is at least `b`. */
  predicate AllAtLeast(s: seq<Object>, b: string)
  {
    forall i :: 0 <= i < |s| ==> LexLe(b, Title(s[i]))
  }

  lemma {:induction false} InsertAtLeast(x: Object, s: seq<Object>, b: string)
    requires AllAtLeast(s, b) && LexLe(b, Title(x))
    ensures AllAtLeast(Insert(x, s), b)
  {
    if s != [] && !LexLe(Title(x), Title(s[0])) {
      InsertAtLeast(x, s[1..], b);
      var r := Insert(x, s);
      assert r == [s[0]] + Insert(x, s[1..]);
      forall i | 0 <= i < |r| ensures LexLe(b, Title(r[i])) {
        if i > 0 { assert r[i] == Insert(x, s[1..])[i - 1]; }
      }
    }
  }

  lemma ConsSorted(y: Object, s: seq<Object>)
    requires SortedByTitle(s) && AllAtLeast(s, Title(y))
    ensures SortedByTitle([y] + s)
  {
    var r := [y] + s;
    forall i, j | 0 <= i < j < |r| ensures LexLe(Title(r[i]), Title(r[j])) {
      assert r[j] == s[j - 1];
      if i > 0 { assert r[i] == s[i - 1]; }
    }
  }

  lemma {:induction false} InsertSorted(x: Object, s: seq<Object>)
    requires SortedByTitle(s)
    ensures SortedByTitle(Insert(x, s))
  {
    if s == [] || LexLe(Title(x), Title(s[0])) {
      forall i | 0 <= i < |s| ensures LexLe(Title(x), Title(s[i])) {
        if i > 0 { LexLeTrans(Title(x), Title(s[0]), Title(s[i])); }
      }
      ConsSorted(x, s);
    } else {
      LexLeTotal(Title(x), Title(s[0]));
      InsertSorted(x, s[1..]);
      assert AllAtLeast(s[1..], Title(s[0])) by {
        forall i | 0 <= i < |s[1..]| ensures LexLe(Title(s[0]), Title(s[1..][i])) {
          assert s[1..][i] == s[i + 1];
        }
      }
      InsertAtLeast(x, s[1..], Title(s[0]));
      ConsSorted(s[0], Insert(x, s[1..]));
    }
  }

  /** Inserting `x` adds it to the front of its title class and leaves the other classes as they were. */
  lemma {:induction false} InsertWithTitle(x: Object, s: seq<Object>, t: string)
    requires SortedByTitle(s)
    ensures WithTitle(Insert(x, s), t) == if Title(x) == t then [x] + WithTitle(s, t) else WithTitle(s, t)
  {
    if s == [] || LexLe(Title(x), Title(s[0])) {
      assert ([x] + s)[1..] == s;
    } else {
      LexLeRefl(Title(x));
      InsertWithTitle(x, s[1..], t);
      assert ([s[0]] + Insert(x, s[1..]))[1..] == Insert(x, s[1..]);
      if Title(x) == t {
        // `s[0]` sorts strictly below `x`, so it is not in `x`'s class.
        assert Title(s[0]) != t;
      }
    }
  }

  /** The result is sorted by title. */
  lemma {:induction false} SortBySorted(s: seq<Object>)
    ensures SortedByTitle(SortBy(s))
  {
    if s != [] {
      SortBySorted(s[1..]);
      InsertSorted(s[0], SortBy(s[1..]));
    }
  }

  /** The result holds exactly the input objects. */
  lemma {:induction false} SortByPermutes(s: seq<Object>)
    ensures multiset(SortBy(s)) == multiset(s)
  {
    if s != [] {
      SortByPermutes(s[1..]);
      InsertPermutes(s[0], SortBy(s[1..]));
      assert s == [s[0]] + s[1..];
    }
  }

  /** Stability: objects with equal titles keep their input order. */
  lemma {:induction false} SortByStable(s: seq<Object>, t: string)
    ensures WithTitle(SortBy(s), t) == WithTitle(s, t)
  {
    if s != [] {
      SortByStable(s[1..], t);
      SortBySorted(s[1..]);
      InsertWithTitle(s[0], SortBy(s[1..]), t);
    }
  }
}
