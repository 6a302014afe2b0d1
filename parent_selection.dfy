/**
 * `ensureParentsAreCheckedIfNecessary`: meant to mark a top-level type node
 * checked and selected when every one of its children is selected. Its guard
 * compares the `children` array itself with 0, which JavaScript does by turning
 * the array into a string; for any array the rest of the guard lets through,
 * that string is not a positive number, so the function never changes anything.
 */
module ParentSelection {
  import opened Json
  import opened Strings
  import Selection

  // ---------------------------------------------------------------------------
  // JavaScript's `array > 0`
  // ---------------------------------------------------------------------------

  function DigitChar(d: nat): char
    requires d < 10
  {
    "0123456789"[d]
  }

  /** The decimal numeral of `n`. */
  function NatString(n: nat): string
  {
    if n < 10 then [DigitChar(n)] else NatString(n / 10) + [DigitChar(n % 10)]
  }

  /** How `Array.prototype.join` writes one element: `null` and `undefined` as nothing. */
  function JoinedString(v: Json): string
    decreases v
  {
    match v
    case Undefined => ""
    case Null => ""
    case Bool(b) => if b then "true" else "false"
    case Num(n) => if n < 0 then "-" + NatString(-n) else NatString(n)
    case Str(s) => s
    case Obj(_) => "[object Object]"
    case Arr(s) => if s == [] then "" else Join(seq(|s|, i requires 0 <= i < |s| => JoinedString(s[i])), ',')
  }

  /**
   * The white space and line terminators `ToNumber` trims from a string
   * (ECMAScript, section 7.1.4.1.1, StringToNumber).
   */
  predicate IsSpace(c: char)
  {
    c == '\t' || c == '\n' || c == '\U{B}' || c == '\U{C}' || c == '\r' || c == ' ' ||
    c == '\U{A0}' || c == '\U{1680}' || ('\U{2000}' <= c <= '\U{200A}') ||
    c == '\U{2028}' || c == '\U{2029}' || c == '\U{202F}' || c == '\U{205F}' ||
    c == '\U{3000}' || c == '\U{FEFF}'
  }

  /** `t` without leading and trailing white space. */
  function Trimmed(t: string): string
  {
    if |t| > 0 && IsSpace(t[0]) then Trimmed(t[1..])
    else if |t| > 0 && IsSpace(t[|t| - 1]) then Trimmed(t[..|t| - 1])
    else t
  }

  predicate IsDigit(c: char)
  {
    '0' <= c <= '9'
  }

  /** `DecimalDigits`: one or more decimal digits. */
  predicate Digits(s: string)
  {
    |s| > 0 && forall i :: 0 <= i < |s| ==> IsDigit(s[i])
  }

  /** Holds a digit other than '0'. */
  predicate NonZeroDigit(s: string)
  {
    exists i :: 0 <= i < |s| && '1' <= s[i] <= '9'
  }

  /**
   * The digits of a decimal literal before its exponent: `DecimalDigits`,
   * optionally with one '.' before, between or after them.
   */
  predicate Mantissa(m: string)
  {
    (exists i :: 0 <= i < |m| && IsDigit(m[i])) &&
    (forall i :: 0 <= i < |m| ==> IsDigit(m[i]) || m[i] == '.') &&
    (forall i, j :: 0 <= i < j < |m| && m[i] == '.' ==> m[j] != '.')
  }

  /** `ExponentPart`, or nothing. */
  predicate Exponent(e: string)
  {
    e == [] ||
    (|e| >= 2 && (e[0] == 'e' || e[0] == 'E') &&
     (Digits(e[1..]) || ((e[1] == '+' || e[1] == '-') && Digits(e[2..]))))
  }

  /** `StrUnsignedDecimalLiteral`. */
  predicate UnsignedDecimal(u: string)
  {
    u == "Infinity" || exists k :: 0 <= k <= |u| && Mantissa(u[..k]) && Exponent(u[k..])
  }

  /** An unsigned decimal literal whose value is above zero. */
  predicate UnsignedAboveZero(u: string)
  {
    u == "Infinity" || exists k :: 0 <= k <= |u| && Mantissa(u[..k]) && Exponent(u[k..]) && NonZeroDigit(u[..k])
  }

  /** `StrDecimalLiteral`: an unsigned decimal literal, optionally signed. */
  predicate DecimalLiteral(t: string)
  {
    UnsignedDecimal(t) || (|t| > 0 && (t[0] == '+' || t[0] == '-') && UnsignedDecimal(t[1..]))
  }

  predicate DecimalAboveZero(t: string)
  {
    UnsignedAboveZero(t) || (|t| > 0 && t[0] == '+' && UnsignedAboveZero(t[1..]))
  }

  /** A digit of the radix that the prefix letter `x` of a non-decimal literal selects. */
  predicate RadixDigit(c: char, x: char)
  {
    if x == 'b' || x == 'B' then c == '0' || c == '1'
    else if x == 'o' || x == 'O' then '0' <= c <= '7'
    else IsDigit(c) || 'a' <= c <= 'f' || 'A' <= c <= 'F'
  }

  /** `NonDecimalIntegerLiteral`: `0b`, `0o` or `0x` and digits of that radix. */
  predicate NonDecimal(t: string)
  {
    |t| >= 3 && t[0] == '0' && t[1] in "bBoOxX" && forall i :: 2 <= i < |t| ==> RadixDigit(t[i], t[1])
  }

  predicate NonDecimalAboveZero(t: string)
  {
    NonDecimal(t) && exists i :: 2 <= i < |t| && t[i] != '0'
  }

  /** `ToNumber(t)` is not `NaN`: the trimmed string is empty (0) or a numeric literal. */
  predicate ReadsAsNumber(t: string)
  {
    var u := Trimmed(t);
    u == [] || DecimalLiteral(u) || NonDecimal(u)
  }

  /** `ToNumber(t) > 0`. */
  predicate StringAboveZero(t: string)
  {
    var u := Trimmed(t);
    DecimalAboveZero(u) || NonDecimalAboveZero(u)
  }

  /** `children > 0` for an array `children`. */
  predicate ArrayAboveZero(children: seq<Json>)
  {
    StringAboveZero(JoinedString(Arr(children)))
  }

  /** A string above zero is a numeric literal. */
  lemma AboveZeroReadsAsNumber(t: string)
    requires StringAboveZero(t)
    ensures ReadsAsNumber(t)
  {
    var u := Trimmed(t);
    if u != "Infinity" && UnsignedAboveZero(u) {
      var k :| 0 <= k <= |u| && Mantissa(u[..k]) && Exponent(u[k..]) && NonZeroDigit(u[..k]);
      assert UnsignedDecimal(u);
    } else if |u| > 0 && u[0] == '+' && u[1..] != "Infinity" && UnsignedAboveZero(u[1..]) {
      var v := u[1..];
      var k :| 0 <= k <= |v| && Mantissa(v[..k]) && Exponent(v[k..]) && NonZeroDigit(v[..k]);
      assert UnsignedDecimal(v);
    }
  }

  /** `m` is a mantissa above zero that `u` consists of, with no exponent. */
  lemma PlainDecimal(u: string, m: string)
    requires u == m && Mantissa(m) && NonZeroDigit(m)
    ensures UnsignedAboveZero(u)
  {
    assert u[..|u|] == m && u[|u|..] == [];
  }

  lemma DigitMantissa(m: string, i: nat)
    requires i < |m| && IsDigit(m[i])
    requires forall j :: 0 <= j < |m| ==> IsDigit(m[j]) || (j != i && m[j] == '.')
    requires |m| <= 2
    ensures Mantissa(m)
  {
  }

  lemma PlusOneAboveZero()
    ensures StringAboveZero("+1")
  {
    assert Trimmed("+1") == "+1";
    DigitMantissa("1", 0);
    assert NonZeroDigit("1") by { assert '1' <= "1"[0] <= '9'; }
    PlainDecimal("+1"[1..], "1");
  }

  lemma FractionAboveZero()
    ensures StringAboveZero(".5")
  {
    assert Trimmed(".5") == ".5";
    DigitMantissa(".5", 1);
    assert NonZeroDigit(".5") by { assert '1' <= ".5"[1] <= '9'; }
    PlainDecimal(".5", ".5");
  }

  lemma InfinityAboveZero()
    ensures StringAboveZero("Infinity")
  {
    assert Trimmed("Infinity") == "Infinity";
  }

  lemma ExponentAboveZero()
    ensures StringAboveZero("1e3")
  {
    var u := "1e3";
    assert Trimmed(u) == u;
    DigitMantissa("1", 0);
    assert NonZeroDigit("1") by { assert '1' <= "1"[0] <= '9'; }
    assert u[..1] == "1" && u[1..] == "e3";
    assert Digits("e3"[1..]) by { assert "e3"[1..] == "3"; }
    assert Exponent(u[1..]);
  }

  lemma HexAboveZero()
    ensures StringAboveZero("0x1F")
  {
    var u := "0x1F";
    assert Trimmed(u) == u;
    assert NonDecimal(u);
    assert u[2] != '0';
  }

  /** Signed, fractional and non-decimal numerals and `Infinity` read as above zero. */
  lemma NumeralExamples()
    ensures StringAboveZero("+1") && StringAboveZero(".5") && StringAboveZero("Infinity")
    ensures StringAboveZero("1e3") && StringAboveZero("0x1F")
  {
    PlusOneAboveZero();
    FractionAboveZero();
    InfinityAboveZero();
    ExponentAboveZero();
    HexAboveZero();
  }

  /** `-1` and `0.0` read as numbers, neither above zero. */
  lemma NonPositiveExamples()
    ensures ReadsAsNumber("-1") && !StringAboveZero("-1")
    ensures ReadsAsNumber("0.0") && !StringAboveZero("0.0")
  {
    assert Trimmed("-1") == "-1" && Trimmed("0.0") == "0.0";
    DigitMantissa("1", 0);
    assert "-1"[1..][..1] == "1" && "-1"[1..][1..] == [];
    assert UnsignedDecimal("-1"[1..]);
    forall k | 0 <= k <= 2 ensures !Mantissa("-1"[..k]) {
      if k > 0 { assert "-1"[..k][0] == '-'; }
    }
    var z := "0.0";
    assert Mantissa(z) by { assert IsDigit(z[0]); }
    assert z[..3] == z && z[3..] == [];
    assert UnsignedDecimal(z);
    forall k | 0 <= k <= 3 ensures !NonZeroDigit(z[..k]) {
      assert forall i :: 0 <= i < k ==> z[..k][i] == z[i];
    }
  }

  /**
   * A string whose first character is neither white space nor one a numeric
   * literal can start with (a digit, a sign, '.', the 'I' of `Infinity`) reads
   * as `NaN`, which is not above zero.
   */
  lemma NotNumeral(t: string)
    requires |t| > 0 && !IsSpace(t[0]) && !IsDigit(t[0]) && t[0] !in "+-.I"
    ensures !ReadsAsNumber(t) && !StringAboveZero(t)
  {
    TrimKeepsFirst(t);
    var u := Trimmed(t);
    forall k | 0 <= k <= |u| ensures !Mantissa(u[..k]) {
      if k > 0 { assert u[..k][0] == u[0]; }
    }
  }

  lemma {:induction false} TrimKeepsFirst(t: string)
    requires |t| > 0 && !IsSpace(t[0])
    ensures |Trimmed(t)| > 0 && Trimmed(t)[0] == t[0]
    decreases |t|
  {
    if IsSpace(t[|t| - 1]) {
      TrimKeepsFirst(t[..|t| - 1]);
    }
  }

  /** An array whose first element is an object reads as "[object Object]...", which is not a number. */
  lemma ObjectArrayNotAboveZero(children: seq<Json>)
    requires |children| > 0 && children[0].Obj?
    ensures !ArrayAboveZero(children)
  {
    var parts := seq(|children|, i requires 0 <= i < |children| => JoinedString(children[i]));
    assert parts[0] == "[object Object]";
    var t := Join(parts, ',');
    assert t == JoinedString(Arr(children));
    assert t[0] == '[' by {
      if |parts| > 1 { assert t == parts[0] + [','] + Join(parts[1..], ','); }
    }
    NotNumeral(t);
  }

  // ---------------------------------------------------------------------------
  // Counting selected children
  // ---------------------------------------------------------------------------

  /** `c.select` is truthy; only objects carry a `select` field. */
  predicate Selected(c: Json)
  {
    c.Obj? && Truthy(Member(c.fields, "select"))
  }

  /** The number of selected elements in `s`. */
  function CountSelected(s: seq<Json>): (n: nat)
    ensures n <= |s|
  {
    if s == [] then 0 else CountSelected(s[..|s| - 1]) + (if Selected(s[|s| - 1]) then 1 else 0)
  }

  /** All children are counted exactly when every child is selected. */
  lemma {:induction false} CountSelectedAll(s: seq<Json>)
    ensures CountSelected(s) == |s| <==> forall i :: 0 <= i < |s| ==> Selected(s[i])
  {
    if s != [] {
      var n := |s| - 1;
      CountSelectedAll(s[..n]);
      assert forall i :: 0 <= i < n ==> s[..n][i] == s[i];
    }
  }

  lemma CountSelectedStep(s: seq<Json>, j: nat)
    requires j < |s|
    ensures CountSelected(s[..j + 1]) == CountSelected(s[..j]) + (if Selected(s[j]) then 1 else 0)
  {
    assert s[..j + 1][..j] == s[..j];
  }

  /** `c.select` throws on `null` and `undefined`; the walk reads it on every child. */
  predicate ChildrenReadable(t: Json)
  {
    t.Obj? && Member(t.fields, "children").Arr? ==>
      forall i :: 0 <= i < |Member(t.fields, "children").elems| ==>
        !Member(t.fields, "children").elems[i].Undefined? && !Member(t.fields, "children").elems[i].Null?
  }

  /** `metadataType.children` throws on `null` and `undefined`. */
  predicate TypeNodeOk(t: Json)
  {
    !t.Undefined? && !t.Null? && ChildrenReadable(t)
  }

  /** The children array of a type node, when it has one. */
  predicate HasChildArray(t: Json)
  {
    t.Obj? && Member(t.fields, "children").Arr?
  }

  function Children(t: Json): seq<Json>
    requires HasChildArray(t)
  {
    Member(t.fields, "children").elems
  }

  // ---------------------------------------------------------------------------
  // The function as written, and as intended
  // ---------------------------------------------------------------------------

  /** The guard as written: all children selected, and `children > 0`. */
  predicate GuardAsWritten(t: Json)
  {
    HasChildArray(t) && |Children(t)| == CountSelected(Children(t)) && ArrayAboveZero(Children(t))
  }

  /** The guard as intended: a non-empty children array, all selected. */
  predicate Guard(t: Json)
  {
    HasChildArray(t) && |Children(t)| == CountSelected(Children(t)) && |Children(t)| > 0
  }

  /** The as-written guard never holds: all-selected children are objects or there are none. */
  lemma GuardAsWrittenNeverHolds(t: Json)
    ensures !GuardAsWritten(t)
  {
    if HasChildArray(t) && |Children(t)| == CountSelected(Children(t)) {
      var s := Children(t);
      CountSelectedAll(s);
      if s == [] {
        assert JoinedString(Arr(s)) == "";
      } else {
        ObjectArrayNotAboveZero(s);
      }
    }
  }

  /** A type node after the rule as written: flagged when the written guard holds. */
  function ParentCheckedAsWritten(t: Json): Json
  {
    if GuardAsWritten(t) then Obj(Selection.Flag(t.fields)) else t
  }

  /**
   * The loop as written. Every type node is inspected, its selected children
   * counted and the written guard applied, and the tree comes back unchanged.
   */
  method EnsureParentsAreCheckedIfNecessary(orgMetadata: seq<Json>) returns (r: seq<Json>)
    requires forall i :: 0 <= i < |orgMetadata| ==> TypeNodeOk(orgMetadata[i])
    ensures |r| == |orgMetadata|
    ensures forall i :: 0 <= i < |r| ==> r[i] == ParentCheckedAsWritten(orgMetadata[i])
    ensures r == orgMetadata
  {
    r := orgMetadata;
    var i := 0;
    while i < |r|
      invariant 0 <= i <= |r| == |orgMetadata|
      invariant forall k :: 0 <= k < i ==> r[k] == ParentCheckedAsWritten(orgMetadata[k])
      invariant forall k :: i <= k < |r| ==> r[k] == orgMetadata[k]
    {
      var t := r[i];
      if HasChildArray(t) {
        var children := Children(t);
        var n := CountSelectedLoop(children);
        if |children| == n && ArrayAboveZero(children) {
          r := r[i := Obj(Selection.Flag(t.fields))];
        }
      }
      i := i + 1;
    }
    forall k | 0 <= k < |r| ensures r[k] == orgMetadata[k] {
      GuardAsWrittenNeverHolds(orgMetadata[k]);
    }
  }

  /** The counter loop over one node's children. */
  method CountSelectedLoop(children: seq<Json>) returns (n: nat)
    ensures n == CountSelected(children)
  {
    n := 0;
    var j := 0;
    while j < |children|
      invariant 0 <= j <= |children| && n == CountSelected(children[..j])
    {
      CountSelectedStep(children, j);
      if Selected(children[j]) {
        n := n + 1;
      }
      j := j + 1;
    }
    assert children[..j] == children;
  }

  /** A type node after the intended rule: flagged when its non-empty children are all selected. */
  function ParentChecked(t: Json): Json
  {
    if Guard(t) then Obj(Selection.Flag(t.fields)) else t
  }

  /** The loop with the intended guard `children.length > 0`. */
  method EnsureParentsChecked(orgMetadata: seq<Json>) returns (r: seq<Json>)
    requires forall i :: 0 <= i < |orgMetadata| ==> TypeNodeOk(orgMetadata[i])
    ensures |r| == |orgMetadata|
    ensures forall i :: 0 <= i < |r| ==> r[i] == ParentChecked(orgMetadata[i])
  {
    r := orgMetadata;
    var i := 0;
    while i < |r|
      invariant 0 <= i <= |r| == |orgMetadata|
      invariant forall k :: 0 <= k < i ==> r[k] == ParentChecked(orgMetadata[k])
      invariant forall k :: i <= k < |r| ==> r[k] == orgMetadata[k]
    {
      var t := r[i];
      if HasChildArray(t) {
        var children := Children(t);
        var n := CountSelectedLoop(children);
        if |children| == n && |children| > 0 {
          r := r[i := Obj(Selection.Flag(t.fields))];
        }
      }
      i := i + 1;
    }
  }

  /**
   * Under the intended guard a node ends up checked and selected exactly when its
   * children array is non-empty and every child is selected; other nodes are kept.
   */
  lemma ParentCheckedIff(t: Json)
    ensures Guard(t) <==>
      (HasChildArray(t) && |Children(t)| > 0 && forall i :: 0 <= i < |Children(t)| ==> Selected(Children(t)[i]))
    ensures Guard(t) ==>
      (ParentChecked(t).Obj? &&
       Member(ParentChecked(t).fields, "checked") == Bool(true) &&
       Member(ParentChecked(t).fields, "select") == Bool(true))
    ensures !Guard(t) ==> ParentChecked(t) == t
  {
    if HasChildArray(t) {
      CountSelectedAll(Children(t));
    }
    if Guard(t) {
      var a := Put(t.fields, "checked", Bool(true));
      MemberPutOther(a, "select", Bool(true), "checked");
    }
  }

  /** A node whose one child is selected: the code leaves it alone, the intended rule flags it. */
  lemma FullySelectedParentIsMissed()
    ensures var t := Obj([Field("children", Arr([Obj([Field("select", Bool(true))])]))]);
      !GuardAsWritten(t) && Guard(t) &&
      Member(ParentChecked(t).fields, "checked") == Bool(true)
  {
    var t := Obj([Field("children", Arr([Obj([Field("select", Bool(true))])]))]);
    GuardAsWrittenNeverHolds(t);
    var s := Children(t);
    assert Selected(s[0]);
    CountSelectedAll(s);
    ParentCheckedIff(t);
  }
}
