/**
 * JSON values as the digest generator sees them after `json.loads`, and the
 * few pieces of Python value semantics the pipeline relies on: truthiness,
 * `dict.get`, the `a or b or c` chain, `str.strip()`, slicing `[:n]`,
 * `sep.join(...)` and the text an f-string or `str()` gives for a value.
 */
module PyJson {

  datatype Option<T> = None | Some(value: T)

  /** A parsed JSON value; an object is a Python dict, a number an int. */
  datatype Json =
    | JNull
    | JBool(b: bool)
    | JNum(n: int)
    | JStr(s: string)
    | JArr(elems: seq<Json>)
    | JObj(fields: map<string, Json>)

  /** A dict whose values are JSON values: a raw entry or an item. */
  type Dict = map<string, Json>

  /** Python's truth value: None, False, 0, "", [] and {} are false. */
  predicate Truthy(v: Json) {
    match v
    case JNull => false
    case JBool(b) => b
    case JNum(n) => n != 0
    case JStr(s) => s != ""
    case JArr(es) => es != []
    case JObj(m) => m != map[]
  }

  /** `d.get(k)`: None when the key is absent. */
  function Get(d: Dict, k: string): Json {
    if k in d then d[k] else JNull
  }

  /** `d.get(k, dflt)`. */
  function GetOr(d: Dict, k: string, dflt: Json): Json {
    if k in d then d[k] else dflt
  }

  /** `r` is what `vs[0] or vs[1] or ... or last` evaluates to. */
  ghost predicate IsFirstTruthy(vs: seq<Json>, last: Json, r: Json) {
    || (exists i :: 0 <= i < |vs| && r == vs[i] && Truthy(vs[i]) &&
                    forall j :: 0 <= j < i ==> !Truthy(vs[j]))
    || ((forall j :: 0 <= j < |vs| ==> !Truthy(vs[j])) && r == last)
  }

  /** Python's `vs[0] or vs[1] or ... or last`. */
  function FirstTruthy(vs: seq<Json>, last: Json): (r: Json)
    ensures r in vs || r == last
  {
    if vs == [] then last
    else if Truthy(vs[0]) then vs[0]
    else FirstTruthy(vs[1..], last)
  }

  /** The chain picks the first truthy operand, or the last operand when none is truthy. */
  lemma {:induction false} FirstTruthyIsFirst(vs: seq<Json>, last: Json)
    ensures IsFirstTruthy(vs, last, FirstTruthy(vs, last))
    decreases |vs|
  {
    if vs != [] && !Truthy(vs[0]) {
      FirstTruthyIsFirst(vs[1..], last);
      assert forall i :: 0 < i < |vs| ==> vs[i] == vs[1..][i - 1];
      var r := FirstTruthy(vs, last);
      if exists i :: 0 <= i < |vs[1..]| && r == vs[1..][i] && Truthy(vs[1..][i]) &&
                     forall j :: 0 <= j < i ==> !Truthy(vs[1..][j]) {
        var i :| 0 <= i < |vs[1..]| && r == vs[1..][i] && Truthy(vs[1..][i]) &&
                 forall j :: 0 <= j < i ==> !Truthy(vs[1..][j]);
        assert r == vs[i + 1] && Truthy(vs[i + 1]);
        assert forall j :: 0 <= j < i + 1 ==> !Truthy(vs[j]);
      }
    }
  }

  /** The characters Python's `str.strip()` removes: those for which `str.isspace()` holds. */
  const Whitespace: set<char> := {
    '\t', '\n', '\U{0B}', '\U{0C}', '\r', '\U{1C}', '\U{1D}', '\U{1E}', '\U{1F}', ' ',
    '\U{85}', '\U{A0}', '\U{1680}',
    '\U{2000}', '\U{2001}', '\U{2002}', '\U{2003}', '\U{2004}', '\U{2005}',
    '\U{2006}', '\U{2007}', '\U{2008}', '\U{2009}', '\U{200A}',
    '\U{2028}', '\U{2029}', '\U{202F}', '\U{205F}', '\U{3000}'
  }

  predicate IsSpace(c: char) {
    c in Whitespace
  }

  /** `s.lstrip()`: `s` from its first non-space character on. */
  function StripStart(s: string): string {
    if s == [] || !IsSpace(s[0]) then s else StripStart(s[1..])
  }

  /** `s.rstrip()`: `s` up to its last non-space character. */
  function StripEnd(s: string): string {
    if s == [] || !IsSpace(s[|s| - 1]) then s else StripEnd(s[..|s| - 1])
  }

  /** lstrip keeps a suffix, removes only white space, and leaves none in front. */
  lemma {:induction false} StripStartSuffix(s: string)
    ensures var r := StripStart(s);
            && |r| <= |s| && r == s[|s| - |r|..]
            && (forall i :: 0 <= i < |s| - |r| ==> IsSpace(s[i]))
            && (r == [] || !IsSpace(r[0]))
    decreases |s|
  {
    if s != [] && IsSpace(s[0]) {
      StripStartSuffix(s[1..]);
      var r := StripStart(s);
      assert s[1..][|s| - 1 - |r|..] == s[|s| - |r|..];
      forall i | 0 <= i < |s| - |r| ensures IsSpace(s[i]) {
        if i > 0 { assert s[i] == s[1..][i - 1]; }
      }
    }
  }

  /** rstrip keeps a prefix, removes only white space, and leaves none at the end. */
  lemma {:induction false} StripEndPrefix(s: string)
    ensures var r := StripEnd(s);
            && |r| <= |s| && r == s[..|r|]
            && (forall i :: |r| <= i < |s| ==> IsSpace(s[i]))
            && (r == [] || !IsSpace(r[|r| - 1]))
    decreases |s|
  {
    if s != [] && IsSpace(s[|s| - 1]) {
      StripEndPrefix(s[..|s| - 1]);
      var r := StripEnd(s);
      assert s[..|s| - 1][..|r|] == s[..|r|];
      forall i | |r| <= i < |s| ensures IsSpace(s[i]) {
        if i < |s| - 1 { assert s[i] == s[..|s| - 1][i]; }
      }
    }
  }

  /** `r` is `s` less its first `i` characters and the characters after `i + |r|`, all of them white space. */
  ghost predicate TrimmedAt(s: string, r: string, i: int) {
    && 0 <= i <= |s| - |r|
    && r == s[i..i + |r|]
    && (forall k :: 0 <= k < i ==> IsSpace(s[k]))
    && (forall k :: i + |r| <= k < |s| ==> IsSpace(s[k]))
  }

  /** `s.strip()`: `s` without its leading and trailing white space. */
  function Strip(s: string): string {
    StripEnd(StripStart(s))
  }

  /** What strip removes is white space at both ends, and what it keeps neither starts nor ends with any. */
  lemma StripTrims(s: string)
    ensures exists i :: TrimmedAt(s, Strip(s), i)
    ensures Strip(s) == [] || (!IsSpace(Strip(s)[0]) && !IsSpace(Strip(s)[|Strip(s)| - 1]))
  {
    var t := StripStart(s);
    var r := StripEnd(t);
    StripStartSuffix(s);
    StripEndPrefix(t);
    var i := |s| - |t|;
    assert Strip(s) == r;
    assert t == s[i..];
    assert r == s[i..i + |r|];
    forall k | i + |r| <= k < |s| ensures IsSpace(s[k]) {
      assert s[k] == t[k - i];
    }
    assert TrimmedAt(s, r, i);
    if r != [] {
      assert r[0] == t[0];
      assert !IsSpace(t[0]);
    }
  }

  /** Stripping twice removes nothing more. */
  lemma StripIdempotent(s: string)
    ensures Strip(Strip(s)) == Strip(s)
  {
    var r := Strip(s);
    StripTrims(s);
    if r != [] {
      assert StripStart(r) == r;
      assert StripEnd(r) == r;
    } else {
      assert Strip(r) == [];
    }
  }

  /** `s[:n]` on a string or list. */
  function Take<T>(s: seq<T>, n: nat): (r: seq<T>)
    ensures |r| == if |s| <= n then |s| else n
    ensures r == s[..|r|]
  {
    if |s| <= n then s else s[..n]
  }

  /**
   * `(v or "")[:n]`: falsy values become "", strings and lists are cut to
   * their first `n` elements, and any other value raises (None here).
   */
  function PrefixOf(v: Json, n: nat): (r: Option<Json>)
    ensures r.None? <==> Truthy(v) && !v.JStr? && !v.JArr?
    ensures v.JStr? ==> r == Some(JStr(Take(v.s, n)))
    ensures r.Some? && r.value.JStr? ==> |r.value.s| <= n
  {
    if !Truthy(v) then Some(JStr(""))
    else match v
      case JStr(s) => Some(JStr(Take(s, n)))
      case JArr(es) => Some(JArr(Take(es, n)))
      case _ => None
  }

  /** Python's `sep.join(xs)`: the texts in order, with `sep` between neighbours. */
  function Join(sep: string, xs: seq<string>): (r: string)
    ensures xs == [] ==> r == ""
    ensures |xs| == 1 ==> r == xs[0]
    ensures |xs| >= 1 ==> xs[0] <= r
    ensures |xs| >= 2 ==> xs[0] + sep <= r
  {
    if xs == [] then ""
    else if |xs| == 1 then xs[0]
    else xs[0] + sep + Join(sep, xs[1..])
  }

  /** The decimal text of a natural number. */
  function NatText(n: nat): (r: string)
    ensures |r| >= 1
    ensures forall i :: 0 <= i < |r| ==> '0' <= r[i] <= '9'
    decreases n
  {
    var d := (('0' as int) + n % 10) as char;
    if n < 10 then [d] else NatText(n / 10) + [d]
  }

  /** `str(n)` for an integer. */
  function IntText(n: int): (r: string)
    ensures |r| >= 1 && (r[0] == '-' <==> n < 0)
  {
    if n < 0 then "-" + NatText(-n) else NatText(n)
  }

  /** Different natural numbers have different decimal texts. */
  lemma {:induction false} NatTextInjective(a: nat, b: nat)
    requires NatText(a) == NatText(b)
    ensures a == b
    decreases a
  {
    var ta, tb := NatText(a), NatText(b);
    assert ta[|ta| - 1] == (('0' as int) + a % 10) as char;
    assert tb[|tb| - 1] == (('0' as int) + b % 10) as char;
    assert a % 10 == b % 10;
    if a >= 10 && b >= 10 {
      assert NatText(a / 10) == ta[..|ta| - 1];
      assert NatText(b / 10) == tb[..|tb| - 1];
      NatTextInjective(a / 10, b / 10);
    }
  }

  /** `str()` is injective on integers: different numbers print differently. */
  lemma IntTextInjective(a: int, b: int)
    requires IntText(a) == IntText(b)
    ensures a == b
  {
    if a < 0 {
      assert IntText(a)[1..] == NatText(-a) && IntText(b)[1..] == NatText(-b);
      NatTextInjective(-a, -b);
    } else {
      NatTextInjective(a, b);
    }
  }

  /**
   * `str(v)`, which is also what an f-string substitutes for `{v}`.
   * Exact for strings, None, booleans and integers; a list is rendered
   * element by element as Python's repr does, without repr's escaping; a
   * non-empty dict is rendered as a fixed placeholder.
   */
  function Str(v: Json): (r: string)
    ensures v.JNull? ==> r == "None"
    ensures v.JBool? ==> r == (if v.b then "True" else "False")
    ensures v.JNum? ==> r == IntText(v.n)
    ensures v.JStr? ==> r == v.s
    ensures v.JArr? ==> |r| >= 2 && r[0] == '[' && r[|r| - 1] == ']'
    decreases v, 0
  {
    match v
    case JNull => "None"
    case JBool(b) => if b then "True" else "False"
    case JNum(n) => IntText(n)
    case JStr(s) => s
    case JArr(es) =>
      "[" + Join(", ", seq(|es|, i requires 0 <= i < |es| => Repr(es[i]))) + "]"
    case JObj(m) => if m == map[] then "{}" else "{...}"
  }

  /** `repr(v)` for an element of a list: strings are quoted. */
  function Repr(v: Json): (r: string)
    ensures v.JStr? ==> |r| == |v.s| + 2 && r[1..|r| - 1] == v.s && r[0] == r[|r| - 1] && r[0] in {'\'', '"'}
    ensures !v.JStr? ==> r == Str(v)
    decreases v, 1
  {
    match v
    case JStr(s) =>
      if '\'' in s && '"' !in s then "\"" + s + "\"" else "'" + s + "'"
    case _ => Str(v)
  }
}
