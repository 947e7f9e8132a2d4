/**
 * An item's identity (generate_digest.py, `fingerprint`): the MD5 hex digest
 * of `f"{source}|{title}|{d}"`, where `d` is the first ten characters of
 * `publish_time`. MD5 is not modelled: every statement here holds for any
 * hash function, passed in as `hash`.
 */
module Fingerprints {
  import opened PyJson

  /** A hex digest, as `hexdigest()` returns it. */
  type Digest = string

  /** `item.get("publish_time", "") or ""` cut to ten characters: the calendar date. */
  function DatePart(item: Dict): Option<Json> {
    PrefixOf(GetOr(item, "publish_time", JStr("")), 10)
  }

  /**
   * The key string that is hashed. Absent `source` and `title` read as "";
   * a falsy `publish_time` reads as "". Slicing a truthy `publish_time` that is
   * neither a string nor a list raises in Python: the key is then None.
   */
  function Key(item: Dict): (r: Option<string>)
    ensures r.None? <==> DatePart(item).None?
    ensures r.Some? ==> '|' in r.value
  {
    match DatePart(item)
    case None => None
    case Some(d) =>
      Some(Str(GetOr(item, "source", JStr(""))) + "|" + Str(GetOr(item, "title", JStr(""))) + "|" + Str(d))
  }

  /** `fingerprint(item)`, for a given hash function; None when Python raises. */
  function Fingerprint(hash: string -> Digest, item: Dict): (r: Option<Digest>)
    ensures r.None? <==> DatePart(item).None?
  {
    match Key(item)
    case None => None
    case Some(k) => Some(hash(k))
  }

  /** What the fingerprint is computed from: source, title and the date part of publish_time. */
  function Triple(item: Dict): (Json, Json, Option<Json>) {
    (GetOr(item, "source", JStr("")), GetOr(item, "title", JStr("")), DatePart(item))
  }

  /** The fingerprint depends on nothing but the triple, whatever the hash. */
  lemma SameTripleSameFingerprint(hash: string -> Digest, a: Dict, b: Dict)
    requires Triple(a) == Triple(b)
    ensures Fingerprint(hash, a) == Fingerprint(hash, b)
  {
  }

  /**
   * `get('source','')` has no `or ""`: a null source enters the key as the
   * text None, so it differs from an absent or empty one.
   */
  lemma NullSourceReadsNone()
    ensures Key(map["source" := JNull]) == Some("None||")
    ensures Key(map["source" := JStr("")]) == Some("||")
  {
    var m: Dict := map["source" := JNull];
    var e: Dict := map["source" := JStr("")];
    assert DatePart(m) == Some(JStr("")) && DatePart(e) == Some(JStr(""));
    assert Str(GetOr(m, "title", JStr(""))) == "" && Str(JStr("")) == "";
    assert Str(JNull) == "None";
    assert Key(m) == Some("None" + "|" + "" + "|" + "");
    assert Key(e) == Some("" + "|" + "" + "|" + "");
    assert "None" + "|" + "" + "|" + "" == "None||";
    assert "" + "|" + "" + "|" + "" == "||";
  }

  /** Items whose source, title and publish_time are all strings (or absent). */
  predicate TextItem(item: Dict) {
    && GetOr(item, "source", JStr("")).JStr?
    && GetOr(item, "title", JStr("")).JStr?
    && GetOr(item, "publish_time", JStr("")).JStr?
  }

  function SourceText(item: Dict): string requires TextItem(item) { GetOr(item, "source", JStr("")).s }
  function TitleText(item: Dict): string requires TextItem(item) { GetOr(item, "title", JStr("")).s }
  function DateText(item: Dict): string requires TextItem(item) { Take(GetOr(item, "publish_time", JStr("")).s, 10) }

  /** For a text item the key is source, title and the first ten characters of publish_time, joined by '|'. */
  lemma TextItemKey(item: Dict)
    requires TextItem(item)
    ensures Key(item) == Some(SourceText(item) + "|" + TitleText(item) + "|" + DateText(item))
  {
    var p := GetOr(item, "publish_time", JStr(""));
    if !Truthy(p) {
      assert p.s == "";
    }
  }

  /** In `x + "|" + y` with no '|' in `x`, the separator is found right after `x`. */
  lemma SplitAtFirstBar(x: string, y: string, x': string, y': string)
    requires '|' !in x && '|' !in x'
    requires x + "|" + y == x' + "|" + y'
    ensures x == x' && y == y'
  {
    var s := x + "|" + y;
    if |x| < |x'| {
      BarAt(x, y, x', y');
      assert false;
    } else if |x'| < |x| {
      BarAt(x', y', x, y);
      assert false;
    } else {
      assert x == s[..|x|] == x';
      assert y == s[|x| + 1..] == y';
    }
  }

  /** The '|' after the shorter prefix `x` is a character of the longer prefix `x'`. */
  lemma BarAt(x: string, y: string, x': string, y': string)
    requires |x| < |x'|
    requires x + "|" + y == x' + "|" + y'
    ensures x'[|x|] == '|' && '|' in x'
  {
    assert (x + "|" + y)[|x|] == '|';
    assert (x' + "|" + y')[|x|] == x'[|x|];
  }

  /** The key text determines source, title and date when source and title hold no '|'. */
  lemma KeyTextInjective(s: string, t: string, d: string, s': string, t': string, d': string)
    requires '|' !in s && '|' !in t && '|' !in s' && '|' !in t'
    requires s + "|" + t + "|" + d == s' + "|" + t' + "|" + d'
    ensures s == s' && t == t' && d == d'
  {
    assert s + "|" + t + "|" + d == s + "|" + (t + "|" + d);
    assert s' + "|" + t' + "|" + d' == s' + "|" + (t' + "|" + d');
    SplitAtFirstBar(s, t + "|" + d, s', t' + "|" + d');
    SplitAtFirstBar(t, d, t', d');
  }

  /**
   * With a collision-free hash, two text items whose source and title hold no
   * '|' get the same fingerprint exactly when source, title and date part agree.
   */
  lemma FingerprintIff(hash: string -> Digest, a: Dict, b: Dict)
    requires forall k, k' :: hash(k) == hash(k') ==> k == k'
    requires TextItem(a) && TextItem(b)
    requires '|' !in SourceText(a) && '|' !in TitleText(a)
    requires '|' !in SourceText(b) && '|' !in TitleText(b)
    ensures Fingerprint(hash, a) == Fingerprint(hash, b) <==>
            SourceText(a) == SourceText(b) && TitleText(a) == TitleText(b) && DateText(a) == DateText(b)
  {
    TextItemKey(a);
    TextItemKey(b);
    var ka := SourceText(a) + "|" + TitleText(a) + "|" + DateText(a);
    var kb := SourceText(b) + "|" + TitleText(b) + "|" + DateText(b);
    assert Fingerprint(hash, a) == Some(hash(ka));
    assert Fingerprint(hash, b) == Some(hash(kb));
    if hash(ka) == hash(kb) {
      KeyTextInjective(SourceText(a), TitleText(a), DateText(a), SourceText(b), TitleText(b), DateText(b));
    }
  }

  /** Without the '|' condition distinct triples can share a key: ("a|b", "c") and ("a", "b|c"). */
  lemma BarInTitleCollides()
    ensures var a := map["source" := JStr("a|b"), "title" := JStr("c")];
            var b := map["source" := JStr("a"), "title" := JStr("b|c")];
            Triple(a) != Triple(b) && Key(a) == Key(b)
  {
    var a := map["source" := JStr("a|b"), "title" := JStr("c")];
    var b := map["source" := JStr("a"), "title" := JStr("b|c")];
    assert DatePart(a) == Some(JStr("")) && DatePart(b) == Some(JStr(""));
    assert Key(a) == Some("a|b" + "|" + "c" + "|" + "");
    assert Key(b) == Some("a" + "|" + "b|c" + "|" + "");
    assert "a|b" + "|" + "c" + "|" + "" == "a" + "|" + "b|c" + "|" + "";
  }

  /** A truthy numeric publish_time (an epoch timestamp, say) has no date part: Python raises. */
  lemma NumericDateRaises(hash: string -> Digest, item: Dict, n: int)
    requires "publish_time" in item && item["publish_time"] == JNum(n) && n != 0
    ensures Fingerprint(hash, item).None?
  {
  }
}
