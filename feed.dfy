/**
 * Source filtering and entry normalisation (generate_digest.py,
 * `fetch_items`). The HTTP request, the UTF-8 decoding and `json.loads` are
 * replaced by `fetch`, which gives for a URL either a failure or the parsed
 * body. `None` as a result means an exception escapes `fetch_items`, which
 * ends the run.
 */
module Feed {
  import opened PyJson

  /** A normalised item: the dict `fetch_items` appends. */
  type Item = Dict

  /** What `urlopen` + `read` + `decode` + `json.loads` give for one URL. */
  datatype Fetched = FetchFailed | Payload(data: Json)

  /** The keys of a normalised item. */
  const ItemKeys: set<string> := {"source", "title", "summary", "link", "publish_time"}

  /**
   * The entries `for it in arr` hands to the loop body. A list yields its
   * elements and a string its one-character strings. A dict yields its keys,
   * which are strings like those, so the first one raises in the body before
   * anything is appended: no entry is listed for it. A value that is not
   * iterable raises at once and has no entries either.
   */
  function Iterate(arr: Json): (r: seq<Json>)
    ensures arr.JArr? ==> r == arr.elems
    ensures arr.JStr? ==> |r| == |arr.s| && forall i :: 0 <= i < |r| ==> r[i] == JStr([arr.s[i]])
    ensures !arr.JArr? && !arr.JStr? ==> r == []
  {
    match arr
    case JArr(es) => es
    case JStr(s) => seq(|s|, i requires 0 <= i < |s| => JStr([s[i]]))
    case _ => []
  }

  /**
   * `arr = data.get("items", data if isinstance(data, list) else [])` and the
   * loop over `arr`. Only a dict has `.get`: a list payload, like any other
   * non-dict, raises before a single entry is read.
   */
  function PayloadEntries(data: Json): (e: seq<Json>)
    ensures !data.JObj? ==> e == []
    ensures data.JObj? && "items" !in data.fields ==> e == []
    ensures data.JObj? && "items" in data.fields && data.fields["items"].JArr? ==> e == data.fields["items"].elems
  {
    match data
    case JObj(m) => if "items" in m then Iterate(m["items"]) else []
    case _ => []
  }

  /** `(it.get("title") or "")` before `.strip()`. */
  function RawTitle(it: Dict): Json {
    FirstTruthy([Get(it, "title")], JStr(""))
  }

  /** Building the item does not raise: the entry is a dict and its title is falsy or a string. */
  predicate Normalizable(it: Json) {
    it.JObj? && RawTitle(it.fields).JStr?
  }

  /** The dict literal appended for an entry `it` of a source named `name`. */
  function Build(name: Json, it: Dict): Item
    requires RawTitle(it).JStr?
  {
    map[
      "source" := FirstTruthy([name, Get(it, "source")], JStr("")),
      "title" := JStr(Strip(RawTitle(it).s)),
      "summary" := FirstTruthy([Get(it, "summary"), Get(it, "desc"), Get(it, "excerpt")], JStr("")),
      "link" := FirstTruthy([Get(it, "link"), Get(it, "url")], JStr("")),
      "publish_time" := FirstTruthy([Get(it, "publish_time"), Get(it, "pubDate"), Get(it, "date")], JStr(""))
    ]
  }

  /**
   * Normalising one entry; None when building the dict raises: the entry is
   * not a dict (`it.get`), or its title is a truthy non-string (`.strip()`).
   */
  function Normalize(name: Json, it: Json): Option<Item> {
    if Normalizable(it) then Some(Build(name, it.fields)) else None
  }

  /**
   * Each field of a normalised item is the first truthy of its aliases, in
   * order, else ""; the title is the raw title without surrounding white space,
   * and the item has exactly the five keys.
   */
  lemma NormalizeFields(name: Json, it: Dict, r: Item)
    requires Normalize(name, JObj(it)) == Some(r)
    ensures r.Keys == ItemKeys
    ensures IsFirstTruthy([name, Get(it, "source")], JStr(""), r["source"])
    ensures r["title"].JStr? && (exists i :: TrimmedAt(RawTitle(it).s, r["title"].s, i))
    ensures r["title"].s == [] || (!IsSpace(r["title"].s[0]) && !IsSpace(r["title"].s[|r["title"].s| - 1]))
    ensures IsFirstTruthy([Get(it, "summary"), Get(it, "desc"), Get(it, "excerpt")], JStr(""), r["summary"])
    ensures IsFirstTruthy([Get(it, "link"), Get(it, "url")], JStr(""), r["link"])
    ensures IsFirstTruthy([Get(it, "publish_time"), Get(it, "pubDate"), Get(it, "date")], JStr(""), r["publish_time"])
  {
    assert r == Build(name, it);
    BuiltSourceTitle(name, it);
    BuiltOthers(name, it);
  }

  lemma BuiltSourceTitle(name: Json, it: Dict)
    requires RawTitle(it).JStr?
    ensures var r := Build(name, it);
            && r.Keys == ItemKeys
            && IsFirstTruthy([name, Get(it, "source")], JStr(""), r["source"])
            && r["title"].JStr? && (exists i :: TrimmedAt(RawTitle(it).s, r["title"].s, i))
            && (r["title"].s == [] || (!IsSpace(r["title"].s[0]) && !IsSpace(r["title"].s[|r["title"].s| - 1])))
  {
    var src := [name, Get(it, "source")];
    assert Build(name, it)["source"] == FirstTruthy(src, JStr(""));
    assert Build(name, it)["title"] == JStr(Strip(RawTitle(it).s));
    FirstTruthyIsFirst(src, JStr(""));
    StripTrims(RawTitle(it).s);
  }

  lemma BuiltOthers(name: Json, it: Dict)
    requires RawTitle(it).JStr?
    ensures var r := Build(name, it);
            && IsFirstTruthy([Get(it, "summary"), Get(it, "desc"), Get(it, "excerpt")], JStr(""), r["summary"])
            && IsFirstTruthy([Get(it, "link"), Get(it, "url")], JStr(""), r["link"])
            && IsFirstTruthy([Get(it, "publish_time"), Get(it, "pubDate"), Get(it, "date")], JStr(""), r["publish_time"])
  {
    var sum, lnk, pt := [Get(it, "summary"), Get(it, "desc"), Get(it, "excerpt")],
      [Get(it, "link"), Get(it, "url")], [Get(it, "publish_time"), Get(it, "pubDate"), Get(it, "date")];
    assert Build(name, it)["summary"] == FirstTruthy(sum, JStr(""));
    assert Build(name, it)["link"] == FirstTruthy(lnk, JStr(""));
    assert Build(name, it)["publish_time"] == FirstTruthy(pt, JStr(""));
    FirstTruthyIsFirst(sum, JStr(""));
    FirstTruthyIsFirst(lnk, JStr(""));
    FirstTruthyIsFirst(pt, JStr(""));
  }

  /**
   * What a loop appending `f(e)` for each `e` of `es` leaves behind when
   * computing `f` may raise (None): every result up to the first raising
   * element. The exception ends the loop, and what was already appended stays.
   */
  function Collect<A, B>(f: A -> Option<B>, es: seq<A>): (r: seq<B>)
    ensures |r| <= |es|
    ensures forall k :: 0 <= k < |r| ==> f(es[k]) == Some(r[k])
    ensures |r| < |es| ==> f(es[|r|]).None?
  {
    if es == [] then []
    else match f(es[0])
      case None => []
      case Some(x) =>
        var rest := Collect(f, es[1..]);
        assert forall k :: 0 < k < |es| ==> es[k] == es[1..][k - 1];
        [x] + rest
  }

  /** Normalisation of the entries of a source named `name`. */
  function Normalizer(name: Json): Json -> Option<Item> {
    it => Normalize(name, it)
  }

  /** `s.get("url") or ""`. */
  function UrlOf(s: Dict): Json {
    FirstTruthy([Get(s, "url")], JStr(""))
  }

  /** A placeholder URL such as "<your feed>". */
  predicate IsPlaceholder(url: string) {
    |url| > 0 && url[0] == '<'
  }

  /** The source is passed over without a request: its URL is empty or a placeholder. */
  predicate Skipped(s: Dict) {
    var url := UrlOf(s);
    !Truthy(url) || (url.JStr? && IsPlaceholder(url.s))
  }

  /**
   * One iteration of the outer loop. Outside the `try`: a source that is not a
   * dict, or a truthy non-string URL, raises and ends the run (None). Inside
   * it: a failed fetch or a raising payload contributes what was appended
   * before the exception.
   */
  function SourceItems(s: Json, fetch: string -> Fetched): Option<seq<Item>> {
    if !s.JObj? then None
    else
      var url := UrlOf(s.fields);
      if !Truthy(url) then Some([])
      else if !url.JStr? then None
      else if IsPlaceholder(url.s) then Some([])
      else match fetch(url.s)
        case FetchFailed => Some([])
        case Payload(data) => Some(Collect(Normalizer(Get(s.fields, "name")), PayloadEntries(data)))
  }

  /** `a` in front of an outcome that may have raised. */
  function Prepend(a: seq<Item>, o: Option<seq<Item>>): Option<seq<Item>> {
    match o
    case None => None
    case Some(b) => Some(a + b)
  }

  /** One outcome after another: an exception in the first ends everything. */
  function Then(o1: Option<seq<Item>>, o2: Option<seq<Item>>): Option<seq<Item>> {
    match o1
    case None => None
    case Some(a) => Prepend(a, o2)
  }

  /** The specification of `fetch_items`: every source's items, source after source. */
  function FetchAll(ss: seq<Json>, fetch: string -> Fetched): Option<seq<Item>>
    decreases |ss|
  {
    if ss == [] then Some([]) else Then(SourceItems(ss[0], fetch), FetchAll(ss[1..], fetch))
  }

  /** Source-then-entry order: the items of `a + b` are those of `a` followed by those of `b`. */
  lemma {:induction false} FetchAllAppend(a: seq<Json>, b: seq<Json>, fetch: string -> Fetched)
    ensures FetchAll(a + b, fetch) == Then(FetchAll(a, fetch), FetchAll(b, fetch))
    decreases |a|
  {
    if a == [] {
      assert a + b == b;
      var o := FetchAll(b, fetch);
      if o.Some? { assert [] + o.value == o.value; }
    } else {
      assert (a + b)[0] == a[0];
      assert (a + b)[1..] == a[1..] + b;
      FetchAllAppend(a[1..], b, fetch);
      var o1, o2, o3 := SourceItems(a[0], fetch), FetchAll(a[1..], fetch), FetchAll(b, fetch);
      assert Then(o1, Then(o2, o3)) == Then(Then(o1, o2), o3) by {
        if o1.Some? && o2.Some? && o3.Some? {
          assert o1.value + (o2.value + o3.value) == (o1.value + o2.value) + o3.value;
        }
      }
    }
  }

  /** The run ends in `fetch_items` exactly when some source raises outside the `try`. */
  lemma {:induction false} FetchAllRaises(ss: seq<Json>, fetch: string -> Fetched)
    ensures FetchAll(ss, fetch).None? <==> exists i :: 0 <= i < |ss| && SourceItems(ss[i], fetch).None?
    decreases |ss|
  {
    if ss != [] {
      FetchAllRaises(ss[1..], fetch);
      assert forall i :: 0 < i < |ss| ==> ss[i] == ss[1..][i - 1];
      if SourceItems(ss[0], fetch).Some? && FetchAll(ss[1..], fetch).None? {
        var i :| 0 <= i < |ss[1..]| && SourceItems(ss[1..][i], fetch).None?;
        assert ss[i + 1] == ss[1..][i];
      }
    }
  }

  /** A payload whose `items` is not a list contributes nothing: none of what iterating it yields is a dict. */
  lemma NonListItemsYieldNothing(name: Json, m: map<string, Json>)
    requires "items" in m && !m["items"].JArr?
    ensures Collect(Normalizer(name), PayloadEntries(JObj(m))) == []
  {
    var e := PayloadEntries(JObj(m));
    if e != [] {
      assert !Normalizable(e[0]);
    }
  }

  /** A skipped source contributes nothing and its URL is never requested. */
  lemma SkippedSourceNotFetched(s: Dict, fetch: string -> Fetched, fetch': string -> Fetched)
    requires Skipped(s)
    ensures SourceItems(JObj(s), fetch) == SourceItems(JObj(s), fetch') == Some([])
  {
  }

  /** When every source is a dict whose URL is empty or a placeholder, nothing is fetched. */
  lemma {:induction false} AllSkippedFetchesNothing(ss: seq<Json>, fetch: string -> Fetched)
    requires forall i :: 0 <= i < |ss| ==> ss[i].JObj? && Skipped(ss[i].fields)
    ensures FetchAll(ss, fetch) == Some([])
    decreases |ss|
  {
    if ss != [] {
      assert forall i :: 0 < i < |ss| ==> ss[i] == ss[1..][i - 1];
      AllSkippedFetchesNothing(ss[1..], fetch);
      var e: seq<Item> := [];
      assert SourceItems(ss[0], fetch) == Some(e);
      assert e + e == e;
    }
  }

  /** Every item a source contributes is a normalised entry: it has exactly the five keys. */
  lemma SourceItemKeys(s: Json, fetch: string -> Fetched)
    requires SourceItems(s, fetch).Some?
    ensures forall i :: 0 <= i < |SourceItems(s, fetch).value| ==> SourceItems(s, fetch).value[i].Keys == ItemKeys
  {
    var xs := SourceItems(s, fetch).value;
    if xs != [] {
      var url := UrlOf(s.fields);
      var data := fetch(url.s).data;
      var name := Get(s.fields, "name");
      var es := PayloadEntries(data);
      assert xs == Collect(Normalizer(name), es);
      forall i | 0 <= i < |xs| ensures xs[i].Keys == ItemKeys {
        assert Normalize(name, es[i]) == Some(xs[i]);
        assert es[i] == JObj(es[i].fields);
        NormalizeFields(name, es[i].fields, xs[i]);
      }
    }
  }

  /** Every item `fetch_items` returns has exactly the five keys of a normalised entry. */
  lemma {:induction false} FetchedItemKeys(ss: seq<Json>, fetch: string -> Fetched)
    requires FetchAll(ss, fetch).Some?
    ensures forall i :: 0 <= i < |FetchAll(ss, fetch).value| ==> FetchAll(ss, fetch).value[i].Keys == ItemKeys
    decreases |ss|
  {
    if ss != [] {
      var a: seq<Item> := SourceItems(ss[0], fetch).value;
      var b: seq<Item> := FetchAll(ss[1..], fetch).value;
      SourceItemKeys(ss[0], fetch);
      FetchedItemKeys(ss[1..], fetch);
      assert FetchAll(ss, fetch).value == a + b;
      forall i | 0 <= i < |a + b| ensures (a + b)[i].Keys == ItemKeys {
        if i >= |a| { assert (a + b)[i] == b[i - |a|]; }
      }
    }
  }

  /**
   * A source whose request fails, or whose payload is a list, contributes
   * nothing and leaves the items of the sources around it as they are.
   */
  lemma FailingSourceIsolated(a: seq<Json>, s: Dict, b: seq<Json>, fetch: string -> Fetched)
    requires !Skipped(s) && UrlOf(s).JStr?
    requires fetch(UrlOf(s).s).FetchFailed? || (fetch(UrlOf(s).s).Payload? && fetch(UrlOf(s).s).data.JArr?)
    ensures FetchAll(a + [JObj(s)] + b, fetch) == Then(FetchAll(a, fetch), FetchAll(b, fetch))
  {
    var e: seq<Item> := [];
    assert SourceItems(JObj(s), fetch) == Some(e);
    assert [JObj(s)][1..] == [];
    assert FetchAll([JObj(s)], fetch) == Prepend(e, Some(e));
    assert e + e == e;
    FetchAllAppend(a + [JObj(s)], b, fetch);
    FetchAllAppend(a, [JObj(s)], fetch);
    var o := FetchAll(a, fetch);
    if o.Some? { assert o.value + [] == o.value; }
  }

  /** A dict payload with an `items` list contributes its entries' items, in order, up to the first that raises. */
  lemma ItemsPayload(s: Dict, fetch: string -> Fetched, m: map<string, Json>, es: seq<Json>)
    requires !Skipped(s) && UrlOf(s).JStr?
    requires fetch(UrlOf(s).s) == Payload(JObj(m)) && "items" in m && m["items"] == JArr(es)
    ensures SourceItems(JObj(s), fetch) == Some(Collect(Normalizer(Get(s, "name")), es))
  {
  }

  /** No element raises: one result per element, each the element's own. */
  lemma AllEntriesKept<A, B>(f: A -> Option<B>, es: seq<A>)
    requires forall k :: 0 <= k < |es| ==> f(es[k]).Some?
    ensures |Collect(f, es)| == |es|
    ensures forall k :: 0 <= k < |es| ==> Some(Collect(f, es)[k]) == f(es[k])
  {
  }

  /** Results appended before a raising element survive it; nothing after it is appended. */
  lemma {:induction false} PartialResultsKept<A, B>(f: A -> Option<B>, good: seq<A>, bad: A, rest: seq<A>)
    requires forall k :: 0 <= k < |good| ==> f(good[k]).Some?
    requires f(bad).None?
    ensures Collect(f, good + [bad] + rest) == Collect(f, good)
    decreases |good|
  {
    var es := good + [bad] + rest;
    if good == [] {
      assert es[0] == bad;
    } else {
      assert es[0] == good[0];
      assert es[1..] == good[1..] + [bad] + rest;
      assert forall k :: 0 <= k < |good[1..]| ==> good[1..][k] == good[k + 1];
      PartialResultsKept(f, good[1..], bad, rest);
      var x := f(good[0]).value;
      assert Collect(f, es) == [x] + Collect(f, es[1..]);
      assert Collect(f, good) == [x] + Collect(f, good[1..]);
    }
  }

  /** Appending two pieces one after the other appends their concatenation. */
  lemma PrependPrepend(a: seq<Item>, d: seq<Item>, o: Option<seq<Item>>)
    ensures Prepend(a, Prepend(d, o)) == Prepend(a + d, o)
  {
    if o.Some? {
      assert a + (d + o.value) == (a + d) + o.value;
    }
  }

  /**
   * The inner loop of `fetch_items`: `items.append(...)` of each entry's
   * normalisation `f(it)` in turn, until one raises; what was appended before
   * stays.
   */
  method AppendEntries<A, B>(items: seq<B>, f: A -> Option<B>, entries: seq<A>) returns (out: seq<B>)
    ensures out == items + Collect(f, entries)
  {
    out := items;
    var j := 0;
    while j < |entries|
      invariant 0 <= j <= |entries|
      invariant items + Collect(f, entries) == out + Collect(f, entries[j..])
    {
      var item := f(entries[j]);
      ghost var tail := entries[j..];
      assert tail[0] == entries[j] && tail[1..] == entries[j + 1..];
      if item.None? {
        assert Collect(f, tail) == [];
        assert out + [] == out;
        return;
      }
      assert Collect(f, tail) == [item.value] + Collect(f, entries[j + 1..]);
      assert out + ([item.value] + Collect(f, entries[j + 1..])) == (out + [item.value]) + Collect(f, entries[j + 1..]);
      out := out + [item.value];
      j := j + 1;
    }
    assert entries[j..] == [] && Collect(f, entries[j..]) == [];
    assert out + [] == out;
  }

  /**
   * One turn of the outer loop of `fetch_items`, from `url = ...` on: the
   * early `continue` for a skipped source, the exceptions that escape it
   * (None), and the `try` around the request and the inner loop, whose
   * `except` keeps what was appended.
   */
  method FetchSource(items: seq<Item>, s: Json, fetch: string -> Fetched) returns (r: Option<seq<Item>>)
    ensures r == Prepend(items, SourceItems(s, fetch))
  {
    if !s.JObj? {
      return None;
    }
    assert items + [] == items;
    var url := FirstTruthy([Get(s.fields, "url")], JStr(""));
    if !Truthy(url) {
      return Some(items);
    }
    if !url.JStr? {
      return None;
    }
    if IsPlaceholder(url.s) {
      return Some(items);
    }
    var got := fetch(url.s);
    if got.FetchFailed? {
      return Some(items);
    }
    var appended := AppendEntries(items, Normalizer(Get(s.fields, "name")), PayloadEntries(got.data));
    return Some(appended);
  }

  /** `fetch_items`: every source in turn; an exception outside the `try` ends the run. */
  method FetchItems(sources: seq<Json>, fetch: string -> Fetched) returns (r: Option<seq<Item>>)
    ensures r == FetchAll(sources, fetch)
  {
    var items: seq<Item> := [];
    var i := 0;
    assert sources[0..] == sources;
    assert FetchAll(sources, fetch).Some? ==> [] + FetchAll(sources, fetch).value == FetchAll(sources, fetch).value;
    while i < |sources|
      invariant 0 <= i <= |sources|
      invariant FetchAll(sources, fetch) == Prepend(items, FetchAll(sources[i..], fetch))
    {
      ghost var here, rest := SourceItems(sources[i], fetch), FetchAll(sources[i + 1..], fetch);
      assert sources[i..][1..] == sources[i + 1..];
      assert FetchAll(sources[i..], fetch) == Then(here, rest);
      var next := FetchSource(items, sources[i], fetch);
      if next.None? {
        assert here.None?;
        return None;
      }
      PrependPrepend(items, here.value, rest);
      items := next.value;
      i := i + 1;
    }
    assert sources[i..] == [];
    assert items + [] == items;
    r := Some(items);
  }
}
