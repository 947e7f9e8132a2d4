/**
 * `main` of generate_digest.py, from `fetch_items()` to `write_csv`: fetch
 * the items, fall back to the sample when there are none, keep the first
 * item of each fingerprint, fill in the defaults and build the CSV rows.
 * Of `render_html` only whether it raises is kept; the clock, the page text,
 * the JSON file and the directories are not modelled, and the sample file is
 * given already parsed.
 */
module Pipeline {
  import opened PyJson
  import opened Fingerprints
  import opened Feed
  import opened Dedup
  import opened Defaults
  import opened CsvExport
  import opened Render

  /** What a run leaves behind: the filled items (the JSON file) and the CSV rows, complete unless a row raised. */
  datatype Outcome = Outcome(items: seq<Item>, csv: seq<seq<string>>, complete: bool)

  /** `fingerprint` as a function value, for a given hash function. */
  function Fingerprinter(hash: string -> Digest): Item -> Option<Digest> {
    it => Fingerprint(hash, it)
  }

  /** `if not items: items = load_sample()`. */
  function Chosen(fetched: seq<Item>, sample: seq<Item>): seq<Item> {
    if fetched == [] then sample else fetched
  }

  /** Deduplication and default fill of the chosen items; None when a fingerprint raises. */
  function Processed(items: seq<Item>, hash: string -> Digest): Option<seq<Item>> {
    if forall i | 0 <= i < |items| :: Fingerprinter(hash)(items[i]).Some? then
      Some(FilledAll(KeepFirst(items, Fingerprinter(hash))))
    else None
  }

  /** The specification of a run: the items written out, or None when the run ends in an exception first. */
  function DigestItems(sources: seq<Json>, fetch: string -> Fetched, sample: seq<Item>, hash: string -> Digest): Option<seq<Item>> {
    match FetchAll(sources, fetch)
    case None => None
    case Some(fetched) => Processed(Chosen(fetched, sample), hash)
  }

  /** `render_html` gets through the card of every item. */
  predicate Rendered(items: seq<Item>) {
    forall i | 0 <= i < |items| :: CardRenders(items[i])
  }

  /**
   * The run ends in an exception before any file is written: in
   * `fetch_items`, in a fingerprint, or in a card of the page.
   */
  predicate Raises(sources: seq<Json>, fetch: string -> Fetched, sample: seq<Item>, hash: string -> Digest) {
    var out := DigestItems(sources, fetch, sample, hash);
    out.None? || !Rendered(out.value)
  }

  /** Filling in the defaults leaves source, title and publish_time, and so the fingerprint, as they were. */
  lemma FilledFingerprint(hash: string -> Digest, m: Item)
    ensures Fingerprint(hash, Filled(m)) == Fingerprint(hash, m)
  {
    var r := Filled(m);
    assert GetOr(r, "source", JStr("")) == GetOr(m, "source", JStr(""));
    assert GetOr(r, "title", JStr("")) == GetOr(m, "title", JStr(""));
    assert GetOr(r, "publish_time", JStr("")) == GetOr(m, "publish_time", JStr(""));
    SameTripleSameFingerprint(hash, r, m);
  }

  /**
   * The written items have pairwise distinct fingerprints, every fingerprint
   * of the chosen items is among them, and they are as many as there are
   * distinct fingerprints.
   */
  lemma ProcessedDistinct(items: seq<Item>, hash: string -> Digest, out: seq<Item>)
    requires Processed(items, hash) == Some(out)
    ensures forall i, j :: 0 <= i < j < |out| ==> Fingerprint(hash, out[i]) != Fingerprint(hash, out[j])
    ensures forall i :: 0 <= i < |items| ==> exists j :: 0 <= j < |out| && Fingerprint(hash, out[j]) == Fingerprint(hash, items[i])
    ensures |out| == |KeysOf(items, Fingerprinter(hash))|
  {
    var fp := Fingerprinter(hash);
    var u := KeepFirst(items, fp);
    assert out == FilledAll(u);
    forall j | 0 <= j < |u| ensures Fingerprint(hash, out[j]) == fp(u[j]) {
      FilledFingerprint(hash, u[j]);
    }
    KeepFirstDistinct(items, fp);
    KeepFirstKeys(items, fp);
    KeepFirstLength(items, fp);
    forall i | 0 <= i < |items| ensures exists j :: 0 <= j < |out| && Fingerprint(hash, out[j]) == Fingerprint(hash, items[i]) {
      assert fp(items[i]) in KeysOf(items, fp);
      var j :| 0 <= j < |u| && fp(u[j]) == fp(items[i]);
      assert Fingerprint(hash, out[j]) == Fingerprint(hash, items[i]);
    }
  }

  /** When the fetch yields nothing, the run's items are the sample's, deduplicated and filled. */
  lemma FallbackToSample(sources: seq<Json>, fetch: string -> Fetched, sample: seq<Item>, hash: string -> Digest)
    requires FetchAll(sources, fetch) == Some([])
    ensures DigestItems(sources, fetch, sample, hash) == Processed(sample, hash)
  {
  }

  /** In particular when every source is skipped. */
  lemma AllSkippedUsesSample(sources: seq<Json>, fetch: string -> Fetched, sample: seq<Item>, hash: string -> Digest)
    requires forall i :: 0 <= i < |sources| ==> sources[i].JObj? && Skipped(sources[i].fields)
    ensures DigestItems(sources, fetch, sample, hash) == Processed(sample, hash)
  {
    AllSkippedFetchesNothing(sources, fetch);
    FallbackToSample(sources, fetch, sample, hash);
  }

  /** With at least one fetched item the sample is not read. */
  lemma FetchedUsed(sources: seq<Json>, fetch: string -> Fetched, sample: seq<Item>, sample': seq<Item>, hash: string -> Digest)
    requires FetchAll(sources, fetch).Some? && FetchAll(sources, fetch).value != []
    ensures DigestItems(sources, fetch, sample, hash) == DigestItems(sources, fetch, sample', hash)
    ensures DigestItems(sources, fetch, sample, hash) == Processed(FetchAll(sources, fetch).value, hash)
  {
  }

  /** The default tags are written as the single tag. */
  lemma DefaultTagsText()
    ensures JoinField("、", DefaultTags) == Some("行业观察")
  {
    assert Texts(DefaultTags.elems) == ["行业观察"];
  }

  /** The default outline is written as its five points separated by " | ". */
  lemma DefaultOutlineText()
    ensures JoinField(" | ", DefaultOutline) == Some("要点速读 | 适配点 | 落地清单 | 风控与合规 | ROI")
  {
    var points := ["要点速读", "适配点", "落地清单", "风控与合规", "ROI"];
    assert Texts(DefaultOutline.elems) == points;
    OutlineJoined();
  }

  lemma OutlineJoined()
    ensures Join(" | ", ["要点速读", "适配点", "落地清单", "风控与合规", "ROI"]) == "要点速读 | 适配点 | 落地清单 | 风控与合规 | ROI"
  {
    var points := ["要点速读", "适配点", "落地清单", "风控与合规", "ROI"];
    assert points[1..] == ["适配点", "落地清单", "风控与合规", "ROI"];
    assert points[1..][1..] == ["落地清单", "风控与合规", "ROI"];
    OutlineTailJoined();
    assert Join(" | ", points[1..]) == "适配点" + " | " + "落地清单 | 风控与合规 | ROI";
    assert Join(" | ", points) == "要点速读" + " | " + ("适配点" + " | " + "落地清单 | 风控与合规 | ROI");
  }

  lemma OutlineTailJoined()
    ensures Join(" | ", ["落地清单", "风控与合规", "ROI"]) == "落地清单 | 风控与合规 | ROI"
  {
    assert Join(" | ", ["ROI"]) == "ROI";
    assert Join(" | ", ["风控与合规", "ROI"]) == "风控与合规 | ROI";
  }

  /**
   * An item with none of the three keys, such as every fetched item, gets a
   * CSV row once filled, provided its publish time can be sliced, and that
   * row carries the default tag, the title-derived idea title and the default
   * outline.
   */
  lemma FilledItemRow(r: Item)
    requires "tags" !in r && "idea_title" !in r && "idea_outline" !in r
    requires PrefixOf(GetOr(r, "publish_time", JStr("")), 19).Some?
    ensures Row(Filled(r)).Some?
    ensures Row(Filled(r)).value[2] == "行业观察"
    ensures Row(Filled(r)).value[3] == "从《" + Str(GetOr(r, "title", JStr(""))) + "》看落地路径"
    ensures Row(Filled(r)).value[4] == "要点速读 | 适配点 | 落地清单 | 风控与合规 | ROI"
  {
    var f := Filled(r);
    assert Get(f, "tags") == DefaultTags && Get(f, "idea_outline") == DefaultOutline;
    assert GetOr(f, "idea_title", JStr("")) == IdeaTitle(r);
    assert GetOr(f, "publish_time", JStr("")) == GetOr(r, "publish_time", JStr(""));
    DefaultTagsText();
    DefaultOutlineText();
    RowFields(f);
  }

  /** A normalised item carries none of the three keys the fill sets. */
  lemma NormalizedLacksDefaults(name: Json, it: Dict, r: Item)
    requires Normalize(name, JObj(it)) == Some(r)
    ensures "tags" !in r && "idea_title" !in r && "idea_outline" !in r
  {
    NormalizeFields(name, it, r);
  }

  /**
   * With a sample item whose tags are the number 1 and no sources, every
   * fingerprint exists but the page raises: no file is written.
   */
  lemma ScalarTagsEndRun(fetch: string -> Fetched, hash: string -> Digest)
    ensures DigestItems([], fetch, [map["title" := JStr("x"), "tags" := JNum(1)]], hash).Some?
    ensures Raises([], fetch, [map["title" := JStr("x"), "tags" := JNum(1)]], hash)
  {
    var m: Item := map["title" := JStr("x"), "tags" := JNum(1)];
    assert Fingerprint(hash, m).Some?;
    var fp := Fingerprinter(hash);
    assert KeepFirst([m], fp) == [m];
    var out := FilledAll([m]);
    assert DigestItems([], fetch, [m], hash) == Some(out);
    assert out[0]["tags"] == JNum(1);
    ScalarListStops(out[0], "tags");
  }

  /**
   * When the CSV has a row for every item, row `i + 1` carries the source,
   * title and link of item `i`, as the JSON file does.
   */
  lemma CsvMatchesItems(items: seq<Item>, i: int)
    requires forall k :: 0 <= k < |items| ==> Row(items[k]).Some?
    requires 0 <= i < |items|
    ensures |[Header] + Collect(Row, items)| == |items| + 1
    ensures var line := ([Header] + Collect(Row, items))[i + 1];
            && line[0] == CsvText(GetOr(items[i], "source", JStr("")))
            && line[1] == CsvText(GetOr(items[i], "title", JStr("")))
            && line[6] == CsvText(GetOr(items[i], "link", JStr("")))
  {
    AllEntriesKept(Row, items);
    assert ([Header] + Collect(Row, items))[i + 1] == Collect(Row, items)[i];
  }

  /**
   * When something was fetched and no fingerprint raised, the page renders
   * and every CSV row is written: a fetched item has none of the three
   * defaulted keys, and its publish time was sliced once already by its
   * fingerprint.
   */
  lemma FetchedRunComplete(sources: seq<Json>, fetch: string -> Fetched, sample: seq<Item>, hash: string -> Digest)
    requires FetchAll(sources, fetch).Some? && FetchAll(sources, fetch).value != []
    requires DigestItems(sources, fetch, sample, hash).Some?
    ensures !Raises(sources, fetch, sample, hash)
    ensures forall i :: 0 <= i < |DigestItems(sources, fetch, sample, hash).value| ==>
              Row(DigestItems(sources, fetch, sample, hash).value[i]).Some?
  {
    var fetched := FetchAll(sources, fetch).value;
    var fp := Fingerprinter(hash);
    var u := KeepFirst(fetched, fp);
    var out := DigestItems(sources, fetch, sample, hash).value;
    assert out == FilledAll(u);
    FetchedItemKeys(sources, fetch);
    KeepFirstFirstOccurrence(fetched, fp);
    forall j | 0 <= j < |out| ensures Row(out[j]).Some? && CardRenders(out[j]) {
      var i :| 0 <= i < |fetched| && u[j] == fetched[i] && IsFirst(fetched, fp, i);
      assert fp(fetched[i]).Some?;
      FetchedItemWritten(hash, u[j]);
    }
  }

  /** A fetched item with a fingerprint gets a card and a CSV row once filled. */
  lemma FetchedItemWritten(hash: string -> Digest, m: Item)
    requires m.Keys == ItemKeys && Fingerprint(hash, m).Some?
    ensures Row(Filled(m)).Some? && CardRenders(Filled(m))
  {
    assert DatePart(m).Some?;
    FilledItemRow(m);
    RowRenders(Filled(m));
  }

  /**
   * The run: `fetch_items`, the sample fallback, the dedup loop, the default
   * fill, `render_html` and `write_csv`. None when an exception ends the run
   * before the files are written.
   */
  method GenerateDigest(sources: seq<Json>, fetch: string -> Fetched, sample: seq<Item>, hash: string -> Digest)
    returns (r: Option<Outcome>)
    ensures r.None? <==> Raises(sources, fetch, sample, hash)
    ensures r.Some? ==> r.value.items == DigestItems(sources, fetch, sample, hash).value
    ensures r.Some? ==> r.value.csv == [Header] + Collect(Row, r.value.items)
    ensures r.Some? ==> (r.value.complete <==> forall i :: 0 <= i < |r.value.items| ==> Row(r.value.items[i]).Some?)
  {
    var fetched := FetchItems(sources, fetch);
    if fetched.None? {
      return None;
    }
    var items := fetched.value;
    if items == [] {
      items := sample;
    }
    assert DigestItems(sources, fetch, sample, hash) == Processed(items, hash);
    var uniq := Deduplicate(items, Fingerprinter(hash));
    if uniq.None? {
      return None;
    }
    var kept := uniq.value;
    assert Processed(items, hash) == Some(FilledAll(kept));
    var a := new Item[|kept|](i requires 0 <= i < |kept| => kept[i]);
    assert a[..] == kept;
    FillDefaults(a);
    var rendered := RenderCards(a[..]);
    if !rendered {
      return None;
    }
    var lines, ok := WriteCsv(a[..]);
    r := Some(Outcome(a[..], lines, ok));
  }
}
