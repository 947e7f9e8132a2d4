/**
 * What `render_html` (generate_digest.py) asks of the kept items. The page
 * text, the template file and `tpl.format` are not modelled. What matters to
 * `main` is whether building a card raises, because that ends the run before
 * the JSON and CSV files are written; and which text heads a card.
 */
module Render {
  import opened PyJson
  import opened Feed
  import opened Defaults
  import opened CsvExport

  /** `for x in (v or [])` does not raise: `v` is falsy, or a list, a string or a dict. */
  predicate Loopable(v: Json) {
    !Truthy(v) || v.JArr? || v.JStr? || v.JObj?
  }

  /**
   * Building the card of `r` raises nowhere: both list fields can be looped
   * over and the publish time can be cut at 19. Every f-string substitution
   * succeeds on a JSON value, so nothing else can raise.
   */
  predicate CardRenders(r: Item) {
    && Loopable(Get(r, "tags"))
    && Loopable(Get(r, "idea_outline"))
    && PrefixOf(GetOr(r, "publish_time", JStr("")), 19).Some?
  }

  /** The loop over the kept items: true when every card is built, false at the first that raises. */
  method RenderCards(items: seq<Item>) returns (ok: bool)
    ensures ok <==> forall i :: 0 <= i < |items| ==> CardRenders(items[i])
  {
    var i := 0;
    while i < |items|
      invariant 0 <= i <= |items|
      invariant forall k :: 0 <= k < i ==> CardRenders(items[k])
    {
      if !CardRenders(items[i]) {
        return false;
      }
      i := i + 1;
    }
    return true;
  }

  /**
   * A truthy number or boolean as tags or outline makes the card raise: it
   * cannot be looped over.
   */
  lemma ScalarListStops(r: Item, k: string)
    requires k == "tags" || k == "idea_outline"
    requires k in r && (r[k].JNum? || r[k].JBool?) && Truthy(r[k])
    ensures !CardRenders(r)
  {
  }

  /**
   * An item whose CSV row can be built also has a card: every value the card's
   * loops or slice raise on makes the row's joins or slice raise too.
   */
  lemma RowRenders(r: Item)
    requires Row(r).Some?
    ensures CardRenders(r)
  {
  }

  /** Not the other way round: a list holding a number is printed in the card but cannot be joined in the row. */
  lemma CardWithoutRow()
    ensures CardRenders(map["tags" := JArr([JNum(1)])])
    ensures Row(map["tags" := JArr([JNum(1)])]).None?
  {
    assert !Get(map["tags" := JArr([JNum(1)])], "tags").elems[0].JStr?;
  }

  /** The heading of a card: `r.get("idea_title") or r.get("title")`. */
  function Heading(r: Item): (h: Json)
    ensures Truthy(Get(r, "idea_title")) ==> h == r["idea_title"]
    ensures !Truthy(Get(r, "idea_title")) ==> h == Get(r, "title")
  {
    FirstTruthy([Get(r, "idea_title")], Get(r, "title"))
  }

  /** An item that came without an idea title is headed, once filled, by the one built from its title. */
  lemma FilledHeading(m: Item)
    requires "idea_title" !in m
    ensures Heading(Filled(m)) == IdeaTitle(m)
  {
  }

  /** An empty idea title survives the fill, so the card falls back to the title. */
  lemma EmptyIdeaTitleHeading(m: Item)
    requires "idea_title" in m && !Truthy(m["idea_title"])
    ensures Heading(Filled(m)) == Get(m, "title")
  {
    assert Get(Filled(m), "title") == Get(m, "title");
  }
}
