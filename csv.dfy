/**
 * The CSV export of generate_digest.py (`write_csv`): a header row, then one
 * row of seven fields per item. The two list fields are joined into one
 * text each, and `publish_time` is cut to its first nineteen characters.
 * The file itself and the writer's quoting are not modelled: a row is the
 * sequence of field texts the writer is given.
 */
module CsvExport {
  import opened PyJson
  import opened Feed

  /** The header row. */
  const Header: seq<string> := ["source", "title", "tags", "idea_title", "idea_outline", "publish_time", "link"]

  /** The text the CSV writer writes for a value: None becomes the empty field, anything else `str()`. */
  function CsvText(v: Json): (r: string)
    ensures v.JNull? ==> r == ""
    ensures v.JStr? ==> r == v.s
    ensures v.JNum? ==> r == IntText(v.n)
  {
    if v.JNull? then "" else Str(v)
  }

  /** The one-character strings of `s`: what iterating a Python string yields. */
  function Chars(s: string): (r: seq<string>)
    ensures |r| == |s| && forall i :: 0 <= i < |s| ==> r[i] == [s[i]]
  {
    seq(|s|, i requires 0 <= i < |s| => [s[i]])
  }

  /** The texts of a list all of whose elements are strings. */
  function Texts(es: seq<Json>): (r: seq<string>)
    requires forall i :: 0 <= i < |es| ==> es[i].JStr?
    ensures |r| == |es| && forall i :: 0 <= i < |es| ==> es[i] == JStr(r[i])
  {
    seq(|es|, i requires 0 <= i < |es| => es[i].s)
  }

  /**
   * `sep.join(v or [])`: a falsy value gives "", a list of strings its
   * elements joined, a string its characters joined; a list holding a
   * non-string and any other value raise (None). A non-empty dict, whose keys
   * Python would join in insertion order, is also taken to raise.
   */
  function JoinField(sep: string, v: Json): (r: Option<string>)
    ensures !Truthy(v) ==> r == Some("")
    ensures v.JArr? && Truthy(v) ==> (r.Some? <==> forall i :: 0 <= i < |v.elems| ==> v.elems[i].JStr?)
    ensures v.JStr? ==> r.Some?
    ensures (v.JNum? || v.JBool?) && Truthy(v) ==> r.None?
  {
    if !Truthy(v) then Some("")
    else match v
      case JStr(s) => Some(Join(sep, Chars(s)))
      case JArr(es) =>
        if forall i | 0 <= i < |es| :: es[i].JStr? then Some(Join(sep, Texts(es))) else None
      case _ => None
  }

  /** The row written for item `r`, or None when building it raises. */
  function Row(r: Dict): (row: Option<seq<string>>)
    ensures row.Some? ==> |row.value| == |Header|
    ensures row.Some? ==> row.value[0] == CsvText(GetOr(r, "source", JStr("")))
    ensures row.Some? ==> row.value[1] == CsvText(GetOr(r, "title", JStr("")))
    ensures row.Some? ==> row.value[6] == CsvText(GetOr(r, "link", JStr("")))
    ensures row.Some? <==>
              && JoinField("、", Get(r, "tags")).Some?
              && JoinField(" | ", Get(r, "idea_outline")).Some?
              && PrefixOf(GetOr(r, "publish_time", JStr("")), 19).Some?
  {
    var tags := JoinField("、", Get(r, "tags"));
    var outline := JoinField(" | ", Get(r, "idea_outline"));
    var time := PrefixOf(GetOr(r, "publish_time", JStr("")), 19);
    if tags.None? || outline.None? || time.None? then None
    else
      Some([
        CsvText(GetOr(r, "source", JStr(""))),
        CsvText(GetOr(r, "title", JStr(""))),
        tags.value,
        CsvText(GetOr(r, "idea_title", JStr(""))),
        outline.value,
        CsvText(time.value),
        CsvText(GetOr(r, "link", JStr("")))
      ])
  }

  /** The fields of a row: tags and outline joined, idea title and publish time as written. */
  lemma RowFields(r: Dict)
    requires Row(r).Some?
    ensures Some(Row(r).value[2]) == JoinField("、", Get(r, "tags"))
    ensures Row(r).value[3] == CsvText(GetOr(r, "idea_title", JStr("")))
    ensures Some(Row(r).value[4]) == JoinField(" | ", Get(r, "idea_outline"))
    ensures Row(r).value[5] == CsvText(PrefixOf(GetOr(r, "publish_time", JStr("")), 19).value)
  {
  }

  /** A string publish time is written as its first nineteen characters: date and time of day, no zone or fraction. */
  lemma PublishTimeColumn(r: Dict, p: string)
    requires Row(r).Some? && GetOr(r, "publish_time", JStr("")) == JStr(p)
    ensures Row(r).value[5] == Take(p, 19)
    ensures |Row(r).value[5]| <= 19 && Row(r).value[5] == p[..|Row(r).value[5]|]
  {
    if p == "" {
      assert Take(p, 19) == "";
    }
  }

  /** A list of tags with a non-string element makes the row raise. */
  lemma NonTextTagRaises(r: Dict, es: seq<Json>, i: int)
    requires Get(r, "tags") == JArr(es) && 0 <= i < |es| && !es[i].JStr?
    ensures Row(r).None?
  {
  }

  /** `s.split(c)` for a one-character separator `c`. */
  function Split(c: char, s: string): (r: seq<string>)
    ensures |r| >= 1
    decreases |s|
  {
    if s == [] then [""]
    else
      var rest := Split(c, s[1..]);
      if s[0] == c then [""] + rest else [[s[0]] + rest[0]] + rest[1..]
  }

  /** A text without the separator is one piece. */
  lemma {:induction false} SplitNone(c: char, x: string)
    requires c !in x
    ensures Split(c, x) == [x]
    decreases |x|
  {
    if x != [] {
      SplitNone(c, x[1..]);
      assert [x[0]] + x[1..] == x;
    }
  }

  /** The first piece of `x + [c] + y` is `x` when `x` holds no `c`. */
  lemma {:induction false} SplitFirst(c: char, x: string, y: string)
    requires c !in x
    ensures Split(c, x + [c] + y) == [x] + Split(c, y)
    decreases |x|
  {
    var s := x + [c] + y;
    if x == [] {
      assert s[0] == c && s[1..] == y;
    } else {
      assert s[0] == x[0] && s[1..] == x[1..] + [c] + y;
      SplitFirst(c, x[1..], y);
      assert [x[0]] + x[1..] == x;
    }
  }

  /** Splitting a joined list of pieces at the separator gives the pieces back, when none holds the separator. */
  lemma {:induction false} SplitJoin(c: char, xs: seq<string>)
    requires xs != []
    requires forall i :: 0 <= i < |xs| ==> c !in xs[i]
    ensures Split(c, Join([c], xs)) == xs
    decreases |xs|
  {
    if |xs| == 1 {
      SplitNone(c, xs[0]);
    } else {
      SplitJoin(c, xs[1..]);
      SplitFirst(c, xs[0], Join([c], xs[1..]));
      assert [xs[0]] + xs[1..] == xs;
    }
  }

  /** The tags column names the item's tags: split at "、" it gives the list back. */
  lemma TagsRoundTrip(r: Dict, tags: seq<string>)
    requires Row(r).Some?
    requires tags != [] && Get(r, "tags") == JArr(seq(|tags|, i requires 0 <= i < |tags| => JStr(tags[i])))
    requires forall i :: 0 <= i < |tags| ==> '、' !in tags[i]
    ensures Split('、', Row(r).value[2]) == tags
  {
    var es := Get(r, "tags").elems;
    assert Texts(es) == tags;
    assert Row(r).value[2] == Join("、", tags);
    SplitJoin('、', tags);
  }

  /**
   * `write_csv`'s rows: the header, then the row of each item in turn; when
   * building a row raises, the rows before it have been written and the
   * exception ends the run (`ok` false).
   */
  method WriteCsv(items: seq<Dict>) returns (lines: seq<seq<string>>, ok: bool)
    ensures lines == [Header] + Collect(Row, items)
    ensures ok <==> forall i :: 0 <= i < |items| ==> Row(items[i]).Some?
    ensures ok ==> |lines| == |items| + 1 && forall i :: 0 <= i < |items| ==> Some(lines[i + 1]) == Row(items[i])
  {
    lines := AppendEntries([Header], Row, items);
    ok := |lines| == |items| + 1;
  }
}
