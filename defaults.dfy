/**
 * The default fill of `main` (generate_digest.py): every kept item gets
 * `tags`, `idea_title` and `idea_outline` by `dict.setdefault`, so a key the
 * item already has keeps its value, however empty, and an absent key gets the
 * fixed default.
 */
module Defaults {
  import opened PyJson

  /** The keys the fill guarantees. */
  const FilledKeys: set<string> := {"tags", "idea_title", "idea_outline"}

  /** `["行业观察"]`. */
  const DefaultTags: Json := JArr([JStr("行业观察")])

  /** The five-point outline every item without one gets. */
  const DefaultOutline: Json :=
    JArr([JStr("要点速读"), JStr("适配点"), JStr("落地清单"), JStr("风控与合规"), JStr("ROI")])

  /** `f"从《{r.get('title','')}》看落地路径"`. */
  function IdeaTitle(m: Dict): (r: Json)
    ensures r.JStr? && Truthy(r)
    ensures var t := Str(GetOr(m, "title", JStr("")));
            |r.s| == |t| + 8 && r.s[2..|r.s| - 6] == t
  {
    JStr("从《" + Str(GetOr(m, "title", JStr(""))) + "》看落地路径")
  }

  /** The idea title begins with `从《` and ends with `》看落地路径`. */
  lemma IdeaTitleText(m: Dict)
    ensures IdeaTitle(m).s[..2] == "从《"
    ensures IdeaTitle(m).s[|IdeaTitle(m).s| - 6..] == "》看落地路径"
  {
  }

  /** `m.setdefault(k, v)`, as the dict it leaves behind. */
  function SetDefault(m: Dict, k: string, v: Json): (r: Dict)
    ensures r.Keys == m.Keys + {k}
    ensures k in m ==> r == m
    ensures k !in m ==> r[k] == v && forall k' :: k' in m ==> r[k'] == m[k']
  {
    if k in m then m else m[k := v]
  }

  /**
   * The three `setdefault` calls in order. The idea title is computed from the
   * dict after `tags` was set, which cannot have changed its `title`.
   */
  function Filled(m: Dict): (r: Dict)
    ensures r.Keys == m.Keys + FilledKeys
    ensures forall k :: k in m ==> r[k] == m[k]
    ensures "tags" !in m ==> r["tags"] == DefaultTags
    ensures "idea_title" !in m ==> r["idea_title"] == IdeaTitle(m)
    ensures "idea_outline" !in m ==> r["idea_outline"] == DefaultOutline
  {
    var m1 := SetDefault(m, "tags", DefaultTags);
    var m2 := SetDefault(m1, "idea_title", IdeaTitle(m1));
    SetDefault(m2, "idea_outline", DefaultOutline)
  }

  /** The fill applied to every item, in place. */
  function FilledAll(s: seq<Dict>): (r: seq<Dict>)
    ensures |r| == |s|
    ensures forall i :: 0 <= i < |s| ==> r[i] == Filled(s[i])
  {
    seq(|s|, i requires 0 <= i < |s| => Filled(s[i]))
  }

  /** Filling twice is filling once: every key the second fill would set is already there. */
  lemma FilledIdempotent(m: Dict)
    ensures Filled(Filled(m)) == Filled(m)
  {
    var r := Filled(m);
    assert "tags" in r && "idea_title" in r && "idea_outline" in r;
    assert Filled(r).Keys == r.Keys;
  }

  /** A filled item has a truthy value under each of the three keys unless the item brought a falsy one. */
  lemma FilledTruthy(m: Dict, k: string)
    requires k in FilledKeys
    ensures k !in m ==> Truthy(Filled(m)[k])
    ensures k in m ==> Filled(m)[k] == m[k]
  {
    if k == "idea_title" && k !in m {
      assert IdeaTitle(m).s[0] == '从';
    }
  }

  /** An item that already carries an empty list of tags keeps it: `setdefault` is not `or`. */
  lemma EmptyTagsStay(m: Dict)
    requires "tags" in m && m["tags"] == JArr([])
    ensures Filled(m)["tags"] == JArr([]) && !Truthy(Filled(m)["tags"])
  {
  }

  /** An item with nothing but a title gets the title-derived idea title and both default lists. */
  lemma TitleOnlyItem(t: string)
    ensures var r := Filled(map["title" := JStr(t)]);
            && r.Keys == {"title", "tags", "idea_title", "idea_outline"}
            && r["idea_title"] == JStr("从《" + t + "》看落地路径")
  {
  }

  /** Filling the kept items in place: each array element becomes its filled form. */
  method FillDefaults(a: array<Dict>)
    modifies a
    ensures a[..] == FilledAll(old(a[..]))
  {
    for i := 0 to a.Length
      invariant forall k :: 0 <= k < i ==> a[k] == Filled(old(a[k]))
      invariant forall k :: i <= k < a.Length ==> a[k] == old(a[k])
    {
      var r := a[i];
      r := SetDefault(r, "tags", DefaultTags);
      r := SetDefault(r, "idea_title", IdeaTitle(r));
      r := SetDefault(r, "idea_outline", DefaultOutline);
      a[i] := r;
    }
  }
}
