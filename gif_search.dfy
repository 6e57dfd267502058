/** The search side of App.tsx that does not touch the page state: what each
    provider's answer becomes (`data.data || []` for Giphy,
    `data.results || []` for Tenor, then the per-provider mapping to a
    `GifItem`), the round-robin merge of the two lists, and the trending
    list. */
module GifSearch {
  import opened Types
  import opened Json

  const SearchLimit := 32
  const TrendingLimit := 24
  const UntitledGif := "Untitled GIF"

  /** A search call the page makes: the provider, the terms it asks for,
      the key it sends and the page size. */
  datatype SearchRequest = SearchRequest(provider: Provider, terms: string, key: string, limit: nat)

  function ListField(p: Provider): string
  {
    match p
    case Giphy => "data"
    case Tenor => "results"
  }

  /** The list a provider call settles on: the named field of the parsed
      answer when it is truthy, and an empty list when it is falsy or when
      the call, the parse or the read throws (the `.catch` turns every such
      failure into an empty list for that provider alone). */
  function ProviderData(p: Provider, answer: Fetch): (r: Json)
    ensures answer.Unreachable? || answer.body.Unparsable? ==> r == JArr([])
  {
    if answer.Unreachable? || answer.body.Unparsable? || answer.body.doc.JNull? then JArr([])
    else
      var v := Prop(Some(answer.body.doc), ListField(p));
      if IsTruthy(v) then v.value else JArr([])
  }

  function Min(a: nat, b: nat): nat
  {
    if a <= b then a else b
  }

  /** The mapping of one item of a provider's list; `None` when one of its
      member chains throws. Giphy items give `images.fixed_height.url` and
      `images.original.url`; Tenor items give `content_description` as the
      title and `media_formats.tinygif.url` and `media_formats.gif.url`. */
  function Normalise(p: Provider, item: Json): Option<GifItem>
  {
    var it := Some(item);
    var id := Member(it, ["id"]);
    var title := Member(it, [if p == Giphy then "title" else "content_description"]);
    var fixed := Member(it, if p == Giphy then ["images", "fixed_height", "url"] else ["media_formats", "tinygif", "url"]);
    var original := Member(it, if p == Giphy then ["images", "original", "url"] else ["media_formats", "gif", "url"]);
    if id.Crash? || title.Crash? || fixed.Crash? || original.Crash? then None
    else Some(GifItem(StringOf(id.value), StringOf(title.value), p,
                      StringOf(fixed.value), StringOf(original.value), StringOf(original.value)))
  }

  /** `items.map(...)`: every item mapped, or a throw when any item's
      mapping throws. */
  function NormaliseAll(p: Provider, items: seq<Json>): (r: Option<seq<GifItem>>)
    ensures r.Some? <==> forall i | 0 <= i < |items| :: Normalise(p, items[i]).Some?
    ensures r.Some? ==> |r.value| == |items| && forall i | 0 <= i < |items| :: Normalise(p, items[i]) == Some(r.value[i])
  {
    if items == [] then Some([])
    else
      var head := Normalise(p, items[0]);
      var tail := NormaliseAll(p, items[1..]);
      if head.None? || tail.None? then
        assert head.None? ==> !Normalise(p, items[0]).Some?;
        None
      else Some([head.value] + tail.value)
  }

  /** A provider's list as `GifItem`s; `None` when the mapping throws, which
      also happens when the settled value is not an array (it has no `map`). */
  function ProviderResults(p: Provider, data: Json): (r: Option<seq<GifItem>>)
    ensures !data.JArr? ==> r.None?
    ensures r.Some? ==> forall g | g in r.value :: g.source == p
  {
    if data.JArr? then NormaliseAll(p, data.items) else None
  }

  /** A well-formed Tenor item maps to its description, its small preview
      and its full GIF, which is also the link that is copied. */
  lemma TenorItemNormalised(id: string, description: string, tiny: string, gif: string)
    ensures var item := JObj(map["id" := JStr(id), "content_description" := JStr(description),
                                 "media_formats" := JObj(map["tinygif" := JObj(map["url" := JStr(tiny)]),
                                                             "gif" := JObj(map["url" := JStr(gif)])])]);
            Normalise(Tenor, item) == Some(GifItem(id, description, Tenor, tiny, gif, gif))
  {
    var formats := JObj(map["tinygif" := JObj(map["url" := JStr(tiny)]), "gif" := JObj(map["url" := JStr(gif)])]);
    var item := JObj(map["id" := JStr(id), "content_description" := JStr(description), "media_formats" := formats]);
    assert Member(Some(item), ["media_formats", "tinygif", "url"]) == Got(Some(JStr(tiny))) by {
      assert ["media_formats", "tinygif", "url"][1..] == ["tinygif", "url"];
      assert ["tinygif", "url"][1..] == ["url"];
    }
    assert Member(Some(item), ["media_formats", "gif", "url"]) == Got(Some(JStr(gif))) by {
      assert ["media_formats", "gif", "url"][1..] == ["gif", "url"];
      assert ["gif", "url"][1..] == ["url"];
    }
  }

  /** A Giphy item without `images` makes the whole mapping throw; one
      without `title` still maps, with an empty title. */
  lemma GiphyItemWithoutImagesThrows(fields: map<string, Json>, items: seq<Json>)
    requires "images" !in fields
    requires JObj(fields) in items
    ensures Normalise(Giphy, JObj(fields)).None?
    ensures ProviderResults(Giphy, JArr(items)).None?
  {
    assert ["images", "fixed_height", "url"][1..] == ["fixed_height", "url"];
    assert Member(Some(JObj(fields)), ["images", "fixed_height", "url"]) == Crash;
    var i :| 0 <= i < |items| && items[i] == JObj(fields);
  }

  // ---------------------------------------------------------------------
  // The merge

  /** The merge, stated position by position: while both lists have items
      the result alternates Giphy then Tenor, and the rest of the longer
      list follows in order. */
  ghost predicate IsInterleaving<T>(g: seq<T>, t: seq<T>, r: seq<T>)
  {
    var m := Min(|g|, |t|);
    && |r| == |g| + |t|
    && (forall j | 0 <= j < m :: r[2 * j] == g[j] && r[2 * j + 1] == t[j])
    && (forall j | m <= j < |g| :: r[m + j] == g[j])
    && (forall j | m <= j < |t| :: r[m + j] == t[j])
  }

  /** The merge as a list recursion: a pair from the fronts, then the rest. */
  function Interleaved<T>(g: seq<T>, t: seq<T>): seq<T>
    decreases |g| + |t|
  {
    if g == [] then t
    else if t == [] then g
    else [g[0], t[0]] + Interleaved(g[1..], t[1..])
  }

  lemma {:induction false} InterleavedIsInterleaving<T>(g: seq<T>, t: seq<T>)
    ensures IsInterleaving(g, t, Interleaved(g, t))
    decreases |g| + |t|
  {
    if g != [] && t != [] {
      InterleavedIsInterleaving(g[1..], t[1..]);
      InterleavingStep(g, t, Interleaved(g[1..], t[1..]));
    }
  }

  /** A pair from the fronts put before a merge of the rests is a merge. */
  lemma InterleavingStep<T>(g: seq<T>, t: seq<T>, rest: seq<T>)
    requires g != [] && t != []
    requires IsInterleaving(g[1..], t[1..], rest)
    ensures IsInterleaving(g, t, [g[0], t[0]] + rest)
  {
    var g', t' := g[1..], t[1..];
    var r := [g[0], t[0]] + rest;
    var m := Min(|g|, |t|);
    assert Min(|g'|, |t'|) == m - 1;
    forall j | 0 <= j < m
      ensures r[2 * j] == g[j] && r[2 * j + 1] == t[j]
    {
      if j > 0 {
        PairFromRest(g', t', rest, j - 1);
        assert r[2 * j] == rest[2 * (j - 1)];
        assert r[2 * j + 1] == rest[2 * (j - 1) + 1];
      }
    }
    forall j | m <= j < |g|
      ensures r[m + j] == g[j]
    {
      TailFromRest(g', t', rest, j - 1);
      assert r[m + j] == rest[(m - 1) + (j - 1)];
    }
    forall j | m <= j < |t|
      ensures r[m + j] == t[j]
    {
      TailFromRest(g', t', rest, j - 1);
      assert r[m + j] == rest[(m - 1) + (j - 1)];
    }
  }

  lemma PairFromRest<T>(g: seq<T>, t: seq<T>, rest: seq<T>, j: nat)
    requires IsInterleaving(g, t, rest) && j < Min(|g|, |t|)
    ensures rest[2 * j] == g[j] && rest[2 * j + 1] == t[j]
  {
  }

  lemma TailFromRest<T>(g: seq<T>, t: seq<T>, rest: seq<T>, j: nat)
    requires IsInterleaving(g, t, rest) && Min(|g|, |t|) <= j
    ensures j < |g| ==> rest[Min(|g|, |t|) + j] == g[j]
    ensures j < |t| ==> rest[Min(|g|, |t|) + j] == t[j]
  {
  }

  /** The position-wise description leaves no freedom. */
  lemma InterleavingUnique<T>(g: seq<T>, t: seq<T>, r1: seq<T>, r2: seq<T>)
    requires IsInterleaving(g, t, r1) && IsInterleaving(g, t, r2)
    ensures r1 == r2
  {
    var m := Min(|g|, |t|);
    forall p | 0 <= p < |r1|
      ensures r1[p] == r2[p]
    {
      if p < 2 * m {
        var j := p / 2;
        PairFromRest(g, t, r1, j);
        PairFromRest(g, t, r2, j);
      } else {
        TailFromRest(g, t, r1, p - m);
        TailFromRest(g, t, r2, p - m);
      }
    }
  }

  /** Nothing is lost or duplicated: the merge holds exactly the items of
      both lists. */
  lemma {:induction false} InterleavedIsPermutation<T>(g: seq<T>, t: seq<T>)
    ensures multiset(Interleaved(g, t)) == multiset(g) + multiset(t)
    decreases |g| + |t|
  {
    if g != [] && t != [] {
      InterleavedIsPermutation(g[1..], t[1..]);
      assert g == [g[0]] + g[1..];
      assert t == [t[0]] + t[1..];
    }
  }

  /** With one list empty the merge is the other list. */
  lemma InterleavedWithEmpty<T>(g: seq<T>, t: seq<T>)
    ensures Interleaved(g, []) == g && Interleaved([], t) == t
  {
  }

  /** The `for` loop that pushes the i-th Giphy item, then the i-th Tenor
      item, for every i below the longer length. */
  method Interleave<T>(g: seq<T>, t: seq<T>) returns (combined: seq<T>)
    ensures IsInterleaving(g, t, combined)
    ensures combined == Interleaved(g, t)
  {
    combined := [];
    var maxLength := if |g| >= |t| then |g| else |t|;
    ghost var m := Min(|g|, |t|);
    for i := 0 to maxLength
      invariant |combined| == Min(i, |g|) + Min(i, |t|)
      invariant forall j | 0 <= j < i && j < m :: combined[2 * j] == g[j] && combined[2 * j + 1] == t[j]
      invariant forall j | m <= j < i && j < |g| :: combined[m + j] == g[j]
      invariant forall j | m <= j < i && j < |t| :: combined[m + j] == t[j]
    {
      if i < |g| {
        combined := combined + [g[i]];
      }
      if i < |t| {
        combined := combined + [t[i]];
      }
    }
    InterleavedIsInterleaving(g, t);
    InterleavingUnique(g, t, combined, Interleaved(g, t));
  }

  // ---------------------------------------------------------------------
  // Trending

  /** A trending item: the Giphy mapping, with `title || 'Untitled GIF'`. */
  function TrendingItem(item: Json): (r: Option<GifItem>)
    ensures r.Some? ==> r.value.title != "" && r.value.source == Giphy
    ensures Normalise(Giphy, item).None? <==> r.None?
  {
    match Normalise(Giphy, item)
    case None => None
    case Some(g) =>
      var title := Member(Some(item), ["title"]);
      Some(g.(title := if !IsTruthy(title.value) then UntitledGif
                       else if title.value.value.JStr? then title.value.value.s
                       else UntitledGif))
  }

  function TrendingItems(items: seq<Json>): (r: Option<seq<GifItem>>)
    ensures r.Some? <==> forall i | 0 <= i < |items| :: TrendingItem(items[i]).Some?
    ensures r.Some? ==> |r.value| == |items| && forall i | 0 <= i < |items| :: TrendingItem(items[i]) == Some(r.value[i])
  {
    if items == [] then Some([])
    else
      var head := TrendingItem(items[0]);
      var tail := TrendingItems(items[1..]);
      if head.None? || tail.None? then
        assert head.None? ==> !TrendingItem(items[0]).Some?;
        None
      else Some([head.value] + tail.value)
  }

  /** The new trending list, or `None` when the list is left as it was: the
      call or parse failed, `meta.status` is not the number 200, or a read
      threw. */
  function TrendingResults(answer: Fetch): (r: Option<seq<GifItem>>)
    ensures r.Some? ==> answer.Answered? && answer.body.Parsed?
    ensures r.Some? ==> Member(Some(answer.body.doc), ["meta", "status"]) == Got(Some(JNum(200)))
    ensures r.Some? ==> forall g | g in r.value :: g.title != "" && g.source == Giphy
  {
    if answer.Unreachable? || answer.body.Unparsable? then None
    else
      var doc := answer.body.doc;
      var status := Member(Some(doc), ["meta", "status"]);
      if status != Got(Some(JNum(200))) then None
      else
        var list := Member(Some(doc), ["data"]);
        if list.Got? && list.value.Some? && list.value.value.JArr? then TrendingItems(list.value.value.items)
        else None
  }

  /** An answer whose `meta.status` is 200 and whose `data` is an array
      gives the mapped items as the new list, in their order, and leaves the
      list as it was exactly when some item fails to map. */
  lemma TrendingFromList(ok: bool, status: nat, statusText: string, fields: map<string, Json>,
                         meta: map<string, Json>, items: seq<Json>)
    requires "meta" in fields && fields["meta"] == JObj(meta) && "status" in meta && meta["status"] == JNum(200)
    requires "data" in fields && fields["data"] == JArr(items)
    ensures TrendingResults(Answered(ok, status, statusText, Parsed(JObj(fields)))) == TrendingItems(items)
  {
    assert ["meta", "status"][1..] == ["status"];
    assert Member(Some(JObj(fields)), ["meta", "status"]) == Got(Some(JNum(200)));
    assert Member(Some(JObj(fields)), ["data"]) == Got(Some(JArr(items)));
  }

  /** Any other answer leaves the trending list as it was: a `meta.status`
      other than the number 200, or a `data` that is not an array. */
  lemma TrendingKeptOtherwise(ok: bool, status: nat, statusText: string, fields: map<string, Json>,
                              meta: map<string, Json>)
    requires "meta" in fields && fields["meta"] == JObj(meta)
    ensures ("status" !in meta || meta["status"] != JNum(200)) ==>
              TrendingResults(Answered(ok, status, statusText, Parsed(JObj(fields)))).None?
    ensures ("data" !in fields || !fields["data"].JArr?) ==>
              TrendingResults(Answered(ok, status, statusText, Parsed(JObj(fields)))).None?
  {
    assert ["meta", "status"][1..] == ["status"];
    assert Member(Some(JObj(fields)), ["meta", "status"]) == Got(Prop(Some(JObj(meta)), "status"));
    if "data" in fields {
      assert Member(Some(JObj(fields)), ["data"]) == Got(Some(fields["data"]));
    } else {
      assert Member(Some(JObj(fields)), ["data"]) == Got(None);
    }
  }
}
