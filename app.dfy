/** The page state of App.tsx: where the API keys come from, saving them,
    the soft reset behind the logo, the search handler and the trending
    list, and which list the grid shows. Network answers are inputs. */
module App {
  import opened Types
  import opened Text
  import opened Json
  import opened GeminiService
  import opened GifSearch

  datatype ToastKind = Success | Failure | Warning
  datatype Toast = Toast(show: bool, message: string, kind: ToastKind)

  const SavedToast := "Settings saved successfully!"
  const MissingKeyToast := "Please add an API Key to search"
  const NoResultsError := "No memes found. Try a different description?"
  const UnexpectedError := "An unexpected error occurred."

  // ---------------------------------------------------------------------
  // Keys

  /** `process.env`, or `None` when reading it throws. */
  type Env = Option<map<string, string>>

  /** `process.env[key]` seen through `||`: absent reads as empty. */
  function EnvValue(env: Env, key: string): string
  {
    if env.Some? && key in env.value then env.value[key] else ""
  }

  /** `localStorage.getItem(key)` seen through `||`: null reads as empty. */
  function Stored(storage: map<string, string>, key: string): string
  {
    if key in storage then storage[key] else ""
  }

  /** The first non-empty string of a list, or the empty string. */
  function FirstNonEmpty(xs: seq<string>): (r: string)
    ensures r == "" <==> forall i | 0 <= i < |xs| :: xs[i] == ""
    ensures r != "" ==> exists i | 0 <= i < |xs| :: r == xs[i] && forall j | 0 <= j < i :: xs[j] == ""
  {
    if xs == [] then ""
    else if xs[0] != "" then xs[0]
    else
      var r := FirstNonEmpty(xs[1..]);
      assert r != "" ==> exists i | 0 <= i < |xs| :: r == xs[i] && forall j | 0 <= j < i :: xs[j] == "" by {
        if r != "" {
          var i :| 0 <= i < |xs[1..]| && r == xs[1..][i] && forall j | 0 <= j < i :: xs[1..][j] == "";
          assert r == xs[i + 1] && forall j | 0 <= j < i + 1 :: xs[j] == "";
        }
      }
      r
  }

  /** `getEnvVar`: the base name, then the VITE_ name, then the REACT_APP_
      name; the empty string when none is set or `process` cannot be read. */
  function GetEnvVar(env: Env, baseKey: string, viteKey: string, reactKey: string): (r: string)
    ensures r == FirstNonEmpty([EnvValue(env, baseKey), EnvValue(env, viteKey), EnvValue(env, reactKey)])
  {
    var a, b, c := EnvValue(env, baseKey), EnvValue(env, viteKey), EnvValue(env, reactKey);
    assert [a, b, c] == [a] + [b, c] && [b, c] == [b] + [c] && [c] == [c] + [];
    FirstNonEmptyCons(a, [b, c]);
    FirstNonEmptyCons(b, [c]);
    FirstNonEmptyCons(c, []);
    if env.None? then ""
    else if EnvValue(env, baseKey) != "" then EnvValue(env, baseKey)
    else if EnvValue(env, viteKey) != "" then EnvValue(env, viteKey)
    else if EnvValue(env, reactKey) != "" then EnvValue(env, reactKey)
    else ""
  }

  function EnvChain(env: Env, baseKey: string, viteKey: string, reactKey: string): seq<string>
  {
    [EnvValue(env, baseKey), EnvValue(env, viteKey), EnvValue(env, reactKey)]
  }

  function GiphyEnv(env: Env): seq<string>
  {
    EnvChain(env, "GIPHY_API_KEY", "VITE_GIPHY_API_KEY", "REACT_APP_GIPHY_API_KEY")
  }

  function TenorEnv(env: Env): seq<string>
  {
    EnvChain(env, "TENOR_API_KEY", "VITE_TENOR_API_KEY", "REACT_APP_TENOR_API_KEY")
  }

  lemma FirstNonEmptyCons(x: string, xs: seq<string>)
    ensures FirstNonEmpty([x] + xs) == if x != "" then x else FirstNonEmpty(xs)
  {
    assert ([x] + xs)[1..] == xs;
  }

  /** The keys the page starts with: a stored key wins, then the
      environment; the backup key comes from storage only. */
  function InitialKeys(storage: map<string, string>, env: Env): (k: ApiKeys)
    ensures k.giphy == FirstNonEmpty([Stored(storage, "giphy_key")] + GiphyEnv(env))
    ensures k.tenor == FirstNonEmpty([Stored(storage, "tenor_key")] + TenorEnv(env))
    ensures k.openai == Stored(storage, "openai_key")
  {
    var giphy := Stored(storage, "giphy_key");
    var tenor := Stored(storage, "tenor_key");
    FirstNonEmptyCons(giphy, GiphyEnv(env));
    FirstNonEmptyCons(tenor, TenorEnv(env));
    ApiKeys(
      if giphy != "" then giphy else GetEnvVar(env, "GIPHY_API_KEY", "VITE_GIPHY_API_KEY", "REACT_APP_GIPHY_API_KEY"),
      if tenor != "" then tenor else GetEnvVar(env, "TENOR_API_KEY", "VITE_TENOR_API_KEY", "REACT_APP_TENOR_API_KEY"),
      Stored(storage, "openai_key"))
  }

  /** The storage after `handleSaveSettings`: both search keys always, the
      backup key only when it is non-empty. */
  function SavedStorage(storage: map<string, string>, newKeys: ApiKeys): map<string, string>
  {
    var s := storage["giphy_key" := newKeys.giphy]["tenor_key" := newKeys.tenor];
    if newKeys.openai != "" then s["openai_key" := newKeys.openai] else s
  }

  /** What a reload after saving starts with: non-empty keys come back as
      saved; an emptied search key gives way to the environment; an emptied
      backup key brings the previously stored one back. */
  lemma SaveThenReload(storage: map<string, string>, env: Env, newKeys: ApiKeys)
    ensures var k := InitialKeys(SavedStorage(storage, newKeys), env);
            && (newKeys.giphy != "" ==> k.giphy == newKeys.giphy)
            && (newKeys.giphy == "" ==> k.giphy == FirstNonEmpty(GiphyEnv(env)))
            && (newKeys.tenor != "" ==> k.tenor == newKeys.tenor)
            && (newKeys.tenor == "" ==> k.tenor == FirstNonEmpty(TenorEnv(env)))
            && k.openai == (if newKeys.openai != "" then newKeys.openai else Stored(storage, "openai_key"))
  {
    var s := SavedStorage(storage, newKeys);
    assert Stored(s, "giphy_key") == newKeys.giphy;
    assert Stored(s, "tenor_key") == newKeys.tenor;
    FirstNonEmptyCons(newKeys.giphy, GiphyEnv(env));
    FirstNonEmptyCons(newKeys.tenor, TenorEnv(env));
  }

  /** Saved keys that are all non-empty survive a reload unchanged. */
  lemma SavedKeysSurviveReload(storage: map<string, string>, env: Env, newKeys: ApiKeys)
    requires newKeys.giphy != "" && newKeys.tenor != "" && newKeys.openai != ""
    ensures InitialKeys(SavedStorage(storage, newKeys), env) == newKeys
  {
    SaveThenReload(storage, env, newKeys);
  }

  // ---------------------------------------------------------------------
  // Search

  /** The search calls made for the translated terms: one per provider
      whose key is set, Giphy first. */
  function Requests(keys: ApiKeys, terms: string): seq<SearchRequest>
  {
    (if keys.giphy != "" then [SearchRequest(Giphy, terms, keys.giphy, SearchLimit)] else [])
    + (if keys.tenor != "" then [SearchRequest(Tenor, terms, keys.tenor, SearchLimit)] else [])
  }

  /** The conditional pushes of the provider calls. */
  method PlanRequests(keys: ApiKeys, terms: string) returns (requests: seq<SearchRequest>)
    ensures requests == Requests(keys, terms)
  {
    requests := [];
    if keys.giphy != "" {
      requests := requests + [SearchRequest(Giphy, terms, keys.giphy, SearchLimit)];
    }
    if keys.tenor != "" {
      requests := requests + [SearchRequest(Tenor, terms, keys.tenor, SearchLimit)];
    }
  }

  /** Every call carries the translated terms and a non-empty key, and a
      provider is called exactly when its key is set. */
  lemma RequestsOnlyForKeys(keys: ApiKeys, terms: string)
    ensures forall r | r in Requests(keys, terms) :: r.terms == terms && r.key != "" && r.limit == SearchLimit
    ensures (exists r | r in Requests(keys, terms) :: r.provider == Giphy) <==> keys.giphy != ""
    ensures (exists r | r in Requests(keys, terms) :: r.provider == Tenor) <==> keys.tenor != ""
  {
    var rs := Requests(keys, terms);
    if keys.giphy != "" {
      assert rs[0].provider == Giphy;
    }
    if keys.tenor != "" {
      assert rs[|rs| - 1].provider == Tenor;
    }
  }

  /** A provider's list: empty when it was not called, else its answer
      mapped; `None` when the mapping throws. */
  function ProviderOutcome(key: string, p: Provider, answer: Fetch): Option<seq<GifItem>>
  {
    if key == "" then Some([]) else ProviderResults(p, ProviderData(p, answer))
  }

  /** A provider that fails at the network or with a body that is not JSON
      contributes an empty list and does not fail the search. */
  lemma ProviderFailureIsolated(key: string, p: Provider, answer: Fetch)
    requires answer.Unreachable? || answer.body.Unparsable?
    ensures ProviderOutcome(key, p, answer) == Some([])
  {
  }

  /** The merged list is empty exactly when both lists are. */
  lemma NoResultsIffBothEmpty(g: seq<GifItem>, t: seq<GifItem>)
    ensures |Interleaved(g, t)| == |g| + |t|
    ensures Interleaved(g, t) == [] <==> g == [] && t == []
  {
    InterleavedIsInterleaving(g, t);
  }

  // ---------------------------------------------------------------------
  // What the grid shows

  /** The grid shows the search results, or the trending list when there
      are none. */
  function Displayed(gifs: seq<GifItem>, trending: seq<GifItem>): seq<GifItem>
  {
    if |gifs| > 0 then gifs else trending
  }

  function Heading(gifs: seq<GifItem>): string
  {
    if |gifs| > 0 then "Search Results" else "Trending Now"
  }

  /** The "waiting" placeholder shows when there is nothing to show and no
      error. */
  predicate ShowsWaiting(gifs: seq<GifItem>, trending: seq<GifItem>, error: string)
  {
    |gifs| == 0 && |trending| == 0 && error == ""
  }

  /** The grid and the waiting placeholder never show together, and a grid
      is headed by the list it shows. */
  lemma GridOrWaiting(gifs: seq<GifItem>, trending: seq<GifItem>, error: string)
    ensures ShowsWaiting(gifs, trending, error) ==> Displayed(gifs, trending) == []
    ensures Displayed(gifs, trending) != [] ==> !ShowsWaiting(gifs, trending, error)
    ensures Displayed(gifs, trending) == (if Heading(gifs) == "Search Results" then gifs else trending)
  {
  }

  class App {
    var query: string
    var gifs: seq<GifItem>
    var trendingGifs: seq<GifItem>
    var loading: bool
    var aiThinking: bool
    var error: string
    var toast: Toast
    var showSettings: bool
    var activeKeywords: string
    var apiKeys: ApiKeys
    var storage: map<string, string>

    /** Between handlers nothing is in flight. */
    ghost predicate Idle()
      reads this
    {
      !loading && !aiThinking
    }

    constructor(storage0: map<string, string>, env: Env)
      ensures Idle()
      ensures apiKeys == InitialKeys(storage0, env) && storage == storage0
      ensures query == "" && gifs == [] && trendingGifs == [] && error == "" && activeKeywords == ""
      ensures !showSettings && !toast.show
    {
      query := "";
      gifs := [];
      trendingGifs := [];
      loading := false;
      aiThinking := false;
      error := "";
      toast := Toast(false, "", Success);
      showSettings := false;
      activeKeywords := "";
      apiKeys := InitialKeys(storage0, env);
      storage := storage0;
    }

    /** The effect keyed on the Giphy key, as it runs once the page is
        mounted (and again whenever that key changes): the trending list is
        loaded exactly when a Giphy key is set. */
    method GiphyKeyEffect(answer: Fetch) returns (requested: bool)
      modifies this
      ensures requested <==> apiKeys.giphy != ""
      ensures requested && TrendingResults(answer).Some? ==> trendingGifs == TrendingResults(answer).value
      ensures !(requested && TrendingResults(answer).Some?) ==> trendingGifs == old(trendingGifs)
      ensures query == old(query) && gifs == old(gifs) && loading == old(loading)
      ensures aiThinking == old(aiThinking) && error == old(error) && toast == old(toast)
      ensures showSettings == old(showSettings) && activeKeywords == old(activeKeywords)
      ensures apiKeys == old(apiKeys) && storage == old(storage)
    {
      requested := false;
      if apiKeys.giphy != "" {
        requested := FetchTrending(answer);
      }
    }

    method SetQuery(q: string)
      modifies this
      ensures query == q
      ensures gifs == old(gifs) && trendingGifs == old(trendingGifs) && loading == old(loading)
      ensures aiThinking == old(aiThinking) && error == old(error) && toast == old(toast)
      ensures showSettings == old(showSettings) && activeKeywords == old(activeKeywords)
      ensures apiKeys == old(apiKeys) && storage == old(storage)
    {
      query := q;
    }

    /** `handleSaveSettings`; `refetchTrending` is whether the effect keyed
        on the Giphy key (`GiphyKeyEffect`) then runs and loads the trending
        list. */
    method SaveSettings(newKeys: ApiKeys) returns (refetchTrending: bool)
      modifies this
      ensures storage == SavedStorage(old(storage), newKeys)
      ensures apiKeys == newKeys && !showSettings && toast == Toast(true, SavedToast, Success)
      ensures refetchTrending <==> newKeys.giphy != old(apiKeys.giphy) && newKeys.giphy != ""
      ensures query == old(query) && gifs == old(gifs) && trendingGifs == old(trendingGifs)
      ensures loading == old(loading) && aiThinking == old(aiThinking) && error == old(error)
      ensures activeKeywords == old(activeKeywords)
    {
      refetchTrending := newKeys.giphy != apiKeys.giphy && newKeys.giphy != "";
      storage := storage["giphy_key" := newKeys.giphy];
      storage := storage["tenor_key" := newKeys.tenor];
      if newKeys.openai != "" {
        storage := storage["openai_key" := newKeys.openai];
      }
      apiKeys := newKeys;
      showSettings := false;
      toast := Toast(true, SavedToast, Success);
    }

    /** `handleReset`: back to the trending view; the trending list is
        reloaded only when it is empty and a Giphy key is set. */
    method Reset() returns (refetchTrending: bool)
      modifies this
      ensures Idle()
      ensures query == "" && gifs == [] && error == "" && activeKeywords == ""
      ensures trendingGifs == old(trendingGifs) && Displayed(gifs, trendingGifs) == trendingGifs
      ensures refetchTrending <==> apiKeys.giphy != "" && |trendingGifs| == 0
      ensures apiKeys == old(apiKeys) && storage == old(storage) && toast == old(toast)
      ensures showSettings == old(showSettings)
    {
      query := "";
      gifs := [];
      error := "";
      activeKeywords := "";
      aiThinking := false;
      loading := false;
      refetchTrending := apiKeys.giphy != "" && |trendingGifs| == 0;
    }

    /** `fetchTrendingGifs`: nothing without a Giphy key; otherwise the
        list is replaced when the answer says status 200 and maps cleanly,
        and kept otherwise. */
    method FetchTrending(answer: Fetch) returns (requested: bool)
      modifies this
      ensures requested <==> old(apiKeys.giphy) != ""
      ensures requested && TrendingResults(answer).Some? ==> trendingGifs == TrendingResults(answer).value
      ensures !(requested && TrendingResults(answer).Some?) ==> trendingGifs == old(trendingGifs)
      ensures query == old(query) && gifs == old(gifs) && loading == old(loading)
      ensures aiThinking == old(aiThinking) && error == old(error) && toast == old(toast)
      ensures showSettings == old(showSettings) && activeKeywords == old(activeKeywords)
      ensures apiKeys == old(apiKeys) && storage == old(storage)
    {
      if apiKeys.giphy == "" {
        return false;
      }
      requested := true;
      var loaded := TrendingResults(answer);
      if loaded.Some? {
        trendingGifs := loaded.value;
      }
    }

    /** `searchGifs`. A blank query changes nothing (`!query.trim()` holds
        exactly for an all-space query, by `Text.TrimEmptyIffBlank`). Without any search key
        the settings open with a warning and nothing is searched. Otherwise
        the query is translated, each provider with a key is asked for the
        translated terms, and the merged list is shown; a mapping that
        throws shows the generic error and keeps the old results, and an
        empty merge shows the no-results error. */
    method SearchGifs(primary: Option<string>, parsed: Option<Json>, backup: Fetch,
                      giphyAnswer: Fetch, tenorAnswer: Fetch)
      returns (translation: Option<Translation>, requests: seq<SearchRequest>)
      modifies this
      ensures translation.None? ==> loading == old(loading) && aiThinking == old(aiThinking)
      ensures translation.Some? ==> Idle()
      ensures query == old(query) && trendingGifs == old(trendingGifs)
      ensures apiKeys == old(apiKeys) && storage == old(storage)
      ensures AllSpace(query) ==>
                && translation.None? && requests == []
                && gifs == old(gifs) && error == old(error) && activeKeywords == old(activeKeywords)
                && toast == old(toast) && showSettings == old(showSettings)
      ensures !AllSpace(query) && apiKeys.giphy == "" && apiKeys.tenor == "" ==>
                && translation.None? && requests == []
                && gifs == old(gifs) && error == old(error) && activeKeywords == old(activeKeywords)
                && showSettings && toast == Toast(true, MissingKeyToast, Warning)
      ensures !AllSpace(query) && (apiKeys.giphy != "" || apiKeys.tenor != "") ==>
                var tr := TranslateQueryToKeywords(query, apiKeys.openai, primary, parsed, backup);
                var g := ProviderOutcome(apiKeys.giphy, Giphy, giphyAnswer);
                var t := ProviderOutcome(apiKeys.tenor, Tenor, tenorAnswer);
                && translation == Some(tr)
                && activeKeywords == tr.keywords
                && requests == Requests(apiKeys, tr.keywords)
                && toast == old(toast) && showSettings == old(showSettings)
                && (g.None? || t.None? ==> error == UnexpectedError && gifs == old(gifs))
                && (g.Some? && t.Some? ==>
                      && gifs == Interleaved(g.value, t.value)
                      && error == (if gifs == [] then NoResultsError else ""))
    {
      if AllSpace(query) {
        return None, [];
      }
      if apiKeys.giphy == "" && apiKeys.tenor == "" {
        showSettings := true;
        toast := Toast(true, MissingKeyToast, Warning);
        return None, [];
      }
      var tr;
      tr, requests := Search(primary, parsed, backup, giphyAnswer, tenorAnswer);
      translation := Some(tr);
    }

    /** The searching part of `searchGifs`, once a query and a key are there:
        translate, ask each provider with a key, show the merge. */
    method Search(primary: Option<string>, parsed: Option<Json>, backup: Fetch,
                  giphyAnswer: Fetch, tenorAnswer: Fetch)
      returns (tr: Translation, requests: seq<SearchRequest>)
      modifies this
      ensures Idle()
      ensures query == old(query) && trendingGifs == old(trendingGifs)
      ensures apiKeys == old(apiKeys) && storage == old(storage)
      ensures toast == old(toast) && showSettings == old(showSettings)
      ensures tr == TranslateQueryToKeywords(query, apiKeys.openai, primary, parsed, backup)
      ensures activeKeywords == tr.keywords && requests == Requests(apiKeys, tr.keywords)
      ensures var g := ProviderOutcome(apiKeys.giphy, Giphy, giphyAnswer);
              var t := ProviderOutcome(apiKeys.tenor, Tenor, tenorAnswer);
              && (g.None? || t.None? ==> error == UnexpectedError && gifs == old(gifs))
              && (g.Some? && t.Some? ==>
                    && gifs == Interleaved(g.value, t.value)
                    && error == (if gifs == [] then NoResultsError else ""))
    {
      loading := true;
      error := "";
      tr := Translate(primary, parsed, backup);
      requests := PlanRequests(apiKeys, tr.keywords);

      var g := ProviderOutcome(apiKeys.giphy, Giphy, giphyAnswer);
      var t := ProviderOutcome(apiKeys.tenor, Tenor, tenorAnswer);
      ShowResults(g, t);
      loading := false;
      aiThinking := false;
    }

    /** The translation step of `searchGifs`: the keywords shown are cleared,
        the query is translated while the thinking flag is up, and the
        translated terms are shown. */
    method Translate(primary: Option<string>, parsed: Option<Json>, backup: Fetch) returns (tr: Translation)
      modifies this
      ensures tr == TranslateQueryToKeywords(query, apiKeys.openai, primary, parsed, backup)
      ensures activeKeywords == tr.keywords && !aiThinking
      ensures query == old(query) && trendingGifs == old(trendingGifs) && loading == old(loading)
      ensures apiKeys == old(apiKeys) && storage == old(storage) && gifs == old(gifs) && error == old(error)
      ensures toast == old(toast) && showSettings == old(showSettings)
    {
      activeKeywords := "";
      aiThinking := true;
      tr := TranslateQueryToKeywords(query, apiKeys.openai, primary, parsed, backup);
      aiThinking := false;
      activeKeywords := tr.keywords;
    }

    /** The end of `searchGifs`: the merged list, or the generic error when
        a provider's mapping threw. */
    method ShowResults(g: Option<seq<GifItem>>, t: Option<seq<GifItem>>)
      modifies this
      ensures g.None? || t.None? ==> error == UnexpectedError && gifs == old(gifs)
      ensures g.Some? && t.Some? ==>
                && gifs == Interleaved(g.value, t.value)
                && error == (if gifs == [] then NoResultsError else old(error))
      ensures query == old(query) && trendingGifs == old(trendingGifs) && loading == old(loading)
      ensures aiThinking == old(aiThinking) && toast == old(toast) && showSettings == old(showSettings)
      ensures activeKeywords == old(activeKeywords) && apiKeys == old(apiKeys) && storage == old(storage)
    {
      if g.None? || t.None? {
        error := UnexpectedError;
      } else {
        var combined := Interleave(g.value, t.value);
        gifs := combined;
        if |combined| == 0 {
          error := NoResultsError;
        }
      }
    }
  }

  /** After a search that found nothing, the no-results message shows and
      the grid falls back to the trending list. */
  lemma NoResultsShowsTrending(trending: seq<GifItem>)
    ensures Displayed(Interleaved([], []), trending) == trending
    ensures !ShowsWaiting(Interleaved([], []), trending, NoResultsError)
  {
  }
}
