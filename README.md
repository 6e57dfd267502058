# Hey-Meme, modelled in Dafny

Hey-Meme is a GIF search page with a chat widget. The page turns a
free-text mood ("Me on Monday morning...") into search keywords with a
language model, queries Giphy and Tenor, and shows the two result lists
merged. The chat widget talks to a persona through a small relay server.
When the relay fails it falls back to a chat-completions endpoint. Replies
may carry an image directive (`[MEME: sad cat]`, `![alt](url)`), which is
cut out of the text and looked up on Giphy.

This project models the logic of that system and proves what it promises.
Every network answer, every `JSON.parse` result and every clock reading is
a parameter.

- `types.dfy`: the records of types.ts (`GifItem`, `ApiKeys`,
  `ChatMessage`) and the few the core builds (persona, chat turn).
- `text.dfy`: the JavaScript string built-ins the core relies on.
  These are `trim` and the `\s` class, `includes`/`indexOf`, first-occurrence
  `replace`, `replace(/c/g, '')` and `toLowerCase`.
- `json.dfy`: parsed documents, the property reads the core makes on them
  (`a?.b`, `a?.[0]`, plain `a.b.c` chains that throw on null or undefined),
  JavaScript truthiness and `x || fallback`.
- `chat_directive.dfy`: the reply directive pattern of `processResponse`.
  The pattern is stated declaratively, including the engine's choice of
  the leftmost, greedy match. A scanner is proved to make exactly that
  choice.
- `chat_url.dfy`: the URL pattern and the image test of `handleSend`.
- `chat_bot.dfy`: the chat widget.
  - `handleError`'s classification.
  - The backup history payload.
  - `processResponse`.
  - One turn from primary attempt to backup to error message.
  - The widget as a class whose methods update `input`, `activePersona`,
    `messages`, `isTyping` and `usingBackup`.
- `gemini_service.dfy`: `callOpenAIFallback` and the decision chain of
  `translateQueryToKeywords`, with its code-fence and quote stripping.
- `gif_search.dfy`: provider answers to `GifItem`s, the round-robin merge
  loop and the trending list.
- `app.dfy`: key resolution and saving against a storage map, the search
  guards and provider selection, the displayed list, and the page state as
  a class.
- `typewriter.dfy`: the placeholder typewriter as a tick-driven state
  machine, with its invariant and a proof that a full cycle returns to the
  next scenario.
- `relay_server.dfy`: the `/api/chat` handler of server.js.

Points where the behaviour differs from what a quick reading suggests.
Each is modelled as the code has it.

- The relay is sent the user's text only. The image prompt that
  `handleSend` prepares is never used.
- The image download can still make the turn fail. It rejects, instead of
  returning null, when a GIF's canvas context cannot be obtained. The
  promise is returned from inside the `try` without being awaited, so the
  rejection escapes it. The model takes this outcome as a parameter
  (`imageConversion`).
- The directive's capture `([^\]]+)` is never empty, so the Giphy lookup
  runs whenever the Giphy key is set. A body of spaces looks up the empty
  string (`ChatDirective.ExampleBlankBody`).
- A relay answer without candidate text is not a failure. It shows the
  placeholder reply and never reaches the backup. The relay's own 500 body
  is such an answer.
- The relay answers 200 with the upstream document whatever the upstream
  status was.
- Saving settings with an empty OpenAI key leaves the stored key in
  place, so a reload brings the old key back (`App.SaveThenReload`).

## Model

| member | source | states |
|---|---|---|
| Text.TrimStart | App.tsx:176 | drops exactly a leading run of `\s` characters; the result is a suffix of the input and does not start with a space |
| Text.TrimEnd | App.tsx:176 | drops exactly a trailing run of `\s` characters; the result is a prefix of the input and does not end with a space |
| Text.Trim | components/ChatBot.tsx:156-158 | `trim` never lengthens, and its result neither starts nor ends with a space |
| Text.TrimEmptyIffBlank | components/ChatBot.tsx:156 | `!input.trim()` holds exactly when the input is all whitespace |
| Text.TrimIdempotent | components/ChatBot.tsx:158 | trimming a trimmed text changes nothing |
| Text.TrimPadded | components/ChatBot.tsx:304 | `trim` removes exactly the surrounding whitespace of a text that has no spaces at its ends |
| Text.TrimIsSlice | services/geminiService.ts:307 | every character of `trim`'s result comes from its input |
| Text.IndexOf | components/ChatBot.tsx:304 | a reported position holds an occurrence at or after the start position |
| Text.IndexOfFirst | components/ChatBot.tsx:304 | no occurrence lies between the start position and the reported one (or the end when none is reported) |
| Text.ContainsIffOccurs | components/ChatBot.tsx:228 | `includes` holds exactly when the needle occurs at some position |
| Text.ContainsPrefix | components/ChatBot.tsx:324 | a text that begins with a needle contains it |
| Text.ReplaceFirstAt | components/ChatBot.tsx:304 | when the first occurrence is at `p`, `replace(t, '')` cuts out exactly s[p..p+\|t\|] |
| Text.FindChar | services/geminiService.ts:307 | the first position of a character, and no earlier one |
| Text.RemoveAll | services/geminiService.ts:307 | `replace(/"/g, '')` leaves no quote, never lengthens, and changes a text without quotes not at all |
| Text.RemoveAllAppend | services/geminiService.ts:307 | the removal goes character by character, so every other character is kept in order: it distributes over concatenation |
| Text.RemoveAllOne | services/geminiService.ts:307 | a lone quote is dropped and any other lone character kept |
| Text.ToLowerAppend | components/ChatBot.tsx:322 | `toLowerCase` distributes over concatenation |
| Text.ToLowerOfLower | components/ChatBot.tsx:322 | a text without capitals lowers to itself |
| Text.NatToString | components/ChatBot.tsx:262 | the decimal rendering of a status is a non-empty string of digits |
| Text.NatToStringValue | components/ChatBot.tsx:262 | the digits of the rendering denote the number, with no leading zero |
| Json.Prop | components/ChatBot.tsx:138 | `v?.key` is defined exactly when `v` is an object holding the key |
| Json.First | components/ChatBot.tsx:213 | `v?.[0]` is the first array element, and undefined on undefined, null, numbers and booleans |
| Json.Member | App.tsx:228-231 | a plain member chain yields its start when empty and throws when it reads a property of null or undefined |
| Json.MemberOfNest | App.tsx:228-231 | a chain along a path that is present reads its leaf |
| Json.MemberPastLeaf | App.tsx:162-165 | reading past null throws; one level past a leaf object gives undefined, two levels throw |
| Json.MemberAppend | App.tsx:228-231 | a chain of two parts reads the second part from what the first yields |
| Json.JsStringOfPositive | services/geminiService.ts:248 | a positive number interpolated into a message reads as its decimal digits, denoting it, with no leading zero |
| Json.JsStringOfNegative | services/geminiService.ts:248 | a negative number interpolated into a message reads as a minus sign followed by the digits of its magnitude |
| ChatDirective.SkipSpaces | components/ChatBot.tsx:295 | the first non-space at or after a position, with only spaces before it |
| ChatDirective.MatchTag | components/ChatBot.tsx:295 | a tag match at the front has a non-empty capture inside the match |
| ChatDirective.MatchMarkdown | components/ChatBot.tsx:295 | a Markdown match at the front has a non-empty capture inside the match |
| ChatDirective.Scan | components/ChatBot.tsx:297 | the scanner's match starts at the first position where one starts, and none starts before it |
| ChatDirective.ScanSkipsPlain | components/ChatBot.tsx:297 | no match starts at a character other than `[` and `!`, so the search passes over them |
| ChatDirective.FindDirective | components/ChatBot.tsx:297 | a found directive lies inside the reply, with its capture inside the match |
| ChatDirective.MatchPrefixSound | components/ChatBot.tsx:295 | what the front scanner reports is a whole match of the pattern with that capture |
| ChatDirective.MatchPrefixComplete | components/ChatBot.tsx:295 | every match at the front is seen by the scanner, whose capture ends at the same place and whose match ends no earlier (greedy) |
| ChatDirective.TagComplete | components/ChatBot.tsx:295 | every tag-form match at the front is seen, with the same capture end and a match end no earlier |
| ChatDirective.MarkdownComplete | components/ChatBot.tsx:295 | every Markdown-form match at the front is seen, with the same capture end and a match end no earlier |
| ChatDirective.FoundIsMatch | components/ChatBot.tsx:297 | the directive found is a match of the pattern |
| ChatDirective.MatchSeenByScanner | components/ChatBot.tsx:297 | wherever the pattern matches, the scanner finds a match at that start ending no earlier |
| ChatDirective.FindDirectiveIsEngineMatch | components/ChatBot.tsx:295-297 | the directive found is exactly the engine's match (leftmost, then greedy), and none is found exactly when the pattern matches nowhere |
| ChatDirective.MatchTextMatchesWherever | components/ChatBot.tsx:304 | the matched text matches the pattern wherever else it occurs |
| ChatDirective.NoEarlierOccurrence | components/ChatBot.tsx:304 | the engine's matched text occurs nowhere before the match, so `replace(match[0], '')` cuts out the match itself |
| ChatDirective.ParseReplyOnMatch | components/ChatBot.tsx:299-307 | on a match the text is the reply with the match cut out once and trimmed, and the keywords are the trimmed, never-empty capture |
| ChatDirective.ParseReplyWithoutMatch | components/ChatBot.tsx:286-299 | a reply the pattern matches nowhere is shown exactly as received, untrimmed, with no keywords |
| ChatDirective.ParseReplyWithoutBracket | components/ChatBot.tsx:286-299 | a reply without `[` carries no directive |
| ChatDirective.MatchHoldsBracket | components/ChatBot.tsx:295 | every match holds a `[` at or just after its start |
| ChatDirective.ExampleMemeTag | components/ChatBot.tsx:295-307 | "ok [MEME: sad cat]" shows "ok" and looks up "sad cat" |
| ChatDirective.ExampleMarkdownImage | components/ChatBot.tsx:295-304 | the `(url)` after `![a dog]` belongs to the match: "hey ![a dog](http://x/y.gif) more" shows "hey  more" and looks up "a dog" |
| ChatDirective.ExampleBlankBody | components/ChatBot.tsx:295-308 | a lower-case tag matches, and a body of spaces still looks up (the empty string) |
| ChatDirective.ExampleOnlyFirstDirective | components/ChatBot.tsx:297-304 | only the leftmost directive is removed; a later one stays in the text |
| ChatUrl.RunEnd | components/ChatBot.tsx:164 | the `[^\s]+` run ends at the first whitespace or the end of the text |
| ChatUrl.ScanUrl | components/ChatBot.tsx:165 | the scanner's URL starts at the first position where one starts |
| ChatUrl.SchemesExclusive | components/ChatBot.tsx:164 | `https://` and `http://` never both start at one position |
| ChatUrl.UrlAtSound | components/ChatBot.tsx:164 | a URL reported at a position is a whole match of the pattern |
| ChatUrl.UrlAtComplete | components/ChatBot.tsx:164 | every match at a position ends no later than the reported one |
| ChatUrl.FindUrlIsEngineUrl | components/ChatBot.tsx:164-166 | the URL found is the engine's match (leftmost, longest), and none is found exactly when the pattern matches nowhere |
| ChatUrl.FindUrlStopsAtSpace | components/ChatBot.tsx:164 | the URL runs up to the first whitespace after it or to the end |
| ChatUrl.UrlStartsWithH | components/ChatBot.tsx:164 | every match starts with a lower-case `h` |
| ChatUrl.FindUrlNeedsLowerH | components/ChatBot.tsx:164-166 | a text without `h` carries no URL |
| ChatUrl.ExtensionMakesImage | components/ChatBot.tsx:170 | a URL ending in a listed extension, in any case, optionally followed by `?...` or `#...`, is an image |
| ChatUrl.AttachedImageIsFirstUrl | components/ChatBot.tsx:163-174 | an image is attached exactly when the engine's first URL passes the image test, and it is that URL unchanged |
| ChatUrl.EngineUrlUnique | components/ChatBot.tsx:165 | there is one engine match at most |
| ChatUrl.UrlFormSlice | components/ChatBot.tsx:166 | a match cut out of its text is a whole match on its own |
| ChatUrl.AttachedImageShape | components/ChatBot.tsx:166-173 | an attached image is itself a whole URL and passes the image test |
| ChatUrl.ExampleUpperCaseExtension | components/ChatBot.tsx:170 | "see http://a.b/C.PNG?x=1 ok" attaches "http://a.b/C.PNG?x=1" |
| ChatUrl.ExampleGiphyHost | components/ChatBot.tsx:171 | a link on giphy.com is an image whatever its path |
| ChatUrl.ExampleOnlyFirstUrl | components/ChatBot.tsx:165-174 | only the first URL is tested: a later image link is not attached |
| RelayServer.BuildContents | server.js:14-42 | one single-part user turn per truthy field, in the order instruction, message, image, each carrying its field verbatim, the image as image/jpeg; at most three |
| RelayServer.ContentsDetermined | server.js:14-42 | the request fields determine the turn list completely |
| RelayServer.ImageTurnIffImage | server.js:30-42 | an image part appears exactly when the request carries an image |
| RelayServer.HandleChat | server.js:12-59 | the upstream document is answered unchanged with 200; a failed call or unparsable answer gives 500 with `{error: "Gemini server failed"}` |
| GeminiService.RejectionDetail | services/geminiService.ts:246-248 | `errData.error?.message \|\| fallback` in its string form: reading it throws exactly when the body is JSON null, and otherwise it gives a string |
| GeminiService.RejectionWithAnyMessage | services/geminiService.ts:246-248 | a rejected call whose body carries any truthy `error.message` throws that message converted to a string |
| GeminiService.ExampleNumericRejection | services/geminiService.ts:246-248 | `{"error": {"message": 42}}` throws "42" |
| GeminiService.RejectedCallThrows | services/geminiService.ts:246-249 | a non-OK answer always throws: with the endpoint's non-empty message when it gave one; with the status text for every body (unparsable, `{}`, an empty or missing message) whose `error?.message` is falsy; with the read error when the body is JSON null |
| GeminiService.AcceptedCallContent | services/geminiService.ts:251-252 | an OK answer returns its first choice's content, or "" when the content is missing |
| GeminiService.StripFences | services/geminiService.ts:294 | removing fences never lengthens the text |
| GeminiService.StripFencesKeepsChar | services/geminiService.ts:294 | a character other than a backtick is kept in front of what the rest strips to |
| GeminiService.StripFencesKeepsPrefix | services/geminiService.ts:294 | text before the first backtick is kept unchanged, in front of what the rest strips to |
| GeminiService.StripFencesDropsJsonFence | services/geminiService.ts:294 | a "```json" marker is dropped and stripping goes on behind it |
| GeminiService.StripFencesDropsFence | services/geminiService.ts:294 | a "```" marker not followed by "json" is dropped and stripping goes on behind it |
| GeminiService.StripFencesKeepsLoneBacktick | services/geminiService.ts:294 | a backtick not starting "```" is kept |
| GeminiService.StripFencesLeavesNoFence | services/geminiService.ts:294 | no "```" survives the replacement |
| GeminiService.StripFencesWithoutBackticks | services/geminiService.ts:294 | text without backticks is left unchanged |
| GeminiService.FencedBlock | services/geminiService.ts:294 | a fenced JSON block strips down to its inside |
| GeminiService.StripFencesBeforeFence | services/geminiService.ts:294 | a closing fence alone is removed |
| GeminiService.TranslateFromKeywords | services/geminiService.ts:283-289 | JSON with non-empty string keywords gives them trimmed, with no backup call |
| GeminiService.TranslateWithoutKeywords | services/geminiService.ts:286-291 | JSON without usable keywords gives the query back unchanged |
| GeminiService.TranslateFromPlainText | services/geminiService.ts:292-295 | text that is not JSON gives the text with every fence removed, trimmed |
| GeminiService.TranslateWithoutBackupKey | services/geminiService.ts:283-284 | an empty or failed primary with no backup key gives the query, with no call |
| GeminiService.TranslateThroughBackup | services/geminiService.ts:297-313 | an empty or failed primary with a key asks the backup with the keyword instruction and the query; a string answer comes back without quotes and trimmed; any backup failure gives the query |
| ChatBot.BackupPrefixIsDistinct | components/ChatBot.tsx:321-330 | the four error texts are pairwise distinct, and the backup one starts with its own character |
| ChatBot.ErrorTextRules | components/ChatBot.tsx:320-331 | each error rule fires exactly when it applies and no earlier rule does: backup, then quota, then bad request, then the default |
| ChatBot.LowerOpenAi | components/ChatBot.tsx:322-324 | the backup tag's "OpenAI" lowers to "openai" |
| ChatBot.TagMentionsBackup | components/ChatBot.tsx:322-324 | every message (such as the one thrown at line 264) starting with the backup tag is classified as a backup failure |
| ChatBot.TagCutOut | components/ChatBot.tsx:325 | replacing the tag cuts exactly the tag out |
| ChatBot.TaggedReport | components/ChatBot.tsx:322-325 | a message starting with the backup tag is shown with the tag replaced by the backup-failure prefix, the rest kept |
| ChatBot.BackupRejectionReport | components/ChatBot.tsx:322-325 | a rejected backup (its message built at lines 260-264) is shown as the backup-failure prefix followed by the detail |
| ChatBot.GenericErrorIsMarked | components/ChatBot.tsx:320-321 | the default error reply carries "API Error", so it never re-enters a backup history |
| ChatBot.KeepForHistoryMembers | components/ChatBot.tsx:227-228 | a message is kept exactly when it does not contain "API Error" |
| ChatBot.KeepForHistoryAppend | components/ChatBot.tsx:227-228 | the filter goes message by message, so kept messages stay in conversation order: it distributes over concatenation, and a lone message is kept exactly when it carries no marker |
| ChatBot.ToTurnsAt | components/ChatBot.tsx:229-234 | every message maps, in place, to its turn: model replies to assistant turns, user messages with an image prefixed by its URL |
| ChatBot.LastTurnsSpec | components/ChatBot.tsx:229-235 | the history is the last ten kept messages, all of them when fewer, in order, each as its turn |
| ChatBot.HistoryPayloadUnmarked | components/ChatBot.tsx:227-235 | every history turn is the turn of an earlier message without "API Error" |
| ChatBot.BackupTurnsShape | components/ChatBot.tsx:237-241 | the backup payload holds 2 to 12 turns: the system turn first, the current user turn last, and never the default error reply |
| ChatBot.HistoryTurnNotGenericError | components/ChatBot.tsx:227-235 | no history turn is the default error reply |
| ChatBot.ProcessResponse | components/ChatBot.tsx:285-318 | exactly one model message with the parsed text; a lookup happens exactly when a directive was found and the Giphy key is set, and its URL becomes the message's image |
| ChatBot.Respond | components/ChatBot.tsx:212-216 | a string reply appends one model message; a non-string value appends none |
| ChatBot.BackupReaction | components/ChatBot.tsx:251-276 | whatever the backup answers, at most one message is appended, and it is a model message |
| ChatBot.BackupOutcomes | components/ChatBot.tsx:251-276 | an unreachable backup, a null rejection body, an unparsable accepted body or a choice read that throws appends exactly the error reply for that message; a string choice goes through `processResponse`; a non-string choice appends nothing |
| ChatBot.RejectedBackupShowsDetail | components/ChatBot.tsx:260-264 | a rejected backup whose body is not null appends exactly one reply: the backup-failure prefix and the endpoint's message as a string, or `Status N` when it gave none |
| ChatBot.BackupIffPrimaryThrew | components/ChatBot.tsx:201-258 | the backup runs exactly when the primary attempt threw and a backup key is set, with the history payload and the trimmed key; an answering relay never leads to it |
| ChatBot.TurnOutcomes | components/ChatBot.tsx:201-279 | a primary failure without a backup key appends exactly the error reply for its message; with a key, the turn reacts as the backup does; a string reply goes through `processResponse`; a non-string reply appends nothing |
| ChatBot.TurnAppendsOne | components/ChatBot.tsx:216-279 | after the user's message a turn appends exactly one model message, unless the reply read (from the relay or the backup) is not a string, when it appends none |
| ChatBot.RelayRequestCarriesNoImage | components/ChatBot.tsx:202-209 | the relay gets the persona's instruction and the user text only, so its turn list has no image part |
| ChatBot.PlaceholderHasNoBracket | components/ChatBot.tsx:214 | the placeholder reply carries no directive |
| ChatBot.NoCandidatesShowsPlaceholder | components/ChatBot.tsx:211-216 | a relay answer without candidates shows the placeholder, with no backup and no lookup |
| ChatBot.RelayFailureShowsPlaceholder | components/ChatBot.tsx:211-216 | the relay's own failure body shows the placeholder |
| ChatBot.RejectedBackupReport | components/ChatBot.tsx:260-264 | a rejected backup without detail is reported as the backup-failure prefix with the status |
| ChatBot.ChatBot.constructor | components/ChatBot.tsx:81-86 | empty input, no persona, no messages, nothing in flight |
| ChatBot.ChatBot.SetInput | components/ChatBot.tsx:515 | only the input changes |
| ChatBot.ChatBot.SelectPersona | components/ChatBot.tsx:96-104 | the persona is set and the conversation restarts with its welcome message |
| ChatBot.ChatBot.BackToMenu | components/ChatBot.tsx:106-110 | no persona, no messages, empty input |
| ChatBot.ChatBot.HandleSend | components/ChatBot.tsx:155-283 | sends exactly when the trimmed input is non-empty, nothing is in flight and a persona is active; then it clears the input and appends the user message (trimmed text, attached image) and the turn's reply, and sets `usingBackup` as the turn did; otherwise nothing changes |
| ChatBot.ChatBot.Send | components/ChatBot.tsx:158-283 | once the guard passes: the input is cleared, the user message and then exactly what the turn appends are added after the old messages, `usingBackup` is what the turn used, and the conversation still opens with the welcome message |
| GifSearch.ProviderData | App.tsx:199-215 | a provider whose call or parse fails settles on an empty list |
| GifSearch.NormaliseAll | App.tsx:221-245 | the mapping succeeds exactly when every item maps, and then maps them position by position |
| GifSearch.ProviderResults | App.tsx:221-245 | a list that is not an array throws; every result carries its provider |
| GifSearch.TenorItemNormalised | App.tsx:234-243 | a well-formed Tenor item maps to its description, its tiny preview and its full GIF |
| GifSearch.GiphyItemWithoutImagesThrows | App.tsx:223-232 | a Giphy item without `images` makes the whole mapping throw |
| GifSearch.InterleavedIsInterleaving | App.tsx:247-254 | the recursive merge alternates Giphy then Tenor while both have items, then follows with the rest |
| GifSearch.InterleavingStep | App.tsx:251-254 | a pair from the fronts before a merge of the rests is a merge |
| GifSearch.InterleavingUnique | App.tsx:247-254 | the position-wise description determines the merge |
| GifSearch.InterleavedIsPermutation | App.tsx:247-254 | the merge holds exactly the items of both lists |
| GifSearch.InterleavedWithEmpty | App.tsx:249-254 | with one list empty the merge is the other list |
| GifSearch.Interleave | App.tsx:248-254 | the `for` loop builds the alternating merge |
| GifSearch.TrendingItem | App.tsx:157-166 | a trending item has a non-empty title (`'Untitled GIF'` otherwise) and fails exactly when the search mapping fails |
| GifSearch.TrendingItems | App.tsx:157-166 | every item maps, position by position, or the mapping throws |
| GifSearch.TrendingResults | App.tsx:152-168 | a new trending list only on an answer whose `meta.status` is 200, all titled Giphy items |
| GifSearch.TrendingFromList | App.tsx:156-167 | an answer with `meta.status` 200 and an array `data` gives exactly the item-by-item mapping of that array |
| GifSearch.TrendingKeptOtherwise | App.tsx:156-167 | an answer whose `meta.status` is missing or not 200, or whose `data` is missing or not an array, leaves the list as it was |
| App.FirstNonEmpty | App.tsx:52-63 | the first non-empty string of a list; empty exactly when all are |
| App.GetEnvVar | App.tsx:52-63 | the base variable, then the VITE_ one, then the REACT_APP_ one, else "" |
| App.FirstNonEmptyCons | App.tsx:66-67 | a non-empty first string wins; an empty one gives way to the rest |
| App.InitialKeys | App.tsx:65-69 | a stored search key wins over the environment chain; the backup key is the stored one or "" |
| App.SaveThenReload | App.tsx:124-131 | after saving, a reload (the initial key resolution at lines 65-69) gets back non-empty keys as saved; an emptied search key gives way to the environment; an emptied backup key brings the previously stored one back |
| App.SavedKeysSurviveReload | App.tsx:124-131 | saved keys that are all non-empty survive a reload (lines 65-69) unchanged |
| App.PlanRequests | App.tsx:195-215 | the conditional pushes build one call per provider with a key, Giphy first |
| App.RequestsOnlyForKeys | App.tsx:199-215 | every call carries the keywords, a non-empty key and the limit 32; a provider is called exactly when its key is set |
| App.ProviderFailureIsolated | App.tsx:203-213 | a provider failing at the network or with a body that is not JSON contributes an empty list |
| App.NoResultsIffBothEmpty | App.tsx:248-257 | the merge has the length of both lists, and is empty exactly when both are |
| App.GridOrWaiting | App.tsx:422-437 | the grid shows search results when there are any, else trending; it never shows together with the waiting placeholder |
| App.App.constructor | App.tsx:33-69 | the page starts with the resolved keys and empty search state |
| App.App.GiphyKeyEffect | App.tsx:112-117 | the effect keyed on the Giphy key, which runs once the page is mounted: trending is requested exactly when a Giphy key is set, and a good answer replaces the list |
| App.App.SetQuery | App.tsx:377 | only the query changes |
| App.App.SaveSettings | App.tsx:111-131 | both search keys are stored and the backup key when non-empty; the keys become the new ones; the dialog closes with a success toast; trending is refetched exactly when the Giphy key changed to a non-empty one |
| App.App.Reset | App.tsx:134-148 | query, results, error and keywords are cleared and the trending list is shown untouched; it is refetched exactly when the Giphy key is set and trending is empty |
| App.App.FetchTrending | App.tsx:150-172 | without a Giphy key nothing is requested; a good answer replaces the trending list, any other leaves it |
| App.App.SearchGifs | App.tsx:174-265 | a blank query changes nothing, busy flags included; no keys opens settings with a warning; otherwise the keywords are translated, shown and searched with the keyed providers, and the merged results shown, with the no-results error when empty and the generic error when a mapping threw |
| App.App.Search | App.tsx:184-264 | once a query and a key are there: the translation is the one of the query, the calls are one per keyed provider with the translated terms, the results or errors are as for the whole search, and both busy flags are down at the end |
| App.App.Translate | App.tsx:186-193 | the keywords shown are the translation of the query, and the thinking flag is down afterwards; the results and the error are untouched |
| App.App.ShowResults | App.tsx:256-260 | the merged list, with the no-results error when empty; the generic error, results untouched, when a mapping threw |
| App.NoResultsShowsTrending | App.tsx:422-437 | after a search that found nothing (the error set at line 257), the trending list shows and the waiting placeholder does not |
| Typewriter.Step | App.tsx:79-109 | for any list of scenarios, one effect run keeps the invariant (placeholder is the prefix of the scenario of length `charIndex`; a pause only with the whole scenario shown); it moves to nothing shown at the next scenario, cyclically, exactly when deleting has reached zero, and the scenario changes only by that move |
| Typewriter.Steps | App.tsx:79-109 | any number of runs keeps the invariant, for any list of scenarios |
| Typewriter.StepsAdd | App.tsx:79-109 | runs compose |
| Typewriter.TypeUp | App.tsx:98-103 | k runs from a fresh scenario type its first k characters, with no pause and no deletion |
| Typewriter.DeleteDown | App.tsx:88-93 | k runs while deleting remove the last k characters shown |
| Typewriter.Cycle | App.tsx:79-109 | a scenario of length L returns, after 2L + 3 runs, to nothing shown at the next scenario, cyclically |
| Typewriter.Typewriter.constructor | App.tsx:72-76 | the component starts at the first scenario with nothing typed |
| Typewriter.Typewriter.Tick | App.tsx:79-109 | one run of the effect, branch by branch, is the step function on the seven scenarios, and keeps the invariant |

## Left out

- Image conversion (`urlToGenerativePart`, canvas, FileReader, Blob): the
  model keeps only whether it rejected and with what message. Its result is
  never sent anywhere.
- Network calls (relay, Gemini, OpenAI, Giphy, Tenor) are parameters: each
  is either a thrown error or an answer with `ok`, status, status text and
  a parsed or unparsable body. `JSON.parse` is a parameter too.
- Timing and concurrency: `processResponse` is not awaited, so `isTyping`
  can clear before the bot message lands. Turns are modelled one after
  another, and the reply is appended within the turn. The two search
  requests run in parallel in the source; the model takes both answers.
- Timers: toast hiding, copy indicators and the typewriter's delays. The
  typewriter is modelled per run of its effect.
- Randomness: the mascot pick and Giphy's random endpoint, whose answer is
  a parameter.
- UI: rendering, scrolling, clipboard handlers, the settings form, the GIF
  grid component and the static configuration file.
- Persona prompt texts and `createChatSession`: configuration, not
  behaviour.
- Message ids built from `Date.now()` are stamps taken from parameters.
- Strings are sequences of code points, not UTF-16 units.
- Text.ToLower: it covers the ASCII capitals and the two non-ASCII letters
  that lower into ASCII. Other letters keep their case, which cannot change
  a search for the ASCII needles the core uses.
- GeminiService.OpenAiRequestFor: the `temperature` fields (0.7 and 0.9)
  are not part of the modelled requests.
- GifSearch.Normalise: an `id`, `title` or URL that is not a string is kept
  as the empty string.
- GifSearch.TrendingItem: a truthy `title` that is not a string (a number,
  say) is kept by `item.title || 'Untitled GIF'` as that value. A title here
  is a string, so the model shows `'Untitled GIF'` for it.
- ChatBot.LookupUrl: a URL that is not a string is treated as absent.
- Error messages raised by the JavaScript runtime (reading a property of
  null, parsing non-JSON) are placeholders. Only their classification
  matters.
- RelayServer.BuildContents: the request fields are optional strings. The
  handler pushes any truthy value it is sent (a number, an object) into the
  turn list as it is; those values are not represented.
- Json: numbers are integers. Fractional numbers and their decimal
  rendering are not represented; no field the core reads needs them.
- App.App.SearchGifs: the Enter key starts a search even while one is in
  flight (only the button is disabled then). Each search is modelled as one
  step, so two interleaved searches, where the later one to settle wins the
  results and the first to settle lowers the busy flags, are not modelled.
- The relay's use of `GEMINI_API_KEY` from the server environment is not
  modelled.
