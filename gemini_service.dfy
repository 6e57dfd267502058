/** Turning a search description into GIF keywords
    (`translateQueryToKeywords` and `callOpenAIFallback` in
    services/geminiService.ts). The two model calls are inputs: what the
    primary model answered, how `JSON.parse` reads a text, and what the
    backup endpoint answered. The function never throws: every failure ends
    in a string. */
module GeminiService {
  import opened Types
  import opened Text
  import opened Json

  const KeywordInstruction := "You are a meme keyword generator. Convert the user's emotional description or scenario into 2-3 precise, popular English keywords suitable for a GIF search engine (like Giphy). Output ONLY the keywords separated by spaces."

  const BackupModel := "gpt-4o-mini"

  /** The chat-completions request of the backup call (its sampling
      temperature is not modelled). */
  datatype OpenAiRequest = OpenAiRequest(authorization: string, model: string, turns: seq<Turn>)

  /** What a call returned, or the message of what it threw. */
  datatype Completion = Returned(value: Read) | Threw(message: string)

  function OpenAiRequestFor(prompt: string, apiKey: string, systemPrompt: string): (r: OpenAiRequest)
    ensures r.authorization == "Bearer " + apiKey && r.model == BackupModel
    ensures r.turns == [Turn(System, systemPrompt), Turn(UserTurn, prompt)]
  {
    OpenAiRequest("Bearer " + apiKey, BackupModel, [Turn(System, systemPrompt), Turn(UserTurn, prompt)])
  }

  /** `data.choices[0]?.message?.content || fallback` on a parsed answer:
      reading `choices` of null, or indexing a missing or null `choices`,
      throws. */
  function ReadChoice(data: Json, fallback: string): (r: Completion)
  {
    if data.JNull? then Threw(ReadError(true, "choices"))
    else
      var choices := Prop(Some(data), "choices");
      if choices.None? || choices.value.JNull? then Threw(ReadError(choices.Some?, "0"))
      else Returned(OrElse(Prop(Prop(First(choices), "message"), "content"), fallback))
  }

  /** `errData.error?.message || fallback` on the body of a rejected call
      (`errData` is `{}` when the body is not JSON), as the string the
      thrown error or the template literal makes of it. */
  function RejectionDetail(body: Body, fallback: string): (r: Completion)
    ensures r.Threw? <==> body.Parsed? && body.doc.JNull?
    ensures r.Returned? ==> r.value.StringValue?
  {
    var errData := if body.Parsed? then body.doc else JObj(map[]);
    if errData.JNull? then Threw(ReadError(true, "error"))
    else
      var m := Prop(Prop(Some(errData), "error"), "message");
      Returned(StringValue(if IsTruthy(m) then JsString(m.value) else fallback))
  }

  /** What `callOpenAIFallback` returns or throws for an answer. */
  function CallOpenAIFallback(answer: Fetch): (r: Completion)
  {
    match answer
    case Unreachable(e) => Threw(e)
    case Answered(ok, _, statusText, body) =>
      if !ok then
        match RejectionDetail(body, "OpenAI API Error: " + statusText)
        case Threw(e) => Threw(e)
        case Returned(d) => Threw(d.s)
      else
        match body
        case Unparsable(e) => Threw(e)
        case Parsed(data) => ReadChoice(data, "")
  }

  /** A rejected call always throws, and says why: the endpoint's own
      message when it gave one, else the status text; a body of JSON `null`
      makes reading `error` throw instead. */
  lemma RejectedCallThrows(status: nat, statusText: string, body: Body)
    ensures CallOpenAIFallback(Answered(false, status, statusText, body)).Threw?
    ensures body.Parsed? && body.doc.JNull? ==>
              CallOpenAIFallback(Answered(false, status, statusText, body)) == Threw(ReadError(true, "error"))
    ensures var errData := if body.Parsed? then body.doc else JObj(map[]);
            !errData.JNull? && !IsTruthy(Prop(Prop(Some(errData), "error"), "message")) ==>
              CallOpenAIFallback(Answered(false, status, statusText, body)) == Threw("OpenAI API Error: " + statusText)
    ensures body.Unparsable? ==>
              CallOpenAIFallback(Answered(false, status, statusText, body)) == Threw("OpenAI API Error: " + statusText)
    ensures forall detail | detail != "" ::
              var doc := JObj(map["error" := JObj(map["message" := JStr(detail)])]);
              CallOpenAIFallback(Answered(false, status, statusText, Parsed(doc))) == Threw(detail)
  {
    forall detail | detail != ""
      ensures var doc := JObj(map["error" := JObj(map["message" := JStr(detail)])]);
              CallOpenAIFallback(Answered(false, status, statusText, Parsed(doc))) == Threw(detail)
    {
      var doc := JObj(map["error" := JObj(map["message" := JStr(detail)])]);
      assert Prop(Some(doc), "error") == Some(JObj(map["message" := JStr(detail)]));
    }
  }

  /** A truthy message that is not a string is thrown in its string form. */
  lemma RejectionWithAnyMessage(status: nat, statusText: string, v: Json)
    requires IsTruthy(Some(v))
    ensures var doc := JObj(map["error" := JObj(map["message" := v])]);
            CallOpenAIFallback(Answered(false, status, statusText, Parsed(doc))) == Threw(JsString(v))
  {
    var doc := JObj(map["error" := JObj(map["message" := v])]);
    assert Prop(Some(doc), "error") == Some(JObj(map["message" := v]));
  }

  /** `{"error": {"message": 42}}` throws "42". */
  lemma ExampleNumericRejection(status: nat, statusText: string)
    ensures var doc := JObj(map["error" := JObj(map["message" := JNum(42)])]);
            CallOpenAIFallback(Answered(false, status, statusText, Parsed(doc))) == Threw("42")
  {
    RejectionWithAnyMessage(status, statusText, JNum(42));
    assert NatToString(42) == NatToString(4) + "2";
  }

  /** An accepted answer whose first choice has no content returns the
      empty string; one whose content is a non-empty string returns it. */
  lemma AcceptedCallContent(status: nat, statusText: string, first: Json)
    ensures var doc := JObj(map["choices" := JArr([first])]);
            var r := CallOpenAIFallback(Answered(true, status, statusText, Parsed(doc)));
            var content := Prop(Prop(Some(first), "message"), "content");
            && r.Returned?
            && (!IsTruthy(content) ==> r.value == StringValue(""))
            && (IsTruthy(content) && content.value.JStr? ==> r.value == StringValue(content.value.s))
  {
    var doc := JObj(map["choices" := JArr([first])]);
    assert Prop(Some(doc), "choices") == Some(JArr([first]));
  }

  // ---------------------------------------------------------------------
  // Cleaning the answers

  predicate FenceAt(s: string, i: nat)
  {
    OccursAt(s, "```", i)
  }

  /** `text.replace(/```json|```/g, '')`: scanning left to right, "```json"
      is tried before "```" at each position; after a removal the scan
      resumes behind it. */
  function StripFences(s: string): (r: string)
    ensures |r| <= |s|
    decreases |s|
  {
    if OccursAt(s, "```json", 0) then StripFences(s[7..])
    else if OccursAt(s, "```", 0) then StripFences(s[3..])
    else if s == [] then []
    else [s[0]] + StripFences(s[1..])
  }

  predicate NoFence(s: string)
  {
    forall i: nat | i + 3 <= |s| :: !FenceAt(s, i)
  }

  /** When `s` starts with a backtick that does not open a fence, what the
      rest strips to does not start with two backticks. */
  lemma {:induction false} StripAfterLoneBacktick(s: string)
    requires s != [] && s[0] == '`' && !OccursAt(s, "```", 0)
    ensures var r := StripFences(s[1..]); !(|r| >= 2 && r[0] == '`' && r[1] == '`')
  {
    var t := s[1..];
    if |s| >= 3 {
      assert s[..3] == [s[0], t[0], t[1]];
    }
    if |t| >= 3 {
      assert t[..3] == [t[0], t[1], t[2]];
    }
    if |t| >= 7 {
      assert t[..7][..3] == t[..3];
    }
  }

  /** A character in front of a fence-free text makes no fence, unless it
      is a backtick and the text starts with two more. */
  lemma NoFenceCons(c: char, rest: string)
    requires NoFence(rest)
    requires c == '`' ==> !(|rest| >= 2 && rest[0] == '`' && rest[1] == '`')
    ensures NoFence([c] + rest)
  {
    var r := [c] + rest;
    forall i: nat | i + 3 <= |r|
      ensures !FenceAt(r, i)
    {
      if i == 0 {
        assert r[..3] == [c, rest[0], rest[1]];
      } else {
        assert r[i..i + 3] == rest[i - 1..i + 2];
        assert !FenceAt(rest, i - 1);
      }
    }
  }

  /** No "```" survives the replacement. */
  lemma {:induction false} StripFencesLeavesNoFence(s: string)
    ensures NoFence(StripFences(s))
    decreases |s|
  {
    if OccursAt(s, "```json", 0) {
      StripFencesLeavesNoFence(s[7..]);
    } else if OccursAt(s, "```", 0) {
      StripFencesLeavesNoFence(s[3..]);
    } else if s != [] {
      StripFencesLeavesNoFence(s[1..]);
      if s[0] == '`' {
        StripAfterLoneBacktick(s);
      }
      NoFenceCons(s[0], StripFences(s[1..]));
    }
  }

  /** Text without backticks is left as it is. */
  lemma {:induction false} StripFencesWithoutBackticks(s: string)
    requires '`' !in s
    ensures StripFences(s) == s
    decreases |s|
  {
    if s != [] {
      assert !OccursAt(s, "```json", 0) && !OccursAt(s, "```", 0) by {
        if |s| >= 3 { assert s[..3][0] == s[0]; }
      }
      StripFencesWithoutBackticks(s[1..]);
    }
  }

  /** A fenced JSON block strips down to its inside. */
  lemma FencedBlock(x: string)
    requires '`' !in x
    ensures StripFences("```json" + x + "```") == x
  {
    var s := "```json" + x + "```";
    assert OccursAt(s, "```json", 0) by { assert s[..7] == "```json"; }
    assert s[7..] == x + "```";
    StripFencesBeforeFence(x);
  }

  lemma {:induction false} StripFencesBeforeFence(x: string)
    requires '`' !in x
    ensures StripFences(x + "```") == x
    decreases |x|
  {
    var s := x + "```";
    if x == [] {
      assert s == "```";
      assert OccursAt(s, "```", 0);
      assert !OccursAt(s, "```json", 0);
      assert s[3..] == [];
    } else {
      assert s[0] == x[0] && x[0] != '`';
      assert !OccursAt(s, "```json", 0) && !OccursAt(s, "```", 0) by {
        assert s[..3][0] == s[0];
      }
      assert s[1..] == x[1..] + "```";
      StripFencesBeforeFence(x[1..]);
    }
  }

  /** A character other than a backtick is kept, in front of what the rest
      strips to. */
  lemma StripFencesKeepsChar(c: char, y: string)
    requires c != '`'
    ensures StripFences([c] + y) == [c] + StripFences(y)
  {
    var s := [c] + y;
    assert s[0] == c && s[1..] == y;
    assert !OccursAt(s, "```json", 0) && !OccursAt(s, "```", 0) by {
      if |s| >= 3 { assert s[..3][0] == s[0]; }
    }
  }

  /** Text before the first backtick is kept as it is, in front of what
      the rest strips to. */
  lemma {:induction false} StripFencesKeepsPrefix(x: string, y: string)
    requires '`' !in x
    ensures StripFences(x + y) == x + StripFences(y)
    decreases |x|
  {
    if x == [] {
      assert x + y == y;
    } else {
      calc {
        StripFences(x + y);
        { assert x + y == [x[0]] + (x[1..] + y); }
        StripFences([x[0]] + (x[1..] + y));
        { StripFencesKeepsChar(x[0], x[1..] + y); }
        [x[0]] + StripFences(x[1..] + y);
        { StripFencesKeepsPrefix(x[1..], y); }
        [x[0]] + (x[1..] + StripFences(y));
        { assert x == [x[0]] + x[1..]; }
        x + StripFences(y);
      }
    }
  }

  /** A "```json" marker is dropped and the scan goes on behind it. */
  lemma StripFencesDropsJsonFence(y: string)
    ensures StripFences("```json" + y) == StripFences(y)
  {
    var s := "```json" + y;
    assert s[..7] == "```json" && s[7..] == y;
  }

  /** A "```" marker that does not open "```json" is dropped and the scan
      goes on behind it. */
  lemma StripFencesDropsFence(y: string)
    requires !OccursAt(y, "json", 0)
    ensures StripFences("```" + y) == StripFences(y)
  {
    var s := "```" + y;
    assert s[..3] == "```" && s[3..] == y;
    assert !OccursAt(s, "```json", 0) by {
      if |s| >= 7 { assert s[3..7] == s[..7][3..] && s[3..7] == y[..4]; }
    }
  }

  /** A backtick that does not start "```" is kept. */
  lemma StripFencesKeepsLoneBacktick(y: string)
    requires !OccursAt(y, "``", 0)
    ensures StripFences("`" + y) == "`" + StripFences(y)
  {
    var s := "`" + y;
    assert s[1..] == y;
    assert !OccursAt(s, "```json", 0) && !OccursAt(s, "```", 0) by {
      if |s| >= 3 { assert s[1..3] == s[..3][1..] && s[1..3] == y[..2]; }
    }
  }

  // ---------------------------------------------------------------------
  // The decision chain

  /** The keywords, and the backup request when one was made. */
  datatype Translation = Translation(keywords: string, backupRequest: Option<OpenAiRequest>)

  /** The primary path once a non-empty text came back: a JSON object with a
      non-empty string `keywords` gives it trimmed; other JSON gives the
      query back; text that is not JSON, or is `null` (reading a property of
      it throws), is cleaned of code fences and trimmed. */
  function FromPrimaryText(userQuery: string, text: string, parsed: Option<Json>): string
  {
    if parsed.None? || parsed.value.JNull? then Trim(StripFences(text))
    else
      var k := Prop(parsed, "keywords");
      if IsTruthy(k) && k.value.JStr? then Trim(k.value.s) else userQuery
  }

  /** `translateQueryToKeywords(userQuery, openAiKey)`. `primary` is the
      primary model's `response.text` (None when the call threw or gave no
      text), `parsed` is what `JSON.parse` makes of that text (None when it throws) and `backup` the
      answer of the backup endpoint. */
  function TranslateQueryToKeywords(userQuery: string, openAiKey: string, primary: Option<string>,
                                    parsed: Option<Json>, backup: Fetch): (r: Translation)
  {
    if primary.Some? && primary.value != "" then
      Translation(FromPrimaryText(userQuery, primary.value, parsed), None)
    else if openAiKey != "" then
      var request := OpenAiRequestFor(userQuery, openAiKey, KeywordInstruction);
      match CallOpenAIFallback(backup)
      case Returned(StringValue(s)) => Translation(Trim(RemoveAll(s, '"')), Some(request))
      case _ => Translation(userQuery, Some(request))
    else
      Translation(userQuery, None)
  }

  /** A JSON answer with non-empty string keywords: they are the result,
      trimmed, and the backup is not called. */
  lemma TranslateFromKeywords(userQuery: string, openAiKey: string, text: string,
                              parsed: Option<Json>, backup: Fetch, fields: map<string, Json>, k: string)
    requires text != "" && parsed == Some(JObj(fields))
    requires "keywords" in fields && fields["keywords"] == JStr(k) && k != ""
    ensures TranslateQueryToKeywords(userQuery, openAiKey, Some(text), parsed, backup) == Translation(Trim(k), None)
  {
    assert Prop(parsed, "keywords") == Some(JStr(k));
    assert FromPrimaryText(userQuery, text, parsed) == Trim(k);
  }

  /** A JSON answer without usable keywords (missing, empty, not a string,
      or not an object at all) gives the query back unchanged. */
  lemma TranslateWithoutKeywords(userQuery: string, openAiKey: string, text: string,
                                 parsed: Option<Json>, backup: Fetch)
    requires text != "" && parsed.Some? && !parsed.value.JNull?
    requires var k := Prop(parsed, "keywords"); !(IsTruthy(k) && k.value.JStr?)
    ensures TranslateQueryToKeywords(userQuery, openAiKey, Some(text), parsed, backup) == Translation(userQuery, None)
  {
  }

  /** A text that is not JSON: the result is that text with every code fence
      removed, trimmed, and contains no fence. */
  lemma TranslateFromPlainText(userQuery: string, openAiKey: string, text: string,
                               parsed: Option<Json>, backup: Fetch)
    requires text != "" && parsed.None?
    ensures var r := TranslateQueryToKeywords(userQuery, openAiKey, Some(text), parsed, backup);
            && r == Translation(Trim(StripFences(text)), None)
            && NoFence(StripFences(text))
  {
    StripFencesLeavesNoFence(text);
  }

  /** A failed or empty primary answer with no backup key returns the query
      unchanged and calls nothing else. */
  lemma TranslateWithoutBackupKey(userQuery: string, primary: Option<string>,
                                  parsed: Option<Json>, backup: Fetch)
    requires primary.None? || primary.value == ""
    ensures TranslateQueryToKeywords(userQuery, "", primary, parsed, backup) == Translation(userQuery, None)
  {
  }

  /** A failed or empty primary answer with a backup key: the backup is asked
      with the keyword instruction as its system turn and the query as its
      user turn; a string answer comes back without double quotes and
      trimmed, and any failure of the backup gives the query back. */
  lemma TranslateThroughBackup(userQuery: string, openAiKey: string, primary: Option<string>,
                               parsed: Option<Json>, backup: Fetch)
    requires primary.None? || primary.value == ""
    requires openAiKey != ""
    ensures var r := TranslateQueryToKeywords(userQuery, openAiKey, primary, parsed, backup);
            && r.backupRequest == Some(OpenAiRequest("Bearer " + openAiKey, BackupModel,
                                                     [Turn(System, KeywordInstruction), Turn(UserTurn, userQuery)]))
            && (CallOpenAIFallback(backup).Returned? && CallOpenAIFallback(backup).value.StringValue? ==>
                  r.keywords == Trim(RemoveAll(CallOpenAIFallback(backup).value.s, '"')) && '"' !in r.keywords)
            && (!(CallOpenAIFallback(backup).Returned? && CallOpenAIFallback(backup).value.StringValue?) ==>
                  r.keywords == userQuery)
  {
    var c := CallOpenAIFallback(backup);
    if c.Returned? && c.value.StringValue? {
      var stripped := RemoveAll(c.value.s, '"');
      TrimIsSlice(stripped);
    }
  }
}
