/** The chat widget's turn logic (components/ChatBot.tsx): choosing a
    persona, sending a message, the primary relay call, the optional backup
    call, reading a reply and reporting an error. A turn is modelled as one
    sequential step; what the network did is given as inputs. */
module ChatBot {
  import opened Types
  import opened Text
  import opened Json
  import opened ChatDirective
  import opened ChatUrl
  import opened RelayServer
  import opened GeminiService

  const Placeholder := "……我腦袋空白了"
  const SystemErrorText := "System Error"
  const BackupFailedTag := "OpenAI Backup Failed:"
  const BackupFailedPrefix := "💀 備援失敗: "
  const QuotaText := "😵‍💫 聊太嗨了，大腦過熱中... (Gemini 額度滿了，請檢查設定中的備援 Key)"
  const ImageFormatText := "🤔 圖片格式怪怪的，我看不太懂..."
  const GenericErrorText := "壞掉了啦... (API Error)"
  const HistoryMarker := "API Error"
  const HistoryLimit := 10

  // ---------------------------------------------------------------------
  // Reporting an error (`handleError`)

  /** The lower-cased text the classification searches: the message, or
      `JSON.stringify` of the error, which is "{}" for an Error whose
      message is empty. */
  function ErrorKey(message: string): string
  {
    ToLower(if message != "" then message else "{}")
  }

  predicate MentionsBackup(message: string)
  {
    Contains(ErrorKey(message), "openai") || Contains(ErrorKey(message), "gpt")
  }

  predicate MentionsQuota(message: string)
  {
    Contains(ErrorKey(message), "429") || Contains(ErrorKey(message), "resource_exhausted")
  }

  predicate MentionsBadRequest(message: string)
  {
    Contains(ErrorKey(message), "400")
  }

  /** The text of the message `handleError` appends, by the first rule that
      applies: backup failure, quota, bad request, anything else. */
  function ErrorText(message: string): string
  {
    if MentionsBackup(message) then BackupFailedPrefix + ReplaceFirst(message, BackupFailedTag, "")
    else if MentionsQuota(message) then QuotaText
    else if MentionsBadRequest(message) then ImageFormatText
    else GenericErrorText
  }

  lemma BackupPrefixIsDistinct()
    ensures BackupFailedPrefix[0] != QuotaText[0]
    ensures BackupFailedPrefix[0] != ImageFormatText[0]
    ensures BackupFailedPrefix[0] != GenericErrorText[0]
    ensures QuotaText != ImageFormatText && QuotaText != GenericErrorText && ImageFormatText != GenericErrorText
  {
    assert BackupFailedPrefix[0] == '💀';
    assert QuotaText == "😵" + QuotaText[1..];
    assert ImageFormatText[0] == '🤔';
    assert GenericErrorText[0] == '壞';
  }

  /** The classification, rule by rule and in both directions: each rule
      fires exactly when it applies and no earlier rule does. */
  lemma ErrorTextRules(message: string)
    ensures |ErrorText(message)| > 0
    ensures (ErrorText(message)[0] == BackupFailedPrefix[0]) <==> MentionsBackup(message)
    ensures (ErrorText(message) == QuotaText) <==> !MentionsBackup(message) && MentionsQuota(message)
    ensures (ErrorText(message) == ImageFormatText) <==>
              !MentionsBackup(message) && !MentionsQuota(message) && MentionsBadRequest(message)
    ensures (ErrorText(message) == GenericErrorText) <==>
              !MentionsBackup(message) && !MentionsQuota(message) && !MentionsBadRequest(message)
  {
    BackupPrefixIsDistinct();
    if MentionsBackup(message) {
      var r := ErrorText(message);
      assert r[0] == BackupFailedPrefix[0];
      assert r != QuotaText && r != ImageFormatText && r != GenericErrorText by {
        assert r[0] != QuotaText[0] && r[0] != ImageFormatText[0] && r[0] != GenericErrorText[0];
      }
    }
  }

  lemma LowerOpenAi()
    ensures ToLower("OpenAI") == "openai"
  {
    ToLowerCons('I', "");
    ToLowerCons('A', "I");
    ToLowerCons('n', "AI");
    ToLowerCons('e', "nAI");
    ToLowerCons('p', "enAI");
    ToLowerCons('O', "penAI");
  }

  /** Any message that starts with the backup tag mentions the backup. */
  lemma TagMentionsBackup(rest: string)
    ensures MentionsBackup(BackupFailedTag + rest)
  {
    var tail := " Backup Failed:" + rest;
    assert BackupFailedTag + rest == "OpenAI" + tail;
    ToLowerAppend("OpenAI", tail);
    LowerOpenAi();
    ContainsPrefix("openai", ToLower(tail));
  }

  /** Replacing the tag in such a message cuts out its first occurrence. */
  lemma TagCutOut(rest: string)
    ensures ReplaceFirst(BackupFailedTag + rest, BackupFailedTag, "") == rest
  {
    var m := BackupFailedTag + rest;
    assert m[..|BackupFailedTag|] == BackupFailedTag;
    assert OccursAt(m, BackupFailedTag, 0);
    ReplaceFirstAt(m, BackupFailedTag, 0);
    assert m[|BackupFailedTag|..] == rest;
  }

  /** A rejected backup call is always reported as a backup failure, with
      the tag cut out and the detail kept: a quota error of the backup
      provider is not reported as the primary's quota error. */
  lemma BackupRejectionReport(detail: string)
    ensures ErrorText(BackupFailedTag + " " + detail) == BackupFailedPrefix + " " + detail
  {
    var rest := " " + detail;
    TaggedReport(rest);
    assert BackupFailedTag + " " + detail == BackupFailedTag + rest;
    assert BackupFailedPrefix + rest == BackupFailedPrefix + " " + detail;
  }

  /** A message that starts with the backup tag is reported with the tag
      replaced by the backup-failure prefix. */
  lemma TaggedReport(rest: string)
    ensures ErrorText(BackupFailedTag + rest) == BackupFailedPrefix + rest
  {
    TagMentionsBackup(rest);
    TagCutOut(rest);
  }

  /** The catch-all text carries the history marker, so such a reply is
      never sent back to a model. */
  lemma GenericErrorIsMarked()
    ensures Contains(GenericErrorText, HistoryMarker)
  {
    assert GenericErrorText == "壞掉了啦... (" + HistoryMarker + ")";
    assert OccursAt(GenericErrorText, HistoryMarker, |"壞掉了啦... ("|);
    ContainsIffOccurs(GenericErrorText, HistoryMarker);
  }

  // ---------------------------------------------------------------------
  // The backup payload

  /** `filter(m => !m.text.includes('API Error'))`. */
  function KeepForHistory(ms: seq<ChatMessage>): (r: seq<ChatMessage>)
    ensures |r| <= |ms|
  {
    if ms == [] then []
    else (if Contains(ms[0].text, HistoryMarker) then [] else [ms[0]]) + KeepForHistory(ms[1..])
  }

  /** A message is kept exactly when it does not carry the marker. */
  lemma {:induction false} KeepForHistoryMembers(ms: seq<ChatMessage>, m: ChatMessage)
    ensures m in KeepForHistory(ms) <==> m in ms && !Contains(m.text, HistoryMarker)
  {
    if ms != [] {
      KeepForHistoryMembers(ms[1..], m);
      assert ms == [ms[0]] + ms[1..];
    }
  }

  /** The filter works message by message, so the kept messages stay in the
      order of the conversation: it distributes over concatenation, and a
      single message is kept exactly when it carries no marker. */
  lemma {:induction false} KeepForHistoryAppend(a: seq<ChatMessage>, b: seq<ChatMessage>)
    ensures KeepForHistory(a + b) == KeepForHistory(a) + KeepForHistory(b)
    ensures |a| == 1 ==> KeepForHistory(a) == (if Contains(a[0].text, HistoryMarker) then [] else a)
    decreases |a|
  {
    if a == [] {
      assert a + b == b;
    } else {
      assert (a + b)[1..] == a[1..] + b;
      KeepForHistoryAppend(a[1..], b);
      assert KeepForHistory(a) == (if Contains(a[0].text, HistoryMarker) then [] else [a[0]]) + KeepForHistory(a[1..]);
    }
  }

  function ImageNote(url: string): string
  {
    "[User sent an image: " + url + "] "
  }

  /** A message as a chat-completions turn: model replies become assistant
      turns, and a user message with an image names its URL first. */
  function ToTurn(m: ChatMessage): Turn
  {
    Turn(if m.role == Model then Assistant else UserTurn,
         if m.role == User && Truthy(m.memeUrl) then ImageNote(m.memeUrl.value) + m.text else m.text)
  }

  function ToTurns(ms: seq<ChatMessage>): (r: seq<Turn>)
    ensures |r| == |ms|
  {
    if ms == [] then [] else [ToTurn(ms[0])] + ToTurns(ms[1..])
  }

  /** Every message maps, in place, to its turn. */
  lemma {:induction false} ToTurnsAt(ms: seq<ChatMessage>, i: nat)
    requires i < |ms|
    ensures ToTurns(ms)[i] == ToTurn(ms[i])
  {
    if i > 0 {
      ToTurnsAt(ms[1..], i - 1);
    }
  }

  /** `.slice(-10)` of the mapped, filtered history. */
  function HistoryPayload(snapshot: seq<ChatMessage>): seq<Turn>
  {
    LastTurns(KeepForHistory(snapshot))
  }

  /** `.map(...)` then `.slice(-10)`: the turns of the last ten messages. */
  function LastTurns(kept: seq<ChatMessage>): seq<Turn>
  {
    var turns := ToTurns(kept);
    if |turns| <= HistoryLimit then turns else turns[|turns| - HistoryLimit..]
  }

  /** The history holds the last ten kept messages (all of them when there
      are fewer), in their order, each as its turn. */
  lemma LastTurnsSpec(kept: seq<ChatMessage>)
    ensures var h := LastTurns(kept);
            && |h| == (if |kept| <= HistoryLimit then |kept| else HistoryLimit)
            && forall i | 0 <= i < |h| :: h[i] == ToTurn(kept[|kept| - |h| + i])
  {
    var turns := ToTurns(kept);
    var h := LastTurns(kept);
    forall i | 0 <= i < |h|
      ensures h[i] == ToTurn(kept[|kept| - |h| + i])
    {
      assert h[i] == turns[|turns| - |h| + i];
      ToTurnsAt(kept, |kept| - |h| + i);
    }
  }

  /** Every turn of the history is the turn of a message of the
      conversation that does not carry the marker. */
  lemma HistoryPayloadUnmarked(snapshot: seq<ChatMessage>, i: nat)
    requires i < |HistoryPayload(snapshot)|
    ensures exists m | m in snapshot :: !Contains(m.text, HistoryMarker) && HistoryPayload(snapshot)[i] == ToTurn(m)
  {
    LastTurnsSpec(KeepForHistory(snapshot));
    var kept := KeepForHistory(snapshot);
    var h := HistoryPayload(snapshot);
    var m := kept[|kept| - |h| + i];
    assert m in kept;
    KeepForHistoryMembers(snapshot, m);
    assert h[i] == ToTurn(m);
  }

  /** The current user turn of the backup payload. */
  function CurrentTurn(userText: string, userMemeUrl: Option<string>): Turn
  {
    Turn(UserTurn, if Truthy(userMemeUrl) then ImageNote(userMemeUrl.value) + userText else userText)
  }

  /** `finalMessages`: the persona's instruction, the history taken from the
      messages as they were before this turn's user message was appended,
      and the current user turn. */
  function BackupTurns(persona: Persona, snapshot: seq<ChatMessage>, userText: string, userMemeUrl: Option<string>): seq<Turn>
  {
    [Turn(System, persona.systemInstruction)] + HistoryPayload(snapshot) + [CurrentTurn(userText, userMemeUrl)]
  }

  /** The payload holds at most twelve turns: the system turn first, the
      current user turn last, and never the generic error reply in between. */
  lemma BackupTurnsShape(persona: Persona, snapshot: seq<ChatMessage>, userText: string, userMemeUrl: Option<string>)
    ensures var t := BackupTurns(persona, snapshot, userText, userMemeUrl);
            && 2 <= |t| <= HistoryLimit + 2
            && t[0] == Turn(System, persona.systemInstruction)
            && t[|t| - 1] == CurrentTurn(userText, userMemeUrl)
            && forall i | 1 <= i < |t| - 1 :: t[i] != ToTurn(ChatMessage(Stamp(0), Model, GenericErrorText, None))
  {
    var t := BackupTurns(persona, snapshot, userText, userMemeUrl);
    var h := HistoryPayload(snapshot);
    assert |h| <= HistoryLimit;
    assert |t| == |h| + 2;
    forall i | 1 <= i < |t| - 1
      ensures t[i] != ToTurn(ChatMessage(Stamp(0), Model, GenericErrorText, None))
    {
      assert t[i] == h[i - 1];
      HistoryTurnNotGenericError(snapshot, i - 1);
    }
  }

  /** No turn of the history is the generic error reply, which carries the
      marker. */
  lemma HistoryTurnNotGenericError(snapshot: seq<ChatMessage>, j: nat)
    requires j < |HistoryPayload(snapshot)|
    ensures HistoryPayload(snapshot)[j] != ToTurn(ChatMessage(Stamp(0), Model, GenericErrorText, None))
  {
    var h := HistoryPayload(snapshot);
    HistoryPayloadUnmarked(snapshot, j);
    var m :| m in snapshot && !Contains(m.text, HistoryMarker) && h[j] == ToTurn(m);
    GenericErrorIsMarked();
    if m.role == User && Truthy(m.memeUrl) {
      assert h[j].role == UserTurn;
    } else {
      assert h[j].content == m.text;
    }
  }

  // ---------------------------------------------------------------------
  // Reading a reply (`processResponse`)

  /** What `searchMemeForChat` returns: `data.data?.images?.fixed_height?.url`,
      and undefined when the call or the read throws. */
  function LookupUrl(lookup: Fetch): Option<string>
  {
    if lookup.Unreachable? || lookup.body.Unparsable? || lookup.body.doc.JNull? then None
    else
      var u := Prop(Prop(Prop(Prop(Some(lookup.body.doc), "data"), "images"), "fixed_height"), "url");
      if u.Some? && u.value.JStr? then Some(u.value.s) else None
  }

  /** The messages a reaction appends, and the keywords of the image lookup
      it made, if any. */
  datatype Reaction = Reaction(appended: seq<ChatMessage>, lookupTag: Option<string>)

  /** `processResponse(rawText)`: one model message with the directive cut
      out, and an image lookup for the keywords when there is a directive and
      a Giphy key. */
  function ProcessResponse(raw: string, giphyKey: string, lookup: Fetch, at: int): (r: Reaction)
    ensures |r.appended| == 1
    ensures r.appended[0].id == Stamp(at + 1) && r.appended[0].role == Model
    ensures r.appended[0].text == ParseReply(raw).text
    ensures r.lookupTag.Some? <==> FindDirective(raw).Some? && giphyKey != ""
    ensures r.lookupTag.Some? ==> r.lookupTag == ParseReply(raw).keywords && r.appended[0].memeUrl == LookupUrl(lookup)
    ensures r.lookupTag.None? ==> r.appended[0].memeUrl.None?
  {
    var p := ParseReply(raw);
    var tag := if p.keywords.Some? && giphyKey != "" then p.keywords else None;
    Reaction([ChatMessage(Stamp(at + 1), Model, p.text, if tag.Some? then LookupUrl(lookup) else None)], tag)
  }

  /** A text read from an answer is handed to `processResponse`; a value
      that is not a string makes it throw before appending anything. */
  function Respond(read: Read, giphyKey: string, lookup: Fetch, at: int): (r: Reaction)
    ensures |r.appended| <= 1 && forall m | m in r.appended :: m.role == Model
    ensures r.appended == [] <==> read.OtherValue?
  {
    match read
    case StringValue(s) => ProcessResponse(s, giphyKey, lookup, at)
    case OtherValue(_) => Reaction([], None)
  }

  function ErrorMessage(message: string, at: int): ChatMessage
  {
    ChatMessage(Stamp(at), Model, ErrorText(message), None)
  }

  function Failed(message: string, at: int): Reaction
  {
    Reaction([ErrorMessage(message, at)], None)
  }

  // ---------------------------------------------------------------------
  // One turn

  /** The relay's reply text: `data.candidates?.[0]?.content?.parts?.[0]?.text`. */
  function CandidateText(data: Json): Option<Json>
  {
    Prop(First(Prop(Prop(First(Prop(Some(data), "candidates")), "content"), "parts")), "text")
  }

  datatype Primary = PrimaryReplied(read: Read) | PrimaryThrew(message: string)

  /** The primary attempt: an attached image whose conversion rejected
      throws before the relay is called; otherwise the relay's answer is
      read, and an answer without candidate text gives the placeholder. */
  function PrimaryOutcome(userMemeUrl: Option<string>, imageConversion: Option<string>, relay: Fetch): Primary
  {
    if Truthy(userMemeUrl) && imageConversion.Some? then PrimaryThrew(imageConversion.value)
    else
      match relay
      case Unreachable(e) => PrimaryThrew(e)
      case Answered(_, _, _, body) =>
        match body
        case Unparsable(e) => PrimaryThrew(e)
        case Parsed(data) =>
          if data.JNull? then PrimaryThrew(ReadError(true, "candidates"))
          else PrimaryReplied(OrElse(CandidateText(data), Placeholder))
  }

  /** The backup attempt's reaction, from its answer. */
  function BackupReaction(backup: Fetch, giphyKey: string, lookup: Fetch, at: int): (r: Reaction)
    ensures |r.appended| <= 1 && forall m | m in r.appended :: m.role == Model
  {
    match backup
    case Unreachable(e) => Failed(e, at)
    case Answered(ok, status, _, body) =>
      if !ok then
        match RejectionDetail(body, "Status " + NatToString(status))
        case Threw(e) => Failed(e, at)
        case Returned(d) => Failed(BackupFailedTag + " " + d.s, at)
      else
        match body
        case Unparsable(e) => Failed(e, at)
        case Parsed(data) =>
          match ReadChoice(data, SystemErrorText)
          case Threw(e) => Failed(e, at)
          case Returned(read) => Respond(read, giphyKey, lookup, at)
  }

  datatype TurnResult = TurnResult(
    relayRequest: Option<ChatRequest>,
    backupRequest: Option<OpenAiRequest>,
    usedBackup: bool,
    reaction: Reaction)

  /** Everything a sent message leads to after its user message is
      appended. `snapshot` is the message list as it was before that append. */
  function RunTurn(persona: Persona, snapshot: seq<ChatMessage>, userText: string, userMemeUrl: Option<string>,
                   keys: ApiKeys, imageConversion: Option<string>, relay: Fetch, backup: Fetch, lookup: Fetch,
                   at: int): TurnResult
  {
    var relayRequest :=
      if Truthy(userMemeUrl) && imageConversion.Some? then None
      else Some(ChatRequest(Some(persona.systemInstruction), Some(userText), None));
    match PrimaryOutcome(userMemeUrl, imageConversion, relay)
    case PrimaryReplied(read) => TurnResult(relayRequest, None, false, Respond(read, keys.giphy, lookup, at))
    case PrimaryThrew(e) =>
      if keys.openai != "" then
        var request := OpenAiRequest("Bearer " + Trim(keys.openai), BackupModel,
                                     BackupTurns(persona, snapshot, userText, userMemeUrl));
        TurnResult(relayRequest, Some(request), true, BackupReaction(backup, keys.giphy, lookup, at))
      else
        TurnResult(relayRequest, None, false, Failed(e, at))
  }

  /** The backup runs exactly when the primary attempt threw and a backup
      key is set; a relay that answers, whatever it answers, never leads to
      it. */
  lemma BackupIffPrimaryThrew(persona: Persona, snapshot: seq<ChatMessage>, userText: string, userMemeUrl: Option<string>,
                              keys: ApiKeys, imageConversion: Option<string>, relay: Fetch, backup: Fetch, lookup: Fetch, at: int)
    ensures var r := RunTurn(persona, snapshot, userText, userMemeUrl, keys, imageConversion, relay, backup, lookup, at);
            && (r.usedBackup <==> PrimaryOutcome(userMemeUrl, imageConversion, relay).PrimaryThrew? && keys.openai != "")
            && (r.backupRequest.Some? <==> r.usedBackup)
            && (r.usedBackup ==>
                  && r.backupRequest.value.turns == BackupTurns(persona, snapshot, userText, userMemeUrl)
                  && r.backupRequest.value.authorization == "Bearer " + Trim(keys.openai))
    ensures relay.Answered? && relay.body.Parsed? && !relay.body.doc.JNull? && !(Truthy(userMemeUrl) && imageConversion.Some?) ==>
              !RunTurn(persona, snapshot, userText, userMemeUrl, keys, imageConversion, relay, backup, lookup, at).usedBackup
  {
  }

  /** The backup's answer is read, and the value read is not a string. */
  predicate BackupReadsNonString(backup: Fetch)
  {
    && backup.Answered? && backup.ok && backup.body.Parsed?
    && ReadChoice(backup.body.doc, SystemErrorText).Returned?
    && ReadChoice(backup.body.doc, SystemErrorText).value.OtherValue?
  }

  /** Each way a backup attempt can end: a thrown error becomes exactly one
      message with its classified text, a text read is handed to
      `processResponse`, and a non-string value read appends nothing. */
  lemma BackupOutcomes(backup: Fetch, giphyKey: string, lookup: Fetch, at: int)
    ensures var r := BackupReaction(backup, giphyKey, lookup, at);
            && (backup.Unreachable? ==> r.appended == [ErrorMessage(backup.error, at)])
            && (backup.Answered? && !backup.ok && backup.body.Parsed? && backup.body.doc.JNull? ==>
                  r.appended == [ErrorMessage(ReadError(true, "error"), at)])
            && (backup.Answered? && backup.ok && backup.body.Unparsable? ==>
                  r.appended == [ErrorMessage(backup.body.error, at)])
            && (backup.Answered? && backup.ok && backup.body.Parsed? ==>
                  var c := ReadChoice(backup.body.doc, SystemErrorText);
                  && (c.Threw? ==> r.appended == [ErrorMessage(c.message, at)])
                  && (c.Returned? && c.value.StringValue? ==> r == ProcessResponse(c.value.s, giphyKey, lookup, at))
                  && (c.Returned? && c.value.OtherValue? ==> r.appended == []))
  {
  }

  /** A rejected backup call (with a body that is not JSON null) is shown as
      one message: the backup-failure prefix and the endpoint's
      `error.message` in its string form, or the status when that is
      missing or falsy. */
  lemma RejectedBackupShowsDetail(status: nat, statusText: string, body: Body, giphyKey: string, lookup: Fetch, at: int)
    requires !(body.Parsed? && body.doc.JNull?)
    ensures var errData := if body.Parsed? then body.doc else JObj(map[]);
            var m := Prop(Prop(Some(errData), "error"), "message");
            var detail := if IsTruthy(m) then JsString(m.value) else "Status " + NatToString(status);
            BackupReaction(Answered(false, status, statusText, body), giphyKey, lookup, at).appended
              == [ChatMessage(Stamp(at), Model, BackupFailedPrefix + " " + detail, None)]
  {
    var errData := if body.Parsed? then body.doc else JObj(map[]);
    var m := Prop(Prop(Some(errData), "error"), "message");
    var detail := if IsTruthy(m) then JsString(m.value) else "Status " + NatToString(status);
    assert RejectionDetail(body, "Status " + NatToString(status)) == Returned(StringValue(detail));
    BackupRejectionReport(detail);
  }

  /** Where a turn's reaction comes from: without a backup key the
      primary's error is reported as one message; with one the backup
      decides; a text reply goes through `processResponse`; a non-string
      reply appends nothing. */
  lemma TurnOutcomes(persona: Persona, snapshot: seq<ChatMessage>, userText: string, userMemeUrl: Option<string>,
                     keys: ApiKeys, imageConversion: Option<string>, relay: Fetch, backup: Fetch, lookup: Fetch, at: int)
    ensures var r := RunTurn(persona, snapshot, userText, userMemeUrl, keys, imageConversion, relay, backup, lookup, at);
            var p := PrimaryOutcome(userMemeUrl, imageConversion, relay);
            && (p.PrimaryThrew? && keys.openai == "" ==> r.reaction.appended == [ErrorMessage(p.message, at)])
            && (p.PrimaryThrew? && keys.openai != "" ==> r.reaction == BackupReaction(backup, keys.giphy, lookup, at))
            && (p.PrimaryReplied? && p.read.StringValue? ==>
                  r.reaction == ProcessResponse(p.read.s, keys.giphy, lookup, at))
            && (p.PrimaryReplied? && p.read.OtherValue? ==> r.reaction.appended == [])
  {
  }

  /** A turn appends exactly one model message after the user's, except
      when the reply read (from the relay, or from the backup) is not a
      string: then nothing. */
  lemma {:induction false} TurnAppendsOne(persona: Persona, snapshot: seq<ChatMessage>, userText: string, userMemeUrl: Option<string>,
                                          keys: ApiKeys, imageConversion: Option<string>, relay: Fetch, backup: Fetch, lookup: Fetch, at: int)
    ensures var r := RunTurn(persona, snapshot, userText, userMemeUrl, keys, imageConversion, relay, backup, lookup, at);
            var p := PrimaryOutcome(userMemeUrl, imageConversion, relay);
            var silent := if p.PrimaryReplied? then p.read.OtherValue?
                          else keys.openai != "" && BackupReadsNonString(backup);
            && |r.reaction.appended| == (if silent then 0 else 1)
            && forall m | m in r.reaction.appended :: m.role == Model
  {
    TurnOutcomes(persona, snapshot, userText, userMemeUrl, keys, imageConversion, relay, backup, lookup, at);
    BackupOutcomes(backup, keys.giphy, lookup, at);
  }

  /** The relay is asked with the persona's instruction and the user's text
      only, never with an image: the turn list it builds has no image
      part. */
  lemma RelayRequestCarriesNoImage(persona: Persona, snapshot: seq<ChatMessage>, userText: string, userMemeUrl: Option<string>,
                                   keys: ApiKeys, imageConversion: Option<string>, relay: Fetch, backup: Fetch, lookup: Fetch,
                                   at: int, contents: seq<Content>)
    requires var r := RunTurn(persona, snapshot, userText, userMemeUrl, keys, imageConversion, relay, backup, lookup, at);
             r.relayRequest.Some? && IsContentsFor(r.relayRequest.value, contents)
    ensures var req := RunTurn(persona, snapshot, userText, userMemeUrl, keys, imageConversion, relay, backup, lookup, at).relayRequest.value;
            && req == ChatRequest(Some(persona.systemInstruction), Some(userText), None)
            && forall i | 0 <= i < |contents| :: !contents[i].parts[0].InlineData?
  {
    var req := RunTurn(persona, snapshot, userText, userMemeUrl, keys, imageConversion, relay, backup, lookup, at).relayRequest.value;
    ImageTurnIffImage(req, contents);
  }

  lemma PlaceholderHasNoBracket()
    ensures '[' !in Placeholder
  {
  }

  /** A relay answer without candidates (the relay's own 500 body, or an
      upstream error document it forwarded) shows the placeholder: no
      backup, no image lookup. */
  lemma NoCandidatesShowsPlaceholder(persona: Persona, snapshot: seq<ChatMessage>, userText: string, userMemeUrl: Option<string>,
                                     keys: ApiKeys, imageConversion: Option<string>, ok: bool, status: nat, statusText: string,
                                     fields: map<string, Json>, backup: Fetch, lookup: Fetch, at: int)
    requires !(Truthy(userMemeUrl) && imageConversion.Some?)
    requires "candidates" !in fields
    ensures var relay := Answered(ok, status, statusText, Parsed(JObj(fields)));
            RunTurn(persona, snapshot, userText, userMemeUrl, keys, imageConversion, relay, backup, lookup, at)
              == TurnResult(Some(ChatRequest(Some(persona.systemInstruction), Some(userText), None)), None, false,
                            Reaction([ChatMessage(Stamp(at + 1), Model, Placeholder, None)], None))
  {
    PlaceholderHasNoBracket();
    ParseReplyWithoutBracket(Placeholder);
  }

  /** In particular the relay's failure answer. */
  lemma RelayFailureShowsPlaceholder(persona: Persona, snapshot: seq<ChatMessage>, userText: string, keys: ApiKeys,
                                     backup: Fetch, lookup: Fetch, at: int)
    ensures var relay := Answered(false, 500, "Internal Server Error", Parsed(FailureBody));
            RunTurn(persona, snapshot, userText, None, keys, None, relay, backup, lookup, at).reaction.appended
              == [ChatMessage(Stamp(at + 1), Model, Placeholder, None)]
  {
    NoCandidatesShowsPlaceholder(persona, snapshot, userText, None, keys, None, false, 500, "Internal Server Error",
                                 FailureBody.fields, backup, lookup, at);
  }

  /** A rejected backup call is reported as a backup failure carrying the
      endpoint's detail, or the status when there is none. */
  lemma RejectedBackupReport(giphyKey: string, lookup: Fetch, status: nat, statusText: string, at: int)
    ensures BackupReaction(Answered(false, status, statusText, Unparsable("")), giphyKey, lookup, at).appended
              == [ChatMessage(Stamp(at), Model, BackupFailedPrefix + " " + "Status " + NatToString(status), None)]
  {
    var d := "Status " + NatToString(status);
    assert RejectionDetail(Unparsable(""), d) == Returned(StringValue(d));
    assert BackupReaction(Answered(false, status, statusText, Unparsable("")), giphyKey, lookup, at)
             == Failed(BackupFailedTag + " " + d, at);
    BackupRejectionReport(d);
    assert BackupFailedPrefix + " " + d == BackupFailedPrefix + " " + "Status " + NatToString(status);
  }

  // ---------------------------------------------------------------------
  // The widget

  function WelcomeMessage(p: Persona): ChatMessage
  {
    ChatMessage(Welcome, Model, p.welcome, None)
  }

  class ChatBot {
    var input: string
    var activePersona: Option<Persona>
    var messages: seq<ChatMessage>
    var isTyping: bool
    var usingBackup: bool

    /** Between turns nothing is in flight, and the conversation of the
        active persona opens with its welcome message; without a persona
        there is no conversation. */
    ghost predicate Valid()
      reads this
    {
      && !isTyping
      && (activePersona.None? ==> messages == [])
      && (activePersona.Some? ==> |messages| >= 1 && messages[0] == WelcomeMessage(activePersona.value))
    }

    constructor()
      ensures Valid()
      ensures input == "" && activePersona == None && messages == [] && !usingBackup
    {
      input := "";
      activePersona := None;
      messages := [];
      isTyping := false;
      usingBackup := false;
    }

    method SetInput(text: string)
      requires Valid()
      modifies this
      ensures Valid()
      ensures input == text
      ensures activePersona == old(activePersona) && messages == old(messages)
      ensures isTyping == old(isTyping) && usingBackup == old(usingBackup)
    {
      input := text;
    }

    /** `selectPersona`: the conversation restarts with the welcome message. */
    method SelectPersona(p: Persona)
      requires Valid()
      modifies this
      ensures Valid()
      ensures activePersona == Some(p) && messages == [WelcomeMessage(p)]
      ensures input == old(input) && isTyping == old(isTyping) && usingBackup == old(usingBackup)
    {
      activePersona := Some(p);
      messages := [WelcomeMessage(p)];
    }

    /** `backToMenu`. */
    method BackToMenu()
      requires Valid()
      modifies this
      ensures Valid()
      ensures activePersona == None && messages == [] && input == ""
      ensures isTyping == old(isTyping) && usingBackup == old(usingBackup)
    {
      activePersona := None;
      messages := [];
      input := "";
    }

    /** `handleSend`. Blank input, a turn in flight or no persona: nothing
        happens. Otherwise the input is cleared, the user message with the
        trimmed text (and its image link) is appended, the turn runs, and
        what it appends follows. */
    method HandleSend(sentAt: int, repliedAt: int, keys: ApiKeys, imageConversion: Option<string>,
                      relay: Fetch, backup: Fetch, lookup: Fetch) returns (sent: bool, result: Option<TurnResult>)
      requires Valid()
      modifies this
      ensures Valid()
      ensures sent <==> Trim(old(input)) != "" && !old(isTyping) && old(activePersona).Some?
      ensures !sent ==> && result.None? && input == old(input) && messages == old(messages)
                        && usingBackup == old(usingBackup) && activePersona == old(activePersona)
      ensures sent ==>
                var userText := Trim(old(input));
                var r := RunTurn(old(activePersona).value, old(messages), userText, AttachedImage(userText),
                                 keys, imageConversion, relay, backup, lookup, repliedAt);
                && result == Some(r)
                && input == ""
                && activePersona == old(activePersona)
                && messages == old(messages) + [ChatMessage(Stamp(sentAt), User, userText, AttachedImage(userText))]
                                             + r.reaction.appended
                && usingBackup == r.usedBackup
    {
      if Trim(input) == "" || isTyping || activePersona.None? {
        return false, None;
      }
      var r := Send(Trim(input), sentAt, repliedAt, keys, imageConversion, relay, backup, lookup);
      sent, result := true, Some(r);
    }

    /** The sending half of `handleSend`, once the guard has passed. */
    method Send(userText: string, sentAt: int, repliedAt: int, keys: ApiKeys, imageConversion: Option<string>,
                relay: Fetch, backup: Fetch, lookup: Fetch) returns (r: TurnResult)
      requires Valid() && activePersona.Some?
      modifies this
      ensures Valid()
      ensures r == RunTurn(old(activePersona).value, old(messages), userText, AttachedImage(userText),
                           keys, imageConversion, relay, backup, lookup, repliedAt)
      ensures input == "" && activePersona == old(activePersona) && usingBackup == r.usedBackup
      ensures messages == old(messages) + [ChatMessage(Stamp(sentAt), User, userText, AttachedImage(userText))]
                                        + r.reaction.appended
    {
      input := "";
      isTyping := true;
      usingBackup := false;
      var userMemeUrl := AttachedImage(userText);
      var snapshot := messages;
      var persona := activePersona.value;
      messages := snapshot + [ChatMessage(Stamp(sentAt), User, userText, userMemeUrl)];
      r := RunTurn(persona, snapshot, userText, userMemeUrl, keys, imageConversion,
                   relay, backup, lookup, repliedAt);
      if r.usedBackup {
        usingBackup := true;
      }
      messages := messages + r.reaction.appended;
      assert messages[0] == WelcomeMessage(persona);
      isTyping := false;
    }
  }
}
