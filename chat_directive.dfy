/** The image directive a chat reply may carry (`processResponse` in
    components/ChatBot.tsx). The reply is searched, case-insensitively, for
        \[(?:MEME|IMAGE):\s*([^\]]+)\]  |  !\[([^\]]+)\](?:\([^)]*\))?
    The pattern is stated declaratively (MatchForm: what a whole match looks
    like), the engine's choice among matches is stated as IsEngineMatch
    (leftmost start, then greedy), and a hand-written scanner (MatchPrefix,
    Scan) is proved to make exactly that choice. */
module ChatDirective {
  import opened Types
  import opened Text

  // ---------------------------------------------------------------------
  // The pattern, read declaratively

  predicate AllSpaceIn(s: string, lo: nat, hi: nat)
    requires lo <= hi <= |s|
  {
    forall k | lo <= k < hi :: IsSpace(s[k])
  }

  predicate NoCharIn(s: string, lo: nat, hi: nat, c: char)
    requires lo <= hi <= |s|
  {
    forall k | lo <= k < hi :: s[k] != c
  }

  /** The first alternative after its tag and colon: `\s*` over m[k..a], the
      capture `[^\]]+` over m[a..b], and `\]` as the last character. */
  predicate TagBody(m: string, k: nat, a: nat, b: nat)
  {
    k <= a < b && b + 1 == |m| && AllSpaceIn(m, k, a) && NoCharIn(m, a, b, ']') && m[b] == ']'
  }

  /** `m` is a whole match of `\[(?:MEME|IMAGE):\s*([^\]]+)\]` whose first
      group is m[a..b]. */
  predicate TagForm(m: string, a: nat, b: nat)
  {
    || (LiteralAt(m, 0, "[MEME:") && TagBody(m, 6, a, b))
    || (LiteralAt(m, 0, "[IMAGE:") && TagBody(m, 7, a, b))
  }

  /** `m` is a whole match of `!\[([^\]]+)\](?:\([^)]*\))?` whose second
      group is m[a..b]. */
  predicate MarkdownForm(m: string, a: nat, b: nat)
  {
    && a == 2 && a < b < |m|
    && m[0] == '!' && m[1] == '['
    && NoCharIn(m, a, b, ']') && m[b] == ']'
    && (|m| == b + 1
        || (b + 3 <= |m| && m[b + 1] == '(' && NoCharIn(m, b + 2, |m| - 1, ')') && m[|m| - 1] == ')'))
  }

  predicate MatchForm(m: string, a: nat, b: nat)
  {
    TagForm(m, a, b) || MarkdownForm(m, a, b)
  }

  /** A match inside a reply: the matched text is s[start..end], the captured
      keywords s[kwStart..kwEnd]. */
  datatype Directive = Directive(start: nat, kwStart: nat, kwEnd: nat, end: nat)

  predicate RegexMatch(s: string, d: Directive)
  {
    && d.start <= d.kwStart <= d.kwEnd <= d.end <= |s|
    && MatchForm(s[d.start..d.end], d.kwStart - d.start, d.kwEnd - d.start)
  }

  /** The match a backtracking engine reports: the leftmost start, and at
      that start the greedy choice (`\s*` as long as the rest still matches,
      the optional `(...)` taken whenever it can be). */
  ghost predicate IsEngineMatch(s: string, d: Directive)
  {
    && RegexMatch(s, d)
    && (forall d' | RegexMatch(s, d') :: d.start <= d'.start)
    && (forall d' | RegexMatch(s, d') && d'.start == d.start ::
          d'.kwStart <= d.kwStart && d'.kwEnd == d.kwEnd && d'.end <= d.end)
  }

  // ---------------------------------------------------------------------
  // The scanner

  /** A match at the front of a suffix, in positions relative to it. */
  datatype Span = Span(kwStart: nat, kwEnd: nat, end: nat)

  /** The first position at or after `from` that is not a space. */
  function SkipSpaces(s: string, from: nat): (r: nat)
    requires from <= |s|
    ensures from <= r <= |s| && AllSpaceIn(s, from, r)
    ensures r < |s| ==> !IsSpace(s[r])
    decreases |s| - from
  {
    if from < |s| && IsSpace(s[from]) then SkipSpaces(s, from + 1) else from
  }

  /** Length of `[MEME:` or `[IMAGE:` at the front of `t`, or 0. */
  function TagHeadLength(t: string): nat
  {
    if LiteralAt(t, 0, "[MEME:") then 6
    else if LiteralAt(t, 0, "[IMAGE:") then 7
    else 0
  }

  /** The first alternative at the front of `t`. The body runs to the first
      `]`; leading spaces are skipped, except that a body made only of
      spaces keeps its last one (the engine backs `\s*` off by one so that
      `[^\]]+` can match). */
  function MatchTag(t: string): (r: Option<Span>)
    ensures r.Some? ==> r.value.kwStart < r.value.kwEnd < r.value.end <= |t|
  {
    var k := TagHeadLength(t);
    if k == 0 then None
    else
      match FindChar(t, ']', k)
      case None => None
      case Some(b) =>
        if b == k then None
        else
          var w := SkipSpaces(t, k);
          Some(Span(if w < b then w else b - 1, b, b + 1))
  }

  /** The second alternative at the front of `t`: the alt text runs to the
      first `]`; a `(` right after it is taken up to the first `)`, when
      there is one. */
  function MatchMarkdown(t: string): (r: Option<Span>)
    requires |t| >= 2 && t[0] == '!' && t[1] == '['
    ensures r.Some? ==> r.value.kwStart < r.value.kwEnd < r.value.end <= |t|
  {
    match FindChar(t, ']', 2)
    case None => None
    case Some(b) =>
      if b == 2 then None
      else if b + 1 < |t| && t[b + 1] == '(' then
        match FindChar(t, ')', b + 2)
        case Some(q) => Some(Span(2, b, q + 1))
        case None => Some(Span(2, b, b + 1))
      else
        Some(Span(2, b, b + 1))
  }

  /** The match that starts at the front of `t`, if any. At most one
      alternative applies, as they begin with different characters. */
  function MatchPrefix(t: string): (r: Option<Span>)
    ensures r.Some? ==> r.value.kwStart < r.value.kwEnd < r.value.end <= |t|
  {
    if |t| >= 1 && t[0] == '[' then MatchTag(t)
    else if |t| >= 2 && t[0] == '!' && t[1] == '[' then MatchMarkdown(t)
    else None
  }

  function At(i: nat, sp: Span): Directive
  {
    Directive(i, i + sp.kwStart, i + sp.kwEnd, i + sp.end)
  }

  /** Tries every start from `i` on, left to right. */
  function Scan(s: string, i: nat): (r: Option<Directive>)
    requires i <= |s|
    ensures r.Some? ==> && i <= r.value.start < |s|
                        && MatchPrefix(s[r.value.start..]).Some?
                        && r.value == At(r.value.start, MatchPrefix(s[r.value.start..]).value)
    ensures forall p | i <= p < (if r.Some? then r.value.start else |s|) :: MatchPrefix(s[p..]).None?
    decreases |s| - i
  {
    if i == |s| then None
    else
      match MatchPrefix(s[i..])
      case Some(sp) => Some(At(i, sp))
      case None => Scan(s, i + 1)
  }

  /** `rawText.match(memeRegex)`. */
  function FindDirective(s: string): (r: Option<Directive>)
    ensures r.Some? ==> r.value.start <= r.value.kwStart < r.value.kwEnd < r.value.end <= |s|
  {
    Scan(s, 0)
  }

  // ---------------------------------------------------------------------
  // The scanner makes the engine's choice

  lemma MatchPrefixSound(t: string)
    requires MatchPrefix(t).Some?
    ensures var sp := MatchPrefix(t).value;
              sp.end <= |t| && MatchForm(t[..sp.end], sp.kwStart, sp.kwEnd)
  {
    var sp := MatchPrefix(t).value;
    var m := t[..sp.end];
    if t[0] == '[' {
      var k := TagHeadLength(t);
      var b := FindChar(t, ']', k).value;
      assert LiteralAt(m, 0, if k == 6 then "[MEME:" else "[IMAGE:");
      assert TagBody(m, k, sp.kwStart, sp.kwEnd);
    } else {
      assert MarkdownForm(m, sp.kwStart, sp.kwEnd);
    }
  }

  /** The first non-space at or after `k` lies in [a, b] when m[k..a] is all
      spaces and t[b] is not a space. */
  lemma SkipSpacesBetween(t: string, k: nat, a: nat, b: nat)
    requires k <= a <= b < |t| && AllSpaceIn(t, k, a) && !IsSpace(t[b])
    ensures a <= SkipSpaces(t, k) <= b
  {
  }

  lemma TagComplete(t: string, e: nat, a: nat, b: nat)
    requires e <= |t| && TagForm(t[..e], a, b)
    ensures MatchTag(t).Some?
    ensures var sp := MatchTag(t).value; a <= sp.kwStart && b == sp.kwEnd && e <= sp.end
  {
    var m := t[..e];
    var k: nat;
    if LiteralAt(m, 0, "[MEME:") && TagBody(m, 6, a, b) {
      k := 6;
      assert LiteralAt(t, 0, "[MEME:");
    } else {
      k := 7;
      assert CharIs(m[0 + 1], "[IMAGE:"[1]);
      assert !CharIs(t[0 + 1], "[MEME:"[1]);
      assert LiteralAt(t, 0, "[IMAGE:");
    }
    assert TagHeadLength(t) == k;
    assert AllSpaceIn(t, k, a);
    assert forall j | k <= j < b :: t[j] != ']' by {
      forall j | k <= j < b ensures t[j] != ']' {
        if j < a { assert IsSpace(m[j]); } else { assert m[j] != ']'; }
      }
    }
    assert FindChar(t, ']', k) == Some(b);
    SkipSpacesBetween(t, k, a, b);
  }

  lemma MarkdownComplete(t: string, e: nat, a: nat, b: nat)
    requires e <= |t| && MarkdownForm(t[..e], a, b)
    ensures |t| >= 2 && t[0] == '!' && t[1] == '[' && MatchMarkdown(t).Some?
    ensures var sp := MatchMarkdown(t).value; a <= sp.kwStart && b == sp.kwEnd && e <= sp.end
  {
    var m := t[..e];
    assert t[0] == '!' && t[1] == '[';
    assert FindChar(t, ']', 2) == Some(b);
    if e > b + 1 {
      assert t[b + 1] == '(';
      assert FindChar(t, ')', b + 2) == Some(e - 1);
    }
  }

  lemma MatchPrefixComplete(t: string, e: nat, a: nat, b: nat)
    requires e <= |t| && MatchForm(t[..e], a, b)
    ensures MatchPrefix(t).Some?
    ensures var sp := MatchPrefix(t).value; a <= sp.kwStart && b == sp.kwEnd && e <= sp.end
  {
    var m := t[..e];
    if TagForm(m, a, b) {
      TagComplete(t, e, a, b);
      if LiteralAt(m, 0, "[MEME:") {
        assert CharIs(m[0], "[MEME:"[0]);
      } else {
        assert CharIs(m[0], "[IMAGE:"[0]);
      }
    } else {
      MarkdownComplete(t, e, a, b);
    }
  }

  /** What the scanner reports is a match of the pattern. */
  lemma FoundIsMatch(s: string)
    requires FindDirective(s).Some?
    ensures RegexMatch(s, FindDirective(s).value)
  {
    var d := FindDirective(s).value;
    var t := s[d.start..];
    var sp := MatchPrefix(t).value;
    MatchPrefixSound(t);
    MatchFormAt(s, d.start, sp);
  }

  /** A match at the front of s[i..] is a match in `s`. */
  lemma MatchFormAt(s: string, i: nat, sp: Span)
    requires i <= |s| && sp.kwStart <= sp.kwEnd <= sp.end <= |s| - i
    requires MatchForm(s[i..][..sp.end], sp.kwStart, sp.kwEnd)
    ensures RegexMatch(s, At(i, sp))
  {
    assert s[i..][..sp.end] == s[i..i + sp.end];
  }

  /** Where the pattern matches, the scanner finds a match at the same start
      that is at least as greedy. */
  lemma MatchSeenByScanner(s: string, d: Directive)
    requires RegexMatch(s, d)
    ensures d.start < |s| && MatchPrefix(s[d.start..]).Some?
    ensures var sp := MatchPrefix(s[d.start..]).value;
              d.kwStart - d.start <= sp.kwStart && d.kwEnd - d.start == sp.kwEnd && d.end - d.start <= sp.end
  {
    var t := s[d.start..];
    var e := d.end - d.start;
    assert t[..e] == s[d.start..d.end];
    MatchPrefixComplete(t, e, d.kwStart - d.start, d.kwEnd - d.start);
  }

  /** `FindDirective` returns exactly the match the regular-expression engine
      reports, and none when the pattern matches nowhere. */
  lemma FindDirectiveIsEngineMatch(s: string)
    ensures FindDirective(s).Some? ==> IsEngineMatch(s, FindDirective(s).value)
    ensures FindDirective(s).None? ==> forall d :: !RegexMatch(s, d)
  {
    var r := FindDirective(s);
    if r.Some? {
      FoundIsMatch(s);
    }
    forall d' | RegexMatch(s, d')
      ensures r.Some? && r.value.start <= d'.start
      ensures r.Some? && d'.start == r.value.start ==>
                d'.kwStart <= r.value.kwStart && d'.kwEnd == r.value.kwEnd && d'.end <= r.value.end
    {
      MatchSeenByScanner(s, d');
    }
  }

  /** A match is located only by its own text: wherever that text occurs,
      the pattern matches there too. */
  lemma MatchTextMatchesWherever(s: string, d: Directive, q: nat)
    requires RegexMatch(s, d)
    requires OccursAt(s, s[d.start..d.end], q)
    ensures RegexMatch(s, Directive(q, q + (d.kwStart - d.start), q + (d.kwEnd - d.start), q + (d.end - d.start)))
  {
  }

  // ---------------------------------------------------------------------
  // What the widget makes of a reply

  /** The displayed text and the keywords extracted from a model reply. */
  datatype Reply = Reply(text: string, keywords: Option<string>)

  /** The parsing half of `processResponse`: on a match, `replace(match[0],
      '')` then `trim` gives the text and the trimmed capture the keywords;
      otherwise the raw text is shown as it is. */
  function ParseReply(raw: string): Reply
  {
    match FindDirective(raw)
    case None => Reply(raw, None)
    case Some(d) =>
      Reply(Trim(ReplaceFirst(raw, raw[d.start..d.end], "")), Some(Trim(raw[d.kwStart..d.kwEnd])))
  }

  /** On a match: the matched text is cut out once, at the position of the
      match (string `replace` removes the first occurrence of the matched
      text, and no earlier occurrence exists); the keywords are the trimmed
      capture, which before trimming is never empty, so the truthiness test
      that guards the image lookup always passes. */
  lemma ParseReplyOnMatch(raw: string)
    requires FindDirective(raw).Some?
    ensures var d := FindDirective(raw).value;
              && d.kwStart < d.kwEnd
              && ParseReply(raw).text == Trim(raw[..d.start] + raw[d.end..])
              && ParseReply(raw).keywords == Some(Trim(raw[d.kwStart..d.kwEnd]))
  {
    var d := FindDirective(raw).value;
    FindDirectiveIsEngineMatch(raw);
    NoEarlierOccurrence(raw, d);
    ReplaceFirstAt(raw, raw[d.start..d.end], d.start);
  }

  /** The text of the engine's match occurs nowhere before the match. */
  lemma NoEarlierOccurrence(raw: string, d: Directive)
    requires IsEngineMatch(raw, d)
    ensures forall q: nat | q < d.start :: !OccursAt(raw, raw[d.start..d.end], q)
  {
    forall q: nat | q < d.start
      ensures !OccursAt(raw, raw[d.start..d.end], q)
    {
      if OccursAt(raw, raw[d.start..d.end], q) {
        MatchTextMatchesWherever(raw, d, q);
      }
    }
  }

  /** A reply the pattern matches nowhere is displayed exactly as received,
      untrimmed, and asks for no image. */
  lemma ParseReplyWithoutMatch(raw: string)
    requires forall d :: !RegexMatch(raw, d)
    ensures ParseReply(raw) == Reply(raw, None)
  {
    FindDirectiveIsEngineMatch(raw);
  }

  /** Every match holds a `[` at or just after its start; a reply without
      one is never altered. */
  lemma ParseReplyWithoutBracket(raw: string)
    requires '[' !in raw
    ensures ParseReply(raw) == Reply(raw, None)
  {
    forall d | RegexMatch(raw, d)
      ensures false
    {
      MatchHoldsBracket(raw, d);
    }
    ParseReplyWithoutMatch(raw);
  }

  lemma MatchHoldsBracket(raw: string, d: Directive)
    requires RegexMatch(raw, d)
    ensures d.start + 1 < |raw| && (raw[d.start] == '[' || raw[d.start + 1] == '[')
  {
    var m := raw[d.start..d.end];
    if LiteralAt(m, 0, "[MEME:") {
      assert CharIs(m[0], "[MEME:"[0]);
    } else if LiteralAt(m, 0, "[IMAGE:") {
      assert CharIs(m[0], "[IMAGE:"[0]);
    }
  }

  // ---------------------------------------------------------------------
  // Worked replies

  lemma SadCatAt(t: string)
    requires t == "[MEME: sad cat]"
    ensures MatchPrefix(t) == Some(Span(7, 14, 15))
  {
    assert LiteralAt(t, 0, "[MEME:");
    assert t[14] == ']' && forall k | 6 <= k < 14 :: t[k] != ']';
    assert FindChar(t, ']', 6) == Some(14);
    assert SkipSpaces(t, 6) == 7;
  }

  /** Characters other than `[` and `!` cannot open a match, so the scanner
      passes over them. */
  lemma {:induction false} ScanSkipsPlain(s: string, i: nat, j: nat)
    requires i <= j <= |s|
    requires forall p | i <= p < j :: s[p] != '[' && s[p] != '!'
    ensures Scan(s, i) == Scan(s, j)
    decreases j - i
  {
    if i < j {
      assert s[i..][0] == s[i];
      ScanSkipsPlain(s, i + 1, j);
    }
  }

  lemma SadCatFound(s: string)
    requires s == "ok [MEME: sad cat]"
    ensures FindDirective(s) == Some(Directive(3, 10, 17, 18))
  {
    SadCatAt(s[3..]);
    assert Scan(s, 3) == Some(Directive(3, 10, 17, 18));
    ScanSkipsPlain(s, 0, 3);
  }

  lemma SadCatText(s: string)
    requires s == "ok [MEME: sad cat]"
    ensures s[..3] + s[18..] == "ok "
  {
  }

  lemma SadCatKeywords(s: string)
    requires s == "ok [MEME: sad cat]"
    ensures s[10..17] == "sad cat"
  {
  }

  lemma TrimOk()
    ensures Trim("ok ") == "ok"
  {
    TrimPadded("", "ok", " ");
    assert "" + "ok" + " " == "ok ";
  }

  lemma TrimSadCat()
    ensures Trim("sad cat") == "sad cat"
  {
    TrimOfTrimmed("sad cat");
  }

  /** The tag form: the directive goes, the remaining text is trimmed and the
      keywords are the capture without its leading space. */
  lemma ExampleMemeTag(s: string)
    requires s == "ok [MEME: sad cat]"
    ensures ParseReply(s) == Reply("ok", Some("sad cat"))
  {
    SadCatFound(s);
    ParseReplyOnMatch(s);
    SadCatText(s);
    SadCatKeywords(s);
    TrimOk();
    TrimSadCat();
  }

  lemma DogAt(t: string)
    requires t == "![a dog](http://x/y.gif) more"
    ensures MatchPrefix(t) == Some(Span(2, 7, 24))
  {
    DogAltEnd(t);
    DogLinkEnd(t);
    assert t[8] == '(';
  }

  lemma DogAltEnd(t: string)
    requires t == "![a dog](http://x/y.gif) more"
    ensures FindChar(t, ']', 2) == Some(7)
  {
    assert t[7] == ']' && forall k | 2 <= k < 7 :: t[k] != ']';
  }

  lemma DogLinkEnd(t: string)
    requires t == "![a dog](http://x/y.gif) more"
    ensures FindChar(t, ')', 9) == Some(23)
  {
    assert t[23] == ')' && forall k | 9 <= k < 23 :: t[k] != ')';
  }

  lemma DogSuffix(s: string)
    requires s == "hey ![a dog](http://x/y.gif) more"
    ensures s[4..] == "![a dog](http://x/y.gif) more"
  {
  }

  lemma DogFound(s: string)
    requires s == "hey ![a dog](http://x/y.gif) more"
    ensures FindDirective(s) == Some(Directive(4, 6, 11, 28))
  {
    DogSuffix(s);
    DogAt(s[4..]);
    assert Scan(s, 4) == Some(Directive(4, 6, 11, 28));
    ScanSkipsPlain(s, 0, 4);
  }

  lemma DogText(s: string)
    requires s == "hey ![a dog](http://x/y.gif) more"
    ensures s[..4] + s[28..] == "hey  more"
  {
  }

  lemma DogKeywords(s: string)
    requires s == "hey ![a dog](http://x/y.gif) more"
    ensures s[6..11] == "a dog"
  {
    assert s[6] == 'a';
    assert s[7] == ' ';
    assert s[8] == 'd';
    assert s[9] == 'o';
    assert s[10] == 'g';
    var k := s[6..11];
    assert k[0] == s[6] && k[1] == s[7] && k[2] == s[8] && k[3] == s[9] && k[4] == s[10];
  }

  lemma TrimHeyMore()
    ensures Trim("hey  more") == "hey  more"
  {
    TrimOfTrimmed("hey  more");
  }

  lemma TrimDog()
    ensures Trim("a dog") == "a dog"
  {
    TrimOfTrimmed("a dog");
  }

  /** The Markdown form: the `(url)` right after the alt text belongs to the
      match and is removed with it; the alt text gives the keywords. */
  lemma ExampleMarkdownImage(s: string)
    requires s == "hey ![a dog](http://x/y.gif) more"
    ensures ParseReply(s) == Reply("hey  more", Some("a dog"))
  {
    DogFound(s);
    ParseReplyOnMatch(s);
    DogText(s);
    DogKeywords(s);
    TrimHeyMore();
    TrimDog();
  }

  lemma BlankFound(s: string)
    requires s == "[meme:   ]"
    ensures FindDirective(s) == Some(Directive(0, 8, 9, 10))
  {
    assert LiteralAt(s, 0, "[MEME:");
    assert s[9] == ']' && forall k | 6 <= k < 9 :: s[k] != ']';
    assert FindChar(s, ']', 6) == Some(9);
    assert SkipSpaces(s, 6) == 9;
    assert s[0..] == s;
  }

  lemma BlankPieces(s: string)
    requires s == "[meme:   ]"
    ensures s[..0] + s[10..] == "" && s[8..9] == " "
  {
  }

  lemma TrimBlank()
    ensures Trim("") == "" && Trim(" ") == ""
  {
    TrimEmptyIffBlank("");
    TrimEmptyIffBlank(" ");
  }

  /** A lower-case tag matches too. A body of spaces only still matches,
      capturing its last space; the keywords then trim to the empty string
      (and the image lookup is still made, as the capture itself is not
      empty). */
  lemma ExampleBlankBody(s: string)
    requires s == "[meme:   ]"
    ensures ParseReply(s) == Reply("", Some(""))
  {
    BlankFound(s);
    ParseReplyOnMatch(s);
    BlankPieces(s);
    TrimBlank();
  }

  lemma TwoFound(s: string)
    requires s == "[MEME: a] [IMAGE: b]"
    ensures FindDirective(s) == Some(Directive(0, 7, 8, 9))
  {
    assert LiteralAt(s, 0, "[MEME:");
    assert s[8] == ']' && forall k | 6 <= k < 8 :: s[k] != ']';
    assert FindChar(s, ']', 6) == Some(8);
    assert SkipSpaces(s, 6) == 7;
    assert s[0..] == s;
  }

  lemma TwoPieces(s: string)
    requires s == "[MEME: a] [IMAGE: b]"
    ensures s[..0] + s[9..] == " [IMAGE: b]" && s[7..8] == "a"
  {
  }

  lemma TrimLaterTag()
    ensures Trim(" [IMAGE: b]") == "[IMAGE: b]"
  {
    var x := "[IMAGE: b]";
    assert !IsSpace(x[0]) && !IsSpace(x[|x| - 1]);
    assert AllSpace(" ") && AllSpace("");
    assert " " + x + "" == " [IMAGE: b]";
    TrimPadded(" ", x, "");
  }

  lemma TrimA()
    ensures Trim("a") == "a"
  {
    TrimOfTrimmed("a");
  }

  /** Only the leftmost directive is acted on; a later one stays in the
      displayed text. */
  lemma ExampleOnlyFirstDirective(s: string)
    requires s == "[MEME: a] [IMAGE: b]"
    ensures ParseReply(s) == Reply("[IMAGE: b]", Some("a"))
  {
    TwoFound(s);
    ParseReplyOnMatch(s);
    TwoPieces(s);
    TrimLaterTag();
    TrimA();
  }
}
