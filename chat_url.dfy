/** The image link a user message may carry (`handleSend` in
    components/ChatBot.tsx). The trimmed text is searched with
        (https?:\/\/[^\s]+)
    and the first URL found is attached to the message when it looks like an
    image: an image extension tested with
        \.(gif|jpg|jpeg|png|webp)($|\?|#)      (case-insensitive)
    or a host name of one of the two GIF providers anywhere in it. */
module ChatUrl {
  import opened Types
  import opened Text

  // ---------------------------------------------------------------------
  // The URL pattern

  predicate NoSpaceIn(s: string, lo: nat, hi: nat)
    requires lo <= hi <= |s|
  {
    forall j | lo <= j < hi :: !IsSpace(s[j])
  }

  /** A whole match of `https?:\/\/[^\s]+` over s[p..e]: the scheme,
      matched case-sensitively, then at least one non-space. */
  predicate UrlForm(s: string, p: nat, e: nat)
  {
    && e <= |s|
    && (|| (OccursAt(s, "https://", p) && p + 8 < e && NoSpaceIn(s, p + 8, e))
        || (OccursAt(s, "http://", p) && p + 7 < e && NoSpaceIn(s, p + 7, e)))
  }

  datatype UrlSpan = UrlSpan(start: nat, end: nat)

  /** The match the engine reports: leftmost start, then the longest run. */
  ghost predicate IsEngineUrl(s: string, u: UrlSpan)
  {
    && UrlForm(s, u.start, u.end)
    && (forall p: nat, e: nat | UrlForm(s, p, e) :: u.start <= p)
    && (forall e: nat | UrlForm(s, u.start, e) :: e <= u.end)
  }

  /** The first position at or after `from` holding a space, or |s|. */
  function RunEnd(s: string, from: nat): (r: nat)
    requires from <= |s|
    ensures from <= r <= |s| && NoSpaceIn(s, from, r)
    ensures r < |s| ==> IsSpace(s[r])
    decreases |s| - from
  {
    if from < |s| && !IsSpace(s[from]) then RunEnd(s, from + 1) else from
  }

  /** Length of the scheme at `p`: `https://` is tried first (the `s?` is
      greedy), then `http://`; 0 when neither is there. */
  function SchemeLength(s: string, p: nat): nat
  {
    if OccursAt(s, "https://", p) then 8
    else if OccursAt(s, "http://", p) then 7
    else 0
  }

  /** The end of the URL that starts at `p`, if one does. */
  function UrlAt(s: string, p: nat): Option<nat>
    requires p <= |s|
  {
    var k := SchemeLength(s, p);
    if k == 0 || p + k >= |s| || IsSpace(s[p + k]) then None
    else Some(RunEnd(s, p + k))
  }

  /** Tries every start from `i` on, left to right. */
  function ScanUrl(s: string, i: nat): (r: Option<UrlSpan>)
    requires i <= |s|
    ensures r.Some? ==> i <= r.value.start <= |s| && UrlAt(s, r.value.start) == Some(r.value.end)
    ensures forall p | i <= p < (if r.Some? then r.value.start else |s| + 1) :: UrlAt(s, p).None?
    decreases |s| - i
  {
    match UrlAt(s, i)
    case Some(e) => Some(UrlSpan(i, e))
    case None => if i == |s| then None else ScanUrl(s, i + 1)
  }

  /** `userText.match(urlRegex)`. */
  function FindUrl(s: string): (r: Option<UrlSpan>)
  {
    ScanUrl(s, 0)
  }

  /** The two schemes never both start at one position (`:` against `s`
      in fifth place). */
  lemma SchemesExclusive(s: string, p: nat)
    ensures !(OccursAt(s, "https://", p) && OccursAt(s, "http://", p))
  {
    if p + 8 <= |s| {
      assert s[p..p + 8][4] == s[p + 4] == s[p..p + 7][4];
    }
  }

  lemma UrlAtSound(s: string, p: nat)
    requires p <= |s| && UrlAt(s, p).Some?
    ensures UrlForm(s, p, UrlAt(s, p).value)
  {
  }

  /** Any match at `p` ends no later than the scanner's. */
  lemma UrlAtComplete(s: string, p: nat, e: nat)
    requires UrlForm(s, p, e)
    ensures p <= |s| && UrlAt(s, p).Some? && e <= UrlAt(s, p).value
  {
    SchemesExclusive(s, p);
    var k := SchemeLength(s, p);
  }

  /** `FindUrl` returns the URL the engine reports, and none when the
      pattern matches nowhere. */
  lemma FindUrlIsEngineUrl(s: string)
    ensures FindUrl(s).Some? ==> IsEngineUrl(s, FindUrl(s).value)
    ensures FindUrl(s).None? ==> forall p: nat, e: nat :: !UrlForm(s, p, e)
  {
    var r := FindUrl(s);
    if r.Some? {
      UrlAtSound(s, r.value.start);
    }
    forall p: nat, e: nat | UrlForm(s, p, e)
      ensures r.Some? && r.value.start <= p
      ensures r.Some? && p == r.value.start ==> e <= r.value.end
    {
      UrlAtComplete(s, p, e);
    }
  }

  /** The reported URL runs up to the first whitespace after it, or to the
      end of the text. */
  lemma FindUrlStopsAtSpace(s: string)
    requires FindUrl(s).Some?
    ensures var u := FindUrl(s).value; u.end == |s| || IsSpace(s[u.end])
  {
  }

  lemma UrlStartsWithH(s: string, p: nat, e: nat)
    requires UrlForm(s, p, e)
    ensures p < |s| && s[p] == 'h'
  {
    if OccursAt(s, "https://", p) {
      assert s[p..p + 8][0] == s[p];
    } else {
      assert s[p..p + 7][0] == s[p];
    }
  }

  /** Every match starts with a lower-case `h`: a text without one carries
      no URL (the scheme is matched case-sensitively). */
  lemma FindUrlNeedsLowerH(s: string)
    requires 'h' !in s
    ensures FindUrl(s).None?
  {
    var r := FindUrl(s);
    if r.Some? {
      UrlAtSound(s, r.value.start);
      UrlStartsWithH(s, r.value.start, r.value.end);
    }
  }

  // ---------------------------------------------------------------------
  // Is the URL an image?

  const ImageExtensions: seq<string> := ["GIF", "JPG", "JPEG", "PNG", "WEBP"]

  /** `.ext` at `i`, case-insensitively, followed by the end of the URL, `?`
      or `#`. */
  predicate ExtAt(u: string, i: nat, ext: string)
  {
    && i + 1 + |ext| <= |u|
    && u[i] == '.'
    && LiteralAt(u, i + 1, ext)
    && (i + 1 + |ext| == |u| || u[i + 1 + |ext|] == '?' || u[i + 1 + |ext|] == '#')
  }

  /** The extension test of the pattern succeeds somewhere in `u`. */
  predicate HasImageExtension(u: string)
  {
    exists i, j | 0 <= i < |u| && 0 <= j < |ImageExtensions| :: ExtAt(u, i, ImageExtensions[j])
  }

  /** The `isImage` test. */
  predicate IsImageUrl(u: string)
  {
    HasImageExtension(u) || Contains(u, "giphy.com") || Contains(u, "tenor.com")
  }

  /** The `memeUrl` of the user message: the first URL, when it is an
      image. */
  function AttachedImage(text: string): Option<string>
  {
    match FindUrl(text)
    case None => None
    case Some(u) =>
      var url := text[u.start..u.end];
      if IsImageUrl(url) then Some(url) else None
  }

  /** A URL ending in an image extension, with or without a query or
      fragment, passes the test whatever the case of the extension. */
  lemma ExtensionMakesImage(stem: string, j: nat, ext: string, tail: string)
    requires j < |ImageExtensions| && |ext| == |ImageExtensions[j]|
    requires forall k | 0 <= k < |ext| :: CharIs(ext[k], ImageExtensions[j][k])
    requires tail == [] || tail[0] == '?' || tail[0] == '#'
    ensures IsImageUrl(stem + "." + ext + tail)
  {
    var u := stem + "." + ext + tail;
    var i := |stem|;
    assert u[i] == '.';
    forall k | 0 <= k < |ext|
      ensures CharIs(u[i + 1 + k], ImageExtensions[j][k])
    {
      assert u[i + 1 + k] == ext[k];
    }
    if tail != [] {
      assert u[i + 1 + |ext|] == tail[0];
    }
    assert ExtAt(u, i, ImageExtensions[j]);
  }

  /** What gets attached is the engine's first URL, unchanged, and it passes
      the image test; a text whose first URL is not an image attaches
      nothing, even when a later one is. */
  lemma AttachedImageIsFirstUrl(text: string)
    ensures AttachedImage(text).Some? <==>
              exists u :: IsEngineUrl(text, u) && IsImageUrl(text[u.start..u.end])
    ensures AttachedImage(text).Some? ==>
              exists u :: IsEngineUrl(text, u) && AttachedImage(text).value == text[u.start..u.end]
  {
    FindUrlIsEngineUrl(text);
    if exists u :: IsEngineUrl(text, u) && IsImageUrl(text[u.start..u.end]) {
      var u :| IsEngineUrl(text, u) && IsImageUrl(text[u.start..u.end]);
      EngineUrlUnique(text, u);
    }
  }

  /** There is one engine match at most: the scanner's. */
  lemma EngineUrlUnique(s: string, u: UrlSpan)
    requires IsEngineUrl(s, u)
    ensures FindUrl(s) == Some(u)
  {
    FindUrlIsEngineUrl(s);
    var f := FindUrl(s).value;
    UrlAtComplete(s, u.start, u.end);
  }

  /** A match cut out of its text is a whole match on its own. */
  lemma UrlFormSlice(s: string, p: nat, e: nat)
    requires UrlForm(s, p, e)
    ensures p <= e && UrlForm(s[p..e], 0, e - p)
  {
    var m := s[p..e];
    if OccursAt(s, "https://", p) && p + 8 < e && NoSpaceIn(s, p + 8, e) {
      assert m[0..8] == s[p..p + 8];
      assert NoSpaceIn(m, 8, e - p) by {
        forall j | 8 <= j < e - p ensures !IsSpace(m[j]) {
          assert m[j] == s[p + j];
        }
      }
    } else {
      assert m[0..7] == s[p..p + 7];
      assert NoSpaceIn(m, 7, e - p) by {
        forall j | 7 <= j < e - p ensures !IsSpace(m[j]) {
          assert m[j] == s[p + j];
        }
      }
    }
  }

  /** An attached image is a URL in its own right: a scheme followed by a
      run of non-spaces, and nothing else. */
  lemma AttachedImageShape(text: string)
    requires AttachedImage(text).Some?
    ensures var url := AttachedImage(text).value; UrlForm(url, 0, |url|) && IsImageUrl(url)
  {
    var u := FindUrl(text).value;
    UrlAtSound(text, u.start);
    UrlFormSlice(text, u.start, u.end);
  }

  // ---------------------------------------------------------------------
  // Worked messages

  lemma HttpAt(s: string, p: nat)
    requires p + 7 <= |s| && s[p] == 'h' && s[p + 1] == 't' && s[p + 2] == 't' && s[p + 3] == 'p'
    requires s[p + 4] == ':' && s[p + 5] == '/' && s[p + 6] == '/'
    ensures SchemeLength(s, p) == 7
  {
    var w := s[p..p + 7];
    assert w[0] == s[p] && w[1] == s[p + 1] && w[2] == s[p + 2] && w[3] == s[p + 3];
    assert w[4] == s[p + 4] && w[5] == s[p + 5] && w[6] == s[p + 6];
    assert OccursAt(s, "http://", p);
    SchemesExclusive(s, p);
  }

  lemma HttpsAt(s: string, p: nat)
    requires p + 8 <= |s| && s[p] == 'h' && s[p + 1] == 't' && s[p + 2] == 't' && s[p + 3] == 'p'
    requires s[p + 4] == 's' && s[p + 5] == ':' && s[p + 6] == '/' && s[p + 7] == '/'
    ensures SchemeLength(s, p) == 8
  {
    var w := s[p..p + 8];
    assert w[0] == s[p] && w[1] == s[p + 1] && w[2] == s[p + 2] && w[3] == s[p + 3];
    assert w[4] == s[p + 4] && w[5] == s[p + 5] && w[6] == s[p + 6] && w[7] == s[p + 7];
  }

  lemma NoSchemeAt(s: string, p: nat)
    requires p < |s| && s[p] != 'h'
    ensures p <= |s| && UrlAt(s, p).None?
  {
    if p + 7 <= |s| {
      assert s[p..p + 7][0] == s[p];
    }
    if p + 8 <= |s| {
      assert s[p..p + 8][0] == s[p];
    }
  }

  lemma PngUrlAt(s: string)
    requires s == "see http://a.b/C.PNG?x=1 ok"
    ensures UrlAt(s, 4) == Some(24)
  {
    assert s[4] == 'h';
    assert s[5] == 't';
    assert s[6] == 't';
    assert s[7] == 'p';
    assert s[8] == ':';
    assert s[9] == '/';
    assert s[10] == '/';
    HttpAt(s, 4);
    assert forall j | 11 <= j < 24 :: !IsSpace(s[j]);
    assert IsSpace(s[24]);
  }

  lemma PngUrlFound(s: string)
    requires s == "see http://a.b/C.PNG?x=1 ok"
    ensures FindUrl(s) == Some(UrlSpan(4, 24))
  {
    PngUrlAt(s);
    assert ScanUrl(s, 4) == Some(UrlSpan(4, 24));
    NoSchemeAt(s, 3);
    assert ScanUrl(s, 3) == ScanUrl(s, 4);
    NoSchemeAt(s, 2);
    assert ScanUrl(s, 2) == ScanUrl(s, 3);
    NoSchemeAt(s, 1);
    assert ScanUrl(s, 1) == ScanUrl(s, 2);
    NoSchemeAt(s, 0);
  }

  lemma PngUrlIsImage(s: string)
    requires s == "see http://a.b/C.PNG?x=1 ok"
    ensures IsImageUrl(s[4..24])
  {
    var u := s[4..24];
    assert u[12] == s[16] == '.';
    assert u[13] == s[17] && u[14] == s[18] && u[15] == s[19] && u[16] == s[20];
    assert LiteralAt(u, 13, ImageExtensions[3]);
    assert ExtAt(u, 12, ImageExtensions[3]);
  }

  /** An upper-case extension followed by a query string is an image; the
      URL, s[4..24] = "http://a.b/C.PNG?x=1", stops at the following
      space. */
  lemma ExampleUpperCaseExtension(s: string)
    requires s == "see http://a.b/C.PNG?x=1 ok"
    ensures AttachedImage(s) == Some(s[4..24])
  {
    PngUrlFound(s);
    PngUrlIsImage(s);
  }

  lemma GiphyUrlFound(s: string)
    requires s == "https://media.giphy.com/x"
    ensures FindUrl(s) == Some(UrlSpan(0, 25))
  {
    assert s[0] == 'h';
    assert s[1] == 't';
    assert s[2] == 't';
    assert s[3] == 'p';
    assert s[4] == 's';
    assert s[5] == ':';
    assert s[6] == '/';
    assert s[7] == '/';
    HttpsAt(s, 0);
    assert forall j | 8 <= j < 25 :: !IsSpace(s[j]);
  }

  /** A link on the provider's host is an image whatever its path. */
  lemma ExampleGiphyHost(s: string)
    requires s == "https://media.giphy.com/x"
    ensures AttachedImage(s) == Some(s)
  {
    GiphyUrlFound(s);
    assert s[0..25] == s;
    assert OccursAt(s, "giphy.com", 14) by {
      assert s[14..23] == "giphy.com";
    }
    ContainsIffOccurs(s, "giphy.com");
  }

  lemma FirstUrlFound(s: string)
    requires s == "http://a.io http://b.gif"
    ensures FindUrl(s) == Some(UrlSpan(0, 11))
  {
    assert s[0] == 'h';
    assert s[1] == 't';
    assert s[2] == 't';
    assert s[3] == 'p';
    assert s[4] == ':';
    assert s[5] == '/';
    assert s[6] == '/';
    HttpAt(s, 0);
    assert forall j | 7 <= j < 11 :: !IsSpace(s[j]);
    assert IsSpace(s[11]);
  }

  lemma FirstUrlIsNotImage(u: string)
    requires u == "http://a.io"
    ensures !IsImageUrl(u)
  {
    forall i, j | 0 <= i < |u| && 0 <= j < |ImageExtensions|
      ensures !ExtAt(u, i, ImageExtensions[j])
    {
      if i == 8 {
        assert !CharIs(u[9], ImageExtensions[j][0]);
      } else {
        assert u[i] != '.';
      }
    }
    forall p: nat ensures !OccursAt(u, "giphy.com", p) && !OccursAt(u, "tenor.com", p) {
      if p + 9 <= |u| {
        assert u[p] != 'g' && u[p + 1] != 'e' by {
          assert p <= 2;
        }
        assert u[p..p + 9][0] == u[p] && u[p..p + 9][1] == u[p + 1];
      }
    }
    ContainsIffOccurs(u, "giphy.com");
    ContainsIffOccurs(u, "tenor.com");
  }

  /** Only the first URL is looked at: a later image link is not attached
      when the first link is not an image. */
  lemma ExampleOnlyFirstUrl(s: string)
    requires s == "http://a.io http://b.gif"
    ensures AttachedImage(s) == None
  {
    FirstUrlFound(s);
    assert s[0..11] == "http://a.io";
    FirstUrlIsNotImage(s[0..11]);
  }
}
