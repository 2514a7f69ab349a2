/**
 * `POST /api/generate-api-key`: registers a random 14-letter username with
 * the grid's HTML registration form and scrapes the issued key out of the
 * page with a regular expression. `Math.random()` draws and the page text
 * are parameters.
 */
module GenerateApiKey {
  import opened JsText

  const UPPER_HALF := "ABCDEFGHIJKLMNOPQRSTUVWXYZ"
  const LOWER_HALF := "abcdefghijklmnopqrstuvwxyz"
  /** `characters`: the upper-case letters, then the lower-case ones. */
  const LETTERS := UPPER_HALF + LOWER_HALF
  const USERNAME_LENGTH := 14
  const REGISTER_URL := "https://api.aipowergrid.io/register"

  datatype KeyResponse = JsonError(status: int, error: string) | Issued(apiKey: string)

  const FETCH_FAILED := JsonError(500, "Failed to fetch API key")

  // ---------------------------------------------------------------------
  // generateRandomLetters
  // ---------------------------------------------------------------------

  predicate IsAsciiLetter(c: char) {
    ('A' <= c <= 'Z') || ('a' <= c <= 'z')
  }

  /** `s.charAt(i)`: the character at `i`, or the empty string outside `s`. */
  function CharAt(s: string, i: int): string {
    if 0 <= i < |s| then [s[i]] else ""
  }

  /** `Math.floor(Math.random() * characters.length)` for one draw. */
  function RandomIndex(draw: real): int {
    (draw * |LETTERS| as real).Floor
  }

  /** A draw of `Math.random()` lies in [0, 1). */
  predicate ValidDraws(draws: seq<real>) {
    forall i :: 0 <= i < |draws| ==> 0.0 <= draws[i] < 1.0
  }

  /** The letters chosen by a sequence of draws, in order. */
  function RandomLetters(draws: seq<real>): string {
    if draws == [] then ""
    else RandomLetters(draws[..|draws| - 1]) + CharAt(LETTERS, RandomIndex(draws[|draws| - 1]))
  }

  lemma UpperHalfLetters()
    ensures forall c :: c in UPPER_HALF ==> 'A' <= c <= 'Z'
  {
  }

  lemma LowerHalfLetters()
    ensures forall c :: c in LOWER_HALF ==> 'a' <= c <= 'z'
  {
  }

  /** `characters` holds the 52 ASCII letters and nothing else. */
  lemma AlphabetIsLetters(k: int)
    requires 0 <= k < |LETTERS|
    ensures IsAsciiLetter(LETTERS[k])
  {
    UpperHalfLetters();
    LowerHalfLetters();
    var c := LETTERS[k];
    assert c in UPPER_HALF + LOWER_HALF;
    assert c in UPPER_HALF || c in LOWER_HALF;
  }

  /** Every valid draw picks one letter, so the result has one letter per draw. */
  lemma {:induction false} RandomLettersSpec(draws: seq<real>)
    requires ValidDraws(draws)
    ensures |RandomLetters(draws)| == |draws|
    ensures forall i :: 0 <= i < |draws| ==> IsAsciiLetter(RandomLetters(draws)[i])
  {
    if draws != [] {
      var prefix := draws[..|draws| - 1];
      RandomLettersSpec(prefix);
      var d := draws[|draws| - 1];
      assert 0.0 <= d * 52.0 < 52.0;
      assert 0 <= RandomIndex(d) < 52;
      AlphabetIsLetters(RandomIndex(d));
    }
  }

  /** The draw `k / 52` scales to exactly `k`. */
  lemma IndexOfDraw(k: nat)
    requires k < 52
    ensures 0.0 <= k as real / 52.0 < 1.0
    ensures RandomIndex(k as real / 52.0) == k
  {
    assert (k as real / 52.0) * 52.0 == k as real;
  }

  /** Every string of letters is a possible username: the draw `k / 52` picks the `k`-th letter. */
  lemma EveryLetterReachable(k: nat)
    requires k < 52
    ensures 0.0 <= k as real / 52.0 < 1.0
    ensures CharAt(LETTERS, RandomIndex(k as real / 52.0)) == [LETTERS[k]]
  {
    IndexOfDraw(k);
  }

  /** The `for` loop appending one character per iteration. */
  method GenerateRandomLetters(length: nat, draws: seq<real>) returns (result: string)
    requires |draws| == length
    ensures result == RandomLetters(draws)
  {
    result := "";
    for i := 0 to length
      invariant result == RandomLetters(draws[..i])
    {
      var randomIndex := RandomIndex(draws[i]);
      assert draws[..i + 1][..i] == draws[..i];
      result := result + CharAt(LETTERS, randomIndex);
    }
    assert draws[..length] == draws;
  }

  /** The form-encoded registration body. */
  function RegistrationBody(username: string): (body: string)
    ensures StartsWith(body, "username=") && body[9..] == username
  {
    "username=" + username
  }

  // ---------------------------------------------------------------------
  // The key-extraction regular expression
  //   <p\s+style="background-color:\s*darkorange\s*;">\s*(.*?)\s*<\/p>   (flag i)
  // ---------------------------------------------------------------------

  /** One element of the part of the pattern before the capture: a literal, or a run of `\s`. */
  datatype Piece = Literal(lit: string) | Spaces(atLeastOne: bool)

  const TAG_OPEN := "<p"
  const STYLE_ATTR := "style=\"background-color:"
  const COLOR := "darkorange"
  const TAG_END := ";\">"
  const TAG_CLOSE := "</p>"

  /** `<p\s+style="background-color:\s*darkorange\s*;">\s*` */
  const OPENING: seq<Piece> := [
    Literal(TAG_OPEN), Spaces(true), Literal(STYLE_ATTR), Spaces(false),
    Literal(COLOR), Spaces(false), Literal(TAG_END), Spaces(false)]

  /** `lit` occurs at `i` of `text`, ignoring the case of ASCII letters (the `i` flag). */
  predicate LiteralAt(text: string, i: nat, lit: string) {
    i + |lit| <= |text| && ToLower(text[i..i + |lit|]) == ToLower(lit)
  }

  /**
   * Where `pieces` end when matched from `pos`. Each run of `\s` in the
   * pattern is followed by a character that is not white space, or ends
   * the opening part before a group that may start anywhere, so each run
   * takes all the white space there is.
   */
  function MatchPieces(text: string, pos: nat, pieces: seq<Piece>): (r: Option<nat>)
    requires pos <= |text|
    ensures r.Some? ==> pos <= r.value <= |text|
    ensures r.Some? && pieces != [] && pieces[|pieces| - 1].Spaces? ==>
      r.value == |text| || !IsWhitespace(text[r.value])
    decreases |pieces|
  {
    if pieces == [] then Some(pos)
    else match pieces[0]
      case Literal(lit) =>
        if LiteralAt(text, pos, lit) then MatchPieces(text, pos + |lit|, pieces[1..]) else None
      case Spaces(atLeastOne) =>
        var next := SkipWhitespace(text, pos);
        if atLeastOne && next == pos then None else MatchPieces(text, next, pieces[1..])
  }

  /** Where the capture starts when the part before `(.*?)` matches at `i`. */
  function OpeningEnd(text: string, i: nat): (c: Option<nat>)
    requires i <= |text|
    ensures c.Some? ==> i <= c.value <= |text|
    ensures c.Some? ==> c.value == |text| || !IsWhitespace(text[c.value])
  {
    MatchPieces(text, i, OPENING)
  }

  /** `\s*<\/p>` matches at `e`: the white space is skipped and the closing tag follows. */
  predicate ClosesAt(text: string, e: nat)
    requires e <= |text|
  {
    TagCloseAt(text, SkipWhitespace(text, e))
  }

  /** `<\/p>` at `i`, the `p` in either case. */
  predicate TagCloseAt(text: string, i: nat) {
    && i + 4 <= |text|
    && text[i] == '<' && text[i + 1] == '/' && LowerChar(text[i + 2]) == 'p' && text[i + 3] == '>'
  }

  /** The closing tag test is the case-insensitive match of the literal `</p>`. */
  lemma TagCloseIsLiteral(text: string, i: nat)
    ensures TagCloseAt(text, i) <==> LiteralAt(text, i, TAG_CLOSE)
  {
    if i + 4 <= |text| {
      var lowered := ToLower(text[i..i + 4]);
      assert ToLower(TAG_CLOSE) == "</p>";
      if TagCloseAt(text, i) {
        assert lowered == "</p>";
      }
      if LiteralAt(text, i, TAG_CLOSE) {
        assert lowered[0] == '<' && lowered[1] == '/' && lowered[2] == 'p' && lowered[3] == '>';
      }
    }
  }

  /** The lazy `(.*?)` from `e`: the first end where the closing part matches, crossing no line terminator. */
  function CaptureEnd(text: string, e: nat): (r: Option<nat>)
    requires e <= |text|
    ensures r.Some? ==> e <= r.value <= |text| && ClosesAt(text, r.value)
    decreases |text| - e
  {
    if ClosesAt(text, e) then Some(e)
    else if e < |text| && !IsLineTerminator(text[e]) then CaptureEnd(text, e + 1)
    else None
  }

  /** The lazy group crosses no line terminator and stops at the first place the closing part matches. */
  lemma {:induction false} CaptureEndFirst(text: string, e: nat)
    requires e <= |text| && CaptureEnd(text, e).Some?
    ensures forall k :: e <= k < CaptureEnd(text, e).value ==> !IsLineTerminator(text[k])
    ensures forall k :: e <= k < CaptureEnd(text, e).value ==> !ClosesAt(text, k)
    decreases |text| - e
  {
    if !ClosesAt(text, e) {
      CaptureEndFirst(text, e + 1);
    }
  }

  /** The capture of a match starting at `i`, if the pattern matches there. */
  function MatchAt(text: string, i: nat): Option<string>
    requires i <= |text|
  {
    match OpeningEnd(text, i)
    case None => None
    case Some(c) =>
      match CaptureEnd(text, c)
      case None => None
      case Some(e) => Some(text[c..e])
  }

  /** For each index `exec` tries, from 0 to the end of the page, whether the pattern matches there. */
  function MatchFlags(text: string): (flags: seq<bool>)
    ensures |flags| == |text| + 1
    ensures forall k :: 0 <= k <= |text| ==> flags[k] == MatchAt(text, k).Some?
  {
    seq(|text| + 1, k requires 0 <= k <= |text| => MatchAt(text, k).Some?)
  }

  /** The first index at or after `i` whose flag is set: the leftmost match. */
  function FirstTrue(flags: seq<bool>, i: nat): (j: Option<nat>)
    ensures j.Some? ==> i <= j.value < |flags| && flags[j.value]
    ensures j.Some? ==> forall k :: i <= k < j.value ==> !flags[k]
    ensures j.None? ==> forall k :: i <= k < |flags| ==> !flags[k]
    decreases |flags| - i
  {
    if i >= |flags| then None
    else if flags[i] then Some(i)
    else FirstTrue(flags, i + 1)
  }

  /** `responseText.match(apiKeyRegex)?.[1]`, then `apiKey || null`: an empty capture is no key. */
  function ExtractApiKey(text: string): Option<string> {
    var j := FirstTrue(MatchFlags(text), 0);
    if j.None? then None
    else
      var key := MatchAt(text, j.value).value;
      if key != "" then Some(key) else None
  }

  /** White space just before a closing tag is part of the closing `\s*`. */
  lemma ClosesAcrossWhitespace(text: string, j: nat)
    requires j < |text|
    ensures IsWhitespace(text[j]) ==> ClosesAt(text, j) == ClosesAt(text, j + 1)
  {
  }

  /** The lazy group stops at the first end where the closing part matches, so it never ends in white space. */
  lemma {:induction false} CaptureEndsSolid(text: string, c: nat, e: nat)
    requires c < e <= |text| && !ClosesAt(text, e - 1) && ClosesAt(text, e)
    ensures !IsWhitespace(text[e - 1])
  {
    ClosesAcrossWhitespace(text, e - 1);
  }

  /**
   * A capture holds no line terminator and has no white space at either
   * end: the leading `\s*` takes all of it, and the lazy group stops before
   * any white space that precedes the closing tag.
   */
  lemma CaptureShape(text: string, c: nat)
    requires c <= |text| && (c == |text| || !IsWhitespace(text[c]))
    requires CaptureEnd(text, c).Some?
    ensures var key := text[c..CaptureEnd(text, c).value];
      && (forall k :: 0 <= k < |key| ==> !IsLineTerminator(key[k]))
      && (key == [] || (!IsWhitespace(key[0]) && !IsWhitespace(key[|key| - 1])))
  {
    var e := CaptureEnd(text, c).value;
    var key := text[c..e];
    CaptureEndFirst(text, c);
    forall k | 0 <= k < |key|
      ensures !IsLineTerminator(key[k])
    {
      assert key[k] == text[c + k];
    }
    if key != [] {
      assert !ClosesAt(text, e - 1);
      CaptureEndsSolid(text, c, e);
      assert key[0] == text[c] && key[|key| - 1] == text[e - 1];
    }
  }

  /** The capture of a match is the slice of the page between the opening part and the closing part. */
  lemma MatchAtShape(text: string, i: nat)
    requires i <= |text| && MatchAt(text, i).Some?
    ensures var key := MatchAt(text, i).value;
      && (forall k :: 0 <= k < |key| ==> !IsLineTerminator(key[k]))
      && (key == [] || (!IsWhitespace(key[0]) && !IsWhitespace(key[|key| - 1])))
      && OccursAt(text, key, OpeningEnd(text, i).value)
      && ClosesAt(text, OpeningEnd(text, i).value + |key|)
      && (forall k :: OpeningEnd(text, i).value <= k < OpeningEnd(text, i).value + |key| ==> !ClosesAt(text, k))
  {
    var c := OpeningEnd(text, i).value;
    CaptureShape(text, c);
    CaptureEndFirst(text, c);
  }

  /** The key `exec` returns is the capture at the leftmost index whose flag is set. */
  lemma ExtractedIsLeftmost(text: string)
    requires ExtractApiKey(text).Some?
    ensures exists i ::
      && 0 <= i <= |text| && MatchAt(text, i) == ExtractApiKey(text)
      && (forall k :: 0 <= k < i ==> MatchAt(text, k).None?)
  {
    var flags := MatchFlags(text);
    var i := FirstTrue(flags, 0).value;
    assert forall k :: 0 <= k < i ==> !flags[k];
  }

  /**
   * `key` is what the pattern captures when its leftmost match starts at
   * `i`: no match starts before `i`, the opening part matched from `i` ends
   * where `key` begins, the closing `\s*</p>` matches right after it, and
   * nowhere inside it (the lazy group stops at the first closing part).
   */
  ghost predicate KeyFramedAt(text: string, key: string, i: int) {
    && 0 <= i <= |text| && OpeningEnd(text, i).Some?
    && (forall k :: 0 <= k < i ==> MatchAt(text, k).None?)
    && OccursAt(text, key, OpeningEnd(text, i).value)
    && ClosesAt(text, OpeningEnd(text, i).value + |key|)
    && (forall k :: OpeningEnd(text, i).value <= k < OpeningEnd(text, i).value + |key| ==> !ClosesAt(text, k))
  }

  /**
   * What the route accepts as a key: non-empty, on one line, trimmed, and
   * the slice of the page between the leftmost opening part that matches
   * and a closing `\s*</p>`.
   */
  lemma ExtractApiKeySpec(text: string)
    requires ExtractApiKey(text).Some?
    ensures var key := ExtractApiKey(text).value;
      && key != ""
      && (forall k :: 0 <= k < |key| ==> !IsLineTerminator(key[k]))
      && Trim(key) == key
      && exists i :: KeyFramedAt(text, key, i)
  {
    ExtractedIsLeftmost(text);
    var i :| 0 <= i <= |text| && MatchAt(text, i) == ExtractApiKey(text)
      && (forall k :: 0 <= k < i ==> MatchAt(text, k).None?);
    var key := ExtractApiKey(text).value;
    MatchAtShape(text, i);
    TrimSolid(key);
    FramedByLeftmostMatch(text, i, key);
  }

  lemma FramedByLeftmostMatch(text: string, i: nat, key: string)
    requires i <= |text| && MatchAt(text, i) == Some(key)
    requires forall k :: 0 <= k < i ==> MatchAt(text, k).None?
    ensures KeyFramedAt(text, key, i)
  {
    MatchAtShape(text, i);
  }

  /**
   * The converse of `ExtractApiKeySpec`: a non-empty one-line key framed at
   * the leftmost match, with no closing part inside it, is what the route
   * extracts. So the framing determines the key.
   */
  lemma FramedKeyIsExtracted(text: string, key: string, i: int)
    requires KeyFramedAt(text, key, i)
    requires key != "" && forall k :: 0 <= k < |key| ==> !IsLineTerminator(key[k])
    ensures ExtractApiKey(text) == Some(key)
  {
    var c := OpeningEnd(text, i).value;
    FramedCapture(text, key, c);
    assert MatchAt(text, i) == Some(key);
    LeftmostMatch(text, i);
  }

  /** A one-line `key` at `c` with the first closing part right after it is what the lazy group captures from `c`. */
  lemma FramedCapture(text: string, key: string, c: nat)
    requires OccursAt(text, key, c) && ClosesAt(text, c + |key|)
    requires forall k :: c <= k < c + |key| ==> !ClosesAt(text, k)
    requires forall k :: 0 <= k < |key| ==> !IsLineTerminator(key[k])
    ensures CaptureEnd(text, c) == Some(c + |key|) && text[c..c + |key|] == key
  {
    forall k | c <= k < c + |key|
      ensures !IsLineTerminator(text[k])
    {
      assert text[k] == key[k - c];
    }
    CaptureRunsTo(text, c, c + |key|);
  }

  /** The paragraph the registration page puts the key in: `<p style="background-color: darkorange;">`. */
  const KEY_PARAGRAPH := TAG_OPEN + " " + STYLE_ATTR + " " + COLOR + TAG_END

  predicate IsAlphanumeric(c: char) {
    ('A' <= c <= 'Z') || ('a' <= c <= 'z') || ('0' <= c <= '9')
  }

  /** The lazy group runs to `end` when nothing before it closes and the closing part matches there. */
  lemma {:induction false} CaptureRunsTo(text: string, e: nat, end: nat)
    requires e <= end <= |text|
    requires forall k :: e <= k < end ==> !IsLineTerminator(text[k])
    requires forall k :: e <= k < end ==> !ClosesAt(text, k)
    requires ClosesAt(text, end)
    ensures CaptureEnd(text, e) == Some(end)
    decreases end - e
  {
    if e < end {
      assert !ClosesAt(text, e) && !IsLineTerminator(text[e]);
      CaptureRunsTo(text, e + 1, end);
      assert CaptureEnd(text, e) == CaptureEnd(text, e + 1);
    } else {
      assert ClosesAt(text, e);
    }
  }

  /** `<p` and the single space after it. */
  lemma KeyParagraphTag(tail: string)
    ensures var text := KEY_PARAGRAPH + tail;
      LiteralAt(text, 0, TAG_OPEN) && SkipWhitespace(text, 2) == 3
  {
    var text := KEY_PARAGRAPH + tail;
    assert KEY_PARAGRAPH == TAG_OPEN + (" " + STYLE_ATTR + " " + COLOR + TAG_END);
    assert text[0..2] == TAG_OPEN;
    assert text[2] == ' ' && text[3] == 's';
  }

  /** The style attribute and the single space after it. */
  lemma KeyParagraphStyle(tail: string)
    ensures var text := KEY_PARAGRAPH + tail;
      LiteralAt(text, 3, STYLE_ATTR) && SkipWhitespace(text, 27) == 28
  {
    var text := KEY_PARAGRAPH + tail;
    assert KEY_PARAGRAPH == (TAG_OPEN + " ") + STYLE_ATTR + (" " + COLOR + TAG_END);
    assert KEY_PARAGRAPH[3..27] == STYLE_ATTR;
    assert text[3..27] == STYLE_ATTR;
    assert text[27] == ' ' && text[28] == 'd';
  }

  /** The colour, with no space after it. */
  lemma KeyParagraphColor(tail: string)
    ensures var text := KEY_PARAGRAPH + tail;
      LiteralAt(text, 28, COLOR) && SkipWhitespace(text, 38) == 38
  {
    var text := KEY_PARAGRAPH + tail;
    assert KEY_PARAGRAPH == (TAG_OPEN + " " + STYLE_ATTR + " ") + COLOR + TAG_END;
    assert KEY_PARAGRAPH[28..38] == COLOR;
    assert text[28..38] == COLOR;
    assert text[38] == ';';
  }

  /** The end of the tag, followed directly by the key. */
  lemma KeyParagraphTagEnd(tail: string)
    requires tail != [] && !IsWhitespace(tail[0])
    ensures var text := KEY_PARAGRAPH + tail;
      LiteralAt(text, 38, TAG_END) && SkipWhitespace(text, 41) == 41
  {
    var text := KEY_PARAGRAPH + tail;
    assert KEY_PARAGRAPH == (TAG_OPEN + " " + STYLE_ATTR + " " + COLOR) + TAG_END;
    assert KEY_PARAGRAPH[38..41] == TAG_END;
    assert text[38..41] == TAG_END;
    assert text[41] == tail[0];
  }

  /** Where each piece of the opening part begins and ends in the key paragraph. */
  lemma KeyParagraphPieces(tail: string)
    requires tail != [] && !IsWhitespace(tail[0])
    ensures var text := KEY_PARAGRAPH + tail;
      && |KEY_PARAGRAPH| == 41
      && LiteralAt(text, 0, TAG_OPEN) && SkipWhitespace(text, 2) == 3
      && LiteralAt(text, 3, STYLE_ATTR) && SkipWhitespace(text, 27) == 28
      && LiteralAt(text, 28, COLOR) && SkipWhitespace(text, 38) == 38
      && LiteralAt(text, 38, TAG_END) && SkipWhitespace(text, 41) == 41
  {
    KeyParagraphTag(tail);
    KeyParagraphStyle(tail);
    KeyParagraphColor(tail);
    KeyParagraphTagEnd(tail);
  }

  /** The opening part matches the key paragraph and ends right after it. */
  lemma OpeningOfKeyParagraph(tail: string)
    requires tail != [] && !IsWhitespace(tail[0])
    ensures OpeningEnd(KEY_PARAGRAPH + tail, 0) == Some(|KEY_PARAGRAPH|)
  {
    var text := KEY_PARAGRAPH + tail;
    KeyParagraphPieces(tail);
    var pieces := OPENING;
    assert MatchPieces(text, 0, pieces) == MatchPieces(text, 2, pieces[1..]);
    pieces := pieces[1..];
    assert MatchPieces(text, 2, pieces) == MatchPieces(text, 3, pieces[1..]);
    pieces := pieces[1..];
    assert MatchPieces(text, 3, pieces) == MatchPieces(text, 27, pieces[1..]);
    pieces := pieces[1..];
    assert MatchPieces(text, 27, pieces) == MatchPieces(text, 28, pieces[1..]);
    pieces := pieces[1..];
    assert MatchPieces(text, 28, pieces) == MatchPieces(text, 38, pieces[1..]);
    pieces := pieces[1..];
    assert MatchPieces(text, 38, pieces) == MatchPieces(text, 38, pieces[1..]);
    pieces := pieces[1..];
    assert MatchPieces(text, 38, pieces) == MatchPieces(text, 41, pieces[1..]);
    pieces := pieces[1..];
    assert MatchPieces(text, 41, pieces) == MatchPieces(text, 41, pieces[1..]);
    assert pieces[1..] == [];
  }

  /** No end inside an alphanumeric key closes the group, and the key crosses no line terminator. */
  lemma KeyDoesNotClose(pre: string, key: string, rest: string)
    requires forall k :: 0 <= k < |key| ==> IsAlphanumeric(key[k])
    ensures var text := pre + key + TAG_CLOSE + rest;
      && (forall k :: |pre| <= k < |pre| + |key| ==> !IsLineTerminator(text[k]))
      && (forall k :: |pre| <= k < |pre| + |key| ==> !ClosesAt(text, k))
  {
    var text := pre + key + TAG_CLOSE + rest;
    forall k | |pre| <= k < |pre| + |key|
      ensures IsAlphanumeric(text[k])
    {
      assert text[k] == key[k - |pre|];
    }
    forall k | |pre| <= k < |pre| + |key|
      ensures !ClosesAt(text, k)
    {
      assert SkipWhitespace(text, k) == k;
    }
  }

  /** Right after the key, the closing tag matches. */
  lemma CloseAfterKey(pre: string, key: string, rest: string)
    ensures ClosesAt(pre + key + TAG_CLOSE + rest, |pre| + |key|)
  {
    var text := pre + key + TAG_CLOSE + rest;
    var end := |pre| + |key|;
    assert text[end..end + 4] == TAG_CLOSE;
    assert text[end] == '<';
    assert SkipWhitespace(text, end) == end;
  }

  /**
   * The page the registration form answers with: an alphanumeric key in
   * the orange paragraph is extracted exactly, whatever follows the
   * paragraph and whatever markup without a tag precedes it.
   */
  lemma ExtractsIssuedKey(pre: string, key: string, rest: string)
    requires '<' !in pre
    requires key != [] && forall k :: 0 <= k < |key| ==> IsAlphanumeric(key[k])
    ensures ExtractApiKey(pre + KEY_PARAGRAPH + key + TAG_CLOSE + rest) == Some(key)
  {
    var page := KEY_PARAGRAPH + key + TAG_CLOSE + rest;
    assert pre + KEY_PARAGRAPH + key + TAG_CLOSE + rest == pre + page;
    KeyMatchesAtStart(key, rest);
    MatchAtShift(pre, page, 0);
    NoMatchInPlainText(pre, page);
    LeftmostMatch(pre + page, |pre|);
  }

  /** No match starts inside markup that holds no `<`. */
  lemma NoMatchInPlainText(pre: string, t: string)
    requires '<' !in pre
    ensures forall j :: 0 <= j < |pre| ==> MatchAt(pre + t, j).None?
  {
    forall j | 0 <= j < |pre|
      ensures MatchAt(pre + t, j).None?
    {
      assert (pre + t)[j] == pre[j];
      NoMatchWithoutTag(pre + t, j);
    }
  }

  /** `exec` returns the capture of the leftmost index where the pattern matches. */
  lemma LeftmostMatch(text: string, p: nat)
    requires p <= |text| && MatchAt(text, p).Some?
    requires forall j :: 0 <= j < p ==> MatchAt(text, j).None?
    ensures var key := MatchAt(text, p).value;
      ExtractApiKey(text) == if key != "" then Some(key) else None
  {
    var flags := MatchFlags(text);
    assert flags[p];
    assert FirstTrue(flags, 0) == Some(p);
  }

  /** `r` moved `d` characters to the right. */
  function ShiftBy(r: Option<nat>, d: nat): (s: Option<nat>)
    ensures r.None? <==> s.None?
    ensures r.Some? ==> s.value == r.value + d
  {
    if r.None? then None else Some(r.value + d)
  }

  /** White space is skipped the same way after a prefix. */
  lemma {:induction false} SkipWhitespaceShift(pre: string, t: string, i: nat)
    requires i <= |t|
    ensures SkipWhitespace(pre + t, |pre| + i) == |pre| + SkipWhitespace(t, i)
    decreases |t| - i
  {
    if i < |t| {
      assert (pre + t)[|pre| + i] == t[i];
      if IsWhitespace(t[i]) {
        SkipWhitespaceShift(pre, t, i + 1);
      }
    }
  }

  /** A literal matches the same way after a prefix. */
  lemma LiteralShift(pre: string, t: string, i: nat, lit: string)
    ensures LiteralAt(pre + t, |pre| + i, lit) == LiteralAt(t, i, lit)
  {
    if i + |lit| <= |t| {
      assert (pre + t)[|pre| + i..|pre| + i + |lit|] == t[i..i + |lit|];
    }
  }

  /** The part before the capture matches the same way after a prefix. */
  lemma {:induction false} MatchPiecesShift(pre: string, t: string, pos: nat, pieces: seq<Piece>)
    requires pos <= |t|
    ensures MatchPieces(pre + t, |pre| + pos, pieces) == ShiftBy(MatchPieces(t, pos, pieces), |pre|)
    decreases |pieces|, 1
  {
    if pieces != [] {
      if pieces[0].Literal? {
        LiteralStepShift(pre, t, pos, pieces);
      } else {
        SpacesStepShift(pre, t, pos, pieces);
      }
    }
  }

  lemma {:induction false} LiteralStepShift(pre: string, t: string, pos: nat, pieces: seq<Piece>)
    requires pos <= |t| && pieces != [] && pieces[0].Literal?
    ensures MatchPieces(pre + t, |pre| + pos, pieces) == ShiftBy(MatchPieces(t, pos, pieces), |pre|)
    decreases |pieces|, 0
  {
    var lit := pieces[0].lit;
    var next := pos + |lit|;
    LiteralShift(pre, t, pos, lit);
    LiteralStep(pre + t, |pre| + pos, pieces, |pre| + next);
    LiteralStep(t, pos, pieces, next);
    if LiteralAt(t, pos, lit) {
      MatchPiecesShift(pre, t, next, pieces[1..]);
    }
  }

  /** A literal piece either matches and the rest follows it from `next`, or the pieces do not match. */
  lemma LiteralStep(text: string, pos: nat, pieces: seq<Piece>, next: nat)
    requires pos <= |text| && pieces != [] && pieces[0].Literal?
    requires next == pos + |pieces[0].lit|
    ensures LiteralAt(text, pos, pieces[0].lit) ==>
      next <= |text| && MatchPieces(text, pos, pieces) == MatchPieces(text, next, pieces[1..])
    ensures !LiteralAt(text, pos, pieces[0].lit) ==> MatchPieces(text, pos, pieces).None?
  {
  }

  lemma {:induction false} SpacesStepShift(pre: string, t: string, pos: nat, pieces: seq<Piece>)
    requires pos <= |t| && pieces != [] && pieces[0].Spaces?
    ensures MatchPieces(pre + t, |pre| + pos, pieces) == ShiftBy(MatchPieces(t, pos, pieces), |pre|)
    decreases |pieces|, 0
  {
    var next := SkipWhitespace(t, pos);
    SkipWhitespaceShift(pre, t, pos);
    MatchPiecesShift(pre, t, next, pieces[1..]);
  }

  /** The closing part matches the same way after a prefix. */
  lemma ClosesShift(pre: string, t: string, e: nat)
    requires e <= |t|
    ensures ClosesAt(pre + t, |pre| + e) == ClosesAt(t, e)
  {
    SkipWhitespaceShift(pre, t, e);
    var i := SkipWhitespace(t, e);
    if i + 4 <= |t| {
      assert (pre + t)[|pre| + i] == t[i] && (pre + t)[|pre| + i + 1] == t[i + 1];
      assert (pre + t)[|pre| + i + 2] == t[i + 2] && (pre + t)[|pre| + i + 3] == t[i + 3];
    }
  }

  /** The lazy group ends at the same place after a prefix. */
  lemma {:induction false} CaptureEndShift(pre: string, t: string, e: nat)
    requires e <= |t|
    ensures CaptureEnd(pre + t, |pre| + e) == ShiftBy(CaptureEnd(t, e), |pre|)
    decreases |t| - e
  {
    ClosesShift(pre, t, e);
    if !ClosesAt(t, e) && e < |t| {
      assert (pre + t)[|pre| + e] == t[e];
      CaptureEndShift(pre, t, e + 1);
    }
  }

  /** The opening part ends at the same place after a prefix. */
  lemma OpeningEndShift(pre: string, t: string, i: nat)
    requires i <= |t|
    ensures OpeningEnd(t, i).None? ==> OpeningEnd(pre + t, |pre| + i).None?
    ensures OpeningEnd(t, i).Some? ==> OpeningEnd(pre + t, |pre| + i) == Some(|pre| + OpeningEnd(t, i).value)
  {
    MatchPiecesShift(pre, t, i, OPENING);
  }

  /** A match is local to the text from where it starts: a prefix does not change it. */
  lemma MatchAtShift(pre: string, t: string, i: nat)
    requires i <= |t|
    ensures MatchAt(pre + t, |pre| + i) == MatchAt(t, i)
  {
    OpeningEndShift(pre, t, i);
    if OpeningEnd(t, i).Some? {
      CaptureShift(pre, t, OpeningEnd(t, i).value);
    }
  }

  /** The capture from `c` is the same after a prefix. */
  lemma CaptureShift(pre: string, t: string, c: nat)
    requires c <= |t|
    ensures CaptureEnd(t, c).None? ==> CaptureEnd(pre + t, |pre| + c).None?
    ensures CaptureEnd(t, c).Some? ==>
      && CaptureEnd(pre + t, |pre| + c) == Some(|pre| + CaptureEnd(t, c).value)
      && (pre + t)[|pre| + c..|pre| + CaptureEnd(t, c).value] == t[c..CaptureEnd(t, c).value]
  {
    CaptureEndShift(pre, t, c);
    if CaptureEnd(t, c).Some? {
      SliceShift(pre, t, c, CaptureEnd(t, c).value);
    }
  }

  lemma SliceShift(pre: string, t: string, c: nat, e: nat)
    requires c <= e <= |t|
    ensures (pre + t)[|pre| + c..|pre| + e] == t[c..e]
  {
  }

  /** The match at the start of the page captures the key. */
  lemma KeyMatchesAtStart(key: string, rest: string)
    requires key != [] && forall k :: 0 <= k < |key| ==> IsAlphanumeric(key[k])
    ensures MatchAt(KEY_PARAGRAPH + key + TAG_CLOSE + rest, 0) == Some(key)
  {
    var text := KEY_PARAGRAPH + key + TAG_CLOSE + rest;
    var c := |KEY_PARAGRAPH|;
    assert text == KEY_PARAGRAPH + (key + TAG_CLOSE + rest);
    assert IsAlphanumeric(key[0]);
    OpeningOfKeyParagraph(key + TAG_CLOSE + rest);
    KeyRunsToClose(KEY_PARAGRAPH, key, rest);
    assert text[c..c + |key|] == key;
  }

  /** After the opening part, the lazy group takes the whole alphanumeric key and stops at the closing tag. */
  lemma KeyRunsToClose(pre: string, key: string, rest: string)
    requires forall k :: 0 <= k < |key| ==> IsAlphanumeric(key[k])
    ensures CaptureEnd(pre + key + TAG_CLOSE + rest, |pre|) == Some(|pre| + |key|)
  {
    KeyDoesNotClose(pre, key, rest);
    CloseAfterKey(pre, key, rest);
    CaptureRunsTo(pre + key + TAG_CLOSE + rest, |pre|, |pre| + |key|);
  }

  /** No match starts at an index that does not hold `<`. */
  lemma NoMatchWithoutTag(text: string, j: nat)
    requires j <= |text| && (j == |text| || text[j] != '<')
    ensures MatchAt(text, j).None?
  {
    assert !LiteralAt(text, j, TAG_OPEN) by {
      if j + |TAG_OPEN| <= |text| {
        assert text[j] != '<' && TAG_OPEN[0] == '<';
        assert LowerChar(text[j + 0]) != LowerChar(TAG_OPEN[0]);
      }
    }
    assert OPENING[0] == Literal(TAG_OPEN);
  }

  /** A page without any `<` holds no paragraph, so no key. */
  lemma NoTagNoKey(text: string)
    requires '<' !in text
    ensures ExtractApiKey(text).None?
  {
    forall j | 0 <= j <= |text|
      ensures !MatchFlags(text)[j]
    {
      NoMatchWithoutTag(text, j);
    }
  }

  // ---------------------------------------------------------------------
  // POST
  // ---------------------------------------------------------------------

  /**
   * `POST`: one registration request whose body is `username=` and 14
   * random letters, then `{apiKey}` when the page yields one, 500 when it
   * does not or the request failed (`page` is `None`).
   */
  method HandlePost(draws: seq<real>, page: Option<string>) returns (resp: KeyResponse, body: string)
    requires |draws| == USERNAME_LENGTH
    ensures body == RegistrationBody(RandomLetters(draws))
    ensures ValidDraws(draws) ==> |body| == 9 + USERNAME_LENGTH
    ensures page.None? ==> resp == FETCH_FAILED
    ensures page.Some? ==> match ExtractApiKey(page.value)
      case None => resp == FETCH_FAILED
      case Some(key) => resp == Issued(key)
  {
    var username := GenerateRandomLetters(USERNAME_LENGTH, draws);
    if ValidDraws(draws) {
      RandomLettersSpec(draws);
    }
    body := RegistrationBody(username);
    var apiKey := if page.Some? then ExtractApiKey(page.value) else None;
    if apiKey.None? {
      return FETCH_FAILED, body;
    }
    resp := Issued(apiKey.value);
  }
}
