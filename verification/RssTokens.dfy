/** What a template shows, token by token, and which texts the sanitizer leaves alone, character by character. */
module RssTokens {
  import opened Common
  import opened Text
  import opened Paths
  import opened RssTemplates
  import opened RssFilenames

  // ---- Segments -------------------------------------------------------------------------------

  /** A character a segment may not hold: a slash, a character some file system forbids, or a control character. */
  predicate Banned(c: char) {
    || c == '/' || c == '\\' || c == '<' || c == '>' || c == ':' || c == '"' || c == '|' || c == '?' || c == '*'
    || c <= '\U{1F}' || '\U{7F}' <= c <= '\U{9F}'
  }

  /** A segment is left alone exactly if it holds no banned character, no white space but single blanks, no two dots
      in a row, and neither starts nor ends with a blank or a dot. */
  lemma SegmentLeftAloneIff(s: string)
    ensures Sanitized(s) == s <==>
              && (forall c | c in s :: !Banned(c) && (IsSpace(c) ==> c == ' '))
              && (forall i | 0 <= i < |s| - 1 :: !(s[i] == ' ' && s[i + 1] == ' ') && !(s[i] == '.' && s[i + 1] == '.'))
              && (s != "" ==> s[0] != ' ' && s[0] != '.' && s[|s| - 1] != ' ' && s[|s| - 1] != '.')
  {
    SanitizeIsIdempotent(s);
    forall c ensures Banned(c) <==> IsForbidden(c) {
    }
    hide Sanitized, Banned, IsForbidden, IsSpace;
    assert (forall c | c in s :: !Banned(c) && (IsSpace(c) ==> c == ' ')) <==>
           (forall i | 0 <= i < |s| :: !IsForbidden(s[i]) && (IsSpace(s[i]) ==> s[i] == ' ')) by {
      assert forall i | 0 <= i < |s| :: s[i] in s;
    }
  }

  // ---- Tokens ---------------------------------------------------------------------------------

  /** What was parsed from the title before, or, if that is nothing, what is parsed from it now. */
  function Seen(parseTitle: string -> ParsedTitle, item: FeedItem): ParsedTitle {
    var p := item.parsed;
    if p.animeTitle == "" && p.season == "" && p.episode == "" && p.subtitleGroup == "" && p.resolution == ""
       && TrimSpace(item.title) != "" then parseTitle(item.title) else p
  }

  /** A placeholder is accepted if it names one of six values, and shows that value, sanitized; the series shows the
      title if its name is blank. */
  lemma PlaceholderShows(parseTitle: string -> ParsedTitle, token: string, rest: string, item: FeedItem)
    requires '}' !in token && PlaceholdersOk(rest)
    ensures
      var t := "{" + token + "}" + rest;
      && (PlaceholdersOk(t) <==> token in {"anime_title", "season", "episode", "subtitle_group", "resolution", "title"})
      && (PlaceholdersOk(t) ==>
            exists value ::
              && RenderTemplate(parseTitle, t, item) == Sanitized(value) + RenderTemplate(parseTitle, rest, item)
              && IsValueOf(parseTitle, item, token, value))
  {
    var t := "{" + token + "}" + rest;
    assert t[1..][..|token|] == token && t[1..][|token|] == '}' && t[|token| + 2..] == rest;
    FirstIndex(t[1..], '}', |token|);
    hide Sanitized, TokenValue;
    if PlaceholdersOk(t) {
      ValueOfToken(parseTitle, item, token);
      assert RenderTemplate(parseTitle, t, item)
             == Sanitized(TokenValue(parseTitle, item, token)) + RenderTemplate(parseTitle, rest, item);
    }
  }

  predicate IsValueOf(parseTitle: string -> ParsedTitle, item: FeedItem, token: string, value: string) {
    var seen := Seen(parseTitle, item);
    && (token == "anime_title" ==>
          value == if TrimSpace(seen.animeTitle) != "" then TrimSpace(seen.animeTitle) else TrimSpace(item.title))
    && (token == "season" ==> value == seen.season) && (token == "episode" ==> value == seen.episode)
    && (token == "subtitle_group" ==> value == seen.subtitleGroup)
    && (token == "resolution" ==> value == seen.resolution) && (token == "title" ==> value == item.title)
  }

  lemma ValueOfToken(parseTitle: string -> ParsedTitle, item: FeedItem, token: string)
    ensures IsValueOf(parseTitle, item, token, TokenValue(parseTitle, item, token))
  {
    hide TrimSpace;
  }

  /** Outside placeholders a template shows itself; a brace that opens none or closes none is refused. */
  lemma TextShowsItself(parseTitle: string -> ParsedTitle, c: char, rest: string, item: FeedItem)
    ensures c != '{' && c != '}' ==>
              && (PlaceholdersOk([c] + rest) <==> PlaceholdersOk(rest))
              && (PlaceholdersOk(rest) ==>
                    RenderTemplate(parseTitle, [c] + rest, item) == [c] + RenderTemplate(parseTitle, rest, item))
    ensures c == '}' ==> !PlaceholdersOk([c] + rest)
    ensures c == '{' && '}' !in rest ==> !PlaceholdersOk([c] + rest)
  {
    assert ([c] + rest)[1..] == rest;
    if c == '{' && '}' !in rest { assert IndexOf(rest, '}').None?; }
  }

  // ---- Directory templates --------------------------------------------------------------------

  /** A directory template is accepted exactly if it is blank, or is relative, without backslash, "..", drive or broken
      placeholder, and shows no ".." for the item without any value. */
  lemma DirectoryTemplateAcceptedIff(parseTitle: string -> ParsedTitle, template: string)
    ensures
      var t := TrimSpace(template);
      DirectoryTemplateValid(parseTitle, template) <==>
      t == "" || (&& '\\' !in t && t[0] != '/' && !HasDotDot(t) && PlaceholdersOk(t)
                  && !(|t| >= 2 && t[1] == ':' && ('A' <= t[0] <= 'Z' || 'a' <= t[0] <= 'z'))
                  && !HasDotDot(RenderTemplate(parseTitle, t, EMPTY_ITEM)))
  {
    var t := TrimSpace(template);
    TrimIsIdempotent(template);
    assert t != "" ==> (HasPrefix(t, "/") <==> t[0] == '/');
    if PlaceholdersOk(t) && '\\' !in t {
      DotsComeFromTheTemplate(parseTitle, t, EMPTY_ITEM);
      var shown := RenderTemplate(parseTitle, t, EMPTY_ITEM);
      RelativeIffDotless(shown);
    }
    hide TrimSpace, HasDotDot, RenderTemplate, RelativeSegments;
  }

  lemma RelativeIffDotless(raw: string)
    requires '\\' !in raw
    ensures RelativeSegments(raw).Ok? <==> !HasDotDot(raw)
  {
    TrimKeepsDots(raw);
    hide Sanitized;
  }

  // ---- Rendered directories and names ---------------------------------------------------------

  lemma {:induction false} SplitOfJoined(pieces: seq<string>)
    requires pieces != [] && forall p | p in pieces :: '/' !in p
    ensures Split(JoinWith(pieces, "/")) == pieces
    decreases |pieces|
  {
    SplitOfSegment(pieces[0]);
    if |pieces| > 1 {
      SplitOfJoined(pieces[1..]);
      SplitOfJoin(pieces[0], JoinWith(pieces[1..], "/"));
      assert pieces == [pieces[0]] + pieces[1..];
    } else {
      assert pieces == [pieces[0]];
    }
  }

  lemma {:induction false} PiecesKept(pieces: seq<string>)
    requires forall p | p in pieces :: Sanitized(p) != ""
    ensures |SanitizedSegments(pieces)| == |pieces|
    ensures forall i | 0 <= i < |pieces| :: SanitizedSegments(pieces)[i] == Sanitized(pieces[i])
  {
    hide Sanitized;
    if pieces != [] { PiecesKept(pieces[1..]); }
  }

  lemma {:induction false} BlankPieceDropped(before: seq<string>, blank: string, after: seq<string>)
    requires Sanitized(blank) == ""
    ensures SanitizedSegments(before + [blank] + after) == SanitizedSegments(before + after)
  {
    hide Sanitized;
    if before == [] {
      assert before + [blank] + after == [blank] + after && before + after == after;
      assert ([blank] + after)[1..] == after;
    } else {
      BlankPieceDropped(before[1..], blank, after);
      assert (before + [blank] + after)[1..] == before[1..] + [blank] + after
             && (before + after)[1..] == before[1..] + after;
    }
  }

  /** The segments of a rendered directory are its pieces between slashes, sanitized, if something is left of each; a
      piece of which nothing is left might as well not be there. */
  lemma DirectoryByPieces(raw: string, pieces: seq<string>)
    requires pieces != [] && (forall p | p in pieces :: '/' !in p) && TrimSpace(raw) == JoinWith(pieces, "/")
    requires TrimSpace(raw) != "" && '\\' !in TrimSpace(raw) && !HasDotDot(TrimSpace(raw))
    ensures RelativeSegments(raw).Ok?
    ensures (forall p | p in pieces :: Sanitized(p) != "") ==>
              && |RelativeSegments(raw).value| == |pieces|
              && forall i | 0 <= i < |pieces| :: RelativeSegments(raw).value[i] == Sanitized(pieces[i])
    ensures forall before, blank, after | pieces == before + [blank] + after && Sanitized(blank) == "" ::
              RelativeSegments(raw).value == SanitizedSegments(before + after)
  {
    SplitOfJoined(pieces);
    hide Sanitized, HasDotDot, TrimSpace, Split, JoinWith;
    assert RelativeSegments(raw) == Ok(SanitizedSegments(pieces));
    hide RelativeSegments, SanitizedSegments;
    if forall p | p in pieces :: Sanitized(p) != "" { PiecesKept(pieces); }
    forall before, blank, after | pieces == before + [blank] + after && Sanitized(blank) == ""
      ensures SanitizedSegments(pieces) == SanitizedSegments(before + after)
    {
      BlankPieceDropped(before, blank, after);
    }
  }

  /** A rendered file name is the sanitized text if that has at most 240 characters, else its first 240, trimmed. */
  lemma FilenameIs(parseTitle: string -> ParsedTitle, template: string, item: FeedItem)
    requires RenderFilename(parseTitle, template, item).Ok? && TrimSpace(template) != ""
    ensures PlaceholdersOk(TrimSpace(template))
    ensures
      var name := RenderFilename(parseTitle, template, item).value;
      var text := TrimSpace(RenderTemplate(parseTitle, TrimSpace(template), item));
      if text == "" then name == ""
      else if |Sanitized(text)| <= 240 then name == Sanitized(text)
      else name == TrimSpace(Sanitized(text)[..240])
  {
    TrimIsIdempotent(template);
    var text := TrimSpace(RenderTemplate(parseTitle, TrimSpace(template), item));
    SanitizedIsClean(text);
    CleanIsTrimmed(Sanitized(text));
    hide Sanitized, TrimSpace, RenderTemplate, CleanText, HasDotDot, ValidName, HasDrivePrefix;
  }

  lemma CleanIsTrimmed(s: string)
    requires CleanText(s)
    ensures TrimSpace(s) == s
  {
    assert TrimLeftSpace(s) == s;
    assert TrimRightSpace(s) == s;
  }
}
