/** Filename templates whose rendered text may start like a drive: seven items decide about all of them. */
module RssDrives {
  import opened Common
  import opened Text
  import opened RssTemplates
  import opened RssFilenames

  /** What a template shows of a token. */
  function Shown(parseTitle: string -> ParsedTitle, item: FeedItem, token: string): string {
    Sanitized(TokenValue(parseTitle, item, token))
  }

  /** An item of which only one token shows, as "S"; nothing is left of the others when they are sanitized. */
  function OnlyShows(token: string): FeedItem {
    FeedItem(if token == "title" then "S" else "",
             ParsedTitle(if token == "anime_title" then "S" else "?", if token == "season" then "S" else "?",
                         if token == "episode" then "S" else "?", if token == "subtitle_group" then "S" else "?",
                         if token == "resolution" then "S" else "?"))
  }

  /** The item without any value, and those with one. */
  function Sample(token: Option<string>): FeedItem {
    match token
    case None => EMPTY_ITEM
    case Some(name) => OnlyShows(name)
  }

  lemma OneTokenShows(parseTitle: string -> ParsedTitle, token: string, other: string)
    requires token in ALLOWED_TOKENS && other in ALLOWED_TOKENS
    ensures Shown(parseTitle, OnlyShows(token), other) == if other == token then "S" else ""
  {
    SeasonIsS();
    QuestionMarkIsNothing();
    ShortTrims();
    hide Sanitized, TrimSpace;
  }

  lemma ShortTrims()
    ensures TrimSpace("") == "" && TrimSpace("S") == "S" && TrimSpace("?") == "?"
  {
  }

  lemma QuestionMarkIsNothing()
    ensures Sanitized("?") == ""
  {
    ShortTrims();
    assert Blanked("?") == " ";
    assert TrimLeftSpace(" ") == TrimLeftSpace(" "[1..]) == "";
    assert Fields(" ") == [];
    assert JoinWith([], " ") == "";
  }

  /** Nothing shows of `less` that does not show of `item`. */
  ghost predicate ShowsLess(parseTitle: string -> ParsedTitle, less: FeedItem, item: FeedItem) {
    forall token | token in ALLOWED_TOKENS ::
      Shown(parseTitle, less, token) != "" ==> Shown(parseTitle, item, token) != ""
  }

  lemma SampleShowsLess(parseTitle: string -> ParsedTitle, token: Option<string>, item: FeedItem)
    requires token.Some? ==> token.value in ALLOWED_TOKENS && Shown(parseTitle, item, token.value) != ""
    ensures ShowsLess(parseTitle, Sample(token), item)
  {
    forall other | other in ALLOWED_TOKENS && Shown(parseTitle, Sample(token), other) != ""
      ensures Shown(parseTitle, item, other) != ""
    {
      EmptyValues(parseTitle, other);
      if token.Some? { OneTokenShows(parseTitle, token.value, other); }
    }
  }

  /** A rendered text that starts with a colon does so when less shows. */
  lemma {:induction false} ColonStaysFirst(parseTitle: string -> ParsedTitle, t: string, item: FeedItem, less: FeedItem)
    requires PlaceholdersOk(t) && ShowsLess(parseTitle, less, item)
    requires RenderTemplate(parseTitle, t, item) != "" && RenderTemplate(parseTitle, t, item)[0] == ':'
    ensures RenderTemplate(parseTitle, t, less) != "" && RenderTemplate(parseTitle, t, less)[0] == ':'
    decreases |t|
  {
    hide Sanitized, TokenValue, CleanText;
    if t[0] == '{' {
      var end := IndexOf(t[1..], '}').value;
      var token, rest := t[1..][..end], t[end + 2..];
      SanitizedIsClean(TokenValue(parseTitle, item, token));
      CleanHasNoColon(Shown(parseTitle, item, token));
      assert Shown(parseTitle, item, token) == "";
      assert "" + RenderTemplate(parseTitle, rest, item) == RenderTemplate(parseTitle, rest, item);
      assert Shown(parseTitle, less, token) == "";
      assert "" + RenderTemplate(parseTitle, rest, less) == RenderTemplate(parseTitle, rest, less);
      ColonStaysFirst(parseTitle, rest, item, less);
    }
  }

  predicate IsLetter(c: char) {
    'A' <= c <= 'Z' || 'a' <= c <= 'z'
  }

  /** A letter and a colon behind the leading white space. */
  predicate StartsLikeDrive(s: string) {
    var u := TrimLeftSpace(s);
    |u| >= 2 && IsLetter(u[0]) && u[1] == ':'
  }

  lemma DriveIsAtTheStart(s: string)
    ensures HasDrivePrefix(s) <==> StartsLikeDrive(s)
  {
    var u := TrimLeftSpace(s);
    var v := TrimRightSpace(u);
    TrimRightSpaceShape(u);
    assert TrimSpace(s) == v && !IsSpace(':');
    hide TrimLeftSpace, TrimRightSpace, IsSpace, TrimSpace;
    assert forall i | |v| <= i < |u| :: u[i] == u[|v|..][i - |v|] && IsSpace(u[i]);
  }

  /** If the rendered text starts like a drive, it does so for the item without values or for one of which a single
      token shows. */
  lemma {:induction false} SomeSampleDrives(parseTitle: string -> ParsedTitle, t: string, item: FeedItem)
    returns (token: Option<string>)
    requires PlaceholdersOk(t) && StartsLikeDrive(RenderTemplate(parseTitle, t, item))
    ensures token.Some? ==> token.value in ALLOWED_TOKENS && Shown(parseTitle, item, token.value) != ""
    ensures StartsLikeDrive(RenderTemplate(parseTitle, t, Sample(token)))
    decreases |t|
  {
    hide Sanitized, TokenValue, OnlyShows, CleanText;
    if t[0] == '{' {
      var end := IndexOf(t[1..], '}').value;
      var name, rest := t[1..][..end], t[end + 2..];
      var value, text := Shown(parseTitle, item, name), RenderTemplate(parseTitle, rest, item);
      assert RenderTemplate(parseTitle, t, item) == value + text;
      if value == "" {
        assert value + text == text;
        token := SomeSampleDrives(parseTitle, rest, item);
        SampleShowsLess(parseTitle, token, item);
        assert Shown(parseTitle, Sample(token), name) == "";
        var other := RenderTemplate(parseTitle, rest, Sample(token));
        assert "" + other == other;
      } else {
        token := Some(name);
        SanitizedIsClean(TokenValue(parseTitle, item, name));
        ValueDrives(value, text);
        SampleShowsLess(parseTitle, token, item);
        ColonStaysFirst(parseTitle, rest, item, Sample(token));
        OneTokenShows(parseTitle, name, name);
        LetterDrives('S', RenderTemplate(parseTitle, rest, Sample(token)));
        assert "S" == ['S'];
      }
    } else {
      var rest := RenderTemplate(parseTitle, t[1..], item);
      assert ([t[0]] + rest)[1..] == rest;
      if IsSpace(t[0]) {
        token := SomeSampleDrives(parseTitle, t[1..], item);
        var other := RenderTemplate(parseTitle, t[1..], Sample(token));
        assert ([t[0]] + other)[1..] == other;
      } else {
        token := None;
        SampleShowsLess(parseTitle, None, item);
        ColonStaysFirst(parseTitle, t[1..], item, EMPTY_ITEM);
        LetterDrives(t[0], RenderTemplate(parseTitle, t[1..], EMPTY_ITEM));
      }
    }
  }

  /** A value at the start of a drive is its letter. */
  lemma ValueDrives(value: string, text: string)
    requires value != "" && CleanText(value) && StartsLikeDrive(value + text)
    ensures text != "" && text[0] == ':'
  {
    CleanTextIsOrdinary(value);
    CleanHasNoColon(value);
    assert (value + text)[0] == value[0];
    assert TrimLeftSpace(value + text) == value + text;
    assert forall i | 0 <= i < |value| :: (value + text)[i] == value[i] && value[i] in value;
  }

  lemma LetterDrives(c: char, text: string)
    requires IsLetter(c) && text != "" && text[0] == ':'
    ensures StartsLikeDrive([c] + text)
  {
    assert ([c] + text)[0] == c && ([c] + text)[1] == ':' && !IsSpace(c);
  }

  /** An accepted filename template renders for every item exactly when it does so for the item without values and for
      the six items of which one token shows. */
  lemma SevenItemsDecide(parseTitle: string -> ParsedTitle, template: string)
    requires FilenameTemplateValid(parseTitle, template) && TrimSpace(template) != ""
    ensures (forall item :: RenderFilename(parseTitle, template, item).Ok?)
            <==> && RenderFilename(parseTitle, template, EMPTY_ITEM).Ok?
                 && forall token | token in ALLOWED_TOKENS ::
                      RenderFilename(parseTitle, template, OnlyShows(token)).Ok?
  {
    hide Sanitized, RenderTemplate, HasDotDot, HasDrivePrefix, TrimSpace, RenderFilename, FilenameTemplateValid,
         OnlyShows, StartsLikeDrive;
    var trimmed := TrimSpace(template);
    ValidShape(parseTitle, template);
    forall item | RenderFilename(parseTitle, template, item).Err?
      ensures exists token: Option<string> ::
                && (token.Some? ==> token.value in ALLOWED_TOKENS)
                && RenderFilename(parseTitle, template, Sample(token)).Err?
    {
      FilenameFailsExactly(parseTitle, template, item);
      var name := RenderTemplate(parseTitle, trimmed, item);
      var token: Option<string> := None;
      if HasDotDot(name) {
        DotsComeFromTheTemplate(parseTitle, trimmed, item);
      } else {
        DriveIsAtTheStart(name);
        token := SomeSampleDrives(parseTitle, trimmed, item);
        DriveIsAtTheStart(RenderTemplate(parseTitle, trimmed, Sample(token)));
      }
      FilenameFailsExactly(parseTitle, template, Sample(token));
    }
  }
}
