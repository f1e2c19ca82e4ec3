/** Filename templates: tried on the empty item, rendered for every item, and when the two differ. */
module RssFilenames {
  import opened Common
  import opened Text
  import opened Paths
  import opened RssTemplates

  const MAX_TARGET_FILENAME_RUNES := 240

  /** `truncateTaskFilename`. */
  function Truncated(filename: string): string {
    var runes := TrimSpace(filename);
    if |runes| <= MAX_TARGET_FILENAME_RUNES then runes else TrimSpace(runes[..MAX_TARGET_FILENAME_RUNES])
  }

  /** `normalizeTaskTargetFilename`. */
  function TargetFilename(input: string): Result<string> {
    var trimmed := TrimSpace(input);
    if trimmed == "" then Ok("")
    else if '/' in trimmed || '\\' in trimmed || HasDotDot(trimmed) || HasDrivePrefix(trimmed) then Err(FileNameInvalid)
    else
      var cleaned := Sanitized(trimmed);
      if cleaned == "" || HasDotDot(cleaned) || !ValidName(cleaned) then Err(FileNameInvalid)
      else Ok(Truncated(cleaned))
  }

  /** `validateRSSFilenameTemplate`: unlike the renderer, it sanitizes before it looks for "..". */
  predicate FilenameTemplateValid(parseTitle: string -> ParsedTitle, template: string) {
    var trimmed := TrimSpace(template);
    trimmed == ""
    || (&& '\\' !in trimmed && '/' !in trimmed && !HasDotDot(trimmed) && !HasDrivePrefix(trimmed)
        && PlaceholdersOk(trimmed)
        && var rendered := RenderTemplate(parseTitle, trimmed, EMPTY_ITEM);
           TrimSpace(rendered) == "" || (Sanitized(rendered) != "" && !HasDotDot(Sanitized(rendered))))
  }

  /** `renderRSSFilenameTemplate`. */
  function RenderFilename(parseTitle: string -> ParsedTitle, template: string, item: FeedItem): Result<string> {
    var trimmed := TrimSpace(template);
    if trimmed == "" then Ok("")
    else if !FilenameTemplateValid(parseTitle, trimmed) then Err(PathInvalid)
    else
      TrimIsIdempotent(template);
      match TargetFilename(RenderTemplate(parseTitle, trimmed, item))
      case Err(_) => Err(PathInvalid)
      case Ok(name) => Ok(name)
  }

  // ---- Trimming and sanitizing keep what matters ----------------------------------------------

  /** A character no sanitizer touches. */
  predicate IsOrdinary(c: char) {
    !IsForbidden(c) && !IsSpace(c) && c != '.'
  }

  lemma InTail(c: char, s: string)
    requires c in s && s[0] != c
    ensures c in s[1..]
  {
    var i :| 0 <= i < |s| && s[i] == c;
    assert s[1..][i - 1] == c;
  }

  lemma InInit(c: char, s: string)
    requires c in s && s[|s| - 1] != c
    ensures c in s[..|s| - 1]
  {
    var i :| 0 <= i < |s| && s[i] == c;
    assert s[..|s| - 1][i] == c;
  }

  lemma {:induction false} TrimLeftKeeps(c: char, s: string)
    requires IsOrdinary(c) && c in s
    ensures c in TrimLeftSpace(s) && c in TrimLeftSpaceDot(s)
  {
    if IsSpace(s[0]) || s[0] == '.' {
      InTail(c, s);
      TrimLeftKeeps(c, s[1..]);
    }
  }

  lemma {:induction false} TrimRightKeeps(c: char, s: string)
    requires IsOrdinary(c) && c in s
    ensures c in TrimRightSpace(s) && c in TrimRightSpaceDot(s)
  {
    if IsSpace(s[|s| - 1]) || s[|s| - 1] == '.' {
      InInit(c, s);
      TrimRightKeeps(c, s[..|s| - 1]);
    }
  }

  lemma {:induction false} SingleDotsKeeps(c: char, s: string)
    requires IsOrdinary(c) && c in s
    ensures c in SingleDots(s)
  {
    if s[0] != c {
      InTail(c, s);
      SingleDotsKeeps(c, s[1..]);
    }
  }

  lemma {:induction false} FieldsKeep(c: char, s: string)
    requires IsOrdinary(c) && c in s
    ensures c in JoinWith(Fields(s), " ")
    decreases |s|
  {
    TrimLeftKeeps(c, s);
    TrimLeftSpaceShape(s);
    var t := TrimLeftSpace(s);
    var n := WordLength(t);
    assert n > 0 && t == t[..n] + t[n..];
    var words := [t[..n]] + Fields(t[n..]);
    assert Fields(s) == words && words[1..] == Fields(t[n..]);
    if c !in t[..n] { FieldsKeep(c, t[n..]); }
  }

  lemma OrdinarySurvives(c: char, s: string)
    requires IsOrdinary(c) && c in s
    ensures c in Sanitized(s)
  {
    TrimLeftKeeps(c, s);
    TrimRightKeeps(c, TrimLeftSpace(s));
    var trimmed := TrimSpace(s);
    var i :| 0 <= i < |trimmed| && trimmed[i] == c;
    assert Blanked(trimmed)[i] == c;
    FieldsKeep(c, Blanked(trimmed));
    var joined := JoinWith(Fields(Blanked(trimmed)), " ");
    TrimLeftKeeps(c, joined);
    TrimRightKeeps(c, TrimLeftSpaceDot(joined));
    SingleDotsKeeps(c, TrimSpaceDot(joined));
    TrimLeftKeeps(c, SingleDots(TrimSpaceDot(joined)));
    TrimRightKeeps(c, TrimLeftSpaceDot(SingleDots(TrimSpaceDot(joined))));
  }

  /** Clean text starts with an ordinary character. */
  lemma CleanTextIsOrdinary(s: string)
    requires CleanText(s) && s != ""
    ensures IsOrdinary(s[0])
  {
  }

  // ---- Rendering ------------------------------------------------------------------------------

  /** A rendered template is that of the empty item, or some value put an ordinary character into it; slashes and
      colons come from the template alone. */
  lemma {:induction false} RenderedCharacters(parseTitle: string -> ParsedTitle, t: string, item: FeedItem)
    requires PlaceholdersOk(t)
    ensures
      var some := RenderTemplate(parseTitle, t, item);
      && (some == RenderTemplate(parseTitle, t, EMPTY_ITEM) || exists c | c in some :: IsOrdinary(c))
      && ('/' in some ==> '/' in t) && (':' in some ==> ':' in t)
    decreases |t|
  {
    hide Sanitized, TokenValue, CleanText, IsOrdinary, IsForbidden;
    if t != "" {
      if t[0] == '{' {
        var end := IndexOf(t[1..], '}').value;
        var raw := TokenValue(parseTitle, item, t[1..][..end]);
        var value, rest := Sanitized(raw), RenderTemplate(parseTitle, t[end + 2..], item);
        RenderedCharacters(parseTitle, t[end + 2..], item);
        SanitizedIsClean(raw);
        CleanHasNoColon(value);
        EmptyValues(parseTitle, t[1..][..end]);
        var none := RenderTemplate(parseTitle, t[end + 2..], EMPTY_ITEM);
        assert "" + none == none && "" + rest == rest;
        if value != "" {
          CleanTextIsOrdinary(value);
          assert value[0] in value + rest;
        }
      } else {
        RenderedCharacters(parseTitle, t[1..], item);
      }
    }
  }

  lemma CleanHasNoColon(s: string)
    requires CleanText(s)
    ensures ':' !in s
  {
    assert IsForbidden(':');
  }

  /** Blank, or sanitized to something: the same on the trimmed text. */
  lemma NameLeft(parseTitle: string -> ParsedTitle, template: string, item: FeedItem)
    requires FilenameTemplateValid(parseTitle, template) && TrimSpace(template) != ""
    ensures
      var name := RenderTemplate(parseTitle, TrimSpace(template), item);
      TrimSpace(name) == "" || Sanitized(TrimSpace(name)) != ""
  {
    hide IsOrdinary;
    var trimmed := TrimSpace(template);
    var name := RenderTemplate(parseTitle, trimmed, item);
    RenderedCharacters(parseTitle, trimmed, item);
    TrimIsIdempotent(name);
    assert Sanitized(TrimSpace(name)) == Sanitized(name);
    if name != RenderTemplate(parseTitle, trimmed, EMPTY_ITEM) {
      var c :| c in name && IsOrdinary(c);
      OrdinarySurvives(c, name);
    }
  }

  // ---- What validation promises ---------------------------------------------------------------

  lemma TrimAddsNothing(s: string)
    ensures forall c | c in TrimSpace(s) :: c in s
  {
    TrimLeftSpaceShape(s);
    TrimRightSpaceShape(TrimLeftSpace(s));
  }

  /** A name without slashes that sanitizing leaves something of is refused for ".." or a drive only. */
  lemma TargetFilenameFailsExactly(name: string)
    requires '/' !in name && '\\' !in name
    requires TrimSpace(name) == "" || Sanitized(TrimSpace(name)) != ""
    ensures TargetFilename(name).Err? <==> HasDotDot(name) || HasDrivePrefix(name)
  {
    TrimIsIdempotent(name);
    TrimKeepsDots(name);
    TrimAddsNothing(name);
    SanitizedIsClean(TrimSpace(name));
    assert !HasDotDot("") && !HasDrivePrefix("");
    if TrimSpace(name) != "" { CleanTextIsSegment(Sanitized(TrimSpace(name))); }
    hide Sanitized, TrimSpace, HasDotDot, CleanText;
  }

  /** An accepted template fails for an item exactly when the rendered text holds ".." or starts like a drive. */
  lemma FilenameFailsExactly(parseTitle: string -> ParsedTitle, template: string, item: FeedItem)
    requires FilenameTemplateValid(parseTitle, template) && TrimSpace(template) != ""
    ensures
      var name := RenderTemplate(parseTitle, TrimSpace(template), item);
      RenderFilename(parseTitle, template, item).Err? <==> HasDotDot(name) || HasDrivePrefix(name)
  {
    hide Sanitized, RenderTemplate, HasDotDot, HasDrivePrefix, TrimSpace, TargetFilename;
    TrimIsIdempotent(template);
    NameLeft(parseTitle, template, item);
    var trimmed := TrimSpace(template);
    DotsComeFromTheTemplate(parseTitle, trimmed, item);
    RenderedCharacters(parseTitle, trimmed, item);
    TargetFilenameFailsExactly(RenderTemplate(parseTitle, trimmed, item));
  }

  lemma DriveNeedsColon(name: string)
    requires HasDrivePrefix(name)
    ensures ':' in name
  {
    TrimAddsNothing(name);
  }

  /** Without a colon in it, an accepted template renders for every item exactly when, with every placeholder empty,
      no two dots meet. */
  lemma OneItemIsEnoughWithoutColon(parseTitle: string -> ParsedTitle, template: string)
    requires FilenameTemplateValid(parseTitle, template) && TrimSpace(template) != "" && ':' !in template
    ensures (forall item :: RenderFilename(parseTitle, template, item).Ok?)
            <==> !HasDotDot(RenderTemplate(parseTitle, TrimSpace(template), EMPTY_ITEM))
  {
    hide Sanitized, RenderTemplate, HasDotDot, HasDrivePrefix, TrimSpace, RenderFilename, FilenameTemplateValid;
    var trimmed := TrimSpace(template);
    TrimAddsNothing(template);
    forall item
      ensures PlaceholdersOk(trimmed)
      ensures HasDotDot(RenderTemplate(parseTitle, trimmed, EMPTY_ITEM))
              || RenderFilename(parseTitle, template, item).Ok?
    {
      ValidShape(parseTitle, template);
      FilenameFailsExactly(parseTitle, template, item);
      DotsComeFromTheTemplate(parseTitle, trimmed, item);
      RenderedCharacters(parseTitle, trimmed, item);
      if HasDrivePrefix(RenderTemplate(parseTitle, trimmed, item)) {
        DriveNeedsColon(RenderTemplate(parseTitle, trimmed, item));
      }
    }
    FilenameFailsExactly(parseTitle, template, EMPTY_ITEM);
  }

  lemma ValidShape(parseTitle: string -> ParsedTitle, template: string)
    requires FilenameTemplateValid(parseTitle, template) && TrimSpace(template) != ""
    ensures PlaceholdersOk(TrimSpace(template)) && '\\' !in TrimSpace(template)
  {
  }

  lemma TruncatedIsPrefix(s: string)
    requires CleanText(s) && s != ""
    ensures Truncated(s) <= s && 0 < |Truncated(s)| <= MAX_TARGET_FILENAME_RUNES
  {
    var cut := if |s| <= MAX_TARGET_FILENAME_RUNES then s else s[..MAX_TARGET_FILENAME_RUNES];
    assert TrimSpace(s) == s;
    TrimRightFixed(cut);
    TrimRightSpaceShape(cut);
  }

  /** What a render yields is empty, for a blank text, or a name the file services accept, cut to length. */
  lemma RenderedFilenameIsSafe(parseTitle: string -> ParsedTitle, template: string, item: FeedItem)
    requires RenderFilename(parseTitle, template, item).Ok? && TrimSpace(template) != ""
    ensures PlaceholdersOk(TrimSpace(template))
    ensures
      var name := RenderFilename(parseTitle, template, item).value;
      && (name == "" <==> TrimSpace(RenderTemplate(parseTitle, TrimSpace(template), item)) == "")
      && (name != "" ==> ValidName(name) && !HasDotDot(name) && |name| <= MAX_TARGET_FILENAME_RUNES)
  {
    hide Sanitized, TrimSpace, RenderTemplate, Truncated, CleanText;
    TrimIsIdempotent(template);
    var text := TrimSpace(RenderTemplate(parseTitle, TrimSpace(template), item));
    if text != "" {
      SanitizedIsClean(text);
      CleanPrefixIsName(Sanitized(text));
    }
  }

  lemma CleanPrefixIsName(s: string)
    requires CleanText(s) && s != ""
    ensures ValidName(Truncated(s)) && !HasDotDot(Truncated(s)) && |Truncated(s)| <= MAX_TARGET_FILENAME_RUNES
  {
    TruncatedIsPrefix(s);
    SanitizeIsIdempotent(s);
    SanitizedIsClean(s);
    var name := Truncated(s);
    hide Truncated, Sanitized;
    assert name == s[..|name|] && name[0] == s[0];
    DotDotOfConcat(name, s[|name|..]);
    assert s == name + s[|name|..];
  }

  // ---- Templates that validation should have refused ------------------------------------------

  lemma Untrimmed(s: string)
    requires s != "" && !IsSpace(s[0]) && !IsSpace(s[|s| - 1])
    ensures TrimSpace(s) == s
  {
  }

  /** How an accepted template is recognized, its rendered text being known. */
  lemma AcceptedTemplate(parseTitle: string -> ParsedTitle, t: string, c: char)
    requires |t| > 1 && !IsSpace(t[0]) && !IsSpace(t[|t| - 1]) && PlaceholdersOk(t)
    requires '\\' !in t && '/' !in t && !HasDotDot(t) && t[1] != ':'
    requires IsOrdinary(c) && c in RenderTemplate(parseTitle, t, EMPTY_ITEM)
    ensures FilenameTemplateValid(parseTitle, t) && TrimSpace(t) == t
  {
    hide RenderTemplate, PlaceholdersOk, Sanitized, IsOrdinary, HasDotDot, TrimSpace;
    Untrimmed(t);
    OrdinarySurvives(c, RenderTemplate(parseTitle, t, EMPTY_ITEM));
    SanitizedIsClean(RenderTemplate(parseTitle, t, EMPTY_ITEM));
  }

  /** An accepted template that fails for every item without a season, the empty item among them. */
  lemma DottedTemplateFails(parseTitle: string -> ParsedTitle)
    ensures FilenameTemplateValid(parseTitle, "a.{season}.b")
    ensures RenderFilename(parseTitle, "a.{season}.b", EMPTY_ITEM).Err?
  {
    OrdinaryLetters();
    DottedText(parseTitle);
    hide Sanitized, FilenameTemplateValid, RenderFilename, TrimSpace, IsSpace, RenderTemplate, PlaceholdersOk,
         IsOrdinary;
    var t, name := "a.{season}.b", "a..b";
    assert name[1] == '.' && name[2] == '.' && name[0] == 'a';
    AcceptedTemplate(parseTitle, t, 'a');
    FilenameFailsExactly(parseTitle, t, EMPTY_ITEM);
  }

  lemma DottedText(parseTitle: string -> ParsedTitle)
    ensures PlaceholdersOk("a.{season}.b") && RenderTemplate(parseTitle, "a.{season}.b", EMPTY_ITEM) == "a..b"
    ensures !HasDotDot("a.{season}.b")
  {
    SeasonIsS();
    hide Sanitized, RenderTemplate, PlaceholdersOk;
    PlainText(parseTitle, ".b", EMPTY_ITEM);
    SeasonFirst(parseTitle, ".b", EMPTY_ITEM);
    PlainFirst(parseTitle, '.', "{season}" + ".b", EMPTY_ITEM);
    PlainFirst(parseTitle, 'a', ['.'] + ("{season}" + ".b"), EMPTY_ITEM);
    assert "a.{season}.b" == ['a'] + (['.'] + ("{season}" + ".b"));
    assert "a..b" == ['a'] + (['.'] + ("" + ".b"));
  }

  lemma OrdinaryLetters()
    ensures IsOrdinary('a') && IsOrdinary('b') && IsOrdinary('x') && IsOrdinary('S') && !IsSpace('{') && !IsSpace(':')
    ensures !IsSpace('a') && !IsSpace('b') && !IsSpace('x') && !IsSpace('S')
  {
  }

  /** An accepted template that renders for the empty item and fails for an item of season "S". */
  lemma DriveTemplateFails(parseTitle: string -> ParsedTitle)
    ensures FilenameTemplateValid(parseTitle, "{season}:x")
    ensures RenderFilename(parseTitle, "{season}:x", EMPTY_ITEM).Ok?
    ensures RenderFilename(parseTitle, "{season}:x", EMPTY_ITEM.(parsed := EMPTY_ITEM.parsed.(season := "S"))).Err?
  {
    SeasonIsS();
    OrdinaryLetters();
    hide Sanitized, FilenameTemplateValid, RenderFilename, TrimSpace, IsSpace, RenderTemplate, PlaceholdersOk,
         IsOrdinary;
    var t, item := "{season}:x", EMPTY_ITEM.(parsed := EMPTY_ITEM.parsed.(season := "S"));
    assert t == "{season}" + ":x";
    PlainText(parseTitle, ":x", EMPTY_ITEM);
    PlainText(parseTitle, ":x", item);
    SeasonFirst(parseTitle, ":x", EMPTY_ITEM);
    SeasonFirst(parseTitle, ":x", item);
    var name, other := RenderTemplate(parseTitle, t, EMPTY_ITEM), RenderTemplate(parseTitle, t, item);
    assert name == ":x" && other == "S:x";
    assert name[1] == 'x' && !HasDotDot(t) && !HasDotDot(name);
    AcceptedTemplate(parseTitle, t, 'x');
    Untrimmed(name);
    Untrimmed(other);
    FilenameFailsExactly(parseTitle, t, EMPTY_ITEM);
    FilenameFailsExactly(parseTitle, t, item);
  }

  lemma SeasonIsS()
    ensures Sanitized("") == "" && Sanitized("S") == "S"
  {
    CleanTextIsFixed("");
    CleanTextIsFixed("S");
  }

  lemma {:induction false} FirstIndex(s: string, c: char, n: nat)
    requires n < |s| && s[n] == c && c !in s[..n]
    ensures IndexOf(s, c) == Some(n)
  {
    if n > 0 {
      assert s[0] == s[..n][0];
      assert s[..n] == [s[0]] + s[1..][..n - 1];
      FirstIndex(s[1..], c, n - 1);
    }
  }

  lemma PlainFirst(parseTitle: string -> ParsedTitle, c: char, rest: string, item: FeedItem)
    requires c != '{' && c != '}' && PlaceholdersOk(rest)
    ensures PlaceholdersOk([c] + rest)
    ensures RenderTemplate(parseTitle, [c] + rest, item) == [c] + RenderTemplate(parseTitle, rest, item)
  {
    assert ([c] + rest)[1..] == rest;
  }

  lemma SeasonFirst(parseTitle: string -> ParsedTitle, rest: string, item: FeedItem)
    requires PlaceholdersOk(rest) && item.title == ""
    ensures PlaceholdersOk("{season}" + rest)
    ensures RenderTemplate(parseTitle, "{season}" + rest, item)
            == Sanitized(item.parsed.season) + RenderTemplate(parseTitle, rest, item)
  {
    hide Sanitized;
    var t := "{season}" + rest;
    assert t[1..][6] == '}' && t[1..][..6] == "season" && t[8..] == rest;
    FirstIndex(t[1..], '}', 6);
    assert TrimSpace("") == "";
  }

  lemma {:induction false} PlainText(parseTitle: string -> ParsedTitle, t: string, item: FeedItem)
    requires '{' !in t && '}' !in t
    ensures PlaceholdersOk(t) && RenderTemplate(parseTitle, t, item) == t
  {
    if t != "" { PlainText(parseTitle, t[1..], item); }
  }
}
