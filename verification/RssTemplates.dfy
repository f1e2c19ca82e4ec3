/** RSS templates: path segments are sanitized, placeholders rendered, and what validation promises. */
module RssTemplates {
  import opened Common
  import opened Text
  import opened Paths

  // ---- Strings --------------------------------------------------------------------------------

  /** `strings.Join`. */
  function JoinWith(parts: seq<string>, separator: string): string {
    if parts == [] then ""
    else if |parts| == 1 then parts[0]
    else parts[0] + separator + JoinWith(parts[1..], separator)
  }

  function TrimLeftSpaceDot(s: string): string {
    if s != "" && (s[0] == ' ' || s[0] == '.') then TrimLeftSpaceDot(s[1..]) else s
  }

  function TrimRightSpaceDot(s: string): string {
    if s != "" && (s[|s| - 1] == ' ' || s[|s| - 1] == '.') then TrimRightSpaceDot(s[..|s| - 1]) else s
  }

  /** `strings.Trim(s, " .")`. */
  function TrimSpaceDot(s: string): string {
    TrimRightSpaceDot(TrimLeftSpaceDot(s))
  }

  /** The length of the first run of characters that are no white space. */
  function WordLength(s: string): (n: nat)
    ensures n <= |s|
    ensures forall i | 0 <= i < n :: !IsSpace(s[i])
    ensures n < |s| ==> IsSpace(s[n])
  {
    if s == "" || IsSpace(s[0]) then 0 else 1 + WordLength(s[1..])
  }

  /** `strings.Fields`. */
  function Fields(s: string): seq<string>
    decreases |s|
  {
    TrimLeftSpaceShape(s);
    var t := TrimLeftSpace(s);
    if t == "" then [] else [t[..WordLength(t)]] + Fields(t[WordLength(t)..])
  }

  /** `strings.ReplaceAll(s, "..", ".")`. */
  function ReplaceDotDot(s: string): string {
    if |s| >= 2 && s[0] == '.' && s[1] == '.' then "." + ReplaceDotDot(s[2..])
    else if s == "" then ""
    else [s[0]] + ReplaceDotDot(s[1..])
  }

  /** Every run of dots shrunk to one dot. */
  function SingleDots(s: string): string {
    if |s| >= 2 && s[0] == '.' && s[1] == '.' then SingleDots(s[1..])
    else if s == "" then ""
    else [s[0]] + SingleDots(s[1..])
  }

  lemma DotDotStep(c: char, s: string)
    ensures HasDotDot([c] + s) <==> (c == '.' && s != "" && s[0] == '.') || HasDotDot(s)
  {
    DotDotOfConcat([c], s);
    if c == '.' && s != "" && s[0] == '.' {
      assert ([c] + s)[0] == '.' && ([c] + s)[1] == '.';
    }
    if HasDotDot([c] + s) && !(c == '.' && s != "" && s[0] == '.') {
      var i :| 0 <= i < |[c] + s| - 1 && ([c] + s)[i] == '.' && ([c] + s)[i + 1] == '.';
      assert s[i - 1] == '.' && s[i] == '.';
    }
  }

  lemma {:induction false} ReplaceKeepsHead(s: string)
    ensures |ReplaceDotDot(s)| <= |s|
    ensures s != "" ==> ReplaceDotDot(s) != "" && ReplaceDotDot(s)[0] == s[0]
    ensures HasDotDot(s) ==> |ReplaceDotDot(s)| < |s|
  {
    if |s| >= 2 && s[0] == '.' && s[1] == '.' {
      ReplaceKeepsHead(s[2..]);
    } else if s != "" {
      ReplaceKeepsHead(s[1..]);
      DotDotStep(s[0], s[1..]);
      assert [s[0]] + s[1..] == s;
    }
  }

  /** Replacing pairs of dots does not change what the runs shrink to. */
  lemma {:induction false} ReplaceKeepsSingleDots(s: string)
    ensures SingleDots(ReplaceDotDot(s)) == SingleDots(s)
  {
    if |s| >= 2 && s[0] == '.' && s[1] == '.' {
      var t := s[2..];
      ReplaceKeepsSingleDots(t);
      ReplaceKeepsHead(t);
      var r := ReplaceDotDot(t);
      assert ("." + r)[1..] == r;
      assert s[1..][1..] == t;
      if t != "" && t[0] == '.' {
        assert SingleDots("." + r) == SingleDots(r);
        assert SingleDots(s[1..]) == SingleDots(t);
      } else {
        assert SingleDots("." + r) == "." + SingleDots(r);
        assert SingleDots(s[1..]) == "." + SingleDots(t);
      }
    } else if s != "" {
      ReplaceKeepsSingleDots(s[1..]);
      ReplaceKeepsHead(s[1..]);
      var r := ReplaceDotDot(s[1..]);
      assert ([s[0]] + r)[1..] == r;
    }
  }

  lemma {:induction false} SingleDotsShape(s: string)
    ensures !HasDotDot(SingleDots(s))
    ensures s != "" ==> SingleDots(s) != "" && SingleDots(s)[0] == s[0]
    ensures !HasDotDot(s) ==> SingleDots(s) == s
    ensures SpacedText(s) ==> SpacedText(SingleDots(s))
  {
    if |s| >= 2 && s[0] == '.' && s[1] == '.' {
      SingleDotsShape(s[1..]);
    } else if s != "" {
      SingleDotsShape(s[1..]);
      DotDotStep(s[0], SingleDots(s[1..]));
      DotDotStep(s[0], s[1..]);
      assert [s[0]] + s[1..] == s;
    }
  }

  // ---- Clean text -----------------------------------------------------------------------------

  /** `unicode.IsControl`. */
  predicate IsControlChar(c: char) {
    c <= '\U{1F}' || '\U{7F}' <= c <= '\U{9F}'
  }

  predicate IsForbidden(c: char) {
    c == '/' || c == '\\' || IsControlChar(c) || c in {'<', '>', ':', '"', '|', '?', '*'}
  }

  /** No forbidden character, and no white space but single blanks. */
  predicate SpacedText(s: string) {
    && (forall i | 0 <= i < |s| :: !IsForbidden(s[i]) && (IsSpace(s[i]) ==> s[i] == ' '))
    && (forall i | 0 <= i < |s| - 1 :: s[i] == ' ' ==> s[i + 1] != ' ')
  }

  predicate EndsClean(s: string) {
    s != "" ==> s[0] != ' ' && s[0] != '.' && s[|s| - 1] != ' ' && s[|s| - 1] != '.'
  }

  /** What a sanitized segment looks like. */
  predicate CleanText(s: string) {
    SpacedText(s) && EndsClean(s) && !HasDotDot(s)
  }

  function Blanked(s: string): string {
    seq(|s|, i requires 0 <= i < |s| => if IsForbidden(s[i]) then ' ' else s[i])
  }

  /** `sanitizeRSSPathSegment`. */
  function Sanitized(value: string): string {
    TrimSpaceDot(SingleDots(TrimSpaceDot(JoinWith(Fields(Blanked(TrimSpace(value))), " "))))
  }

  lemma TrimSpaceDotShape(s: string)
    ensures EndsClean(TrimSpaceDot(s)) && |TrimSpaceDot(s)| <= |s|
    ensures SpacedText(s) ==> SpacedText(TrimSpaceDot(s))
    ensures !HasDotDot(s) ==> !HasDotDot(TrimSpaceDot(s))
    ensures EndsClean(s) ==> TrimSpaceDot(s) == s
  {
    hide HasDotDot, SpacedText, EndsClean, TrimSpaceDot;
    var i, j := TrimSpaceDotIsSlice(s);
    SliceShape(s, i, j);
  }

  lemma TrimSpaceDotIsSlice(s: string) returns (i: nat, j: nat)
    ensures i <= j <= |s| && TrimSpaceDot(s) == s[i..j] && EndsClean(s[i..j])
    ensures EndsClean(s) ==> TrimSpaceDot(s) == s
  {
    var left := TrimLeftSpaceDot(s);
    TrimLeftSpaceDotShape(s);
    TrimRightSpaceDotShape(left);
    var t := TrimRightSpaceDot(left);
    hide TrimLeftSpaceDot, TrimRightSpaceDot;
    i, j := |s| - |left|, |s| - |left| + |t|;
    assert s[i..j] == left[..|t|] == t;
    assert t != "" ==> t[0] == left[0];
  }

  lemma SliceShape(s: string, i: nat, j: nat)
    requires i <= j <= |s|
    ensures SpacedText(s) ==> SpacedText(s[i..j])
    ensures HasDotDot(s[i..j]) ==> HasDotDot(s)
  {
    hide HasDotDot;
    assert s == s[..i] + s[i..j] + s[j..];
    DotDotOfConcat(s[..i] + s[i..j], s[j..]);
    DotDotOfConcat(s[..i], s[i..j]);
    if SpacedText(s) {
      forall k | 0 <= k < |s[i..j]| - 1 ensures s[i..j][k] == ' ' ==> s[i..j][k + 1] != ' ' {
        assert s[i..j][k] == s[i + k] && s[i..j][k + 1] == s[i + k + 1];
      }
    }
  }

  lemma {:induction false} TrimLeftSpaceDotShape(s: string)
    ensures |TrimLeftSpaceDot(s)| <= |s| && TrimLeftSpaceDot(s) == s[|s| - |TrimLeftSpaceDot(s)|..]
    ensures TrimLeftSpaceDot(s) != "" ==> TrimLeftSpaceDot(s)[0] != ' ' && TrimLeftSpaceDot(s)[0] != '.'
    ensures EndsClean(s) ==> TrimLeftSpaceDot(s) == s
  {
    if s != "" && (s[0] == ' ' || s[0] == '.') { TrimLeftSpaceDotShape(s[1..]); }
  }

  lemma {:induction false} TrimRightSpaceDotShape(s: string)
    ensures TrimRightSpaceDot(s) <= s
    ensures TrimRightSpaceDot(s) != "" ==>
              TrimRightSpaceDot(s)[|TrimRightSpaceDot(s)| - 1] != ' '
                && TrimRightSpaceDot(s)[|TrimRightSpaceDot(s)| - 1] != '.'
    ensures EndsClean(s) ==> TrimRightSpaceDot(s) == s
  {
    if s != "" && (s[|s| - 1] == ' ' || s[|s| - 1] == '.') { TrimRightSpaceDotShape(s[..|s| - 1]); }
  }

  predicate IsWord(w: string) {
    w != "" && forall i | 0 <= i < |w| :: !IsSpace(w[i]) && !IsForbidden(w[i])
  }

  lemma {:induction false} FieldsAreWords(s: string)
    requires forall i | 0 <= i < |s| :: !IsForbidden(s[i])
    ensures forall i | 0 <= i < |Fields(s)| :: IsWord(Fields(s)[i])
    decreases |s|
  {
    TrimLeftSpaceShape(s);
    var t := TrimLeftSpace(s);
    if t != "" {
      var n := WordLength(t);
      assert n > 0;
      FieldsAreWords(t[n..]);
      assert Fields(s) == [t[..n]] + Fields(t[n..]);
    }
  }

  lemma {:induction false} JoinOfWords(words: seq<string>)
    requires forall i | 0 <= i < |words| :: IsWord(words[i])
    ensures SpacedText(JoinWith(words, " "))
    ensures words != [] ==> IsWord(words[0]) && JoinWith(words, " ") != "" && JoinWith(words, " ")[0] == words[0][0]
  {
    if |words| > 1 {
      JoinOfWords(words[1..]);
      var w, rest := words[0], JoinWith(words[1..], " ");
      var all := w + " " + rest;
      assert rest[0] == words[1][0] && IsWord(words[1]);
      forall i | 0 <= i < |all| - 1 ensures all[i] == ' ' ==> all[i + 1] != ' ' {
        if i > |w| { assert all[i] == rest[i - |w| - 1] && all[i + 1] == rest[i - |w|]; }
      }
    } else if |words| == 1 {
      assert JoinWith(words, " ") == words[0];
    }
  }

  /** Words joined by blanks are their own fields. */
  lemma {:induction false} FieldsOfSpacedText(s: string)
    requires SpacedText(s) && (s != "" ==> s[0] != ' ' && s[|s| - 1] != ' ')
    ensures JoinWith(Fields(s), " ") == s
    decreases |s|
  {
    if s != "" {
      var n := WordLength(s);
      assert TrimLeftSpace(s) == s;
      assert n > 0;
      assert Fields(s) == [s[..n]] + Fields(s[n..]);
      if n == |s| {
        assert s[..n] == s && s[n..] == "";
        assert Fields("") == [];
      } else {
        var rest := s[n..][1..];
        assert s[n] == ' ' && n + 1 < |s| && s[n + 1] != ' ';
        assert rest[0] == s[n + 1] && rest[|rest| - 1] == s[|s| - 1];
        assert forall i | 0 <= i < |rest| :: rest[i] == s[n + 1 + i];
        FieldsOfSpacedText(rest);
        assert TrimLeftSpace(s[n..]) == TrimLeftSpace(rest) == rest;
        assert Fields(s[n..]) == Fields(rest) by { assert TrimLeftSpace(rest) == rest; }
        assert Fields(rest) != [] by { assert JoinWith(Fields(rest), " ") != ""; }
        assert s == s[..n] + " " + rest;
        assert ([s[..n]] + Fields(rest))[1..] == Fields(rest);
      }
    }
  }

  /** A sanitized segment is clean text: no slash, no "..", no blank or dot at either end. */
  lemma SanitizedIsClean(value: string)
    ensures CleanText(Sanitized(value))
    ensures '/' !in Sanitized(value) && '\\' !in Sanitized(value)
  {
    var blanked := Blanked(TrimSpace(value));
    FieldsAreWords(blanked);
    JoinOfWords(Fields(blanked));
    var joined := JoinWith(Fields(blanked), " ");
    TrimSpaceDotShape(joined);
    SingleDotsShape(TrimSpaceDot(joined));
    TrimSpaceDotShape(SingleDots(TrimSpaceDot(joined)));
    assert IsForbidden('/') && IsForbidden('\\');
  }

  lemma CleanTextIsFixed(s: string)
    requires CleanText(s)
    ensures Sanitized(s) == s
  {
    assert TrimLeftSpace(s) == s;
    assert TrimRightSpace(s) == s;
    assert Blanked(s) == s;
    FieldsOfSpacedText(s);
    TrimSpaceDotShape(s);
    SingleDotsShape(s);
  }

  /** Sanitizing twice is sanitizing once, and clean text is exactly what it leaves alone. */
  lemma SanitizeIsIdempotent(value: string)
    ensures Sanitized(Sanitized(value)) == Sanitized(value)
    ensures Sanitized(value) == value <==> CleanText(value)
  {
    SanitizedIsClean(value);
    CleanTextIsFixed(Sanitized(value));
    if CleanText(value) { CleanTextIsFixed(value); }
  }

  /** `sanitizeRSSPathSegment` with its shrinking loop, which ends on every input. */
  method SanitizeRSSPathSegment(value: string) returns (segment: string)
    ensures segment == Sanitized(value)
    ensures CleanText(segment)
  {
    var trimmed := TrimSpace(value);
    var builder := "";
    for i := 0 to |trimmed|
      invariant builder == Blanked(trimmed)[..i]
    {
      builder := builder + [if IsForbidden(trimmed[i]) then ' ' else trimmed[i]];
    }
    assert builder == Blanked(trimmed);
    var collapsed := JoinWith(Fields(builder), " ");
    collapsed := TrimSpaceDot(collapsed);
    ghost var before := collapsed;
    while HasDotDot(collapsed)
      invariant SingleDots(collapsed) == SingleDots(before)
      decreases |collapsed|
    {
      ReplaceKeepsHead(collapsed);
      ReplaceKeepsSingleDots(collapsed);
      collapsed := ReplaceDotDot(collapsed);
    }
    SingleDotsShape(collapsed);
    collapsed := TrimSpaceDot(collapsed);
    SanitizedIsClean(value);
    assert collapsed == Sanitized(value);
    if collapsed == "." || collapsed == ".." { return ""; }
    return collapsed;
  }

  // ---- Templates ------------------------------------------------------------------------------

  datatype ParsedTitle = ParsedTitle(animeTitle: string, season: string, episode: string, subtitleGroup: string,
                                     resolution: string)

  /** The part of an item templates read. */
  datatype FeedItem = FeedItem(title: string, parsed: ParsedTitle)

  const EMPTY_ITEM := FeedItem("", ParsedTitle("", "", "", "", ""))

  const ALLOWED_TOKENS: set<string> := {"anime_title", "season", "episode", "subtitle_group", "resolution", "title"}

  function FirstNonEmpty(a: string, b: string): string {
    if TrimSpace(a) != "" then TrimSpace(a) else if TrimSpace(b) != "" then TrimSpace(b) else ""
  }

  /** The value of a token; `parseTitle` stands for the title parser, used when nothing was parsed before. */
  function TokenValue(parseTitle: string -> ParsedTitle, item: FeedItem, token: string): string {
    var parsed :=
      if item.parsed == EMPTY_ITEM.parsed && TrimSpace(item.title) != "" then parseTitle(item.title) else item.parsed;
    if token == "anime_title" then FirstNonEmpty(parsed.animeTitle, item.title)
    else if token == "season" then parsed.season
    else if token == "episode" then parsed.episode
    else if token == "subtitle_group" then parsed.subtitleGroup
    else if token == "resolution" then parsed.resolution
    else if token == "title" then item.title
    else ""
  }

  /** `strings.IndexByte`. */
  function IndexOf(s: string, c: char): (i: Option<nat>)
    ensures i.Some? ==> i.value < |s| && s[i.value] == c && c !in s[..i.value]
    ensures i.None? ==> c !in s
  {
    if s == "" then None
    else if s[0] == c then Some(0)
    else
      var rest := IndexOf(s[1..], c);
      if rest.None? then None else (assert s[..rest.value + 1] == [s[0]] + s[1..][..rest.value]; Some(rest.value + 1))
  }

  predicate PlaceholdersOk(t: string)
    decreases |t|
  {
    if t == "" then true
    else if t[0] == '{' then
      var end := IndexOf(t[1..], '}');
      && end.Some?
      && t[1..][..end.value] in ALLOWED_TOKENS
      && PlaceholdersOk(t[end.value + 2..])
    else t[0] != '}' && PlaceholdersOk(t[1..])
  }

  /** `validateRSSTemplatePlaceholders`. */
  method ValidatePlaceholders(template: string) returns (r: Option<Error>)
    ensures r == if PlaceholdersOk(template) then None else Some(PathInvalid)
  {
    var i := 0;
    while i < |template|
      invariant 0 <= i <= |template|
      invariant PlaceholdersOk(template) == PlaceholdersOk(template[i..])
    {
      assert template[i..][1..] == template[i + 1..];
      if template[i] == '{' {
        var end := IndexOf(template[i + 1..], '}');
        if end.None? { return Some(PathInvalid); }
        var token := template[i + 1..i + 1 + end.value];
        assert token == template[i..][1..][..end.value];
        if token == "" || '{' in token || '}' in token {
          TokensAreWords(token);
          return Some(PathInvalid);
        }
        if token !in ALLOWED_TOKENS { return Some(PathInvalid); }
        assert template[i..][end.value + 2..] == template[i + end.value + 2..];
        i := i + end.value + 1;
      } else if template[i] == '}' {
        return Some(PathInvalid);
      }
      i := i + 1;
    }
    return None;
  }

  lemma TokensAreWords(token: string)
    requires token == "" || '{' in token || '}' in token
    ensures token !in ALLOWED_TOKENS
  {
  }

  /** `renderRSSTemplate` on a template whose placeholders are valid. */
  function RenderTemplate(parseTitle: string -> ParsedTitle, t: string, item: FeedItem): string
    requires PlaceholdersOk(t)
    decreases |t|
  {
    if t == "" then ""
    else if t[0] == '{' then
      var end := IndexOf(t[1..], '}').value;
      Sanitized(TokenValue(parseTitle, item, t[1..][..end])) + RenderTemplate(parseTitle, t[end + 2..], item)
    else [t[0]] + RenderTemplate(parseTitle, t[1..], item)
  }

  predicate HasDrivePrefix(value: string) {
    var trimmed := TrimSpace(value);
    |trimmed| >= 2 && trimmed[1] == ':' && ('A' <= trimmed[0] <= 'Z' || 'a' <= trimmed[0] <= 'z')
  }

  function SanitizedSegments(parts: seq<string>): seq<string> {
    if parts == [] then []
    else (if Sanitized(parts[0]) == "" then [] else [Sanitized(parts[0])]) + SanitizedSegments(parts[1..])
  }

  /** `sanitizeRSSRelativePath`, as the list of segments it joins. */
  function RelativeSegments(raw: string): Result<seq<string>> {
    var trimmed := TrimSpace(raw);
    if trimmed == "" then Ok([])
    else if '\\' in trimmed || HasDotDot(trimmed) then Err(PathInvalid)
    else Ok(SanitizedSegments(Split(trimmed)))
  }

  method SanitizeRSSRelativePath(raw: string) returns (r: Result<string>)
    ensures RelativeSegments(raw).Ok? ==> r == Ok(JoinWith(RelativeSegments(raw).value, "/"))
    ensures RelativeSegments(raw).Err? ==> r == Err(PathInvalid)
  {
    hide Sanitized, CleanText, HasDotDot, TrimSpace, Split, CleanSegment;
    var trimmed := TrimSpace(raw);
    if trimmed == "" { return Ok(""); }
    if '\\' in trimmed || HasDotDot(trimmed) { return Err(PathInvalid); }
    var segments := Split(trimmed);
    var out: seq<string> := [];
    var i := 0;
    while i < |segments|
      invariant 0 <= i <= |segments|
      invariant SanitizedSegments(segments) == out + SanitizedSegments(segments[i..])
    {
      var cleaned := SanitizeRSSPathSegment(segments[i]);
      assert segments[i..][1..] == segments[i + 1..];
      i := i + 1;
      if cleaned == "" { continue; }
      CleanTextIsSegment(cleaned);
      if cleaned == "." || cleaned == ".." || HasDotDot(cleaned) { return Err(PathInvalid); }
      out := out + [cleaned];
    }
    assert segments[i..] == [] && out + [] == out;
    return Ok(JoinWith(out, "/"));
  }

  lemma CleanTextIsSegment(s: string)
    requires CleanText(s) && s != ""
    ensures CleanSegment(s) && !HasDotDot(s) && s != "." && s != ".."
  {
    assert IsForbidden('/');
  }

  /** `renderRSSDirectoryTemplate`, as segments. */
  function DirectorySegments(parseTitle: string -> ParsedTitle, template: string, item: FeedItem): Result<seq<string>> {
    var trimmed := TrimSpace(template);
    if trimmed == "" then Ok([])
    else if '\\' in trimmed || HasPrefix(trimmed, "/") || HasDotDot(trimmed) || HasDrivePrefix(trimmed) then
      Err(PathInvalid)
    else if !PlaceholdersOk(trimmed) then Err(PathInvalid)
    else RelativeSegments(RenderTemplate(parseTitle, trimmed, item))
  }

  /** `validateRSSDirectoryTemplate`: the template is tried on the empty item only. */
  predicate DirectoryTemplateValid(parseTitle: string -> ParsedTitle, template: string) {
    DirectorySegments(parseTitle, template, EMPTY_ITEM).Ok?
  }

  /** `renderRSSTargetVirtualParentPath`. */
  function TargetParentPath(parseTitle: string -> ParsedTitle, basePath: string, template: string,
                            item: FeedItem): Result<string> {
    match NormalizeVirtualPath(TrimSpace(basePath))
    case Err(e) => Err(e)
    case Ok(base) =>
      match DirectorySegments(parseTitle, template, item)
      case Err(e) => Err(e)
      case Ok(segments) =>
        var relativeDir := JoinWith(segments, "/");
        if relativeDir == "" then Ok(base)
        else
          match NormalizeVirtualPath(JoinVirtualPath(base, relativeDir))
          case Err(e) => Err(e)
          case Ok(target) => if IsSubPath(base, target) then Ok(target) else Err(PathInvalid)
  }

  // ---- One item stands for all ----------------------------------------------------------------

  lemma EmptyValues(parseTitle: string -> ParsedTitle, token: string)
    ensures Sanitized(TokenValue(parseTitle, EMPTY_ITEM, token)) == ""
  {
    assert TokenValue(parseTitle, EMPTY_ITEM, token) == "";
    CleanTextIsFixed("");
  }

  /** Two dots can only meet where they also meet with every placeholder empty. */
  lemma {:induction false} DotsComeFromTheTemplate(parseTitle: string -> ParsedTitle, t: string, item: FeedItem)
    requires PlaceholdersOk(t) && '\\' !in t
    ensures
      var some, none := RenderTemplate(parseTitle, t, item), RenderTemplate(parseTitle, t, EMPTY_ITEM);
      && (HasDotDot(some) ==> HasDotDot(none))
      && (some != "" && some[0] == '.' ==> none != "" && none[0] == '.')
      && '\\' !in some
    decreases |t|
  {
    hide Sanitized, HasDotDot, TokenValue, SpacedText;
    if t != "" {
      if t[0] == '{' {
        var end := IndexOf(t[1..], '}').value;
        var value, rest := Sanitized(TokenValue(parseTitle, item, t[1..][..end])),
          RenderTemplate(parseTitle, t[end + 2..], item);
        DotsComeFromTheTemplate(parseTitle, t[end + 2..], item);
        SanitizedIsClean(TokenValue(parseTitle, item, t[1..][..end]));
        EmptyValues(parseTitle, t[1..][..end]);
        var none := RenderTemplate(parseTitle, t[end + 2..], EMPTY_ITEM);
        assert "" + none == none;
        DotDotOfConcat(value, rest);
        assert value == "" ==> value + rest == rest;
      } else {
        DotsComeFromTheTemplate(parseTitle, t[1..], item);
        DotDotStep(t[0], RenderTemplate(parseTitle, t[1..], item));
        DotDotStep(t[0], RenderTemplate(parseTitle, t[1..], EMPTY_ITEM));
      }
    }
  }

  /** Trimming white space does not remove ".." and adds nothing. */
  lemma TrimKeepsDots(s: string)
    ensures HasDotDot(TrimSpace(s)) <==> HasDotDot(s)
    ensures '\\' in TrimSpace(s) ==> '\\' in s
  {
    TrimLeftSpaceShape(s);
    var left := TrimLeftSpace(s);
    TrimRightSpaceShape(left);
    var t := TrimRightSpace(left);
    TrimLeftIsBlank(s);
    assert s == s[..|s| - |left|] + left && left == t + left[|t|..];
    BlankHasNoDots(s[..|s| - |left|]);
    BlankHasNoDots(left[|t|..]);
    DotDotOfConcat(s[..|s| - |left|], left);
    DotDotOfConcat(t, left[|t|..]);
  }

  lemma TrimLeftIsBlank(s: string)
    ensures |TrimLeftSpace(s)| <= |s| && IsBlank(s[..|s| - |TrimLeftSpace(s)|])
  {
    if s != "" && IsSpace(s[0]) {
      TrimLeftIsBlank(s[1..]);
      var n := |s| - |TrimLeftSpace(s)|;
      assert s[..n] == [s[0]] + s[1..][..n - 1];
    }
  }

  lemma BlankHasNoDots(s: string)
    requires IsBlank(s)
    ensures !HasDotDot(s)
    ensures s != "" ==> s[0] != '.' && s[|s| - 1] != '.'
  {
    assert !IsSpace('.');
  }

  lemma {:induction false} SegmentsOfRelative(parts: seq<string>)
    ensures CleanSegments(SanitizedSegments(parts))
    ensures forall i | 0 <= i < |SanitizedSegments(parts)| :: !HasDotDot(SanitizedSegments(parts)[i])
  {
    if parts != [] {
      SegmentsOfRelative(parts[1..]);
      SanitizedIsClean(parts[0]);
      if Sanitized(parts[0]) != "" { CleanTextIsSegment(Sanitized(parts[0])); }
    }
  }

  /** A directory template is accepted on the empty item exactly when it renders for every item. */
  lemma OneItemIsEnough(parseTitle: string -> ParsedTitle, template: string)
    ensures DirectoryTemplateValid(parseTitle, template)
            <==> forall item :: DirectorySegments(parseTitle, template, item).Ok?
  {
    var trimmed := TrimSpace(template);
    if DirectoryTemplateValid(parseTitle, template) && trimmed != "" {
      forall item ensures DirectorySegments(parseTitle, template, item).Ok? {
        DotsComeFromTheTemplate(parseTitle, trimmed, item);
        TrimKeepsDots(RenderTemplate(parseTitle, trimmed, item));
        TrimKeepsDots(RenderTemplate(parseTitle, trimmed, EMPTY_ITEM));
        assert !HasDotDot("");
      }
    }
  }

  lemma {:induction false} JoinedIsSlashed(segs: seq<string>)
    requires CleanSegments(segs) && segs != []
    ensures "/" + JoinWith(segs, "/") == Slashed(segs)
    ensures JoinWith(segs, "/") != "" && JoinWith(segs, "/")[0] != '/'
  {
    assert segs[0][0] in segs[0];
    if |segs| > 1 {
      JoinedIsSlashed(segs[1..]);
      assert "/" + (segs[0] + "/" + JoinWith(segs[1..], "/")) == "/" + segs[0] + ("/" + JoinWith(segs[1..], "/"));
    } else {
      assert segs[1..] == [];
    }
  }

  lemma RenderedSegments(parseTitle: string -> ParsedTitle, template: string, item: FeedItem)
    requires DirectorySegments(parseTitle, template, item).Ok?
    ensures
      var segs := DirectorySegments(parseTitle, template, item).value;
      CleanSegments(segs) && forall i | 0 <= i < |segs| :: !HasDotDot(segs[i])
  {
    var trimmed := TrimSpace(template);
    if trimmed != "" {
      SegmentsOfRelative(Split(TrimSpace(RenderTemplate(parseTitle, trimmed, item))));
    }
  }

  lemma JoinedUnderBase(base: string, segs: seq<string>)
    requires IsCanonical(base) && CleanSegments(segs) && segs != []
    requires forall i | 0 <= i < |segs| :: !HasDotDot(segs[i])
    ensures JoinWith(segs, "/") != ""
    ensures JoinVirtualPath(base, JoinWith(segs, "/")) == Render(Segments(base) + segs)
    ensures IsCanonical(Render(Segments(base) + segs)) && IsSubPath(base, Render(Segments(base) + segs))
    ensures Segments(Render(Segments(base) + segs)) == Segments(base) + segs
  {
    RootOrSlashed(base);
    SegmentsOfRender([]);
    BelowBase(base, segs);
    hide Segments, IsSubPath, IsCanonical, IsClean, JoinWith;
    JoinedIsSlashed(segs);
    SlashedConcat(Segments(base), segs);
    JoinOfRelative(base, JoinWith(segs, "/"));
    assert base == "/" ==> Segments(base) + segs == segs;
  }

  lemma JoinOfRelative(base: string, rel: string)
    requires rel != "" && rel[0] != '/'
    ensures JoinVirtualPath(base, rel) == (if base == "/" then "" else base) + ("/" + rel)
  {
    assert TrimPrefix(rel, "/") == rel;
    assert base + "/" + rel == base + ("/" + rel);
    assert "" + ("/" + rel) == "/" + rel;
  }

  lemma BelowBase(base: string, segs: seq<string>)
    requires IsCanonical(base) && CleanSegments(segs)
    requires forall i | 0 <= i < |segs| :: !HasDotDot(segs[i])
    ensures IsCanonical(Render(Segments(base) + segs)) && IsSubPath(base, Render(Segments(base) + segs))
    ensures Segments(Render(Segments(base) + segs)) == Segments(base) + segs
  {
    CanonicalSegments(base);
    CanonicalRender(Segments(base) + segs);
    SubPathIsSegmentPrefix(base, Render(Segments(base) + segs));
  }

  /** An accepted template puts every item at or below the base: the base's segments, then the
      template's. */
  lemma EveryItemLandsBelowTheBase(parseTitle: string -> ParsedTitle, basePath: string, template: string,
                                   item: FeedItem)
    requires DirectoryTemplateValid(parseTitle, template)
    requires NormalizeVirtualPath(TrimSpace(basePath)).Ok?
    ensures
      var base := NormalizeVirtualPath(TrimSpace(basePath)).value;
      && DirectorySegments(parseTitle, template, item).Ok?
      && var segs := DirectorySegments(parseTitle, template, item).value;
         && TargetParentPath(parseTitle, basePath, template, item) == Ok(Render(Segments(base) + segs))
         && IsSubPath(base, Render(Segments(base) + segs))
  {
    OneItemIsEnough(parseTitle, template);
    RenderedSegments(parseTitle, template, item);
    var base := NormalizeVirtualPath(TrimSpace(basePath)).value;
    var segs := DirectorySegments(parseTitle, template, item).value;
    if segs == [] {
      assert Segments(base) + segs == Segments(base);
      SubPathIsPartialOrder(base, base, base);
      CanonicalSegments(base);
    } else {
      JoinedUnderBase(base, segs);
      CanonicalIsFixpoint(Render(Segments(base) + segs));
    }
  }
}
