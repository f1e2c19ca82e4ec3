/** The string primitives the services use, written out on `seq<char>`. */
module Text {

  predicate HasPrefix(s: string, prefix: string) {
    prefix <= s
  }

  function TrimPrefix(s: string, prefix: string): string {
    if prefix <= s then s[|prefix|..] else s
  }

  /** `strings.Contains(s, "..")`. */
  predicate HasDotDot(s: string) {
    exists i | 0 <= i < |s| - 1 :: s[i] == '.' && s[i + 1] == '.'
  }

  /** Unicode White_Space, as `strings.TrimSpace` sees it. */
  predicate IsSpace(c: char) {
    c in {'\t', '\n', '\U{0B}', '\U{0C}', '\r', ' ', '\U{85}', '\U{A0}', '\U{1680}',
          '\U{2028}', '\U{2029}', '\U{202F}', '\U{205F}', '\U{3000}'}
    || '\U{2000}' <= c <= '\U{200A}'
  }

  function TrimLeftSpace(s: string): string {
    if s != "" && IsSpace(s[0]) then TrimLeftSpace(s[1..]) else s
  }

  function TrimRightSpace(s: string): string {
    if s != "" && IsSpace(s[|s| - 1]) then TrimRightSpace(s[..|s| - 1]) else s
  }

  function TrimSpace(s: string): string {
    TrimRightSpace(TrimLeftSpace(s))
  }

  /** `strings.TrimRight(s, "/")`. */
  function TrimRightSlash(s: string): string {
    if s != "" && s[|s| - 1] == '/' then TrimRightSlash(s[..|s| - 1]) else s
  }

  predicate IsBlank(s: string) {
    forall i | 0 <= i < |s| :: IsSpace(s[i])
  }

  /** Trimming on the right removes a suffix of spaces, and nothing else. */
  lemma {:induction false} TrimRightSpaceShape(s: string)
    ensures TrimRightSpace(s) <= s
    ensures IsBlank(s[|TrimRightSpace(s)|..])
    ensures TrimRightSpace(s) != "" ==> !IsSpace(TrimRightSpace(s)[|TrimRightSpace(s)| - 1])
  {
    if s != "" && IsSpace(s[|s| - 1]) {
      TrimRightSpaceShape(s[..|s| - 1]);
      var t := TrimRightSpace(s[..|s| - 1]);
      assert s[|t|..] == s[..|s| - 1][|t|..] + [s[|s| - 1]];
    }
  }

  lemma TrimLeftSpaceShape(s: string)
    ensures |TrimLeftSpace(s)| <= |s| && TrimLeftSpace(s) == s[|s| - |TrimLeftSpace(s)|..]
    ensures TrimLeftSpace(s) != "" ==> !IsSpace(TrimLeftSpace(s)[0])
  {
    if s != "" && IsSpace(s[0]) { TrimLeftSpaceShape(s[1..]); }
  }

  lemma {:induction false} TrimRightFixed(s: string)
    ensures s != "" && !IsSpace(s[0]) ==> TrimRightSpace(s) != "" && TrimRightSpace(s)[0] == s[0]
  {
    if s != "" && IsSpace(s[|s| - 1]) && !IsSpace(s[0]) { TrimRightFixed(s[..|s| - 1]); }
  }

  lemma TrimIsIdempotent(s: string)
    ensures TrimSpace(TrimSpace(s)) == TrimSpace(s)
  {
    var left := TrimLeftSpace(s);
    TrimLeftSpaceShape(s);
    TrimRightFixed(left);
    TrimRightSpaceShape(left);
  }

  lemma {:induction false} TrimRightOfConcat(a: string, b: string)
    requires b != "" && !IsSpace(b[0])
    ensures TrimRightSpace(a + b) == a + TrimRightSpace(b)
  {
    if IsSpace(b[|b| - 1]) {
      TrimRightOfConcat(a, b[..|b| - 1]);
      assert (a + b)[..|a + b| - 1] == a + b[..|b| - 1];
    }
  }

  lemma {:induction false} TrimRightSlashShape(s: string)
    ensures TrimRightSlash(s) <= s
    ensures forall i | |TrimRightSlash(s)| <= i < |s| :: s[i] == '/'
    ensures TrimRightSlash(s) != "" ==> TrimRightSlash(s)[|TrimRightSlash(s)| - 1] != '/'
  {
    if s != "" && s[|s| - 1] == '/' {
      TrimRightSlashShape(s[..|s| - 1]);
    }
  }

  lemma DotDotOfConcat(a: string, b: string)
    ensures HasDotDot(a) ==> HasDotDot(a + b)
    ensures HasDotDot(b) ==> HasDotDot(a + b)
    ensures HasDotDot(a + b) && (a == "" || b == "" || a[|a| - 1] != '.' || b[0] != '.')
            ==> HasDotDot(a) || HasDotDot(b)
  {
    var c := a + b;
    if HasDotDot(a) {
      var i :| 0 <= i < |a| - 1 && a[i] == '.' && a[i + 1] == '.';
      assert c[i] == '.' && c[i + 1] == '.';
    }
    if HasDotDot(b) {
      var i :| 0 <= i < |b| - 1 && b[i] == '.' && b[i + 1] == '.';
      assert c[|a| + i] == '.' && c[|a| + i + 1] == '.';
    }
    if HasDotDot(c) && (a == "" || b == "" || a[|a| - 1] != '.' || b[0] != '.') {
      var i :| 0 <= i < |c| - 1 && c[i] == '.' && c[i + 1] == '.';
      if i + 1 < |a| {
        assert a[i] == '.' && a[i + 1] == '.';
      } else if i >= |a| {
        assert b[i - |a|] == '.' && b[i - |a| + 1] == '.';
      } else {
        assert false;
      }
    }
  }
}
