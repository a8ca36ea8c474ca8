/** The escaping of product names for HTML attributes in the admin product list
    (admin.js:284, 403) and the unescaping applied before the delete confirmation
    (admin.js:616). Both are chains of global `String.prototype.replace` calls. */
module NameEscape {

  const Apos: string := "&#39;"
  const Quot: string := "&quot;"

  /** `s.replace(/pat/g, rep)`: scan left to right, replacing every non-overlapping
      occurrence of `pat`. */
  function ReplaceAll(s: string, pat: string, rep: string): string
    requires pat != []
    decreases |s|
  {
    if |s| < |pat| then s
    else if s[..|pat|] == pat then rep + ReplaceAll(s[|pat|..], pat, rep)
    else [s[0]] + ReplaceAll(s[1..], pat, rep)
  }

  /** `'` becomes `&#39;`, then `"` becomes `&quot;`: each apostrophe and each
      double quote is replaced by its entity, so no quote of either kind is left. */
  function Escape(name: string): (e: string)
    ensures e == EscapeChars(name)
    ensures '\'' !in e && '"' !in e
  {
    ApostrophePass(name);
    QuotePass(name);
    EscapeCharsHasNoQuotes(name);
    ReplaceAll(ReplaceAll(name, "'", Apos), "\"", Quot)
  }

  /** `&#39;` becomes `'`, then `&quot;` becomes `"`; text without `&` holds no
      entity and is left alone. */
  function Unescape(s: string): (u: string)
    ensures '&' !in s ==> u == s
  {
    var once := ReplaceAll(s, Apos, "'");
    assert '&' !in s ==> once == s by {
      if '&' !in s {
        ReplaceSkipsClean(s, [], Apos, "'");
        assert s + [] == s;
      }
    }
    assert '&' !in s ==> ReplaceAll(once, Quot, "\"") == once by {
      if '&' !in s {
        ReplaceSkipsClean(once, [], Quot, "\"");
        assert once + [] == once;
      }
    }
    ReplaceAll(once, Quot, "\"")
  }

  /** Escape written character by character. */
  function EscapeChars(s: string): string
  {
    if s == [] then []
    else (if s[0] == '\'' then Apos else if s[0] == '"' then Quot else [s[0]]) + EscapeChars(s[1..])
  }

  /** Only the double quotes escaped: what remains after unescaping `&#39;`. */
  function EscapeQuotes(s: string): string
  {
    if s == [] then []
    else (if s[0] == '"' then Quot else [s[0]]) + EscapeQuotes(s[1..])
  }

  /** Only the apostrophes escaped: what the first replacement of Escape produces. */
  function EscapeApostrophes(s: string): string
  {
    if s == [] then []
    else (if s[0] == '\'' then Apos else [s[0]]) + EscapeApostrophes(s[1..])
  }

  /** Where no occurrence starts at the front, the first character is kept and the scan moves on. */
  lemma ReplaceNoMatchAtFront(w: string, pat: string, rep: string)
    requires pat != [] && w != []
    requires |w| < |pat| || w[..|pat|] != pat
    ensures ReplaceAll(w, pat, rep) == [w[0]] + ReplaceAll(w[1..], pat, rep)
  {
    if |w| < |pat| {
      assert [w[0]] + w[1..] == w;
    }
  }

  /** A prefix that cannot start an occurrence of the pattern passes through unchanged. */
  lemma {:induction false} ReplaceSkipsClean(u: string, v: string, pat: string, rep: string)
    requires pat != [] && pat[0] !in u
    ensures ReplaceAll(u + v, pat, rep) == u + ReplaceAll(v, pat, rep)
    decreases |u|
  {
    if u != [] {
      var w := u + v;
      assert w[0] == u[0] != pat[0];
      assert |w| >= |pat| ==> w[..|pat|][0] != pat[0];
      ReplaceNoMatchAtFront(w, pat, rep);
      assert w[1..] == u[1..] + v;
      assert pat[0] !in u[1..];
      ReplaceSkipsClean(u[1..], v, pat, rep);
      calc {
        ReplaceAll(w, pat, rep);
        [u[0]] + ReplaceAll(u[1..] + v, pat, rep);
        [u[0]] + (u[1..] + ReplaceAll(v, pat, rep));
        { assert [u[0]] + u[1..] == u; }
        u + ReplaceAll(v, pat, rep);
      }
    } else {
      assert u + v == v;
    }
  }

  /** An occurrence of the pattern at the front is replaced and the scan resumes after it. */
  lemma ReplaceAtFront(v: string, pat: string, rep: string)
    requires pat != []
    ensures ReplaceAll(pat + v, pat, rep) == rep + ReplaceAll(v, pat, rep)
  {
    assert (pat + v)[..|pat|] == pat;
    assert (pat + v)[|pat|..] == v;
  }

  lemma {:induction false} ApostrophePass(s: string)
    ensures ReplaceAll(s, "'", Apos) == EscapeApostrophes(s)
    decreases |s|
  {
    if s != [] {
      ApostrophePass(s[1..]);
      assert [s[0]] + s[1..] == s;
      if s[0] == '\'' {
        ReplaceAtFront(s[1..], "'", Apos);
      } else {
        ReplaceSkipsClean([s[0]], s[1..], "'", Apos);
      }
    }
  }

  lemma {:induction false} QuotePass(s: string)
    ensures ReplaceAll(EscapeApostrophes(s), "\"", Quot) == EscapeChars(s)
    decreases |s|
  {
    if s != [] {
      QuotePass(s[1..]);
      if s[0] == '\'' {
        ReplaceSkipsClean(Apos, EscapeApostrophes(s[1..]), "\"", Quot);
      } else if s[0] == '"' {
        ReplaceAtFront(EscapeApostrophes(s[1..]), "\"", Quot);
      } else {
        ReplaceSkipsClean([s[0]], EscapeApostrophes(s[1..]), "\"", Quot);
      }
    }
  }

  /** `&quot;` shares its first character with `&#39;` but is never taken for it. */
  lemma QuotSurvivesApostropheUnescape(rest: string)
    ensures ReplaceAll(Quot + rest, Apos, "'") == Quot + ReplaceAll(rest, Apos, "'")
  {
    var w := Quot + rest;
    assert w[..|Apos|][1] == 'q';
    ReplaceNoMatchAtFront(w, Apos, "'");
    assert w[1..] == "quot;" + rest;
    ReplaceSkipsClean("quot;", rest, Apos, "'");
  }

  lemma {:induction false} UnescapeApostrophes(s: string)
    requires '&' !in s
    ensures ReplaceAll(EscapeChars(s), Apos, "'") == EscapeQuotes(s)
    decreases |s|
  {
    if s != [] {
      assert '&' !in s[1..];
      UnescapeApostrophes(s[1..]);
      var rest := EscapeChars(s[1..]);
      if s[0] == '\'' {
        ReplaceAtFront(rest, Apos, "'");
      } else if s[0] == '"' {
        QuotSurvivesApostropheUnescape(rest);
      } else {
        ReplaceSkipsClean([s[0]], rest, Apos, "'");
      }
    }
  }

  lemma {:induction false} UnescapeQuotes(s: string)
    requires '&' !in s
    ensures ReplaceAll(EscapeQuotes(s), Quot, "\"") == s
    decreases |s|
  {
    if s != [] {
      assert '&' !in s[1..];
      UnescapeQuotes(s[1..]);
      if s[0] == '"' {
        ReplaceAtFront(EscapeQuotes(s[1..]), Quot, "\"");
      } else {
        ReplaceSkipsClean([s[0]], EscapeQuotes(s[1..]), Quot, "\"");
      }
      assert [s[0]] + s[1..] == s;
    }
  }

  /** The round trip: a name without `&` survives escaping and unescaping unchanged. */
  lemma EscapeRoundTrip(name: string)
    requires '&' !in name
    ensures Unescape(Escape(name)) == name
  {
    UnescapeApostrophes(name);
    UnescapeQuotes(name);
  }

  lemma {:induction false} EscapeCharsHasNoQuotes(name: string)
    ensures '\'' !in EscapeChars(name) && '"' !in EscapeChars(name)
    decreases |name|
  {
    if name != [] {
      EscapeCharsHasNoQuotes(name[1..]);
    }
  }

  /** Without the `&` restriction the round trip fails: a name that already
      contains the entity text comes back with an apostrophe in its place. */
  lemma AmpersandBreaksRoundTrip()
    ensures Unescape(Escape("&#39;")) == "'"
  {
    assert EscapeChars("&#39;") == "&#39;";
    ReplaceAtFront([], Apos, "'");
    assert ReplaceAll([], Apos, "'") == [];
    assert ReplaceAll("'", Quot, "\"") == "'";
  }
}
