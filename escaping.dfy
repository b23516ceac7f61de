/** HTML entity escaping as written in the report renderer and the dashboard
    builder: four successive replace-all passes, `&` first, then `<`, `>`
    and `"`. Single quotes are left alone. */
module Escaping {
  import opened Text

  /** No raw `<`, `>` or `"`: text that cannot open a tag or close an attribute. */
  predicate NoMarkup(s: string) {
    forall i :: 0 <= i < |s| ==> s[i] != '<' && s[i] != '>' && s[i] != '"'
  }

  /** `esc`: the escaped text never contains a raw `<`, `>` or `"`. */
  function Esc(s: string): (r: string)
    ensures NoMarkup(r)
  {
    EscIsCharwise(s);
    Passes(s)
  }

  /** The entity that one character becomes. */
  function EscChar(c: char): string {
    if c == '&' then "&amp;"
    else if c == '<' then "&lt;"
    else if c == '>' then "&gt;"
    else if c == '"' then "&quot;"
    else [c]
  }

  /** Escaping character by character, the reference the passes are compared to. */
  function Charwise(s: string): (r: string)
    ensures NoMarkup(r)
  {
    if s == [] then [] else EscChar(s[0]) + Charwise(s[1..])
  }

  /** The four replace-all passes, in the order the source applies them. */
  function Passes(s: string): string {
    ReplaceChar(ReplaceChar(ReplaceChar(ReplaceChar(s, '&', "&amp;"), '<', "&lt;"), '>', "&gt;"), '"', "&quot;")
  }

  lemma PassesConcat(a: string, b: string)
    ensures Passes(a + b) == Passes(a) + Passes(b)
  {
    var a1, b1 := ReplaceChar(a, '&', "&amp;"), ReplaceChar(b, '&', "&amp;");
    ReplaceCharConcat(a, b, '&', "&amp;");
    var a2, b2 := ReplaceChar(a1, '<', "&lt;"), ReplaceChar(b1, '<', "&lt;");
    ReplaceCharConcat(a1, b1, '<', "&lt;");
    var a3, b3 := ReplaceChar(a2, '>', "&gt;"), ReplaceChar(b2, '>', "&gt;");
    ReplaceCharConcat(a2, b2, '>', "&gt;");
    ReplaceCharConcat(a3, b3, '"', "&quot;");
  }

  lemma ReplaceOne(c: char, d: char, repl: string)
    ensures ReplaceChar([c], d, repl) == if c == d then repl else [c]
  {
    assert [c][1..] == [];
  }

  lemma PassesSingle(c: char)
    ensures Passes([c]) == EscChar(c)
  {
    ReplaceOne(c, '&', "&amp;");
    if c == '&' {
      assert '<' !in "&amp;" && '>' !in "&amp;" && '"' !in "&amp;";
    } else {
      ReplaceOne(c, '<', "&lt;");
      if c == '<' {
        assert '>' !in "&lt;" && '"' !in "&lt;";
      } else {
        ReplaceOne(c, '>', "&gt;");
        if c == '>' {
          assert '"' !in "&gt;";
        } else {
          ReplaceOne(c, '"', "&quot;");
        }
      }
    }
  }

  /** Because `&` is replaced first, no later pass can touch the `&` of an
      entity already produced, and the passes amount to per-character escaping. */
  lemma {:induction false} EscIsCharwise(s: string)
    ensures Passes(s) == Charwise(s)
  {
    if s != [] {
      assert s == [s[0]] + s[1..];
      PassesConcat([s[0]], s[1..]);
      PassesSingle(s[0]);
      EscIsCharwise(s[1..]);
    }
  }

  /** Decoding of the four entities, the inverse the browser applies. */
  function Unescape(t: string): string
    decreases |t|
  {
    if t == [] then []
    else if StartsWith(t, "&amp;") then "&" + Unescape(t[5..])
    else if StartsWith(t, "&lt;") then "<" + Unescape(t[4..])
    else if StartsWith(t, "&gt;") then ">" + Unescape(t[4..])
    else if StartsWith(t, "&quot;") then "\"" + Unescape(t[6..])
    else [t[0]] + Unescape(t[1..])
  }

  lemma UnescapeStep(c: char, rest: string)
    ensures Unescape(EscChar(c) + rest) == [c] + Unescape(rest)
  {
    var t := EscChar(c) + rest;
    if c == '&' {
      assert t[..5] == "&amp;" && t[5..] == rest;
    } else if c == '<' {
      assert t[1] == 'l';
      assert !StartsWith(t, "&amp;");
      assert t[..4] == "&lt;" && t[4..] == rest;
    } else if c == '>' {
      assert t[1] == 'g';
      assert !StartsWith(t, "&amp;") && !StartsWith(t, "&lt;");
      assert t[..4] == "&gt;" && t[4..] == rest;
    } else if c == '"' {
      assert t[1] == 'q';
      assert !StartsWith(t, "&amp;") && !StartsWith(t, "&lt;") && !StartsWith(t, "&gt;");
      assert t[..6] == "&quot;" && t[6..] == rest;
    } else {
      assert t[0] == c && c != '&' && t[1..] == rest;
      assert !StartsWith(t, "&amp;") && !StartsWith(t, "&lt;");
      assert !StartsWith(t, "&gt;") && !StartsWith(t, "&quot;");
    }
  }

  lemma {:induction false} UnescapeCharwise(s: string)
    ensures Unescape(Charwise(s)) == s
  {
    if s != [] {
      UnescapeStep(s[0], Charwise(s[1..]));
      UnescapeCharwise(s[1..]);
    }
  }

  /** Escaped text decodes back to the original: escaping loses nothing. */
  lemma EscRoundTrip(s: string)
    ensures Unescape(Esc(s)) == s
  {
    EscIsCharwise(s);
    UnescapeCharwise(s);
  }

  /** Text without any of the four special characters is left unchanged. */
  lemma {:induction false} EscOfPlain(s: string)
    requires forall i :: 0 <= i < |s| ==> s[i] != '&' && s[i] != '<' && s[i] != '>' && s[i] != '"'
    ensures Esc(s) == s
  {
    EscIsCharwise(s);
    CharwiseOfPlain(s);
  }

  lemma {:induction false} CharwiseOfPlain(s: string)
    requires forall i :: 0 <= i < |s| ==> s[i] != '&' && s[i] != '<' && s[i] != '>' && s[i] != '"'
    ensures Charwise(s) == s
  {
    if s != [] {
      CharwiseOfPlain(s[1..]);
    }
  }

  /** Words and file names without a special character pass through
      unchanged: each pass finds nothing to replace. */
  lemma PlainLiteral(s: string)
    requires '&' !in s && '<' !in s && '>' !in s && '"' !in s
    ensures Esc(s) == s
  {
  }

  // One literal per lemma: kept apart, each proof stays small.
  lemma EscCritical() ensures Esc("critical") == "critical" { PlainLiteral("critical"); }
  lemma EscSerious() ensures Esc("serious") == "serious" { PlainLiteral("serious"); }
  lemma EscModerate() ensures Esc("moderate") == "moderate" { PlainLiteral("moderate"); }
  lemma EscMinor() ensures Esc("minor") == "minor" { PlainLiteral("minor"); }
  lemma EscLatestCsv() ensures Esc("latest.csv") == "latest.csv" { PlainLiteral("latest.csv"); }
  lemma EscLatestJson() ensures Esc("latest.json") == "latest.json" { PlainLiteral("latest.json"); }
}
