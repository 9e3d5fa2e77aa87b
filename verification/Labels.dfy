/** Escaping of label values in the metrics exposition. */
module Labels {

  /** Replaces every occurrence of a character by a string. */
  function Replace(s: string, c: char, sub: string): string {
    if s == "" then "" else (if s[0] == c then sub else [s[0]]) + Replace(s[1..], c, sub)
  }

  predicate NeedsEscape(c: char) {
    c == '\\' || c == '"' || c == '\n' || c == '\r'
  }

  /** The four replacements in turn. */
  function Chain(v: string): string {
    Replace(Replace(Replace(Replace(v, '\\', "\\\\"), '"', "\\\""), '\n', "\\n"), '\r', "\\r")
  }

  /** The escaper: nothing to do for a plain value, otherwise four replacements in turn,
      the backslash first. */
  function EscapeLabel(v: string): string {
    if exists i :: 0 <= i < |v| && NeedsEscape(v[i]) then Chain(v) else v
  }

  /** The escape of one character. */
  function EscapeChar(c: char): string {
    if c == '\\' then "\\\\"
    else if c == '"' then "\\\""
    else if c == '\n' then "\\n"
    else if c == '\r' then "\\r"
    else [c]
  }

  function EscapeEach(v: string): string {
    if v == "" then "" else EscapeChar(v[0]) + EscapeEach(v[1..])
  }

  lemma {:induction false} ReplaceSplits(s: string, t: string, c: char, sub: string)
    ensures Replace(s + t, c, sub) == Replace(s, c, sub) + Replace(t, c, sub)
  {
    if s == "" {
      assert s + t == t;
    } else {
      assert (s + t)[1..] == s[1..] + t;
      ReplaceSplits(s[1..], t, c, sub);
    }
  }

  lemma {:induction false} ChainSplits(s: string, t: string)
    ensures Chain(s + t) == Chain(s) + Chain(t)
  {
    var s1, t1 := Replace(s, '\\', "\\\\"), Replace(t, '\\', "\\\\");
    var s2, t2 := Replace(s1, '"', "\\\""), Replace(t1, '"', "\\\"");
    var s3, t3 := Replace(s2, '\n', "\\n"), Replace(t2, '\n', "\\n");
    ReplaceSplits(s, t, '\\', "\\\\");
    ReplaceSplits(s1, t1, '"', "\\\"");
    ReplaceSplits(s2, t2, '\n', "\\n");
    ReplaceSplits(s3, t3, '\r', "\\r");
    hide Replace;
  }

  lemma One(a: char, c: char, sub: string)
    ensures Replace([a], c, sub) == if a == c then sub else [a]
  {
    assert ([a])[1..] == "";
    assert Replace("", c, sub) == "";
  }

  lemma Two(a: char, b: char, c: char, sub: string)
    requires a != c && b != c
    ensures Replace([a, b], c, sub) == [a, b]
  {
    One(b, c, sub);
    assert ([a, b])[1..] == [b];
  }

  lemma {:induction false} ChainOfChar(c: char)
    ensures Chain([c]) == EscapeChar(c)
  {
    One(c, '\\', "\\\\");
    One(c, '"', "\\\"");
    One(c, '\n', "\\n");
    One(c, '\r', "\\r");
    if c == '\\' {
      Two('\\', '\\', '"', "\\\"");
      Two('\\', '\\', '\n', "\\n");
      Two('\\', '\\', '\r', "\\r");
    } else if c == '"' {
      Two('\\', '"', '\n', "\\n");
      Two('\\', '"', '\r', "\\r");
    } else if c == '\n' {
      Two('\\', 'n', '\r', "\\r");
    }
    hide Replace;
  }

  lemma {:induction false} ChainIsEach(v: string)
    ensures Chain(v) == EscapeEach(v)
  {
    if v != "" {
      assert v == [v[0]] + v[1..];
      ChainSplits([v[0]], v[1..]);
      ChainOfChar(v[0]);
      ChainIsEach(v[1..]);
      hide Chain, EscapeChar;
    }
  }

  lemma {:induction false} PlainIsUnchanged(v: string)
    requires forall i :: 0 <= i < |v| ==> !NeedsEscape(v[i])
    ensures EscapeEach(v) == v
  {
    if v != "" {
      assert !NeedsEscape(v[0]);
      PlainIsUnchanged(v[1..]);
    }
  }

  /** The chained replacements, and the shortcut for plain values, are one escape applied
      character by character. */
  lemma {:induction false} EscapeIsPerCharacter(v: string)
    ensures EscapeLabel(v) == EscapeEach(v)
  {
    ChainIsEach(v);
    if !exists i :: 0 <= i < |v| && NeedsEscape(v[i]) {
      PlainIsUnchanged(v);
    }
  }

  /** Reads an escaped value back. */
  function Unescape(s: string): string
    decreases |s|
  {
    if s == "" then ""
    else if s[0] == '\\' && |s| > 1 then
      [if s[1] == 'n' then '\n' else if s[1] == 'r' then '\r' else s[1]] + Unescape(s[2..])
    else [s[0]] + Unescape(s[1..])
  }

  lemma {:induction false} UnescapeEach(v: string)
    ensures Unescape(EscapeEach(v)) == v
  {
    if v != "" {
      var head, rest := EscapeChar(v[0]), EscapeEach(v[1..]);
      UnescapeEach(v[1..]);
      assert (head + rest)[|head|..] == rest;
      hide EscapeEach;
    }
  }

  /** Escaping can be undone. */
  lemma {:induction false} EscapeRoundTrip(v: string)
    ensures Unescape(EscapeLabel(v)) == v
  {
    EscapeIsPerCharacter(v);
    UnescapeEach(v);
  }

  /** So distinct labels are rendered distinctly. */
  lemma {:induction false} EscapeIsInjective(v: string, w: string)
    ensures EscapeLabel(v) == EscapeLabel(w) <==> v == w
  {
    EscapeRoundTrip(v);
    EscapeRoundTrip(w);
  }

  /** A label body a scanner reads to its end: scanning left to right, a backslash takes
      the next character with it, and no raw quote, newline or carriage return is met. */
  predicate WellQuoted(s: string)
    decreases |s|
  {
    s == "" ||
    (if s[0] == '\\' then |s| > 1 && s[1] in {'\\', '"', 'n', 'r'} && WellQuoted(s[2..])
     else s[0] != '"' && s[0] != '\n' && s[0] != '\r' && WellQuoted(s[1..]))
  }

  lemma {:induction false} EachIsWellQuoted(v: string)
    ensures WellQuoted(EscapeEach(v))
  {
    if v != "" {
      var head, rest := EscapeChar(v[0]), EscapeEach(v[1..]);
      EachIsWellQuoted(v[1..]);
      assert (head + rest)[|head|..] == rest;
      hide EscapeEach;
    }
  }

  lemma {:induction false} WellQuotedHasNoBreaks(s: string)
    requires WellQuoted(s)
    ensures '\n' !in s && '\r' !in s
    decreases |s|
  {
    if s != "" {
      if s[0] == '\\' {
        WellQuotedHasNoBreaks(s[2..]);
        assert s == s[..2] + s[2..];
      } else {
        WellQuotedHasNoBreaks(s[1..]);
        assert s == [s[0]] + s[1..];
      }
    }
  }

  /** An escaped value holds no raw newline or carriage return and no unescaped quote. */
  lemma {:induction false} EscapedIsWellQuoted(v: string)
    ensures WellQuoted(EscapeLabel(v))
    ensures '\n' !in EscapeLabel(v) && '\r' !in EscapeLabel(v)
  {
    EscapeIsPerCharacter(v);
    EachIsWellQuoted(v);
    WellQuotedHasNoBreaks(EscapeLabel(v));
  }

  /** A value is rendered as it is exactly when it holds nothing to escape. */
  lemma {:induction false} UnchangedExactlyWhenPlain(v: string)
    ensures EscapeLabel(v) == v <==> forall i :: 0 <= i < |v| ==> !NeedsEscape(v[i])
  {
    EscapeIsPerCharacter(v);
    EachLength(v);
  }

  lemma {:induction false} EachLength(v: string)
    ensures |EscapeEach(v)| >= |v|
    ensures (exists i :: 0 <= i < |v| && NeedsEscape(v[i])) ==> |EscapeEach(v)| > |v|
  {
    if v != "" {
      EachLength(v[1..]);
      if i :| 0 <= i < |v| && NeedsEscape(v[i]) {
        if i > 0 {
          assert NeedsEscape(v[1..][i - 1]);
        }
      }
    }
  }
}
