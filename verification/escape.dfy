/** `_escapeHtml` (src/ui/PayloadPanel.ts:285-292): five global replacements,
    `&` first, so that the entities the later passes insert are not escaped
    again. The model proves the chain equals a per-character escape, that the
    result holds no markup character, that it decodes back to the input, and
    that the escaped strings are exactly the well-formed ones. */
module Escape {
  import opened Schema

  /** `s.replace(/c/g, rep)`: every occurrence of `c`, left to right. */
  function Replace(s: string, c: char, rep: string): (r: string)
    ensures c !in s ==> r == s
    ensures c !in rep ==> c !in r
    ensures forall d :: d in r ==> d in s || d in rep
  {
    if |s| == 0 then ""
    else (if s[0] == c then rep else [s[0]]) + Replace(s[1..], c, rep)
  }

  /** Replacing in a concatenation replaces in each part. */
  lemma {:induction false} ReplaceAppend(a: string, b: string, c: char, rep: string)
    ensures Replace(a + b, c, rep) == Replace(a, c, rep) + Replace(b, c, rep)
    decreases |a|
  {
    if |a| == 0 {
      assert a + b == b;
    } else {
      assert (a + b)[0] == a[0];
      assert (a + b)[1..] == a[1..] + b;
      ReplaceAppend(a[1..], b, c, rep);
    }
  }

  /** The chain of replacements, in the source's order. */
  function EscapeHtml(s: string): (r: string)
    ensures '<' !in r && '>' !in r && '"' !in r && '\'' !in r
  {
    var amp := Replace(s, '&', "&amp;");
    var lt := Replace(amp, '<', "&lt;");
    var gt := Replace(lt, '>', "&gt;");
    var quot := Replace(gt, '"', "&quot;");
    assert '<' !in quot && '>' !in quot;
    Replace(quot, '\'', "&#039;")
  }

  /** The characters the escaper rewrites. */
  predicate IsSpecial(c: char)
  {
    c == '&' || c == '<' || c == '>' || c == '"' || c == '\''
  }

  /** The entity written for one character. */
  function EscChar(c: char): (r: string)
    ensures |r| >= 1
    ensures IsSpecial(c) <==> |r| > 1
    ensures !IsSpecial(c) ==> r == [c]
  {
    if c == '&' then "&amp;"
    else if c == '<' then "&lt;"
    else if c == '>' then "&gt;"
    else if c == '"' then "&quot;"
    else if c == '\'' then "&#039;"
    else [c]
  }

  /** Reference escaper: each character replaced by its entity, in one pass. */
  function EscapeEach(s: string): (r: string)
    ensures |r| >= |s|
  {
    if |s| == 0 then "" else EscChar(s[0]) + EscapeEach(s[1..])
  }

  /** The chain distributes over concatenation. */
  lemma EscapeHtmlAppend(a: string, b: string)
    ensures EscapeHtml(a + b) == EscapeHtml(a) + EscapeHtml(b)
  {
    ReplaceAppend(a, b, '&', "&amp;");
    var a1, b1 := Replace(a, '&', "&amp;"), Replace(b, '&', "&amp;");
    ReplaceAppend(a1, b1, '<', "&lt;");
    var a2, b2 := Replace(a1, '<', "&lt;"), Replace(b1, '<', "&lt;");
    ReplaceAppend(a2, b2, '>', "&gt;");
    var a3, b3 := Replace(a2, '>', "&gt;"), Replace(b2, '>', "&gt;");
    ReplaceAppend(a3, b3, '"', "&quot;");
    var a4, b4 := Replace(a3, '"', "&quot;"), Replace(b3, '"', "&quot;");
    ReplaceAppend(a4, b4, '\'', "&#039;");
  }

  /** On one character the chain yields that character's entity: no pass
      touches what an earlier pass inserted. */
  lemma EscapeHtmlChar(c: char)
    ensures EscapeHtml([c]) == EscChar(c)
  {
    ReplaceOne(c, '&', "&amp;");
    if c == '&' {
      assert '<' !in "&amp;" && '>' !in "&amp;" && '"' !in "&amp;" && '\'' !in "&amp;";
    } else {
      ReplaceOne(c, '<', "&lt;");
      if c == '<' {
        assert '>' !in "&lt;" && '"' !in "&lt;" && '\'' !in "&lt;";
      } else {
        ReplaceOne(c, '>', "&gt;");
        if c == '>' {
          assert '"' !in "&gt;" && '\'' !in "&gt;";
        } else {
          ReplaceOne(c, '"', "&quot;");
          if c == '"' {
            assert '\'' !in "&quot;";
          } else {
            ReplaceOne(c, '\'', "&#039;");
          }
        }
      }
    }
  }

  lemma ReplaceOne(c: char, d: char, rep: string)
    ensures Replace([c], d, rep) == if c == d then rep else [c]
  {
    assert [c][1..] == "";
  }

  /** The five passes escape each character independently. */
  lemma {:induction false} EscapeHtmlIsEach(s: string)
    ensures EscapeHtml(s) == EscapeEach(s)
    decreases |s|
  {
    if |s| == 0 {
    } else {
      assert s == [s[0]] + s[1..];
      EscapeHtmlAppend([s[0]], s[1..]);
      EscapeHtmlChar(s[0]);
      EscapeHtmlIsEach(s[1..]);
    }
  }

  /** A string without the five characters is left as it is. */
  lemma {:induction false} NoSpecialsUnchanged(s: string)
    requires forall i :: 0 <= i < |s| ==> !IsSpecial(s[i])
    ensures EscapeHtml(s) == s
    decreases |s|
  {
    EscapeHtmlIsEach(s);
    EachUnchanged(s);
  }

  lemma {:induction false} EachUnchanged(s: string)
    requires forall i :: 0 <= i < |s| ==> !IsSpecial(s[i])
    ensures EscapeEach(s) == s
    decreases |s|
  {
    if |s| > 0 {
      EachUnchanged(s[1..]);
    }
  }

  /** Number of occurrences of `c` in `s`. */
  function Count(s: string, c: char): (n: nat)
    ensures n <= |s|
  {
    if |s| == 0 then 0 else (if s[0] == c then 1 else 0) + Count(s[1..], c)
  }

  /** The length grows by the entity lengths: 4 per `&`, 3 per `<` or `>`,
      5 per quote or apostrophe. */
  lemma {:induction false} EscapeHtmlLength(s: string)
    ensures |EscapeHtml(s)| == |s| + 4 * Count(s, '&') + 3 * Count(s, '<') + 3 * Count(s, '>')
                                 + 5 * Count(s, '"') + 5 * Count(s, '\'')
  {
    EscapeHtmlIsEach(s);
    EachLength(s);
  }

  lemma {:induction false} EachLength(s: string)
    ensures |EscapeEach(s)| == |s| + 4 * Count(s, '&') + 3 * Count(s, '<') + 3 * Count(s, '>')
                                 + 5 * Count(s, '"') + 5 * Count(s, '\'')
    decreases |s|
  {
    if |s| > 0 {
      EachLength(s[1..]);
    }
  }

  // -----------------------------------------------------------------------
  // Decoding, and the strings the escaper can produce
  // -----------------------------------------------------------------------

  /** `e` is a prefix of `t`. */
  predicate Begins(t: string, e: string)
  {
    |e| <= |t| && t[..|e|] == e
  }

  /** The entity `t` begins with, as the character it stands for. */
  function EntityAt(t: string): (r: Option<char>)
    ensures r.Some? ==> IsSpecial(r.value) && Begins(t, EscChar(r.value))
    ensures r.None? ==> forall c :: IsSpecial(c) ==> !Begins(t, EscChar(c))
  {
    if Begins(t, "&amp;") then Some('&')
    else if Begins(t, "&lt;") then Some('<')
    else if Begins(t, "&gt;") then Some('>')
    else if Begins(t, "&quot;") then Some('"')
    else if Begins(t, "&#039;") then Some('\'')
    else None
  }

  /** Decodes the five entities; any other character stands for itself. */
  function Unescape(t: string): (s: string)
    ensures |s| <= |t|
    decreases |t|
  {
    if |t| == 0 then ""
    else match EntityAt(t)
      case Some(c) => [c] + Unescape(t[|EscChar(c)|..])
      case None => [t[0]] + Unescape(t[1..])
  }

  /** A string made of entities and characters the escaper leaves alone. */
  predicate WellEscaped(t: string)
    decreases |t|
  {
    |t| == 0 ||
    match EntityAt(t)
    case Some(c) => WellEscaped(t[|EscChar(c)|..])
    case None => !IsSpecial(t[0]) && WellEscaped(t[1..])
  }

  lemma EntityOfEscChar(c: char, rest: string)
    ensures IsSpecial(c) ==> EntityAt(EscChar(c) + rest) == Some(c)
    ensures !IsSpecial(c) ==> EntityAt(EscChar(c) + rest).None?
  {
    var e := EscChar(c);
    var t := e + rest;
    assert t[..|e|] == e;
    assert t[0] == e[0];
    if IsSpecial(c) {
      assert t[1] == e[1];
    }
  }

  /** Decoding undoes escaping. */
  lemma {:induction false} UnescapeEscape(s: string)
    ensures Unescape(EscapeHtml(s)) == s
  {
    EscapeHtmlIsEach(s);
    UnescapeEach(s);
  }

  lemma {:induction false} UnescapeEach(s: string)
    ensures Unescape(EscapeEach(s)) == s
    decreases |s|
  {
    if |s| > 0 {
      var t := EscapeEach(s);
      var e := EscChar(s[0]);
      assert t == e + EscapeEach(s[1..]);
      EntityOfEscChar(s[0], EscapeEach(s[1..]));
      assert t[|e|..] == EscapeEach(s[1..]);
      UnescapeEach(s[1..]);
      assert s == [s[0]] + s[1..];
    }
  }

  /** Everything the escaper outputs is well formed. */
  lemma {:induction false} EscapeHtmlWellEscaped(s: string)
    ensures WellEscaped(EscapeHtml(s))
  {
    EscapeHtmlIsEach(s);
    EachWellEscaped(s);
  }

  lemma {:induction false} EachWellEscaped(s: string)
    ensures WellEscaped(EscapeEach(s))
    decreases |s|
  {
    if |s| > 0 {
      var t := EscapeEach(s);
      var e := EscChar(s[0]);
      assert t == e + EscapeEach(s[1..]);
      EntityOfEscChar(s[0], EscapeEach(s[1..]));
      assert t[|e|..] == EscapeEach(s[1..]);
      EachWellEscaped(s[1..]);
    }
  }

  /** Every well-formed string is the escape of its decoding, so the escaper
      maps onto exactly the well-formed strings. */
  lemma EscapeUnescape(t: string)
    requires WellEscaped(t)
    ensures EscapeHtml(Unescape(t)) == t
  {
    EachUnescape(t);
    EscapeHtmlIsEach(Unescape(t));
  }

  /** Escaping a decoded first character and the rest separately. */
  lemma EachCons(c: char, u: string)
    ensures EscapeEach([c] + u) == EscChar(c) + EscapeEach(u)
  {
    assert ([c] + u)[0] == c;
    assert ([c] + u)[1..] == u;
  }

  lemma {:induction false} EachUnescape(t: string)
    requires WellEscaped(t)
    ensures EscapeEach(Unescape(t)) == t
    decreases |t|
  {
    if |t| > 0 {
      var r := EntityAt(t);
      if r.Some? {
        var e := EscChar(r.value);
        var rest := t[|e|..];
        assert Unescape(t) == [r.value] + Unescape(rest);
        EachUnescape(rest);
        EachCons(r.value, Unescape(rest));
        assert t[..|e|] == e;
        assert t == e + rest;
      } else {
        var rest := t[1..];
        assert Unescape(t) == [t[0]] + Unescape(rest);
        EachUnescape(rest);
        EachCons(t[0], Unescape(rest));
        assert t == [t[0]] + rest;
      }
    }
  }

  /** No entity holds an `&` after its first character. */
  lemma EntityInnerChars(c: char, i: nat)
    requires 0 < i < |EscChar(c)|
    ensures EscChar(c)[i] != '&'
  {
  }

  /** Every `&` of the output begins one of the five entities. */
  lemma {:induction false} AmpersandsBeginEntities(t: string, i: nat)
    requires WellEscaped(t) && i < |t| && t[i] == '&'
    ensures EntityAt(t[i..]).Some?
    decreases |t|
  {
    match EntityAt(t)
    case Some(c) =>
      var e := EscChar(c);
      if i >= |e| {
        assert t[|e|..][i - |e|..] == t[i..];
        AmpersandsBeginEntities(t[|e|..], i - |e|);
      } else {
        assert t[..|e|] == e;
        assert t[i] == e[i];
        if i > 0 {
          EntityInnerChars(c, i);
        }
        assert i == 0;
        assert t[i..] == t;
      }
    case None =>
      assert i != 0;
      assert t[1..][i - 1..] == t[i..];
      AmpersandsBeginEntities(t[1..], i - 1);
  }
}
