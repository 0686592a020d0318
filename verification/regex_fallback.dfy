/** The text-pattern fallback used when parsing throws
    (src/core/extractor.ts:375-393): destructured names from
    `const { ... } = req.body` and names from `req.body.<word>`. The regular
    expressions are written out as scanners with the same leftmost-match and
    resume-after-match behaviour as a global `RegExp.exec` loop. */
module RegexFallback {
  import opened Schema
  import opened Text

  /** The destructuring pattern `/const\s*\{\s*([^}]+)\s*\}\s*=\s*req\.body/`
      tried at position `i`: the captured text and the index after the match.
      `const` and white space here, the braced list in `BraceAt`, the
      assignment from `req.body` in `AssignAt`. */
  function DestructureAt(t: string, i: nat): (m: Option<(string, nat)>)
    requires i <= |t|
    ensures m.Some? ==> i < m.value.1 <= |t|
    ensures m.Some? ==> |m.value.0| > 0 && '}' !in m.value.0
  {
    if StartsWith(t[i..], "const") then BraceAt(t, SkipSpaces(t, i + 5)) else None
  }

  /** `\{\s*([^}]+)\s*\}\s*` with the `{` expected at `a`, followed by the
      assignment: the capture and the index after the whole match. */
  function BraceAt(t: string, a: nat): (m: Option<(string, nat)>)
    requires a <= |t|
    ensures m.Some? ==> a < m.value.1 <= |t|
    ensures m.Some? ==> |m.value.0| > 0 && '}' !in m.value.0
  {
    if a == |t| || t[a] != '{' then None
    else
      var q := FindChar(t, a + 1, '}');
      if q == |t| || q == a + 1 then None
      else match AssignAt(t, SkipSpaces(t, q + 1))
        case None => None
        case Some(e) =>
          var s := CaptureFrom(t, a, q);
          assert forall k :: 0 <= k < q - s ==> t[s..q][k] == t[s + k];
          Some((t[s..q], e))
  }

  /** `=\s*req\.body` with the `=` expected at `c`: the index after the match. */
  function AssignAt(t: string, c: nat): (r: Option<nat>)
    requires c <= |t|
    ensures r.Some? ==> c < r.value <= |t|
  {
    if c == |t| || t[c] != '=' then None
    else
      var d := SkipSpaces(t, c + 1);
      if StartsWith(t[d..], "req.body") then Some(d + 8) else None
  }

  /** Where the capture between braces at `a` and `q` starts: the first
      non-space after `{`, or the last character before `}` when only white
      space lies between them (greedy `\s*` gives one character back so that
      `[^}]+` can match one). */
  function CaptureFrom(t: string, a: nat, q: nat): (s: nat)
    requires a + 1 < q <= |t|
    ensures a < s < q
  {
    var b := SkipSpaces(t, a + 1);
    if b < q then b else q - 1
  }

  /** Every capture of the destructuring pattern, leftmost first, each search
      resuming where the previous match ended. */
  function DestructureCaptures(t: string, i: nat): (cs: seq<string>)
    requires i <= |t|
    ensures forall k :: 0 <= k < |cs| ==> |cs[k]| > 0 && '}' !in cs[k]
    decreases |t| - i
  {
    if i == |t| then []
    else match DestructureAt(t, i)
      case Some((cap, e)) => [cap] + DestructureCaptures(t, e)
      case None => DestructureCaptures(t, i + 1)
  }

  /** The pattern matches at `i` with its `{` at `a`, its `}` at `q`, its `=`
      at `c` and `req.body` at `d`. Every gap the pattern spells `\s*` is white
      space, and since `[^}]+` cannot cross a `}`, `q` is the first `}` after
      the `{`. */
  ghost predicate DestructureMatch(t: string, i: nat, a: nat, q: nat, c: nat, d: nat)
  {
    OpenAt(t, i, a) && BracesAt(t, a, q) && CloseAt(t, q, c, d)
  }

  /** `const\s*\{` at `i`, with the `{` at `a`. */
  ghost predicate OpenAt(t: string, i: nat, a: nat)
  {
    && i + 5 <= a < |t|
    && t[i..i + 5] == "const"
    && (forall k :: i + 5 <= k < a ==> IsSpace(t[k]))
    && t[a] == '{'
  }

  /** At least one character, none of them `}`, between `{` at `a` and `}` at `q`. */
  ghost predicate BracesAt(t: string, a: nat, q: nat)
  {
    && a + 1 < q < |t|
    && (forall k :: a < k < q ==> t[k] != '}')
    && t[q] == '}'
  }

  /** `\s*=\s*req\.body` after the `}` at `q`, with `=` at `c` and `req.body` at `d`. */
  ghost predicate CloseAt(t: string, q: nat, c: nat, d: nat)
  {
    && q < c < d && d + 8 <= |t|
    && (forall k :: q < k < c ==> IsSpace(t[k]))
    && t[c] == '='
    && (forall k :: c < k < d ==> IsSpace(t[k]))
    && t[d..d + 8] == "req.body"
  }

  /** The capture of a match with braces at `a` and `q` starts at `s`: the
      first non-space after `{`, or the last character before `}` when only
      white space lies between the braces (greedy `\s*` gives one character
      back so that `[^}]+` can match). The capture ends right before `}`, so
      it keeps trailing white space: greedy `[^}]+` leaves nothing to the
      `\s*` in front of `}`. */
  ghost predicate CaptureStart(t: string, a: nat, q: nat, s: nat)
  {
    && a < s < q <= |t|
    && (forall k :: a < k < s ==> IsSpace(t[k]))
    && (s == q - 1 || !IsSpace(t[s]))
  }

  /** The pattern matches at `i` with some choice of positions. */
  ghost predicate MatchesAt(t: string, i: nat)
  {
    exists a: nat, q: nat, c: nat, d: nat :: DestructureMatch(t, i, a, q, c, d)
  }

  /** `SkipSpaces` stops at the first non-space. */
  lemma FirstNonSpace(t: string, i: nat, j: nat)
    requires i <= j < |t| && !IsSpace(t[j])
    requires forall k :: i <= k < j ==> IsSpace(t[k])
    ensures SkipSpaces(t, i) == j
  {
  }

  /** `FindChar` stops at the first occurrence. */
  lemma FirstOccurrence(t: string, i: nat, j: nat, ch: char)
    requires i <= j < |t| && t[j] == ch
    requires forall k :: i <= k < j ==> t[k] != ch
    ensures FindChar(t, i, ch) == j
  {
  }

  /** Every pair of braces with a character between them has a capture start. */
  lemma CaptureStartOf(t: string, a: nat, q: nat) returns (s: nat)
    requires a + 1 < q <= |t|
    ensures CaptureStart(t, a, q, s)
  {
    s := CaptureFrom(t, a, q);
  }

  /** A reported assignment is `=`, white space and `req.body`. */
  lemma AssignAtSound(t: string, c: nat) returns (d: nat)
    requires c <= |t| && AssignAt(t, c).Some?
    ensures c < |t| && t[c] == '=' && c < d && d + 8 <= |t|
    ensures (forall k :: c < k < d ==> IsSpace(t[k])) && t[d..d + 8] == "req.body"
    ensures AssignAt(t, c) == Some(d + 8)
  {
    d := SkipSpaces(t, c + 1);
    assert t[d..][..8] == t[d..d + 8];
  }

  /** `=`, white space and `req.body` are reported as an assignment. */
  lemma AssignAtComplete(t: string, c: nat, d: nat)
    requires c < d && d + 8 <= |t| && t[c] == '='
    requires (forall k :: c < k < d ==> IsSpace(t[k])) && t[d..d + 8] == "req.body"
    ensures AssignAt(t, c) == Some(d + 8)
  {
    assert t[d..][..8] == t[d..d + 8];
    assert t[d] == t[d..d + 8][0];
    FirstNonSpace(t, c + 1, d);
  }

  /** A reported braced list is a match of the braces and the assignment. */
  lemma BraceAtSound(t: string, a: nat) returns (q: nat, c: nat, d: nat, s: nat)
    requires a <= |t| && BraceAt(t, a).Some?
    ensures a < |t| && t[a] == '{' && BracesAt(t, a, q) && CloseAt(t, q, c, d) && CaptureStart(t, a, q, s)
    ensures BraceAt(t, a) == Some((t[s..q], d + 8))
  {
    q := FindChar(t, a + 1, '}');
    c := SkipSpaces(t, q + 1);
    d := AssignAtSound(t, c);
    s := CaptureFrom(t, a, q);
  }

  /** Braces and an assignment are reported as a braced list. */
  lemma BraceAtComplete(t: string, a: nat, q: nat, c: nat, d: nat, s: nat)
    requires a < |t| && t[a] == '{' && BracesAt(t, a, q) && CloseAt(t, q, c, d) && CaptureStart(t, a, q, s)
    ensures BraceAt(t, a) == Some((t[s..q], d + 8))
  {
    FirstOccurrence(t, a + 1, q, '}');
    FirstNonSpace(t, q + 1, c);
    AssignAtComplete(t, c, d);
    CaptureStartIs(t, a, q, s);
  }

  /** A match the scanner reports is a match of the pattern, with the capture
      and the resume index the regular expression gives. */
  lemma DestructureAtSound(t: string, i: nat) returns (a: nat, q: nat, c: nat, d: nat, s: nat)
    requires i <= |t| && DestructureAt(t, i).Some?
    ensures DestructureMatch(t, i, a, q, c, d) && CaptureStart(t, a, q, s)
    ensures DestructureAt(t, i) == Some((t[s..q], d + 8))
  {
    assert t[i..][..5] == t[i..i + 5];
    a := SkipSpaces(t, i + 5);
    q, c, d, s := BraceAtSound(t, a);
  }

  /** Where the pattern matches, the scanner reports that match. */
  lemma DestructureAtComplete(t: string, i: nat, a: nat, q: nat, c: nat, d: nat, s: nat)
    requires DestructureMatch(t, i, a, q, c, d) && CaptureStart(t, a, q, s)
    ensures i <= |t|
    ensures DestructureAt(t, i) == Some((t[s..q], d + 8))
  {
    assert t[i..][..5] == t[i..i + 5];
    FirstNonSpace(t, i + 5, a);
    BraceAtComplete(t, a, q, c, d, s);
  }

  /** The capture start is the one the scanner computes. */
  lemma CaptureStartIs(t: string, a: nat, q: nat, s: nat)
    requires CaptureStart(t, a, q, s)
    ensures s == CaptureFrom(t, a, q)
  {
    var b := SkipSpaces(t, a + 1);
    if b < q {
      assert !IsSpace(t[b]);
      assert s == b;
    } else {
      assert s == q - 1;
    }
  }

  /** The scanner reports a match at `i` exactly when the pattern matches there. */
  lemma DestructureAtMatches(t: string, i: nat)
    requires i <= |t|
    ensures DestructureAt(t, i).Some? <==> MatchesAt(t, i)
  {
    if MatchesAt(t, i) {
      var a: nat, q: nat, c: nat, d: nat :| DestructureMatch(t, i, a, q, c, d);
      var s := CaptureStartOf(t, a, q);
      DestructureAtComplete(t, i, a, q, c, d, s);
    }
    if DestructureAt(t, i).Some? {
      var a, q, c, d, s := DestructureAtSound(t, i);
    }
  }

  /** No capture is found from `i` on exactly when the pattern matches nowhere
      from `i` on. */
  lemma {:induction false} DestructureCapturesEmpty(t: string, i: nat)
    requires i <= |t|
    ensures DestructureCaptures(t, i) == [] <==> forall j :: i <= j < |t| ==> !MatchesAt(t, j)
    decreases |t| - i
  {
    if i < |t| {
      DestructureAtMatches(t, i);
      if DestructureAt(t, i).None? {
        DestructureCapturesEmpty(t, i + 1);
      }
    }
  }

  /** Where the pattern does not match, the search moves one character on. */
  lemma DestructureCapturesSkip(t: string, i: nat)
    requires i < |t| && !MatchesAt(t, i)
    ensures DestructureCaptures(t, i) == DestructureCaptures(t, i + 1)
  {
    DestructureAtMatches(t, i);
  }

  /** Where the scanner reports a match, its capture comes first. */
  lemma DestructureCapturesHit(t: string, i: nat, cap: string, e: nat)
    requires i < |t| && DestructureAt(t, i) == Some((cap, e))
    ensures e <= |t| && DestructureCaptures(t, i) == [cap] + DestructureCaptures(t, e)
  {
  }

  /** The first capture is the one of the leftmost match: the text from the
      capture start up to the first `}`; the search then resumes right after
      `req.body`. */
  lemma {:induction false} DestructureCapturesLeftmost(
    t: string, i: nat, j: nat, a: nat, q: nat, c: nat, d: nat, s: nat)
    requires i <= j && DestructureMatch(t, j, a, q, c, d) && CaptureStart(t, a, q, s)
    requires forall k :: i <= k < j ==> !MatchesAt(t, k)
    ensures d + 8 <= |t|
    ensures DestructureCaptures(t, i) == [t[s..q]] + DestructureCaptures(t, d + 8)
    decreases j - i
  {
    if i < j {
      assert !MatchesAt(t, i);
      DestructureCapturesSkip(t, i);
      DestructureCapturesLeftmost(t, i + 1, j, a, q, c, d, s);
    } else {
      DestructureAtComplete(t, j, a, q, c, d, s);
      DestructureCapturesHit(t, j, t[s..q], d + 8);
    }
  }

  /** One name of a destructuring list: `field.trim().split(':')[0].trim()`.
      A renamed binding `key: alias` gives its key. */
  function BindingName(part: string): (n: string)
    ensures Trim(n) == n
    ensures ':' !in n
    ensures forall ch :: ch in n ==> ch in part
    ensures ':' !in Trim(part) ==> n == Trim(part)
    ensures forall i :: 0 <= i < |Trim(part)| && Trim(part)[i] == ':' && ':' !in Trim(part)[..i] ==>
      n == Trim(Trim(part)[..i])
  {
    var t := Trim(part);
    var first := Split(t, ':')[0];
    TrimIdempotent(first);
    TrimIdempotent(part);
    FirstPieceBeforeColon(t, first);
    Trim(first)
  }

  /** The first piece of a split at `:` ends at the first `:`. */
  lemma FirstPieceBeforeColon(t: string, first: string)
    requires |first| <= |t| && first == t[..|first|] && ':' !in first && (|first| == |t| || t[|first|] == ':')
    ensures forall i :: 0 <= i < |t| && t[i] == ':' && ':' !in t[..i] ==> first == t[..i]
    ensures ':' !in t ==> first == t
  {
    forall i | 0 <= i < |t| && t[i] == ':' && ':' !in t[..i]
      ensures first == t[..i]
    {
      assert forall j :: 0 <= j < i ==> t[..i][j] == t[j];
      assert forall j :: 0 <= j < |first| ==> first[j] == t[j];
    }
    assert |first| < |t| ==> t[|first|] in t;
    assert t[..|t|] == t;
  }

  /** The names of one captured list: `capture.split(',').map(BindingName)`. */
  function BindingNames(capture: string): (ns: seq<string>)
    ensures |ns| == |Split(capture, ',')|
    ensures forall k :: 0 <= k < |ns| ==> Trim(ns[k]) == ns[k] && ':' !in ns[k] && ',' !in ns[k]
    ensures forall k :: 0 <= k < |ns| && ':' !in Trim(Split(capture, ',')[k]) ==>
      ns[k] == Trim(Split(capture, ',')[k])
    ensures forall k, i ::
      (&& 0 <= k < |ns| && 0 <= i < |Trim(Split(capture, ',')[k])|
       && Trim(Split(capture, ',')[k])[i] == ':' && ':' !in Trim(Split(capture, ',')[k])[..i])
      ==> ns[k] == Trim(Trim(Split(capture, ',')[k])[..i])
  {
    var parts := Split(capture, ',');
    seq(|parts|, k requires 0 <= k < |parts| => BindingName(parts[k]))
  }

  /** The pieces the names come from are the comma-separated pieces of the
      capture: none holds a comma and joined with commas they give it back. */
  lemma BindingNamesPieces(capture: string)
    ensures var parts := Split(capture, ',');
      && Join(parts, ',') == capture
      && (forall k :: 0 <= k < |parts| ==> ',' !in parts[k])
      && |BindingNames(capture)| == |parts|
      && (forall k :: 0 <= k < |parts| ==> BindingNames(capture)[k] == BindingName(parts[k]))
  {
    JoinSplit(capture, ',');
  }

  function AllBindingNames(captures: seq<string>): (ns: seq<string>)
    ensures forall k :: 0 <= k < |ns| ==> Trim(ns[k]) == ns[k] && ':' !in ns[k] && ',' !in ns[k]
  {
    if |captures| == 0 then [] else BindingNames(captures[0]) + AllBindingNames(captures[1..])
  }

  /** The access pattern `/req\.body\.(\w+)/` matches at position `i`. */
  predicate AccessAt(t: string, i: nat)
    requires i <= |t|
  {
    StartsWith(t[i..], "req.body.") && i + 9 < |t| && IsWordChar(t[i + 9])
  }

  /** The name captured by a match at `i`: the maximal run of word
      characters after `req.body.`. */
  function CaptureAt(t: string, i: nat): string
    requires i <= |t| && AccessAt(t, i)
  {
    t[i + 9..i + 9 + WordRunLength(t, i + 9)]
  }

  /** Every capture of the access pattern, leftmost first, each search resuming
      after the previous match. */
  function AccessNames(t: string, i: nat): seq<string>
    requires i <= |t|
    decreases |t| - i
  {
    if i == |t| then []
    else if AccessAt(t, i) then
      [CaptureAt(t, i)] + AccessNames(t, i + 9 + WordRunLength(t, i + 9))
    else AccessNames(t, i + 1)
  }

  /** No name is found from `i` on exactly when the pattern matches nowhere
      from `i` on. */
  lemma {:induction false} AccessNamesEmpty(t: string, i: nat)
    requires i <= |t|
    ensures AccessNames(t, i) == [] <==> forall j :: i <= j <= |t| ==> !AccessAt(t, j)
    decreases |t| - i
  {
    if i < |t| && !AccessAt(t, i) {
      AccessNamesEmpty(t, i + 1);
    }
  }

  /** The first name found is the one at the leftmost match, and the search
      then resumes right after that name's word run. */
  lemma {:induction false} AccessNamesLeftmost(t: string, i: nat, j: nat)
    requires i <= j <= |t| && AccessAt(t, j)
    requires forall k :: i <= k < j ==> !AccessAt(t, k)
    ensures AccessNames(t, i) == [CaptureAt(t, j)] + AccessNames(t, j + 9 + WordRunLength(t, j + 9))
    decreases j - i
  {
    if i < j {
      AccessNamesLeftmost(t, i + 1, j);
    }
  }

  /** Every captured name comes from a match of the pattern at or after `i`;
      `j` is that match's position. */
  lemma {:induction false} AccessNameSource(t: string, i: nat, k: nat) returns (j: nat)
    requires i <= |t| && k < |AccessNames(t, i)|
    ensures i <= j < |t| && AccessAt(t, j)
    ensures AccessNames(t, i)[k] == CaptureAt(t, j)
    decreases |t| - i
  {
    assert i < |t|;
    if AccessAt(t, i) {
      var rest := AccessNames(t, i + 9 + WordRunLength(t, i + 9));
      assert AccessNames(t, i) == [CaptureAt(t, i)] + rest;
      if k == 0 {
        j := i;
      } else {
        j := AccessNameSource(t, i + 9 + WordRunLength(t, i + 9), k - 1);
        assert AccessNames(t, i)[k] == rest[k - 1];
      }
    } else {
      j := AccessNameSource(t, i + 1, k);
    }
  }

  /** Every captured name is a nonempty run of word characters. */
  lemma AccessNamesAreWords(t: string, k: nat)
    requires k < |AccessNames(t, 0)|
    ensures |AccessNames(t, 0)[k]| > 0
    ensures forall ch :: ch in AccessNames(t, 0)[k] ==> IsWordChar(ch)
  {
    var j := AccessNameSource(t, 0, k);
    assert forall ch :: ch in CaptureAt(t, j) ==> IsWordChar(ch);
  }

  /** The fields of lines 378-393, followed by whatever the schema-body
      scanning of lines 395-606 contributed (not part of this model and so
      taken as given). */
  function RegexFields(code: string, schemaScanFields: seq<Field>): (fs: seq<Field>)
    ensures |fs| >= |schemaScanFields|
    ensures fs[|fs| - |schemaScanFields|..] == schemaScanFields
    ensures forall k :: 0 <= k < |fs| - |schemaScanFields| ==>
      fs[k].kind == Unknown && fs[k].enumValues.None? && fs[k].children.None? && fs[k].ref.None?
    ensures Names(fs[..|fs| - |schemaScanFields|]) == AllBindingNames(DestructureCaptures(code, 0)) + AccessNames(code, 0)
  {
    var destructured := AllBindingNames(DestructureCaptures(code, 0));
    var accessed := AccessNames(code, 0);
    Unknowns(destructured + accessed) + schemaScanFields
  }
}
