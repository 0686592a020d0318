/** Inferring a field's kind from the text of its `type` value: an ordered
    table of (test on the text, kind) pairs, first match wins. The extractor
    uses three such tables, one per nesting level, that differ in which
    entries they have (src/core/extractor.ts:85-94, 175-183, 230-236, 281-286). */
module Classify {
  import opened Schema
  import opened Text

  /** A table entry: it matches a text that contains one of `needles` or
      starts with one of `prefixes`. */
  datatype Rule = Rule(needles: seq<string>, prefixes: seq<string>, kind: Kind)

  predicate Matches(r: Rule, text: string)
  {
    || (exists i :: 0 <= i < |r.needles| && Contains(text, r.needles[i]))
    || (exists i :: 0 <= i < |r.prefixes| && StartsWith(text, r.prefixes[i]))
  }

  /** Entry `i` is the first entry of the table that matches the text. */
  ghost predicate IsFirstMatch(text: string, rules: seq<Rule>, i: int)
  {
    && 0 <= i < |rules|
    && Matches(rules[i], text)
    && forall j :: 0 <= j < i ==> !Matches(rules[j], text)
  }

  /** The kind of the first matching entry, or `Unknown` when none matches. */
  function Classify(text: string, rules: seq<Rule>): (k: Kind)
    ensures || (exists i :: IsFirstMatch(text, rules, i) && k == rules[i].kind)
            || ((forall i :: 0 <= i < |rules| ==> !Matches(rules[i], text)) && k == Unknown)
  {
    if |rules| == 0 then Unknown
    else if Matches(rules[0], text) then
      assert IsFirstMatch(text, rules, 0);
      rules[0].kind
    else
      var k := Classify(text, rules[1..]);
      assert forall i :: 0 <= i < |rules| - 1 ==> rules[1..][i] == rules[i + 1];
      assert forall i :: IsFirstMatch(text, rules[1..], i) ==> IsFirstMatch(text, rules, i + 1);
      k
  }

  /** The table for top-level and nested schema properties (lines 85-94, 175-183). */
  const FieldRules: seq<Rule> := [
    Rule(["String"], [], String),
    Rule(["Number"], [], Number),
    Rule(["Boolean"], [], Boolean),
    Rule(["Date"], [], Date),
    Rule(["Array"], ["["], Array),
    Rule(["Object"], [], Object),
    Rule(["Buffer"], [], Buffer),
    Rule(["Map"], [], Map),
    Rule(["ObjectId", "Schema.Types.ObjectId"], [], ObjectId)
  ]

  /** The table for doubly nested properties (lines 230-236): no `[` prefix,
      no Buffer, no Map. */
  const DeepRules: seq<Rule> := [
    Rule(["String"], [], String),
    Rule(["Number"], [], Number),
    Rule(["Boolean"], [], Boolean),
    Rule(["Date"], [], Date),
    Rule(["Array"], [], Array),
    Rule(["Object"], [], Object),
    Rule(["ObjectId"], [], ObjectId)
  ]

  /** The table for the item of an array property (lines 281-286): no Array,
      no Buffer, no Map. */
  const ItemRules: seq<Rule> := [
    Rule(["String"], [], String),
    Rule(["Number"], [], Number),
    Rule(["Boolean"], [], Boolean),
    Rule(["Date"], [], Date),
    Rule(["Object"], [], Object),
    Rule(["ObjectId", "Schema.Types.ObjectId"], [], ObjectId)
  ]

  /** In a table where an `Object` entry precedes the only ObjectId entry,
      and that entry only tests for texts that contain `Object`, no text is
      classified as ObjectId. */
  lemma ShadowedObjectId(text: string, rules: seq<Rule>, a: nat, b: nat)
    requires a < b < |rules| && rules[a] == Rule(["Object"], [], Object)
    requires forall j :: 0 <= j < |rules| && j != b ==> rules[j].kind != ObjectId
    requires |rules[b].prefixes| == 0
    requires forall n :: 0 <= n < |rules[b].needles| ==> Contains(rules[b].needles[n], "Object")
    ensures Classify(text, rules) != ObjectId
  {
    var k := Classify(text, rules);
    if i :| IsFirstMatch(text, rules, i) && k == rules[i].kind {
      if Matches(rules[b], text) {
        ObjectNeedleMatch(text, rules[a], rules[b]);
        assert i <= a;
      }
      assert i != b;
    }
  }

  /** A text matched by an entry whose needles all contain `Object` is
      matched by the `Object` entry too. */
  lemma ObjectNeedleMatch(text: string, obj: Rule, r: Rule)
    requires obj == Rule(["Object"], [], Object)
    requires |r.prefixes| == 0 && Matches(r, text)
    requires forall n :: 0 <= n < |r.needles| ==> Contains(r.needles[n], "Object")
    ensures Matches(obj, text)
  {
    var n :| 0 <= n < |r.needles| && Contains(text, r.needles[n]);
    ContainsTransitive(text, r.needles[n], "Object");
    assert obj.needles[0] == "Object";
  }

  lemma ObjectIdNeedlesContainObject()
    ensures Contains("ObjectId", "Object")
    ensures Contains("Schema.Types.ObjectId", "Object")
  {
    assert StartsWith("ObjectId"[0..], "Object");
    assert StartsWith("Schema.Types.ObjectId"[13..], "Object");
  }

  /** Because every text that contains `ObjectId` also contains `Object`,
      none of the three tables ever yields ObjectId. */
  lemma NeverObjectId(text: string)
    ensures Classify(text, FieldRules) != ObjectId
    ensures Classify(text, DeepRules) != ObjectId
    ensures Classify(text, ItemRules) != ObjectId
  {
    ObjectIdNeedlesContainObject();
    FieldRulesNeverObjectId(text);
    DeepRulesNeverObjectId(text);
    ItemRulesNeverObjectId(text);
  }

  lemma FieldRulesNeverObjectId(text: string)
    requires Contains("ObjectId", "Object") && Contains("Schema.Types.ObjectId", "Object")
    ensures Classify(text, FieldRules) != ObjectId
  {
    ShadowedObjectId(text, FieldRules, 5, 8);
  }

  lemma DeepRulesNeverObjectId(text: string)
    requires Contains("ObjectId", "Object")
    ensures Classify(text, DeepRules) != ObjectId
  {
    ShadowedObjectId(text, DeepRules, 5, 6);
  }

  lemma ItemRulesNeverObjectId(text: string)
    requires Contains("ObjectId", "Object") && Contains("Schema.Types.ObjectId", "Object")
    ensures Classify(text, ItemRules) != ObjectId
  {
    ShadowedObjectId(text, ItemRules, 4, 5);
  }

  /** The exact-token kind map of the text-pattern fallback
      (src/core/extractor.ts:409-417): only the eight whole words are known. */
  function TokenKind(t: string): (k: Kind)
    ensures k != ObjectId
    ensures k == Unknown <==> t !in {"String", "Number", "Boolean", "Date", "Array", "Object", "Buffer", "Map"}
    ensures k != Unknown ==> KindName(k) == t
  {
    if t == "String" then String
    else if t == "Number" then Number
    else if t == "Boolean" then Boolean
    else if t == "Date" then Date
    else if t == "Array" then Array
    else if t == "Object" then Object
    else if t == "Buffer" then Buffer
    else if t == "Map" then Map
    else Unknown
  }

  /** The token map reads back the name of every kind it can produce. */
  lemma TokenKindOfName(k: Kind)
    requires k != ObjectId && k != Unknown
    ensures TokenKind(KindName(k)) == k
  {
  }

  /** Two first matches are the same entry. */
  lemma FirstMatchUnique(text: string, rules: seq<Rule>, i: int, j: int)
    requires IsFirstMatch(text, rules, i) && IsFirstMatch(text, rules, j)
    ensures i == j
  {
  }

  /** The classification is the kind of the first matching entry. */
  lemma ClassifyAt(text: string, rules: seq<Rule>, i: int)
    requires IsFirstMatch(text, rules, i)
    ensures Classify(text, rules) == rules[i].kind
  {
    var k := Classify(text, rules);
    if j :| IsFirstMatch(text, rules, j) && k == rules[j].kind {
      FirstMatchUnique(text, rules, i, j);
    }
  }

  /** When the first character of a needle occurs nowhere in a text but at
      its start, the text contains the needle only as a prefix. */
  lemma ContainsOnlyAtStart(s: string, p: string)
    requires |p| > 0 && forall i :: 0 < i < |s| ==> s[i] != p[0]
    ensures Contains(s, p) <==> StartsWith(s, p)
  {
    if StartsWith(s, p) {
      assert StartsWith(s[0..], p);
    }
  }

  /** A one-needle entry, possibly with the `[` prefix, on a text that does
      not start with `[` and whose first needle character occurs only at its start. */
  lemma SingleNeedle(t: string, r: Rule)
    requires |r.needles| == 1 && |r.needles[0]| > 0
    requires |r.prefixes| == 0 || r.prefixes == ["["]
    requires |t| > 0 && t[0] != '['
    requires forall i :: 0 < i < |t| ==> t[i] != r.needles[0][0]
    ensures Matches(r, t) <==> StartsWith(t, r.needles[0])
  {
    ContainsOnlyAtStart(t, r.needles[0]);
  }

  /** The word `ObjectId` is where the two classifiers part: the exact map does not know
      it, the substring table reads it as Object. */
  lemma ObjectIdToken()
    ensures TokenKind("ObjectId") == Unknown
    ensures Classify("ObjectId", FieldRules) == Object
  {
    var t := "ObjectId";
    forall j | 0 <= j < 5
      ensures !Matches(FieldRules[j], t)
    {
      assert forall i :: 0 < i < |t| ==> t[i] != FieldRules[j].needles[0][0];
      SingleNeedle(t, FieldRules[j]);
    }
    assert StartsWith(t[0..], "Object");
    assert Contains(t, FieldRules[5].needles[0]);
    assert Matches(FieldRules[5], t);
    ClassifyAt(t, FieldRules, 5);
  }
}
