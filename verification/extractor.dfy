/** `extractKeysFromCode` (src/core/extractor.ts:5-372) over an abstract
    syntax tree: the request-body strategies, the gated scan of schema object
    literals with two levels of nesting, enum resolution, array items, the
    text-pattern fallback after a failure, and first-occurrence
    de-duplication. */
module Extractor {
  import opened Schema
  import opened Text
  import opened Syntax
  import Classify
  import Dedup
  import opened RegexFallback

  // ---------------------------------------------------------------------
  // Collecting one field per `name: value` member
  // ---------------------------------------------------------------------

  /** The fields made from the `name: value` members of a literal whose name
      passes `keep`, in member order; other members are passed over. */
  function Collect(ps: seq<Prop>, keep: string -> bool, make: (string, Expr) -> Field): (fs: seq<Field>)
    ensures |fs| <= |ps|
    decreases |ps|
  {
    if |ps| == 0 then []
    else
      var rest := Collect(ps[1..], keep, make);
      match ps[0]
      case Assign(n, e) => if keep(n) then [make(n, e)] + rest else rest
      case NonAssign(_) => rest
  }

  /** The names of a literal's `name: value` members. */
  function AssignedNames(ps: seq<Prop>): set<string>
  {
    set i | 0 <= i < |ps| && ps[i].Assign? :: ps[i].name
  }

  lemma AssignedNamesTail(ps: seq<Prop>)
    requires |ps| > 0
    ensures AssignedNames(ps) == (if ps[0].Assign? then {ps[0].name} else {}) + AssignedNames(ps[1..])
  {
    assert forall i :: 1 <= i < |ps| ==> ps[i] == ps[1..][i - 1];
  }

  /** When `make` keeps the member's name, the collected names are exactly the
      member names that pass `keep`. */
  lemma {:induction false} CollectNames(ps: seq<Prop>, keep: string -> bool, make: (string, Expr) -> Field)
    requires forall n: string, e: Expr :: make(n, e).name == n
    ensures NameSet(Collect(ps, keep, make)) == set n | n in AssignedNames(ps) && keep(n)
    decreases |ps|
  {
    if |ps| > 0 {
      CollectNames(ps[1..], keep, make);
      AssignedNamesTail(ps);
      var rest := Collect(ps[1..], keep, make);
      if ps[0].Assign? && keep(ps[0].name) {
        Dedup.NameSetTail([make(ps[0].name, ps[0].init)] + rest);
        assert ([make(ps[0].name, ps[0].init)] + rest)[1..] == rest;
      }
    }
  }

  /** A property every made field has, every collected field has. */
  lemma {:induction false} CollectAll(ps: seq<Prop>, keep: string -> bool, make: (string, Expr) -> Field, P: Field -> bool)
    requires forall n: string, e: Expr :: keep(n) ==> P(make(n, e))
    ensures forall j :: 0 <= j < |Collect(ps, keep, make)| ==> P(Collect(ps, keep, make)[j])
    decreases |ps|
  {
    if |ps| > 0 {
      CollectAll(ps[1..], keep, make, P);
      var rest := Collect(ps[1..], keep, make);
      if ps[0].Assign? && keep(ps[0].name) {
        assert forall j :: 1 <= j < |rest| + 1 ==> ([make(ps[0].name, ps[0].init)] + rest)[j] == rest[j - 1];
      }
    }
  }

  /** Each field `fs[j]` is made from the kept `name: value` member `ps[idx[j]]`. */
  ghost predicate MadeFrom(ps: seq<Prop>, keep: string -> bool, make: (string, Expr) -> Field, fs: seq<Field>, idx: seq<nat>)
  {
    && |idx| == |fs|
    && forall j :: 0 <= j < |idx| ==>
         idx[j] < |ps| && ps[idx[j]].Assign? && keep(ps[idx[j]].name) && fs[j] == make(ps[idx[j]].name, ps[idx[j]].init)
  }

  predicate Increasing(idx: seq<nat>)
  {
    forall j, j' :: 0 <= j < j' < |idx| ==> idx[j] < idx[j']
  }

  /** Every kept `name: value` member is mapped to. */
  ghost predicate CoversKept(ps: seq<Prop>, keep: string -> bool, idx: seq<nat>)
  {
    forall k :: 0 <= k < |ps| && ps[k].Assign? && keep(ps[k].name) ==> k in idx
  }

  /** `fs` is what collecting `ps` should give: `idx` maps each field, in
      order, to the kept member it was made from, and every kept member is
      mapped to. */
  ghost predicate MadeInOrder(ps: seq<Prop>, keep: string -> bool, make: (string, Expr) -> Field, fs: seq<Field>, idx: seq<nat>)
  {
    MadeFrom(ps, keep, make, fs, idx) && Increasing(idx) && CoversKept(ps, keep, idx)
  }

  function Shift(idx: seq<nat>): (r: seq<nat>)
    ensures |r| == |idx| && forall j :: 0 <= j < |idx| ==> r[j] == idx[j] + 1
  {
    seq(|idx|, j requires 0 <= j < |idx| => idx[j] + 1)
  }

  /** A correspondence for the members after the first, shifted by one, is
      one for all members except that the first is not mapped to. */
  lemma ShiftMadeFrom(ps: seq<Prop>, keep: string -> bool, make: (string, Expr) -> Field, fs: seq<Field>, tail: seq<nat>)
    requires |ps| > 0 && MadeFrom(ps[1..], keep, make, fs, tail)
    ensures MadeFrom(ps, keep, make, fs, Shift(tail))
  {
    assert forall j :: 0 <= j < |tail| ==> ps[Shift(tail)[j]] == ps[1..][tail[j]];
  }

  lemma ShiftCovers(ps: seq<Prop>, keep: string -> bool, tail: seq<nat>)
    requires |ps| > 0 && CoversKept(ps[1..], keep, tail)
    ensures forall k :: 1 <= k < |ps| && ps[k].Assign? && keep(ps[k].name) ==> k in Shift(tail)
  {
    var sh := Shift(tail);
    forall k | 1 <= k < |ps| && ps[k].Assign? && keep(ps[k].name)
      ensures k in sh
    {
      assert ps[1..][k - 1] == ps[k];
      var j :| 0 <= j < |tail| && tail[j] == k - 1;
      assert sh[j] == k;
    }
  }

  lemma KeptMadeFrom(ps: seq<Prop>, keep: string -> bool, make: (string, Expr) -> Field, fs: seq<Field>, sh: seq<nat>)
    requires |ps| > 0 && ps[0].Assign? && keep(ps[0].name) && MadeFrom(ps, keep, make, fs, sh)
    ensures MadeFrom(ps, keep, make, [make(ps[0].name, ps[0].init)] + fs, [0] + sh)
  {
    var idx := [0] + sh;
    var gs := [make(ps[0].name, ps[0].init)] + fs;
    assert forall j :: 1 <= j < |idx| ==> idx[j] == sh[j - 1] && gs[j] == fs[j - 1];
  }

  lemma PrependIncreasing(sh: seq<nat>)
    requires Increasing(sh) && forall j :: 0 <= j < |sh| ==> sh[j] >= 1
    ensures Increasing([0] + sh)
  {
    assert forall j :: 1 <= j < |sh| + 1 ==> ([0] + sh)[j] == sh[j - 1];
  }

  lemma KeptHead(ps: seq<Prop>, keep: string -> bool, make: (string, Expr) -> Field, fs: seq<Field>, tail: seq<nat>)
    requires |ps| > 0 && ps[0].Assign? && keep(ps[0].name) && MadeInOrder(ps[1..], keep, make, fs, tail)
    ensures MadeInOrder(ps, keep, make, [make(ps[0].name, ps[0].init)] + fs, [0] + Shift(tail))
  {
    var sh := Shift(tail);
    ShiftMadeFrom(ps, keep, make, fs, tail);
    KeptMadeFrom(ps, keep, make, fs, sh);
    PrependIncreasing(sh);
    ShiftCovers(ps, keep, tail);
  }

  lemma SkippedHead(ps: seq<Prop>, keep: string -> bool, make: (string, Expr) -> Field, fs: seq<Field>, tail: seq<nat>)
    requires |ps| > 0 && !(ps[0].Assign? && keep(ps[0].name)) && MadeInOrder(ps[1..], keep, make, fs, tail)
    ensures MadeInOrder(ps, keep, make, fs, Shift(tail))
  {
    ShiftMadeFrom(ps, keep, make, fs, tail);
    ShiftCovers(ps, keep, tail);
  }

  /** The collected fields are made from the kept members one for one, in
      member order; `idx` is the correspondence. */
  lemma {:induction false} CollectInOrder(ps: seq<Prop>, keep: string -> bool, make: (string, Expr) -> Field) returns (idx: seq<nat>)
    ensures MadeInOrder(ps, keep, make, Collect(ps, keep, make), idx)
    decreases |ps|
  {
    if |ps| == 0 {
      idx := [];
    } else {
      var tail := CollectInOrder(ps[1..], keep, make);
      if ps[0].Assign? && keep(ps[0].name) {
        KeptHead(ps, keep, make, Collect(ps[1..], keep, make), tail);
        idx := [0] + Shift(tail);
      } else {
        SkippedHead(ps, keep, make, Collect(ps[1..], keep, make), tail);
        idx := Shift(tail);
      }
    }
  }

  /** The correspondence exists, and it gives membership both ways: a kept
      member's field is collected, and every collected field is some kept
      member's field. */
  lemma CollectMembers(ps: seq<Prop>, keep: string -> bool, make: (string, Expr) -> Field)
    ensures exists idx :: MadeInOrder(ps, keep, make, Collect(ps, keep, make), idx)
    ensures forall k :: 0 <= k < |ps| && ps[k].Assign? && keep(ps[k].name) ==>
      make(ps[k].name, ps[k].init) in Collect(ps, keep, make)
    ensures forall j :: 0 <= j < |Collect(ps, keep, make)| ==>
      exists k :: 0 <= k < |ps| && ps[k].Assign? && keep(ps[k].name) && Collect(ps, keep, make)[j] == make(ps[k].name, ps[k].init)
  {
    var fs := Collect(ps, keep, make);
    var idx := CollectInOrder(ps, keep, make);
    forall k | 0 <= k < |ps| && ps[k].Assign? && keep(ps[k].name)
      ensures make(ps[k].name, ps[k].init) in fs
    {
      var j :| 0 <= j < |idx| && idx[j] == k;
      assert fs[j] == make(ps[k].name, ps[k].init);
    }
    forall j | 0 <= j < |fs|
      ensures exists k :: 0 <= k < |ps| && ps[k].Assign? && keep(ps[k].name) && fs[j] == make(ps[k].name, ps[k].init)
    {
      var k := idx[j];
      assert ps[k].Assign? && keep(ps[k].name) && fs[j] == make(ps[k].name, ps[k].init);
    }
  }

  predicate NonEmpty(n: string)
  {
    n != ""
  }

  // ---------------------------------------------------------------------
  // Enum values (lines 110-152 and 196-210)
  // ---------------------------------------------------------------------

  /** The `ref` member's value; it is read only for kind ObjectId
      (lines 97-106, 184-193, 288-297). */
  function RefIfObjectId(k: Kind, ps: seq<Prop>): (r: Option<string>)
    ensures r.Some? ==> k == ObjectId
  {
    if k != ObjectId then None
    else match AssignedValue(ps, "ref")
      case Some(e) => Some(LiteralText(e))
      case None => None
  }

  /** The elements of an enum array, each a string literal's value or the
      element's text without quotes. */
  function ElementTexts(es: seq<Expr>): (vs: seq<string>)
    ensures |vs| == |es|
    ensures forall i :: 0 <= i < |es| ==> vs[i] == LiteralText(es[i])
  {
    seq(|es|, i requires 0 <= i < |es| => LiteralText(es[i]))
  }

  /** `/Object\.values\((\w+)\)/` matches at position `i`. */
  predicate ObjectValuesAt(t: string, i: nat)
    requires i <= |t|
  {
    && i + 14 <= |t|
    && t[i..i + 14] == "Object.values("
    && WordRunLength(t, i + 14) > 0
    && i + 14 + WordRunLength(t, i + 14) < |t|
    && t[i + 14 + WordRunLength(t, i + 14)] == ')'
  }

  /** The first capture of that pattern at or after `i`. */
  function ObjectValuesFrom(t: string, i: nat): Option<string>
    requires i <= |t|
    decreases |t| - i
  {
    if i == |t| then None
    else if ObjectValuesAt(t, i) then Some(t[i + 14..i + 14 + WordRunLength(t, i + 14)])
    else ObjectValuesFrom(t, i + 1)
  }

  /** The capture is the word run at the leftmost match, and there is none
      exactly when the pattern matches nowhere. */
  lemma {:induction false} ObjectValuesLeftmost(t: string, i: nat)
    requires i <= |t|
    ensures ObjectValuesFrom(t, i).None? <==> forall j :: i <= j < |t| ==> !ObjectValuesAt(t, j)
    ensures ObjectValuesFrom(t, i).Some? ==>
      exists j :: i <= j < |t| && ObjectValuesAt(t, j) && (forall m :: i <= m < j ==> !ObjectValuesAt(t, m))
        && ObjectValuesFrom(t, i).value == t[j + 14..j + 14 + WordRunLength(t, j + 14)]
    decreases |t| - i
  {
    if i < |t| && !ObjectValuesAt(t, i) {
      ObjectValuesLeftmost(t, i + 1);
      ObjectValuesSkip(t, i);
    }
  }

  /** A position where the pattern does not match adds nothing to the search. */
  lemma ObjectValuesSkip(t: string, i: nat)
    requires i < |t| && !ObjectValuesAt(t, i)
    requires ObjectValuesFrom(t, i + 1).None? <==> forall j :: i + 1 <= j < |t| ==> !ObjectValuesAt(t, j)
    requires ObjectValuesFrom(t, i + 1).Some? ==>
      exists j :: i + 1 <= j < |t| && ObjectValuesAt(t, j) && (forall m :: i + 1 <= m < j ==> !ObjectValuesAt(t, m))
        && ObjectValuesFrom(t, i + 1).value == t[j + 14..j + 14 + WordRunLength(t, j + 14)]
    ensures ObjectValuesFrom(t, i).None? <==> forall j :: i <= j < |t| ==> !ObjectValuesAt(t, j)
    ensures ObjectValuesFrom(t, i).Some? ==>
      exists j :: i <= j < |t| && ObjectValuesAt(t, j) && (forall m :: i <= m < j ==> !ObjectValuesAt(t, m))
        && ObjectValuesFrom(t, i).value == t[j + 14..j + 14 + WordRunLength(t, j + 14)]
  {
    assert ObjectValuesFrom(t, i) == ObjectValuesFrom(t, i + 1);
    if ObjectValuesFrom(t, i).Some? {
      var j :| i + 1 <= j < |t| && ObjectValuesAt(t, j) && (forall m :: i + 1 <= m < j ==> !ObjectValuesAt(t, m))
        && ObjectValuesFrom(t, i + 1).value == t[j + 14..j + 14 + WordRunLength(t, j + 14)];
      assert forall m :: i <= m < j ==> !ObjectValuesAt(t, m);
    }
  }

  /** The first declaration with the given name. */
  function FirstDecl(decls: seq<Decl>, name: string): (d: Option<Decl>)
    ensures d.Some? ==> d.value.name == name && d.value in decls
    ensures d.None? <==> forall i :: 0 <= i < |decls| ==> decls[i].name != name
    ensures d.Some? ==>
      exists i :: 0 <= i < |decls| && decls[i] == d.value && (forall j :: 0 <= j < i ==> decls[j].name != name)
  {
    if |decls| == 0 then None
    else if decls[0].name == name then Some(decls[0])
    else
      var d := FirstDecl(decls[1..], name);
      assert forall i :: 1 <= i < |decls| ==> decls[i] == decls[1..][i - 1];
      d
  }

  /** The values of an object literal's `name: value` members. */
  function MemberValues(ps: seq<Prop>): (vs: seq<string>)
    ensures |vs| <= |ps|
  {
    if |ps| == 0 then []
    else
      var head := match ps[0]
        case Assign(_, e) => [LiteralText(e)]
        case NonAssign(_) => [];
      head + MemberValues(ps[1..])
  }

  /** A literal with no `name: value` member has no member values. */
  lemma {:induction false} MemberValuesEmpty(ps: seq<Prop>)
    ensures |MemberValues(ps)| == 0 <==> forall i :: 0 <= i < |ps| ==> !ps[i].Assign?
  {
    if |ps| > 0 {
      MemberValuesEmpty(ps[1..]);
      assert forall i :: 1 <= i < |ps| ==> ps[i] == ps[1..][i - 1];
    }
  }

  /** `Object.values(X)` resolved against the first declaration named X,
      when its initializer is an object literal. */
  function ResolveObjectValues(decls: seq<Decl>, name: string): Option<seq<string>>
  {
    match FirstDecl(decls, name)
    case Some(Decl(_, Some(ObjLit(ps)))) => Some(MemberValues(ps))
    case _ => None
  }

  /** The enum used when an `Object.values` reference resolves to nothing. */
  const DefaultEnum: seq<string> := ["admin", "user", "guest"]

  /** The enum of a top-level property with a `type` member (lines 110-152). */
  function EnumOf(ps: seq<Prop>, decls: seq<Decl>): (r: Option<seq<string>>)
    ensures r.Some? ==> AssignedValue(ps, "enum").Some?
    ensures AssignedValue(ps, "enum").Some? && AssignedValue(ps, "enum").value.ArrLit? ==>
      r == Some(ElementTexts(AssignedValue(ps, "enum").value.elems))
    ensures r.Some? && !AssignedValue(ps, "enum").value.ArrLit? ==>
      |r.value| > 0 && Contains(Render(AssignedValue(ps, "enum").value), "Object.values")
  {
    match AssignedValue(ps, "enum")
    case None => None
    case Some(ev) =>
      if ev.ArrLit? then Some(ElementTexts(ev.elems))
      else if !Contains(Render(ev), "Object.values") then None
      else match ObjectValuesFrom(Render(ev), 0)
        case None => None
        case Some(x) =>
          var resolved := ResolveObjectValues(decls, x);
          if resolved.None? || |resolved.value| == 0 then Some(DefaultEnum) else resolved
  }

  /** A word run that ends where the word characters end has that length. */
  lemma WordRunExact(t: string, i: nat, n: nat)
    requires i + n <= |t| && (forall k :: i <= k < i + n ==> IsWordChar(t[k]))
    requires i + n == |t| || !IsWordChar(t[i + n])
    ensures WordRunLength(t, i) == n
  {
  }

  /** The text `Object.values(X)` of a word `X` names `X`. */
  lemma ObjectValuesOfCall(x: string)
    requires |x| > 0 && forall k :: 0 <= k < |x| ==> IsWordChar(x[k])
    ensures Contains("Object.values(" + x + ")", "Object.values")
    ensures ObjectValuesFrom("Object.values(" + x + ")", 0) == Some(x)
  {
    var t := "Object.values(" + x + ")";
    CallPrefix(x);
    CallWord(x);
    assert StartsWith(t[0..], "Object.values");
    assert ObjectValuesAt(t, 0);
  }

  /** `Object.values(X)` begins with the call's name and parenthesis. */
  lemma CallPrefix(x: string)
    ensures var t := "Object.values(" + x + ")";
      t[0..14] == "Object.values(" && t[0..][..13] == "Object.values"
  {
    var p := "Object.values(";
    assert (p + x + ")")[0..14] == p;
  }

  /** In `Object.values(X)` the word run after the parenthesis is `X`. */
  lemma CallWord(x: string)
    requires |x| > 0 && forall k :: 0 <= k < |x| ==> IsWordChar(x[k])
    ensures var t := "Object.values(" + x + ")";
      14 + |x| < |t| && WordRunLength(t, 14) == |x| && t[14..14 + |x|] == x && t[14 + |x|] == ')'
  {
    var t := "Object.values(" + x + ")";
    assert forall k :: 14 <= k < 14 + |x| ==> t[k] == x[k - 14];
    assert t[14 + |x|] == ')';
    WordRunExact(t, 14, |x|);
    assert t[14..14 + |x|] == x;
  }

  /** `enum: Object.values(X)` with `X` first declared as an object literal
      gives that literal's member values, or the default roles when it has
      no `name: value` member. */
  lemma EnumFromDeclaration(ps: seq<Prop>, decls: seq<Decl>, x: string, j: nat, qs: seq<Prop>)
    requires AssignedValue(ps, "enum") == Some(Other("Object.values(" + x + ")"))
    requires |x| > 0 && forall k :: 0 <= k < |x| ==> IsWordChar(x[k])
    requires j < |decls| && decls[j] == Decl(x, Some(ObjLit(qs)))
    requires forall i :: 0 <= i < j ==> decls[i].name != x
    ensures |MemberValues(qs)| > 0 ==> EnumOf(ps, decls) == Some(MemberValues(qs))
    ensures (forall i :: 0 <= i < |qs| ==> !qs[i].Assign?) ==> EnumOf(ps, decls) == Some(DefaultEnum)
  {
    ObjectValuesOfCall(x);
    FirstDeclAt(decls, x, j);
    assert ResolveObjectValues(decls, x) == Some(MemberValues(qs));
    MemberValuesEmpty(qs);
  }

  /** `enum: Object.values(X)` with `X` first declared without an object
      literal gives the default roles. */
  lemma EnumFromOtherDeclaration(ps: seq<Prop>, decls: seq<Decl>, x: string, j: nat)
    requires AssignedValue(ps, "enum") == Some(Other("Object.values(" + x + ")"))
    requires |x| > 0 && forall k :: 0 <= k < |x| ==> IsWordChar(x[k])
    requires j < |decls| && decls[j].name == x && !(decls[j].init.Some? && decls[j].init.value.ObjLit?)
    requires forall i :: 0 <= i < j ==> decls[i].name != x
    ensures EnumOf(ps, decls) == Some(DefaultEnum)
  {
    ObjectValuesOfCall(x);
    FirstDeclAt(decls, x, j);
  }

  /** `enum: Object.values(X)` with `X` declared nowhere gives the default roles. */
  lemma EnumUndeclared(ps: seq<Prop>, decls: seq<Decl>, x: string)
    requires AssignedValue(ps, "enum") == Some(Other("Object.values(" + x + ")"))
    requires |x| > 0 && forall k :: 0 <= k < |x| ==> IsWordChar(x[k])
    requires forall i :: 0 <= i < |decls| ==> decls[i].name != x
    ensures EnumOf(ps, decls) == Some(DefaultEnum)
  {
    ObjectValuesOfCall(x);
  }

  /** The first declaration is the one at the first index with that name. */
  lemma FirstDeclAt(decls: seq<Decl>, name: string, j: nat)
    requires j < |decls| && decls[j].name == name
    requires forall i :: 0 <= i < j ==> decls[i].name != name
    ensures FirstDecl(decls, name) == Some(decls[j])
  {
    var d := FirstDecl(decls, name);
    var i :| 0 <= i < |decls| && decls[i] == d.value && (forall m :: 0 <= m < i ==> decls[m].name != name);
    assert i == j;
  }

  /** The enum of a nested property: only an array literal is read (lines 196-210). */
  function NestedEnum(ps: seq<Prop>): (r: Option<seq<string>>)
    ensures r.Some? <==> AssignedValue(ps, "enum").Some? && AssignedValue(ps, "enum").value.ArrLit?
    ensures r.Some? ==> r.value == ElementTexts(AssignedValue(ps, "enum").value.elems)
  {
    match AssignedValue(ps, "enum")
    case Some(ArrLit(es)) => Some(ElementTexts(es))
    case _ => None
  }

  // ---------------------------------------------------------------------
  // Field shapes
  // ---------------------------------------------------------------------

  /** A field that carries a name and a kind and nothing else. */
  predicate NameAndKindOnly(f: Field)
  {
    f.enumValues.None? && f.children.None? && f.ref.None?
  }

  /** The shape of a nested field: never ObjectId, never a ref; children only
      for kind Object, and then only name-and-kind fields. */
  predicate NestedShape(f: Field)
  {
    && f.kind != ObjectId && f.ref.None?
    && (f.children.Some? ==>
          && f.kind == Object && f.enumValues.None?
          && forall j :: 0 <= j < |f.children.value| ==>
               NameAndKindOnly(f.children.value[j]) && f.children.value[j].kind != ObjectId)
  }

  /** The children of an array property: exactly one field named `arrayItem`. */
  predicate ArrayItemShape(cs: seq<Field>)
  {
    |cs| == 1 && cs[0].name == "arrayItem" && cs[0].kind != ObjectId && NameAndKindOnly(cs[0])
  }

  /** The shape of a top-level field: never ObjectId, never a ref; children
      either nested fields of an Object or the single item of an Array. */
  predicate TopShape(f: Field)
  {
    && f.kind != ObjectId && f.ref.None?
    && (f.children.Some? ==>
          && f.enumValues.None?
          && ((f.kind == Object && forall j :: 0 <= j < |f.children.value| ==> NestedShape(f.children.value[j]))
              || (f.kind == Array && ArrayItemShape(f.children.value))))
  }

  // ---------------------------------------------------------------------
  // The three nesting levels
  // ---------------------------------------------------------------------

  /** The kind of a doubly nested property (lines 223-237): from its `type`
      member when its value is a literal with one, otherwise Unknown. */
  function DeepKind(e: Expr): (k: Kind)
    ensures k != ObjectId
    ensures !e.ObjLit? || AssignedValue(e.props, "type").None? ==> k == Unknown
    ensures e.ObjLit? && AssignedValue(e.props, "type").Some? ==>
      k == Classify.Classify(Render(AssignedValue(e.props, "type").value), Classify.DeepRules)
  {
    match e
    case ObjLit(ps) =>
      (match AssignedValue(ps, "type")
       case Some(te) =>
         Classify.NeverObjectId(Render(te));
         Classify.Classify(Render(te), Classify.DeepRules)
       case None => Unknown)
    case _ => Unknown
  }

  /** A doubly nested field: a name and a kind only (lines 239-242). */
  function DeepFieldOf(n: string, e: Expr): (f: Field)
    ensures f.name == n && f.kind == DeepKind(e) && NameAndKindOnly(f)
  {
    Plain(n, DeepKind(e))
  }

  predicate DeepOk(f: Field)
  {
    NameAndKindOnly(f) && f.kind != ObjectId
  }

  /** The doubly nested fields of a nested literal without `type`: one per
      `name: value` member with a non-empty name (lines 214-245). */
  function DeepFields(ps: seq<Prop>): (fs: seq<Field>)
    ensures forall j :: 0 <= j < |fs| ==> NameAndKindOnly(fs[j]) && fs[j].kind != ObjectId
    ensures NameSet(fs) == AssignedNames(ps) - {""}
    ensures forall k :: 0 <= k < |ps| && ps[k].Assign? && ps[k].name != "" ==> DeepFieldOf(ps[k].name, ps[k].init) in fs
    ensures exists idx :: MadeInOrder(ps, NonEmpty, DeepFieldOf, fs, idx)
  {
    CollectMembers(ps, NonEmpty, DeepFieldOf);
    CollectAll(ps, NonEmpty, DeepFieldOf, DeepOk);
    CollectNames(ps, NonEmpty, DeepFieldOf);
    Collect(ps, NonEmpty, DeepFieldOf)
  }

  /** A nested property (lines 160-257). With a `type` member: the table
      kind, an enum only from an array literal, no children. Without one:
      an Object with doubly nested children. Any other value: Unknown. */
  function NestedFieldOf(n: string, e: Expr): (f: Field)
    ensures f.name == n && NestedShape(f)
    ensures !e.ObjLit? ==> f == Plain(n, Unknown)
    ensures e.ObjLit? && AssignedValue(e.props, "type").None? ==>
      f.kind == Object && f.children == Some(DeepFields(e.props))
    ensures e.ObjLit? && AssignedValue(e.props, "type").Some? ==>
      && f.kind == Classify.Classify(Render(AssignedValue(e.props, "type").value), Classify.FieldRules)
      && f.children.None? && f.enumValues == NestedEnum(e.props)
  {
    match e
    case ObjLit(ps) =>
      (match AssignedValue(ps, "type")
       case Some(te) =>
         Classify.NeverObjectId(Render(te));
         var k := Classify.Classify(Render(te), Classify.FieldRules);
         Field(n, k, NestedEnum(ps), None, RefIfObjectId(k, ps))
       case None => Field(n, Object, None, Some(DeepFields(ps)), None))
    case _ => Plain(n, Unknown)
  }

  /** The nested fields of a top-level literal without `type`: one per
      `name: value` member with a non-empty name; none is skipped by name. */
  function NestedFields(ps: seq<Prop>): (fs: seq<Field>)
    ensures forall j :: 0 <= j < |fs| ==> NestedShape(fs[j])
    ensures NameSet(fs) == AssignedNames(ps) - {""}
    ensures forall k :: 0 <= k < |ps| && ps[k].Assign? && ps[k].name != "" ==> NestedFieldOf(ps[k].name, ps[k].init) in fs
    ensures exists idx :: MadeInOrder(ps, NonEmpty, NestedFieldOf, fs, idx)
  {
    CollectMembers(ps, NonEmpty, NestedFieldOf);
    CollectAll(ps, NonEmpty, NestedFieldOf, NestedShape);
    CollectNames(ps, NonEmpty, NestedFieldOf);
    Collect(ps, NonEmpty, NestedFieldOf)
  }

  /** The item of an array property (lines 263-299): present only when the
      first element is a literal with a `type` member. */
  function ArrayItem(es: seq<Expr>): (r: Option<seq<Field>>)
    ensures r.Some? ==> ArrayItemShape(r.value)
    ensures r.Some? <==> |es| > 0 && es[0].ObjLit? && AssignedValue(es[0].props, "type").Some?
    ensures r.Some? ==>
      r.value[0].kind == Classify.Classify(Render(AssignedValue(es[0].props, "type").value), Classify.ItemRules)
  {
    if |es| > 0 && es[0].ObjLit? then
      match AssignedValue(es[0].props, "type")
      case Some(te) =>
        Classify.NeverObjectId(Render(te));
        var k := Classify.Classify(Render(te), Classify.ItemRules);
        Some([Field("arrayItem", k, None, None, RefIfObjectId(k, es[0].props))])
      case None => None
    else None
  }

  /** A top-level schema property (lines 71-337). */
  function SchemaFieldOf(n: string, e: Expr, decls: seq<Decl>): (f: Field)
    ensures f.name == n && TopShape(f)
    ensures f.enumValues.Some? ==>
      e.ObjLit? && AssignedValue(e.props, "type").Some? && AssignedValue(e.props, "enum").Some?
    ensures e.ObjLit? && AssignedValue(e.props, "type").None? ==>
      f.kind == Object && f.children == Some(NestedFields(e.props))
    ensures e.ArrLit? ==> f.kind == Array && f.children == ArrayItem(e.elems)
    ensures e.StrLit? || e.Other? ==> f == Plain(n, Unknown)
    ensures e.ObjLit? && AssignedValue(e.props, "type").Some? ==>
      && f.kind == Classify.Classify(Render(AssignedValue(e.props, "type").value), Classify.FieldRules)
      && f.enumValues == EnumOf(e.props, decls) && f.children.None?
  {
    match e
    case ObjLit(ps) =>
      (match AssignedValue(ps, "type")
       case Some(te) =>
         Classify.NeverObjectId(Render(te));
         var k := Classify.Classify(Render(te), Classify.FieldRules);
         Field(n, k, EnumOf(ps, decls), None, RefIfObjectId(k, ps))
       case None => Field(n, Object, None, Some(NestedFields(ps)), None))
    case ArrLit(es) => Field(n, Array, None, ArrayItem(es), None)
    case _ => Plain(n, Unknown)
  }

  /** A property literal with `type: String` and `enum: ['a', 'b']` gives a
      String field with enum a, b, whatever its other members. */
  lemma TypedPropertyExample(e: Expr, decls: seq<Decl>)
    requires e.ObjLit? && AssignedValue(e.props, "type") == Some(Other("String"))
    requires AssignedValue(e.props, "enum") == Some(ArrLit([StrLit("a"), StrLit("b")]))
    ensures SchemaFieldOf("role", e, decls) == Field("role", String, Some(["a", "b"]), None, None)
  {
    TypeStringKind("role", e, decls);
    EnumOfTwoStrings(e.props, decls);
  }

  /** A literal whose `type` is `String` gives a String field. */
  lemma TypeStringKind(n: string, e: Expr, decls: seq<Decl>)
    requires e.ObjLit? && AssignedValue(e.props, "type") == Some(Other("String"))
    ensures SchemaFieldOf(n, e, decls).kind == String
  {
    StringTypeText();
    assert Render(Other("String")) == "String";
  }

  /** An enum of the two string literals `'a'` and `'b'` is a, b. */
  lemma EnumOfTwoStrings(ps: seq<Prop>, decls: seq<Decl>)
    requires AssignedValue(ps, "enum") == Some(ArrLit([StrLit("a"), StrLit("b")]))
    ensures EnumOf(ps, decls) == Some(["a", "b"])
  {
    assert ElementTexts([StrLit("a"), StrLit("b")]) == ["a", "b"];
  }

  /** The type text `String` is classified String. */
  lemma StringTypeText()
    ensures Classify.Classify("String", Classify.FieldRules) == String
  {
    var r := Classify.FieldRules[0];
    assert r.needles[0] == "String";
    assert StartsWith("String"[0..], "String");
    assert Contains("String", r.needles[0]);
    assert Classify.Matches(r, "String");
    assert Classify.IsFirstMatch("String", Classify.FieldRules, 0);
    Classify.ClassifyAt("String", Classify.FieldRules, 0);
  }

  // ---------------------------------------------------------------------
  // The schema scan and the gate
  // ---------------------------------------------------------------------

  /** Line 70: the top-level skip rule. */
  predicate KeepTopLevel(n: string)
  {
    n != "" && !StartsWith(n, "_") && n != "timestamps" && n != "versionKey"
  }

  /** Line 65: a literal is scanned when its parent's text mentions
      `mongoose.Schema` or `new Schema`. */
  predicate Qualifies(site: LiteralSite)
  {
    Contains(site.parentText, "mongoose.Schema") || Contains(site.parentText, "new Schema")
  }

  function TopMaker(decls: seq<Decl>): (m: (string, Expr) -> Field)
    ensures forall n, e :: m(n, e) == SchemaFieldOf(n, e, decls)
  {
    (n: string, e: Expr) => SchemaFieldOf(n, e, decls)
  }

  predicate TopOk(f: Field)
  {
    TopShape(f) && KeepTopLevel(f.name)
  }

  /** The fields of one qualifying literal. */
  function SiteFields(ps: seq<Prop>, decls: seq<Decl>): (fs: seq<Field>)
    ensures forall j :: 0 <= j < |fs| ==> TopShape(fs[j]) && KeepTopLevel(fs[j].name)
    ensures NameSet(fs) == set n | n in AssignedNames(ps) && KeepTopLevel(n)
    ensures forall k :: 0 <= k < |ps| && ps[k].Assign? && KeepTopLevel(ps[k].name) ==> SchemaFieldOf(ps[k].name, ps[k].init, decls) in fs
    ensures exists idx :: MadeInOrder(ps, KeepTopLevel, TopMaker(decls), fs, idx)
  {
    CollectMembers(ps, KeepTopLevel, TopMaker(decls));
    CollectAll(ps, KeepTopLevel, TopMaker(decls), TopOk);
    CollectNames(ps, KeepTopLevel, TopMaker(decls));
    Collect(ps, KeepTopLevel, TopMaker(decls))
  }

  /** Lines 61-343: the fields of every qualifying literal, in document order. */
  function SchemaScan(sites: seq<LiteralSite>, decls: seq<Decl>): (fs: seq<Field>)
    ensures forall j :: 0 <= j < |fs| ==> TopShape(fs[j]) && KeepTopLevel(fs[j].name)
  {
    if |sites| == 0 then []
    else
      var head := if Qualifies(sites[0]) then SiteFields(sites[0].props, decls) else [];
      var rest := SchemaScan(sites[1..], decls);
      assert forall j :: |head| <= j < |head| + |rest| ==> (head + rest)[j] == rest[j - |head|];
      head + rest
  }

  /** A top-level member name reaches the scan's output iff some qualifying
      literal assigns it and it passes the skip rule. */
  lemma {:induction false} SchemaScanNames(sites: seq<LiteralSite>, decls: seq<Decl>, n: string)
    ensures n in NameSet(SchemaScan(sites, decls)) <==>
      KeepTopLevel(n) && exists i :: 0 <= i < |sites| && Qualifies(sites[i]) && n in AssignedNames(sites[i].props)
  {
    if |sites| > 0 {
      SchemaScanNames(sites[1..], decls, n);
      var head := if Qualifies(sites[0]) then SiteFields(sites[0].props, decls) else [];
      var rest := SchemaScan(sites[1..], decls);
      NameSetConcat(head, rest);
      assert forall i :: 1 <= i < |sites| ==> sites[i] == sites[1..][i - 1];
    }
  }

  lemma NameSetConcat(a: seq<Field>, b: seq<Field>)
    ensures NameSet(a + b) == NameSet(a) + NameSet(b)
  {
    assert forall i :: 0 <= i < |a| ==> (a + b)[i] == a[i];
    assert forall i :: 0 <= i < |b| ==> (a + b)[|a| + i] == b[i];
  }

  /** The names kept by `if (name)` in lines 34 and 56. */
  function NonEmptyNames(ns: seq<string>): (r: seq<string>)
    ensures |r| <= |ns|
    ensures forall j :: 0 <= j < |r| ==> r[j] != ""
  {
    if |ns| == 0 then []
    else (if ns[0] != "" then [ns[0]] else []) + NonEmptyNames(ns[1..])
  }

  lemma {:induction false} NonEmptyNamesNone(ns: seq<string>)
    ensures |NonEmptyNames(ns)| == 0 <==> forall i :: 0 <= i < |ns| ==> ns[i] == ""
  {
    if |ns| > 0 {
      NonEmptyNamesNone(ns[1..]);
      assert forall i :: 1 <= i < |ns| ==> ns[i] == ns[1..][i - 1];
    }
  }

  /** Lines 14-59: the destructured names, then the `.body.<name>` names. */
  function BodyFields(ast: Ast): (fs: seq<Field>)
    ensures forall j :: 0 <= j < |fs| ==> fs[j].kind == Unknown && NameAndKindOnly(fs[j])
  {
    Unknowns(NonEmptyNames(ast.destructured) + NonEmptyNames(ast.bodyAccesses))
  }

  /** What the syntax-tree strategies collect (lines 14-344): the request-body
      names when there are any, and otherwise the schema scan. */
  function TreeStage(ast: Ast): (fs: seq<Field>)
  {
    var body := BodyFields(ast);
    if |body| > 0 then body else SchemaScan(ast.literals, ast.decls)
  }

  /** `fs` lists the names of `d` and then those of `a`, each as a name-only
      field of kind Unknown. */
  predicate BodyLayout(fs: seq<Field>, d: seq<string>, a: seq<string>)
  {
    && |fs| == |d| + |a|
    && (forall j :: 0 <= j < |d| ==> fs[j] == Plain(d[j], Unknown))
    && (forall j :: 0 <= j < |a| ==> fs[|d| + j] == Plain(a[j], Unknown))
    && (forall j :: 0 <= j < |fs| ==> fs[j].kind == Unknown && NameAndKindOnly(fs[j]))
  }

  /** With some non-empty request-body name, the stage yields every
      destructured name and then every access name. */
  lemma TreeStageBody(ast: Ast)
    requires (exists i :: 0 <= i < |ast.destructured| && ast.destructured[i] != "")
          || (exists i :: 0 <= i < |ast.bodyAccesses| && ast.bodyAccesses[i] != "")
    ensures BodyLayout(TreeStage(ast), NonEmptyNames(ast.destructured), NonEmptyNames(ast.bodyAccesses))
  {
    if i :| 0 <= i < |ast.destructured| && ast.destructured[i] != "" {
      NonEmptyNamesNone(ast.destructured);
    } else {
      NonEmptyNamesNone(ast.bodyAccesses);
    }
    TreeStageLayout(ast, NonEmptyNames(ast.destructured), NonEmptyNames(ast.bodyAccesses));
  }

  lemma TreeStageLayout(ast: Ast, d: seq<string>, a: seq<string>)
    requires d == NonEmptyNames(ast.destructured) && a == NonEmptyNames(ast.bodyAccesses)
    requires |d| + |a| > 0
    ensures BodyLayout(TreeStage(ast), d, a)
  {
    var body := BodyFields(ast);
    assert body == Unknowns(d + a);
    assert TreeStage(ast) == body;
    assert forall j :: 0 <= j < |d| ==> (d + a)[j] == d[j];
    assert forall j :: 0 <= j < |a| ==> (d + a)[|d| + j] == a[j];
  }

  /** With every request-body name empty, the stage is the schema scan. */
  lemma TreeStageScan(ast: Ast)
    requires forall i :: 0 <= i < |ast.destructured| ==> ast.destructured[i] == ""
    requires forall i :: 0 <= i < |ast.bodyAccesses| ==> ast.bodyAccesses[i] == ""
    ensures TreeStage(ast) == SchemaScan(ast.literals, ast.decls)
  {
    NonEmptyNamesNone(ast.destructured);
    NonEmptyNamesNone(ast.bodyAccesses);
  }

  /** How the syntax-tree stage ended: normally, or by throwing after it had
      pushed `pushed` fields. What makes the parser library throw is not
      modelled; only what the catch block does with the fields so far. */
  datatype Outcome = Completed | ThrewAfter(pushed: nat)

  /** The list handed to de-duplication (lines 8-359): after a throw, the
      fields pushed so far and then the text-pattern fallback's fields. */
  function Collected(code: string, ast: Ast, outcome: Outcome, schemaScanFields: seq<Field>): (fs: seq<Field>)
    ensures outcome.Completed? ==> fs == TreeStage(ast)
    ensures outcome.ThrewAfter? ==>
      var k := if outcome.pushed < |TreeStage(ast)| then outcome.pushed else |TreeStage(ast)|;
      && |fs| == k + |RegexFields(code, schemaScanFields)|
      && fs[..k] == TreeStage(ast)[..k] && fs[k..] == RegexFields(code, schemaScanFields)
  {
    var tree := TreeStage(ast);
    match outcome
    case Completed => tree
    case ThrewAfter(k) =>
      var m := if k < |tree| then k else |tree|;
      assert (tree[..m] + RegexFields(code, schemaScanFields))[..m] == tree[..m];
      tree[..m] + RegexFields(code, schemaScanFields)
  }

  /** `extractKeysFromCode`: the collected fields, first of each name. */
  function ExtractKeys(code: string, ast: Ast, outcome: Outcome, schemaScanFields: seq<Field>): (r: seq<Field>)
    ensures DistinctNames(r)
    ensures NameSet(r) == NameSet(Collected(code, ast, outcome, schemaScanFields))
    ensures Dedup.IsSubsequence(r, Collected(code, ast, outcome, schemaScanFields))
    ensures Dedup.KeepsFirst(r, Collected(code, ast, outcome, schemaScanFields))
  {
    Dedup.Dedup(Collected(code, ast, outcome, schemaScanFields))
  }

  /** Every field of a completed extraction that found no request-body name
      is a top-level schema field of the shape above, and never ObjectId. */
  lemma ExtractedSchemaShapes(code: string, ast: Ast, schemaScanFields: seq<Field>)
    requires forall i :: 0 <= i < |ast.destructured| ==> ast.destructured[i] == ""
    requires forall i :: 0 <= i < |ast.bodyAccesses| ==> ast.bodyAccesses[i] == ""
    ensures forall f :: f in ExtractKeys(code, ast, Completed, schemaScanFields) ==>
      TopShape(f) && KeepTopLevel(f.name)
  {
    var c := Collected(code, ast, Completed, schemaScanFields);
    var r := ExtractKeys(code, ast, Completed, schemaScanFields);
    TreeStageScan(ast);
    SubsequenceMembers(r, c);
  }

  lemma {:induction false} SubsequenceMembers(a: seq<Field>, b: seq<Field>)
    requires Dedup.IsSubsequence(a, b)
    ensures forall f :: f in a ==> f in b
    decreases |b|
  {
    if |a| > 0 {
      if a[0] == b[0] && Dedup.IsSubsequence(a[1..], b[1..]) {
        SubsequenceMembers(a[1..], b[1..]);
        assert forall f :: f in a ==> f == a[0] || f in a[1..];
      } else {
        SubsequenceMembers(a, b[1..]);
      }
      assert forall f :: f in b[1..] ==> f in b;
    }
  }
}
