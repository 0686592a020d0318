/** What the payload synthesizer promises about its output: the key set, the
    overwrite rule, where enums are respected, the kind of every fallback
    value, the fixed shapes of the named cases, and integer ranges. */
module PayloadProperties {
  import opened Schema
  import opened Text
  import opened Json
  import opened Oracle
  import opened Faker

  /** Field `j` is the last field of the list with its name. */
  predicate LastOfName(cs: seq<Field>, j: int)
  {
    0 <= j < |cs| && forall i :: j < i < |cs| ==> cs[i].name != cs[j].name
  }

  // ---------------------------------------------------------------------
  // Which case of the table a name selects. Deciding a name against the
  // whole table is costly for the solver, so the groups are split.
  // ---------------------------------------------------------------------

  lemma StatusHead(n: string)
    requires n in {"status", "isactive", "isemailverified"}
    ensures RuleFor(n) == StatusRule
  {
  }

  lemma StatusTail(n: string)
    requires n in {"isphoneverified", "isprofilecomplete", "acceptsmarketing"}
    ensures RuleFor(n) == StatusRule
  {
  }

  lemma StatusNamesRule(n: string)
    requires n in StatusNames
    ensures RuleFor(n) == StatusRule
  {
    if n in {"status", "isactive", "isemailverified"} { StatusHead(n); } else { StatusTail(n); }
  }

  lemma ListFirst(n: string)
    requires n in {"tags", "skills"}
    ensures RuleFor(n) == ListRule
  {
  }

  lemma ListSecond(n: string)
    requires n in {"languages", "hobbies"}
    ensures RuleFor(n) == ListRule
  {
  }

  lemma ListThird(n: string)
    requires n in {"interests", "friendids"}
    ensures RuleFor(n) == ListRule
  {
  }

  lemma ListFourth(n: string)
    requires n in {"groupids", "projectids"}
    ensures RuleFor(n) == ListRule
  {
  }

  lemma ListNamesRule(n: string)
    requires n in ListNames
    ensures RuleFor(n) == ListRule
  {
    if n in {"tags", "skills"} { ListFirst(n); }
    else if n in {"languages", "hobbies"} { ListSecond(n); }
    else if n in {"interests", "friendids"} { ListThird(n); }
    else { ListFourth(n); }
  }

  lemma SettingsHead(n: string)
    requires n == "metadata"
    ensures RuleFor(n) == SettingsRule
  {
  }

  lemma SettingsTail(n: string)
    requires n in {"settings", "preferences"}
    ensures RuleFor(n) == SettingsRule
  {
    if n == "settings" { SettingsName(); } else { PreferencesName(); }
  }

  lemma SettingsName()
    ensures RuleFor("settings") == SettingsRule
  {
  }

  lemma PreferencesName()
    ensures RuleFor("preferences") == SettingsRule
  {
  }

  lemma SettingsNamesRule(n: string)
    requires n in {"metadata", "settings", "preferences"}
    ensures RuleFor(n) == SettingsRule
  {
    if n == "metadata" { SettingsHead(n); } else { SettingsTail(n); }
  }

  lemma SocialMediaName(n: string)
    ensures n == "socialmedia" ==> RuleFor(n) == SocialMediaRule
  {
  }

  lemma EducationName(n: string)
    ensures n == "education" ==> RuleFor(n) == EducationRule
  {
  }

  lemma WorkName(n: string)
    ensures n == "workexperience" ==> RuleFor(n) == WorkRule
  {
  }

  lemma SocialLinksName(n: string)
    ensures n == "sociallinks" ==> RuleFor(n) == SocialLinksRule
  {
  }

  lemma LateRules(n: string)
    ensures n == "socialmedia" ==> RuleFor(n) == SocialMediaRule
    ensures n == "education" ==> RuleFor(n) == EducationRule
    ensures n == "workexperience" ==> RuleFor(n) == WorkRule
    ensures n == "sociallinks" ==> RuleFor(n) == SocialLinksRule
  {
    SocialMediaName(n);
    EducationName(n);
    WorkName(n);
    SocialLinksName(n);
  }

  // ---------------------------------------------------------------------
  // Keys (lines 8-15)
  // ---------------------------------------------------------------------

  /** The payload has a key exactly for each input field name whose lower
      case is not a schema option. */
  lemma PayloadKeys(fields: seq<Field>, o: Oracle, k: string)
    ensures k in GenerateFakePayload(fields, o) <==>
      Lower(k) !in Metadata && exists j :: 0 <= j < |fields| && fields[j].name == k
  {
    AssembleKeys(fields, TopGen(o), k);
  }

  /** No key of the payload lower-cases to a schema option. */
  lemma NoMetadataKey(fields: seq<Field>, o: Oracle)
    ensures forall k :: k in GenerateFakePayload(fields, o) ==> Lower(k) !in Metadata
  {
    forall k | k in GenerateFakePayload(fields, o)
      ensures Lower(k) !in Metadata
    {
      PayloadKeys(fields, o, k);
    }
  }

  /** The value under a name is the one generated for the last field with
      that name. */
  lemma LastFieldWins(fields: seq<Field>, o: Oracle, j: nat)
    requires LastOfName(fields, j) && !IsMetadata(fields[j])
    ensures fields[j].name in GenerateFakePayload(fields, o)
    ensures GenerateFakePayload(fields, o)[fields[j].name] == ValueFor(fields[j], o, [j])
  {
    AssembleLast(fields, TopGen(o), j);
  }

  /** Two fields named `email` and `Type` give one key, `email`. */
  lemma KeysExample(o: Oracle, a: Field, b: Field)
    requires a.name == "email" && b.name == "Type"
    ensures GenerateFakePayload([a, b], o).Keys == {"email"}
  {
    var fs := [a, b];
    assert Lower("Type") == "type" by {
      assert Lower("Type")[0] == 't';
    }
    assert Lower("email") == "email";
    forall k | k in GenerateFakePayload(fs, o)
      ensures k == "email"
    {
      PayloadKeys(fs, o, k);
    }
    PayloadKeys(fs, o, "email");
    assert fs[0].name == "email";
  }

  // ---------------------------------------------------------------------
  // Enums (lines 150-183, 359-364)
  // ---------------------------------------------------------------------

  /** For a name outside the table, a non-empty enum decides the value. */
  lemma UnlistedNameUsesEnum(f: Field, o: Oracle, p: seq<int>)
    requires RuleFor(Lower(f.name)) == NoRule && HasEnum(f)
    ensures ValueFor(f, o, p).VStr? && ValueFor(f, o, p).s in f.enumValues.value
  {
  }

  /** `role` and `theme` take a non-empty enum, else one of three defaults. */
  lemma RoleAndTheme(f: Field, o: Oracle, p: seq<int>)
    requires Lower(f.name) == "role" || Lower(f.name) == "theme"
    ensures ValueFor(f, o, p).VStr?
    ensures HasEnum(f) ==> ValueFor(f, o, p).s in f.enumValues.value
    ensures !HasEnum(f) && Lower(f.name) == "role" ==> ValueFor(f, o, p).s in ["admin", "user", "guest"]
    ensures !HasEnum(f) && Lower(f.name) == "theme" ==> ValueFor(f, o, p).s in ["light", "dark", "auto"]
  {
    if Lower(f.name) == "role" {
      RoleName();
      assert ValueFor(f, o, p) == NamedValue(RoleRule, f, o, p);
    } else {
      ThemeName();
      assert ValueFor(f, o, p) == NamedValue(ThemeRule, f, o, p);
    }
  }

  /** The name of the depth example is outside the table. */
  lemma NestName()
    ensures Lower("nest") == "nest" && RuleFor("nest") == NoRule
  {
    assert Lower("nest") == "nest";
  }

  lemma RoleName()
    ensures RuleFor("role") == RoleRule
  {
  }

  lemma ThemeName()
    ensures RuleFor("theme") == ThemeRule
  {
  }

  /** In the `status`/`is...` group a Boolean kind wins over the enum. */
  lemma StatusGroup(f: Field, o: Oracle, p: seq<int>)
    requires Lower(f.name) in StatusNames
    ensures f.kind == Boolean ==> ValueFor(f, o, p).VBool?
    ensures f.kind != Boolean && HasEnum(f) ==>
      ValueFor(f, o, p).VStr? && ValueFor(f, o, p).s in f.enumValues.value
    ensures f.kind != Boolean && !HasEnum(f) ==>
      ValueFor(f, o, p).VStr? && ValueFor(f, o, p).s in ["active", "inactive", "pending"]
  {
    StatusNamesRule(Lower(f.name));
  }

  /** Every other name of the table ignores the enum. */
  lemma EnumIgnoredElsewhere(f: Field, o: Oracle, p: seq<int>, e: Option<seq<string>>)
    requires RuleFor(Lower(f.name)) !in {NoRule, RoleRule, StatusRule, ThemeRule}
    ensures ValueFor(f.(enumValues := e), o, p) == ValueFor(f, o, p)
  {
    var f' := f.(enumValues := e);
    assert Lower(f'.name) == Lower(f.name);
    NamedValueIgnoresEnum(RuleFor(Lower(f.name)), f, o, p, e);
  }

  lemma NamedValueIgnoresEnum(r: Rule, f: Field, o: Oracle, p: seq<int>, e: Option<seq<string>>)
    requires r !in {NoRule, RoleRule, StatusRule, ThemeRule}
    ensures NamedValue(r, f.(enumValues := e), o, p) == NamedValue(r, f, o, p)
  {
    var f' := f.(enumValues := e);
    match r
    case AddressRule => assert AddressValue(f', o, p) == AddressValue(f, o, p);
    case ListRule => assert ListValue(f', o, p) == ListValue(f, o, p);
    case SocialMediaRule => assert SocialMediaValue(f', o, p) == SocialMediaValue(f, o, p);
    case EducationRule => assert EducationValue(f', o, p) == EducationValue(f, o, p);
    case WorkRule => assert WorkValue(f', o, p) == WorkValue(f, o, p);
    case SocialLinksRule => assert SocialLinksValue(f', o, p) == SocialLinksValue(f, o, p);
    case _ =>
  }

  /** `email` gives a generated address whatever the enum says. */
  lemma EmailIgnoresEnum(f: Field, o: Oracle, p: seq<int>)
    requires Lower(f.name) == "email"
    ensures ValueFor(f, o, p) == VStr(o.text(Site(Email, p)))
  {
  }

  // ---------------------------------------------------------------------
  // The kind fallback (lines 367-489)
  // ---------------------------------------------------------------------

  /** The kind of the fallback value for each field kind. */
  lemma FallbackKinds(f: Field, o: Oracle, p: seq<int>)
    requires RuleFor(Lower(f.name)) == NoRule && !HasEnum(f)
    ensures var v := ValueFor(f, o, p);
      && (f.kind in {String, Unknown, Buffer, Map} ==> v.VStr? && DrawnBy(o, LoremWord, v.s))
      && (f.kind == Number ==> v.VInt? && 1 <= v.i <= 1000)
      && (f.kind == Boolean ==> v.VBool?)
      && (f.kind == Date ==> v.VStr? && DrawnBy(o, RecentIso, v.s))
      && (f.kind == ObjectId ==> v.VStr? && DrawnBy(o, MongoId, v.s))
      && (f.kind == Array ==> v.VArr?)
      && (f.kind == Object ==> v.VObj?)
  {
  }

  /** An Array without children gives three words; with children, one to
      three objects keyed exactly by the children's names. */
  lemma ArrayFallback(f: Field, o: Oracle, p: seq<int>)
    requires RuleFor(Lower(f.name)) == NoRule && !HasEnum(f) && f.kind == Array
    ensures ValueFor(f, o, p).VArr?
    ensures !HasChildren(f) ==>
      |ValueFor(f, o, p).items| == 3 && forall i :: 0 <= i < 3 ==> ValueFor(f, o, p).items[i].VStr?
    ensures HasChildren(f) ==>
      && 1 <= |ValueFor(f, o, p).items| <= 3
      && forall i :: 0 <= i < |ValueFor(f, o, p).items| ==>
           ValueFor(f, o, p).items[i].VObj? && ValueFor(f, o, p).items[i].entries.Keys == NameSet(f.children.value)
  {
    if HasChildren(f) {
      var v := ValueFor(f, o, p);
      forall i | 0 <= i < |v.items|
        ensures v.items[i].VObj? && v.items[i].entries.Keys == NameSet(f.children.value)
      {
        AssembleTotalKeys(f.children.value, ItemGen(o, p + [i]));
      }
    }
  }

  /** In an Array fallback item, a child of kind Number gives an integer in
      [1, 100], a Boolean child a boolean, and any other child a string. */
  lemma ArrayFallbackMember(f: Field, o: Oracle, p: seq<int>, i: nat, j: nat)
    requires RuleFor(Lower(f.name)) == NoRule && !HasEnum(f) && f.kind == Array && HasChildren(f)
    requires i < |ValueFor(f, o, p).items| && LastOfName(f.children.value, j)
    ensures var c := f.children.value[j];
      var item := ValueFor(f, o, p).items[i];
      && item.VObj? && c.name in item.entries
      && (c.kind == Number ==> item.entries[c.name].VInt? && 1 <= item.entries[c.name].i <= 100)
      && (c.kind == Boolean ==> item.entries[c.name].VBool?)
      && (c.kind != Number && c.kind != Boolean ==> item.entries[c.name].VStr?)
  {
    AssembleLast(f.children.value, ItemGen(o, p + [i]), j);
  }

  /** An Object without children gives `{key1, key2}`; with children, an
      object keyed exactly by the children's names. */
  lemma ObjectFallback(f: Field, o: Oracle, p: seq<int>)
    requires RuleFor(Lower(f.name)) == NoRule && !HasEnum(f) && f.kind == Object
    ensures ValueFor(f, o, p).VObj?
    ensures !HasChildren(f) ==> ValueFor(f, o, p).entries.Keys == {"key1", "key2"}
    ensures HasChildren(f) ==> ValueFor(f, o, p).entries.Keys == NameSet(f.children.value)
  {
    if HasChildren(f) {
      AssembleTotalKeys(f.children.value, MemberGen(o, p));
    }
  }

  /** A child Object of an Object fallback becomes an object keyed by its own
      children, or `{value}` when it has none; a child Number gives an
      integer in [1, 100]. */
  lemma ObjectFallbackMember(f: Field, o: Oracle, p: seq<int>, j: nat)
    requires RuleFor(Lower(f.name)) == NoRule && !HasEnum(f) && f.kind == Object && HasChildren(f)
    requires LastOfName(f.children.value, j)
    ensures var c := f.children.value[j];
      var v := ValueFor(f, o, p);
      && v.VObj? && c.name in v.entries
      && (c.kind == Number ==> v.entries[c.name].VInt? && 1 <= v.entries[c.name].i <= 100)
      && (c.kind == Object && !HasChildren(c) ==>
            v.entries[c.name].VObj? && v.entries[c.name].entries.Keys == {"value"})
      && (c.kind == Object && HasChildren(c) ==>
            v.entries[c.name].VObj? && v.entries[c.name].entries.Keys == NameSet(c.children.value))
  {
    var c := f.children.value[j];
    AssembleLast(f.children.value, MemberGen(o, p), j);
    if c.kind == Object && HasChildren(c) {
      AssembleTotalKeys(c.children.value, DeepGen(o, p + [j]));
    }
  }

  /** An Object fallback whose child is an Object with children reaches the
      depth bound: the bound is not loose. */
  lemma DepthBoundReached(o: Oracle, g: Field)
    requires g.name == "leaf"
    ensures var f := Field("nest", Object, None, Some([Field("inner", Object, None, Some([g]), None)]), None);
      !DepthAtMost(ValueFor(f, o, [0]), 1)
  {
    var inner := Field("inner", Object, None, Some([g]), None);
    var f := Field("nest", Object, None, Some([inner]), None);
    NestName();
    ObjectFallbackMember(f, o, [0], 0);
  }

  // ---------------------------------------------------------------------
  // Named cases (lines 36-358)
  // ---------------------------------------------------------------------

  /** `age` is an integer in [18, 80]. */
  lemma AgeRange(f: Field, o: Oracle, p: seq<int>)
    requires Lower(f.name) == "age"
    ensures ValueFor(f, o, p).VInt? && 18 <= ValueFor(f, o, p).i <= 80
  {
  }

  /** The `tags`/`skills`/... group: 2 to 5 items for an Array, all ids when
      the first child is an ObjectId, else words; exactly 3 words otherwise. */
  lemma ListGroup(f: Field, o: Oracle, p: seq<int>)
    requires Lower(f.name) in ListNames
    ensures var v := ValueFor(f, o, p);
      && v.VArr?
      && (f.kind == Array ==> 2 <= |v.items| <= 5)
      && (f.kind != Array ==> |v.items| == 3)
      && (f.kind == Array && HasChildren(f) && f.children.value[0].kind == ObjectId ==>
            forall i :: 0 <= i < |v.items| ==> v.items[i].VStr? && DrawnBy(o, MongoId, v.items[i].s))
      && (!(f.kind == Array && HasChildren(f) && f.children.value[0].kind == ObjectId) ==>
            forall i :: 0 <= i < |v.items| ==> v.items[i].VStr? && DrawnBy(o, Word, v.items[i].s))
  {
    ListNamesRule(Lower(f.name));
  }

  /** `address`: an Object with children gives an object with a key for each
      child name, except a `coordinates` child that is not an Object with a
      list of nested fields; anything else gives a street address. */
  lemma AddressShape(f: Field, o: Oracle, p: seq<int>, k: string)
    requires Lower(f.name) == "address"
    ensures f.kind == Object && HasChildren(f) ==>
      && ValueFor(f, o, p).VObj?
      && (k in ValueFor(f, o, p).entries <==>
            exists j :: 0 <= j < |f.children.value| && f.children.value[j].name == k
              && !(Lower(k) == "coordinates"
                   && !(f.children.value[j].kind == Object && f.children.value[j].children.Some?)))
    ensures !(f.kind == Object && HasChildren(f)) ==>
      ValueFor(f, o, p).VStr? && DrawnBy(o, StreetAddress, ValueFor(f, o, p).s)
  {
    if f.kind == Object && HasChildren(f) {
      AssembleKeys(f.children.value, AddressGen(o, p), k);
    }
  }

  /** Every member of an address object other than `coordinates` is a string. */
  lemma AddressMembersAreStrings(f: Field, o: Oracle, p: seq<int>, k: string)
    requires Lower(f.name) == "address" && f.kind == Object && HasChildren(f)
    requires k in ValueFor(f, o, p).entries && Lower(k) != "coordinates"
    ensures ValueFor(f, o, p).entries[k].VStr?
  {
    var j := AssembleSource(f.children.value, AddressGen(o, p), k);
  }

  /** `metadata`, `settings` and `preferences` ignore their children. */
  lemma SettingsShape(f: Field, o: Oracle, p: seq<int>)
    requires Lower(f.name) in {"metadata", "settings", "preferences"}
    ensures var v := ValueFor(f, o, p);
      && v.VObj? && v.entries.Keys == {"setting1", "setting2", "setting3"}
      && v.entries["setting2"].VBool?
      && v.entries["setting3"].VInt? && 1 <= v.entries["setting3"].i <= 100
  {
    SettingsNamesRule(Lower(f.name));
  }

  /** `sociallinks` always has the keys twitter, facebook and linkedin. */
  lemma SocialLinksShape(f: Field, o: Oracle, p: seq<int>)
    requires Lower(f.name) == "sociallinks"
    ensures ValueFor(f, o, p).VObj?
    ensures ValueFor(f, o, p).entries.Keys == {"twitter", "facebook", "linkedin"}
  {
    LateRules(Lower(f.name));
  }

  /** The first two platforms and the urls built from them. */
  lemma FirstPlatforms()
    ensures Platforms[0] == "Facebook" && Platforms[1] == "Twitter"
    ensures "https://" + Lower(Platforms[0]) + ".com/user123" == "https://facebook.com/user123"
    ensures "https://" + Lower(Platforms[1]) + ".com/user123" == "https://twitter.com/user123"
  {
    assert Lower("Facebook")[0] == 'f';
    assert Lower("Twitter")[0] == 't';
    assert Lower("Facebook") == "facebook";
    assert Lower("Twitter") == "twitter";
  }

  /** A `socialmedia` Array with children gives the first two platform items. */
  lemma SocialMediaItems(f: Field, o: Oracle, p: seq<int>)
    requires Lower(f.name) == "socialmedia" && f.kind == Array && HasChildren(f)
    ensures ValueFor(f, o, p) ==
      VArr([SocialItem(f.children.value, 0, o, p), SocialItem(f.children.value, 1, o, p)])
  {
    LateRules(Lower(f.name));
  }

  /** Item `i` of a `socialmedia` list names platform `Platforms[i]` in its
      `platform` and `url` members. */
  lemma SocialItemMember(cs: seq<Field>, i: nat, o: Oracle, p: seq<int>, j: nat)
    requires i < |Platforms| && LastOfName(cs, j)
    ensures var v := SocialItem(cs, i, o, p);
      var n := cs[j].name;
      && n in v.entries
      && (Lower(n) == "platform" ==> v.entries[n] == VStr(Platforms[i]))
      && (Lower(n) == "url" ==> v.entries[n] == VStr("https://" + Lower(Platforms[i]) + ".com/user123"))
  {
    assert i % |Platforms| == i;
    var g := SocialGen(Platforms[i], o, p + [i]);
    assert SocialItem(cs, i, o, p) == VObj(Assemble(cs, g));
    assert g(cs[j], j) == SocialPart(cs[j], Platforms[i], o, p + [i] + [j]);
    AssembleLast(cs, g, j);
  }

  /** `socialmedia` with children gives two items, for Facebook and then
      Twitter, whose `platform` and `url` members name the platform. */
  lemma SocialMediaWithChildren(f: Field, o: Oracle, p: seq<int>, j: nat)
    requires Lower(f.name) == "socialmedia" && f.kind == Array && HasChildren(f)
    requires LastOfName(f.children.value, j)
    ensures var v := ValueFor(f, o, p);
      var n := f.children.value[j].name;
      && v.VArr? && |v.items| == 2 && v.items[0].VObj? && v.items[1].VObj?
      && n in v.items[0].entries && n in v.items[1].entries
      && (Lower(n) == "platform" ==>
            v.items[0].entries[n] == VStr("Facebook") && v.items[1].entries[n] == VStr("Twitter"))
      && (Lower(n) == "url" ==>
            v.items[0].entries[n] == VStr("https://facebook.com/user123")
            && v.items[1].entries[n] == VStr("https://twitter.com/user123"))
  {
    var cs := f.children.value;
    SocialMediaItems(f, o, p);
    SocialItemMember(cs, 0, o, p, j);
    SocialItemMember(cs, 1, o, p, j);
    FirstPlatforms();
  }

  /** `socialmedia` otherwise gives the two fixed Twitter and LinkedIn items. */
  lemma SocialMediaFixed(f: Field, o: Oracle, p: seq<int>)
    requires Lower(f.name) == "socialmedia" && !(f.kind == Array && HasChildren(f))
    ensures var v := ValueFor(f, o, p);
      && v.VArr? && |v.items| == 2
      && v.items[0].VObj? && v.items[0].entries.Keys == {"platform", "url", "username"}
      && v.items[0].entries["platform"] == VStr("Twitter")
      && v.items[1].VObj? && v.items[1].entries.Keys == {"platform", "url", "username"}
      && v.items[1].entries["platform"] == VStr("LinkedIn")
  {
    LateRules(Lower(f.name));
  }

  /** `education` and `workexperience` with children give exactly one item,
      keyed by the children's names. */
  lemma OneItemWithChildren(f: Field, o: Oracle, p: seq<int>)
    requires Lower(f.name) == "education" || Lower(f.name) == "workexperience"
    requires f.kind == Array && HasChildren(f)
    ensures var v := ValueFor(f, o, p);
      && v.VArr? && |v.items| == 1 && v.items[0].VObj?
      && v.items[0].entries.Keys == NameSet(f.children.value)
  {
    LateRules(Lower(f.name));
    if Lower(f.name) == "education" {
      assert ValueFor(f, o, p) == EducationValue(f, o, p);
      AssembleTotalKeys(f.children.value, EducationGen(o, p));
    } else {
      assert ValueFor(f, o, p) == WorkValue(f, o, p);
      AssembleTotalKeys(f.children.value, WorkGen(o, p));
    }
  }
}
