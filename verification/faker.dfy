/** `generateFakePayload` (src/core/faker.ts:4-496): a payload object with one
    key per field, except schema-option names. The value comes from the first
    of: a table keyed by the lower-cased field name, the field's enum, and a
    fallback on the field's kind that descends at most two object levels. */
module Faker {
  import opened Schema
  import opened Text
  import opened Json
  import opened Oracle

  type Payload = map<string, Value>

  /** Lines 9-10: lower-cased names of schema options, never payload keys. */
  const Metadata: set<string> :=
    {"type", "ref", "required", "default", "unique", "index", "sparse", "timestamps", "versionkey"}

  predicate IsMetadata(f: Field)
  {
    Lower(f.name) in Metadata
  }

  // ---------------------------------------------------------------------
  // Draws
  // ---------------------------------------------------------------------

  function Str(o: Oracle, gen: Gen, p: seq<int>): (v: Value)
    ensures v.VStr? && DrawnBy(o, gen, v.s)
  {
    VStr(o.text(Site(gen, p)))
  }

  function Num(o: Oracle, gen: Gen, p: seq<int>): (v: Value)
    ensures v.VNum?
  {
    VNum(o.number(Site(gen, p)))
  }

  /** `faker.datatype.boolean()`. */
  function Bool(o: Oracle, p: seq<int>): (v: Value)
    ensures v.VBool?
  {
    VBool(o.flag(Site(Flag, p)))
  }

  /** `faker.number.int({ min: lo, max: hi })` as a value. */
  function Int(o: Oracle, p: seq<int>, lo: int, hi: int): (v: Value)
    requires lo <= hi
    ensures v.VInt? && lo <= v.i <= hi
  {
    VInt(IntIn(o, p, lo, hi))
  }

  /** `faker.helpers.arrayElement(choices)`. */
  function Pick(o: Oracle, p: seq<int>, choices: seq<string>): (v: Value)
    requires |choices| > 0
    ensures v.VStr? && v.s in choices
  {
    VStr(choices[IndexIn(o, ArrayElement, p, |choices|)])
  }

  /** `field.enum[Math.floor(Math.random() * field.enum.length)]`. */
  function EnumValue(f: Field, o: Oracle, p: seq<int>): (v: Value)
    requires HasEnum(f)
    ensures v.VStr? && v.s in f.enumValues.value
  {
    var e := f.enumValues.value;
    VStr(e[IndexIn(o, RandomIndex, p, |e|)])
  }

  // ---------------------------------------------------------------------
  // The name table (lines 15-358)
  // ---------------------------------------------------------------------

  datatype Rule =
    | EmailRule | FirstNameRule | LastNameRule | UserNameRule | PasswordRule | PhoneRule
    | AddressRule | CityRule | CountryRule | ZipRule | ImageRule | ParagraphRule | TitleRule
    | UrlRule | TokenRule | IdRule | AgeRule | RatingRule | DateRule | RoleRule | StatusRule
    | ColorRule | ThemeRule | ListRule | SocialMediaRule | EducationRule | WorkRule
    | SettingsRule | SocialLinksRule | NoRule

  const TokenNames: set<string> :=
    {"token", "accesstoken", "refreshtoken", "resetpasswordtoken", "emailverificationtoken"}
  const IdNames: set<string> :=
    {"id", "userid", "_id", "roleid", "subscriptionid", "applicationid", "departmentid", "managerid", "companyid"}
  const DateNames: set<string> :=
    {"date", "createdat", "updatedat", "created_at", "updated_at", "lastloginat", "emailverifiedat", "birthdate", "joineddate"}
  const StatusNames: set<string> :=
    {"status", "isactive", "isemailverified", "isphoneverified", "isprofilecomplete", "acceptsmarketing"}
  const ListNames: set<string> :=
    {"tags", "skills", "languages", "hobbies", "interests", "friendids", "groupids", "projectids"}

  /** The case of the `switch` on the lower-cased name. */
  function RuleFor(n: string): Rule
  {
    if n == "email" then EmailRule
    else if n == "name" || n == "firstname" then FirstNameRule
    else if n == "lastname" then LastNameRule
    else if n == "username" then UserNameRule
    else if n == "password" then PasswordRule
    else if n == "phone" || n == "phonenumber" then PhoneRule
    else if n == "address" then AddressRule
    else if n == "city" then CityRule
    else if n == "country" then CountryRule
    else if n == "zipcode" || n == "postalcode" then ZipRule
    else if n == "avatar" || n == "image" || n == "photo" || n == "picture" then ImageRule
    else if n == "description" || n == "bio" then ParagraphRule
    else if n == "title" then TitleRule
    else if n == "url" || n == "website" then UrlRule
    else if n in TokenNames then TokenRule
    else if n in IdNames then IdRule
    else if n == "age" then AgeRule
    else if n == "rating" then RatingRule
    else if n in DateNames then DateRule
    else if n == "role" then RoleRule
    else if n in StatusNames then StatusRule
    else if n == "color" then ColorRule
    else if n == "theme" then ThemeRule
    else if n in ListNames then ListRule
    else if n == "socialmedia" then SocialMediaRule
    else if n == "education" then EducationRule
    else if n == "workexperience" then WorkRule
    else if n == "metadata" || n == "settings" || n == "preferences" then SettingsRule
    else if n == "sociallinks" then SocialLinksRule
    else NoRule
  }

  // ---------------------------------------------------------------------
  // `address` (lines 36-82)
  // ---------------------------------------------------------------------

  /** A member of `coordinates`: a latitude, a longitude or a float. */
  function CoordPart(c: Field, o: Oracle, p: seq<int>): (r: Option<Value>)
    ensures r.Some? && r.value.VNum?
  {
    var n := Lower(c.name);
    if n == "latitude" then Some(Num(o, Latitude, p))
    else if n == "longitude" then Some(Num(o, Longitude, p))
    else Some(Num(o, Float, p))
  }

  function CoordGen(o: Oracle, p: seq<int>): (g: (Field, nat) -> Option<Value>)
    ensures forall c: Field, j: nat :: g(c, j) == CoordPart(c, o, p + [j])
  {
    (c: Field, j: nat) => CoordPart(c, o, p + [j])
  }

  /** A member of an address object; `coordinates` is left unassigned unless
      it is an Object with a list of nested fields. */
  function AddressPart(c: Field, o: Oracle, p: seq<int>): (r: Option<Value>)
    ensures r.None? <==> Lower(c.name) == "coordinates" && !(c.kind == Object && c.children.Some?)
    ensures r.Some? && Lower(c.name) != "coordinates" ==> r.value.VStr?
    ensures r.Some? ==> DepthAtMost(r.value, 1)
  {
    var n := Lower(c.name);
    if n == "street" then Some(Str(o, StreetAddress, p))
    else if n == "city" then Some(Str(o, City, p))
    else if n == "state" then Some(Str(o, State, p))
    else if n == "country" then Some(Str(o, Country, p))
    else if n == "zipcode" || n == "postalcode" || n == "zip" then Some(Str(o, ZipCode, p))
    else if n == "coordinates" then
      if c.kind == Object && c.children.Some? then
        var m := Assemble(c.children.value, CoordGen(o, p));
        AssembleDepth(c.children.value, CoordGen(o, p), 0);
        Some(VObj(m))
      else None
    else Some(Str(o, Word, p))
  }

  function AddressGen(o: Oracle, p: seq<int>): (g: (Field, nat) -> Option<Value>)
    ensures forall c: Field, j: nat :: g(c, j) == AddressPart(c, o, p + [j])
  {
    (c: Field, j: nat) => AddressPart(c, o, p + [j])
  }

  function AddressValue(f: Field, o: Oracle, p: seq<int>): (v: Value)
    ensures DepthAtMost(v, 2)
  {
    if f.kind == Object && HasChildren(f) then
      AssembleDepth(f.children.value, AddressGen(o, p), 1);
      VObj(Assemble(f.children.value, AddressGen(o, p)))
    else Str(o, StreetAddress, p)
  }

  // ---------------------------------------------------------------------
  // Lists and fixed shapes (lines 184-358)
  // ---------------------------------------------------------------------

  /** `tags`, `skills`, ...: 2 to 5 words or ids for an Array, else 3 words. */
  function ListValue(f: Field, o: Oracle, p: seq<int>): (v: Value)
    ensures v.VArr? && forall i :: 0 <= i < |v.items| ==> v.items[i].VStr?
  {
    if f.kind == Array then
      var n := IntIn(o, p, 2, 5);
      var gen := if HasChildren(f) && f.children.value[0].kind == ObjectId then MongoId else Word;
      VArr(seq(n, i => Str(o, gen, p + [i])))
    else VArr([Str(o, Word, p + [0]), Str(o, Word, p + [1]), Str(o, Word, p + [2])])
  }

  const Platforms: seq<string> := ["Facebook", "Twitter", "LinkedIn", "Instagram", "GitHub"]

  /** A member of one social-media item for the given platform. */
  function SocialPart(c: Field, platform: string, o: Oracle, p: seq<int>): (r: Option<Value>)
    ensures r.Some? && r.value.VStr?
  {
    var n := Lower(c.name);
    if n == "platform" then Some(VStr(platform))
    else if n == "url" then Some(VStr("https://" + Lower(platform) + ".com/user123"))
    else if n == "username" then Some(Str(o, UserName, p))
    else Some(Str(o, Word, p))
  }

  function SocialGen(platform: string, o: Oracle, p: seq<int>): (g: (Field, nat) -> Option<Value>)
    ensures forall c: Field, j: nat :: g(c, j) == SocialPart(c, platform, o, p + [j])
  {
    (c: Field, j: nat) => SocialPart(c, platform, o, p + [j])
  }

  function SocialItem(cs: seq<Field>, i: nat, o: Oracle, p: seq<int>): (v: Value)
    ensures v.VObj? && DepthAtMost(v, 1) && DepthAtMost(v, 2)
  {
    var g := SocialGen(Platforms[i % |Platforms|], o, p + [i]);
    AssembleDepth(cs, g, 0);
    AssembleDepth(cs, g, 1);
    VObj(Assemble(cs, g))
  }

  function SocialMediaValue(f: Field, o: Oracle, p: seq<int>): (v: Value)
    ensures v.VArr? && |v.items| == 2 && DepthAtMost(v, 2)
  {
    if f.kind == Array && HasChildren(f) then
      VArr([SocialItem(f.children.value, 0, o, p), SocialItem(f.children.value, 1, o, p)])
    else
      VArr([
        VObj(map["platform" := VStr("Twitter"), "url" := VStr("https://twitter.com/user123"),
                 "username" := Str(o, UserName, p + [0])]),
        VObj(map["platform" := VStr("LinkedIn"), "url" := VStr("https://linkedin.com/in/user123"),
                 "username" := Str(o, UserName, p + [1])])])
  }

  function EducationPart(c: Field, o: Oracle, p: seq<int>): (r: Option<Value>)
    ensures r.Some? && IsScalar(r.value)
  {
    var n := Lower(c.name);
    if n == "institution" then Some(VStr(o.text(Site(CompanyName, p)) + " University"))
    else if n == "degree" then Some(VStr("Bachelor of " + o.text(Site(BuzzNoun, p))))
    else if n == "field" then Some(Str(o, BuzzNoun, p))
    else if n == "startdate" then Some(Str(o, PastIso(5), p))
    else if n == "enddate" then Some(Str(o, RecentIso, p))
    else if n == "gpa" then Some(Num(o, Gpa, p))
    else Some(Str(o, Word, p))
  }

  function EducationGen(o: Oracle, p: seq<int>): (g: (Field, nat) -> Option<Value>)
    ensures forall c: Field, j: nat :: g(c, j) == EducationPart(c, o, p + [j])
  {
    (c: Field, j: nat) => EducationPart(c, o, p + [j])
  }

  function EducationValue(f: Field, o: Oracle, p: seq<int>): (v: Value)
    ensures v.VArr? && |v.items| == 1 && v.items[0].VObj? && DepthAtMost(v, 2)
  {
    if f.kind == Array && HasChildren(f) then
      AssembleDepth(f.children.value, EducationGen(o, p), 1);
      VArr([VObj(Assemble(f.children.value, EducationGen(o, p)))])
    else
      VArr([VObj(map[
        "institution" := VStr(o.text(Site(CompanyName, p)) + " University"),
        "degree" := VStr("Bachelor of Science"),
        "field" := VStr("Computer Science"),
        "startDate" := Str(o, PastIso(5), p),
        "endDate" := Str(o, RecentIso, p),
        "gpa" := Num(o, Gpa, p)])])
  }

  function WorkPart(c: Field, o: Oracle, p: seq<int>): (r: Option<Value>)
    ensures r.Some? && IsScalar(r.value)
    ensures Lower(c.name) == "salary" ==> r.value.VInt? && 30000 <= r.value.i <= 150000
  {
    var n := Lower(c.name);
    if n == "company" then Some(Str(o, CompanyName, p))
    else if n == "position" then Some(Str(o, JobTitle, p))
    else if n == "startdate" then Some(Str(o, PastIso(3), p))
    else if n == "enddate" then Some(Str(o, RecentIso, p))
    else if n == "description" then Some(Str(o, Paragraph, p))
    else if n == "salary" then Some(Int(o, p, 30000, 150000))
    else Some(Str(o, Word, p))
  }

  function WorkGen(o: Oracle, p: seq<int>): (g: (Field, nat) -> Option<Value>)
    ensures forall c: Field, j: nat :: g(c, j) == WorkPart(c, o, p + [j])
  {
    (c: Field, j: nat) => WorkPart(c, o, p + [j])
  }

  function WorkValue(f: Field, o: Oracle, p: seq<int>): (v: Value)
    ensures v.VArr? && |v.items| == 1 && v.items[0].VObj? && DepthAtMost(v, 2)
  {
    if f.kind == Array && HasChildren(f) then
      AssembleDepth(f.children.value, WorkGen(o, p), 1);
      VArr([VObj(Assemble(f.children.value, WorkGen(o, p)))])
    else
      VArr([VObj(map[
        "company" := Str(o, CompanyName, p),
        "position" := Str(o, JobTitle, p),
        "startDate" := Str(o, PastIso(3), p),
        "endDate" := Str(o, RecentIso, p),
        "description" := Str(o, Paragraph, p),
        "salary" := Int(o, p, 30000, 150000)])])
  }

  function SettingsValue(o: Oracle, p: seq<int>): (v: Value)
    ensures v.VObj? && DepthAtMost(v, 2)
  {
    VObj(map["setting1" := Str(o, Word, p), "setting2" := Bool(o, p), "setting3" := Int(o, p, 1, 100)])
  }

  function SocialLinksValue(f: Field, o: Oracle, p: seq<int>): (v: Value)
    ensures v.VObj? && DepthAtMost(v, 2)
  {
    var u0 := o.text(Site(UserName, p + [0]));
    var u1 := o.text(Site(UserName, p + [1]));
    var u2 := o.text(Site(UserName, p + [2]));
    if f.kind == Map || f.kind == Object then
      VObj(map["twitter" := VStr("https://twitter.com/" + u0),
               "facebook" := VStr("https://facebook.com/" + u1),
               "linkedin" := VStr("https://linkedin.com/" + u2)])
    else
      VObj(map["twitter" := VStr("https://twitter.com/" + u0),
               "facebook" := VStr("https://facebook.com/" + u1),
               "linkedin" := VStr("https://linkedin.com/in/" + u2)])
  }

  // ---------------------------------------------------------------------
  // The kind fallback (lines 367-489)
  // ---------------------------------------------------------------------

  /** A member of an item of an Array fallback (lines 390-408). */
  function ItemPart(c: Field, o: Oracle, p: seq<int>): (r: Option<Value>)
    ensures r.Some? && IsScalar(r.value)
  {
    Some(match c.kind
      case String => Str(o, LoremWord, p)
      case Number => Int(o, p, 1, 100)
      case Boolean => Bool(o, p)
      case Date => Str(o, RecentIso, p)
      case ObjectId => Str(o, MongoId, p)
      case _ => Str(o, LoremWord, p))
  }

  function ItemGen(o: Oracle, p: seq<int>): (g: (Field, nat) -> Option<Value>)
    ensures forall c: Field, j: nat :: g(c, j) == ItemPart(c, o, p + [j])
  {
    (c: Field, j: nat) => ItemPart(c, o, p + [j])
  }

  /** A member of a doubly nested object (lines 450-462): Date falls to the
      default and gives a word. */
  function DeepPart(c: Field, o: Oracle, p: seq<int>): (r: Option<Value>)
    ensures r.Some? && IsScalar(r.value)
  {
    Some(match c.kind
      case String => Str(o, LoremWord, p)
      case Number => Int(o, p, 1, 100)
      case Boolean => Bool(o, p)
      case _ => Str(o, LoremWord, p))
  }

  function DeepGen(o: Oracle, p: seq<int>): (g: (Field, nat) -> Option<Value>)
    ensures forall c: Field, j: nat :: g(c, j) == DeepPart(c, o, p + [j])
  {
    (c: Field, j: nat) => DeepPart(c, o, p + [j])
  }

  /** A member of an Object fallback (lines 429-472). */
  function MemberPart(c: Field, o: Oracle, p: seq<int>): (r: Option<Value>)
    ensures r.Some? && DepthAtMost(r.value, 1)
  {
    match c.kind
    case String => Some(Str(o, LoremWord, p))
    case Number => Some(Int(o, p, 1, 100))
    case Boolean => Some(Bool(o, p))
    case Date => Some(Str(o, RecentIso, p))
    case ObjectId => Some(Str(o, MongoId, p))
    case Object =>
      if HasChildren(c) then
        AssembleDepth(c.children.value, DeepGen(o, p), 0);
        Some(VObj(Assemble(c.children.value, DeepGen(o, p))))
      else Some(VObj(map["value" := Str(o, LoremWord, p)]))
    case _ => Some(Str(o, LoremWord, p))
  }

  function MemberGen(o: Oracle, p: seq<int>): (g: (Field, nat) -> Option<Value>)
    ensures forall c: Field, j: nat :: g(c, j) == MemberPart(c, o, p + [j])
  {
    (c: Field, j: nat) => MemberPart(c, o, p + [j])
  }

  function ArrayItem(cs: seq<Field>, o: Oracle, p: seq<int>): (v: Value)
    ensures v.VObj? && DepthAtMost(v, 1) && DepthAtMost(v, 2)
  {
    AssembleDepth(cs, ItemGen(o, p), 0);
    AssembleDepth(cs, ItemGen(o, p), 1);
    VObj(Assemble(cs, ItemGen(o, p)))
  }

  function KindValue(f: Field, o: Oracle, p: seq<int>): (v: Value)
    ensures DepthAtMost(v, 2)
  {
    match f.kind
    case String => Str(o, LoremWord, p)
    case Number => Int(o, p, 1, 1000)
    case Boolean => Bool(o, p)
    case Date => Str(o, RecentIso, p)
    case Array =>
      if HasChildren(f) then
        var cs := f.children.value;
        var n := IntIn(o, p, 1, 3);
        var items := seq(n, i => ArrayItem(cs, o, p + [i]));
        assert forall i :: 0 <= i < n ==> DepthAtMost(items[i], 2);
        VArr(items)
      else VArr([Str(o, LoremWord, p + [0]), Str(o, LoremWord, p + [1]), Str(o, LoremWord, p + [2])])
    case Object =>
      if HasChildren(f) then
        AssembleDepth(f.children.value, MemberGen(o, p), 1);
        VObj(Assemble(f.children.value, MemberGen(o, p)))
      else VObj(map["key1" := Str(o, LoremWord, p + [0]), "key2" := Str(o, LoremWord, p + [1])])
    case ObjectId => Str(o, MongoId, p)
    case _ => Str(o, LoremWord, p)
  }

  // ---------------------------------------------------------------------
  // One field, and the whole payload
  // ---------------------------------------------------------------------

  /** The value of a field whose lower-cased name is in the table. */
  function NamedValue(r: Rule, f: Field, o: Oracle, p: seq<int>): (v: Value)
    requires r != NoRule
    ensures DepthAtMost(v, 2)
  {
    match r
    case EmailRule => Str(o, Email, p)
    case FirstNameRule => Str(o, FirstName, p)
    case LastNameRule => Str(o, LastName, p)
    case UserNameRule => Str(o, UserName, p)
    case PasswordRule => Str(o, Password, p)
    case PhoneRule => Str(o, Phone, p)
    case AddressRule => AddressValue(f, o, p)
    case CityRule => Str(o, City, p)
    case CountryRule => Str(o, Country, p)
    case ZipRule => Str(o, ZipCode, p)
    case ImageRule => Str(o, ImageUrl, p)
    case ParagraphRule => Str(o, Paragraph, p)
    case TitleRule => Str(o, Sentence, p)
    case UrlRule => Str(o, WebUrl, p)
    case TokenRule => Str(o, Alphanumeric32, p)
    case IdRule => if f.kind == ObjectId then Str(o, MongoId, p) else Str(o, Uuid, p)
    case AgeRule => Int(o, p, 18, 80)
    case RatingRule => Num(o, Rating, p)
    case DateRule => Str(o, RecentIso, p)
    case RoleRule =>
      if HasEnum(f) then EnumValue(f, o, p) else Pick(o, p, ["admin", "user", "guest"])
    case StatusRule =>
      if f.kind == Boolean then Bool(o, p)
      else if HasEnum(f) then EnumValue(f, o, p)
      else Pick(o, p, ["active", "inactive", "pending"])
    case ColorRule => Str(o, Rgb, p)
    case ThemeRule =>
      if HasEnum(f) then EnumValue(f, o, p) else Pick(o, p, ["light", "dark", "auto"])
    case ListRule => ListValue(f, o, p)
    case SocialMediaRule => SocialMediaValue(f, o, p)
    case EducationRule => EducationValue(f, o, p)
    case WorkRule => WorkValue(f, o, p)
    case SettingsRule => SettingsValue(o, p)
    case SocialLinksRule => SocialLinksValue(f, o, p)
  }

  /** The value generated for one field at draw path `p`: the name table,
      else the enum, else the kind fallback. */
  function ValueFor(f: Field, o: Oracle, p: seq<int>): (v: Value)
    ensures DepthAtMost(v, 2)
  {
    var r := RuleFor(Lower(f.name));
    if r != NoRule then NamedValue(r, f, o, p)
    else if HasEnum(f) then EnumValue(f, o, p)
    else KindValue(f, o, p)
  }

  /** Field `i` of the input: skipped when it is a schema option. */
  function TopPart(f: Field, o: Oracle, i: nat): (r: Option<Value>)
    ensures r.None? <==> IsMetadata(f)
    ensures r.Some? ==> DepthAtMost(r.value, 2)
  {
    if IsMetadata(f) then None else Some(ValueFor(f, o, [i]))
  }

  function TopGen(o: Oracle): (g: (Field, nat) -> Option<Value>)
    ensures forall f, i :: g(f, i) == TopPart(f, o, i)
  {
    (f: Field, i: nat) => TopPart(f, o, i)
  }

  /** `generateFakePayload`: schema options filtered out, then one key per
      remaining field name, a later field overwriting an earlier one. */
  function GenerateFakePayload(fields: seq<Field>, o: Oracle): (payload: Payload)
    ensures forall k :: k in payload ==> DepthAtMost(payload[k], 2)
  {
    AssembleDepth(fields, TopGen(o), 2);
    Assemble(fields, TopGen(o))
  }
}
