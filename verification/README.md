# payloadgen core in Dafny

payloadgen is a VS Code extension. Given the source of a route handler or a
Mongoose schema, it lists the request-body fields and builds a fake JSON
payload for them. This project models three parts of it:

- **The field extractor** (`extractKeysFromCode`, src/core/extractor.ts:5-372).
  - It first finds the request-body fields: names destructured from
    `req.body`, then `req.body.x` accesses.
  - Failing those, it reads schema fields from every object literal whose
    parent's text mentions `mongoose.Schema` or `new Schema`.
  - Each schema property gets a kind from an ordered substring table, an
    `enum` (literal array or `Object.values(X)`), and nested fields for
    object-valued and array-valued properties.
  - When parsing throws, a text-pattern fallback takes over (375-393).
  - Finally the list is de-duplicated by name, keeping the first occurrence.
- **The payload synthesizer** (`generateFakePayload`, src/core/faker.ts:4-496).
  - Schema-option names (`type`, `ref`, `required`, …) are dropped.
  - Every other field gets a value from a table keyed by its lower-cased
    name, or from its enum, or from a fallback on its kind.
  - The payload is a map, so a later field of the same name overwrites an
    earlier one.
- **The HTML escaper** of the result panel (`_escapeHtml`,
  src/ui/PayloadPanel.ts:285-292): five successive replace-all passes over
  `& < > " '`.

The modules:

- `Schema`: the `SchemaField` record of src/types/index.ts.
- `Text`: string helpers.
- `Syntax`: the parsed TypeScript the extractor reads. It stands in for the
  ts-morph syntax tree.
- `Classify`: the kind tables.
- `Dedup`: the name de-duplication.
- `RegexFallback`: the text-pattern fallback.
- `Extractor`: the tree walk and the outcome of a parse.
- `Json`: payload values, plus the way a loop of keyed assignments builds an
  object.
- `Oracle`: stands in for the random generator. Every draw is read from an
  `Oracle` value at a named site, so "for every oracle" means "whatever
  faker returns".
- `Faker`: the synthesizer.
- `PayloadProperties`: properties of the synthesizer.
- `Escape`: the escaper, with an unescaper that is its inverse.

## Model

| member | source | states |
|---|---|---|
| Classify.Classify | src/core/extractor.ts:85-94 | the kind is that of the first table entry whose needle occurs in the type text, or Unknown when no entry matches |
| Classify.NeverObjectId | src/core/extractor.ts:93-94 | every text containing `ObjectId` also contains `Object`, and `Object` comes earlier in all three tables, so no property is ever classified ObjectId |
| Classify.ClassifyAt | src/core/extractor.ts:175-183 | when entry i is the first match, the classification is entry i's kind |
| Classify.ObjectIdToken | src/core/extractor.ts:409-417 | the two classifiers disagree on the word `ObjectId`: the exact map gives Unknown, the substring table gives Object |
| Classify.TokenKind | src/core/extractor.ts:409-417 | the exact-token map knows exactly the eight words String … Map, and maps each to the kind of that name; any other word, including ObjectId, is Unknown |
| Classify.TokenKindOfName | src/core/extractor.ts:409-417 | the name of every kind other than ObjectId and Unknown is read back as that kind |
| Dedup.Dedup | src/core/extractor.ts:360-371 | the result has pairwise distinct names and the same name set as the input; it is a subsequence of the input holding the first field of each name |
| Dedup.RemoveDuplicates | src/core/extractor.ts:360-371 | the loop with a seen-set computes the first-occurrence de-duplication |
| Dedup.DedupIdempotent | src/core/extractor.ts:360-371 | de-duplicating twice is the same as de-duplicating once |
| Dedup.DedupExample | src/core/extractor.ts:363-367 | of two fields with the same name only the earlier one survives, in place |
| RegexFallback.DestructureCaptures | src/core/extractor.ts:378-382 | every capture of the destructuring pattern is non-empty and has no closing brace |
| RegexFallback.DestructureAtSound | src/core/extractor.ts:378-381 | a match the scanner reports at a position is a match of `const\s*\{\s*([^}]+)\s*\}\s*=\s*req\.body` there, with the capture and the resume index that match gives |
| RegexFallback.DestructureAtComplete | src/core/extractor.ts:378-381 | wherever the pattern matches, the scanner reports it, capturing from the first non-space after `{` up to the first `}` with trailing spaces kept, and resuming right after `req.body` |
| RegexFallback.DestructureAtMatches | src/core/extractor.ts:378-381 | the scanner reports a match at a position exactly when the pattern matches there |
| RegexFallback.DestructureCapturesEmpty | src/core/extractor.ts:378-382 | there are no captures exactly when the pattern matches nowhere |
| RegexFallback.DestructureCapturesLeftmost | src/core/extractor.ts:378-382 | the first capture comes from the leftmost match, and the search then resumes right after that match's `req.body` |
| Text.Trim | src/core/extractor.ts:383 | `trim()` returns a slice of its input whose first and last characters are not white space, with only white space outside the slice |
| RegexFallback.BindingName | src/core/extractor.ts:383 | the name of one part is the trimmed part when it has no colon, and otherwise the trimmed text before its first colon, so a renamed binding keeps its key |
| RegexFallback.BindingNames | src/core/extractor.ts:383-384 | one name per comma-separated part, in order; each is the part's trimmed text before its first colon, or the whole trimmed part when it has none |
| RegexFallback.BindingNamesPieces | src/core/extractor.ts:383 | the parts the names come from hold no comma and join with commas back into the capture |
| RegexFallback.AccessNamesEmpty | src/core/extractor.ts:388-393 | the access scan finds nothing exactly when no position of the code starts `req.body.` followed by a word character |
| RegexFallback.AccessNamesLeftmost | src/core/extractor.ts:388-393 | the scan reports the leftmost `req.body.` occurrence first and resumes after its captured word |
| RegexFallback.AccessNameSource | src/core/extractor.ts:388-393 | every reported name is the word captured at some `req.body.` occurrence in the code |
| RegexFallback.AccessNamesAreWords | src/core/extractor.ts:389 | every reported access name is a non-empty run of word characters |
| RegexFallback.RegexFields | src/core/extractor.ts:375-393 | the fallback's regex-found fields are name-only Unknown fields carrying, in order, the destructured names and then the `req.body.X` names; the schema scan's fields follow unchanged |
| Extractor.CollectNames | src/core/extractor.ts:66-70 | collecting the assigned properties of an object literal yields exactly the assigned names that the filter keeps |
| Extractor.CollectInOrder | src/core/extractor.ts:66-70 | the collected fields correspond one for one, in member order, to the `name: value` members the filter keeps: field j is the maker applied to member idx[j], idx is strictly increasing, and every kept member is some idx[j] |
| Extractor.CollectMembers | src/core/extractor.ts:66-70 | the field made from every kept member is collected, and every collected field is made from some kept member |
| Extractor.FirstDecl | src/core/extractor.ts:125-129 | the variable lookup finds the first declaration of that name, and finds none exactly when no declaration has it |
| Extractor.ObjectValuesLeftmost | src/core/extractor.ts:122-123 | the `Object.values(X)` scan finds the leftmost occurrence and captures its word, or reports none exactly when there is none |
| Extractor.MemberValuesEmpty | src/core/extractor.ts:131-147 | the member values of an object are empty exactly when it has no assigned property |
| Extractor.EnumOf | src/core/extractor.ts:109-152 | an enum is reported only when the property object assigns `enum`; an array literal gives its element texts, each a string literal's value or the element's text without quotes; a non-array enum is reported only when its text mentions `Object.values`, and then it is non-empty |
| Extractor.ObjectValuesOfCall | src/core/extractor.ts:121-122 | the text `Object.values(X)` of a word X mentions `Object.values` and captures exactly X |
| Extractor.EnumFromDeclaration | src/core/extractor.ts:121-147 | for `enum: Object.values(X)` with X first declared as an object literal, the enum is that literal's `name: value` member values, or admin/user/guest when it has none |
| Extractor.EnumFromOtherDeclaration | src/core/extractor.ts:121-147 | for `enum: Object.values(X)` with X first declared without an object-literal initializer, the enum is admin/user/guest |
| Extractor.EnumUndeclared | src/core/extractor.ts:121-147 | for `enum: Object.values(X)` with no declaration named X, the enum is admin/user/guest |
| Extractor.FirstDeclAt | src/core/extractor.ts:124-128 | the declaration found is the one at the first index with that name |
| Extractor.NestedEnum | src/core/extractor.ts:198-209 | a nested property has an enum exactly when it assigns a literal array, and the enum is that array's element texts |
| Extractor.DeepKind | src/core/extractor.ts:222-238 | a doubly nested property with a `type` gets the first match of that type's text in the doubly nested table; it is never ObjectId, and is Unknown without a `type` |
| Extractor.DeepFields | src/core/extractor.ts:210-249 | doubly nested fields carry only a name and a kind; their names are the assigned non-empty property names; each non-empty `name: value` member yields its own name-and-kind field, and the fields are exactly those, one per member in member order |
| Extractor.NestedFieldOf | src/core/extractor.ts:153-261 | a non-object nested value is a bare Unknown field; an object without `type` becomes Object with the deep fields as children; one with `type` gets the first match of its type text in the field table and only the nested (array) enum |
| Extractor.NestedFields | src/core/extractor.ts:158-260 | nested fields have the nested shape, and their names are the assigned non-empty property names; each non-empty `name: value` member yields its own nested field, and the fields are exactly those, one per member in member order |
| Extractor.ArrayItem | src/core/extractor.ts:263-300 | an array property gets item fields exactly when its first element is an object literal with `type`; the item has the item shape and the kind of the first match of that type text in the item table |
| Extractor.SchemaFieldOf | src/core/extractor.ts:77-345 | a top-level property's field has the top-level shape; it gets an enum only with `type` and `enum`; without `type` it is an Object holding the nested fields; an array is an Array holding the item fields; anything else is a bare Unknown field; a property with `type` gets the first match of its type text in the field table as its kind and the resolved enum |
| Extractor.TypedPropertyExample | src/core/extractor.ts:82-120 | a property literal with `type: String` and `enum: ['a', 'b']` becomes the String field with enum a, b and nothing else |
| Extractor.SiteFields | src/core/extractor.ts:66-346 | the fields of one schema literal are exactly its assigned names that pass the skip rule, each with the top-level shape; each kept `name: value` member yields its own top-level field, and the fields are exactly those, one per member in member order, so nothing is dropped, invented or repeated |
| Extractor.SchemaScanNames | src/core/extractor.ts:59-70 | a name is scanned exactly when it passes the skip rule and is assigned in some object literal whose parent's text mentions `mongoose.Schema` or `new Schema` |
| Extractor.NonEmptyNamesNone | src/core/extractor.ts:33-35 | filtering out empty names leaves nothing exactly when every name is empty |
| Extractor.TreeStageBody | src/core/extractor.ts:14-56 | when some destructured or accessed body name is non-empty, those names are the result in that order, all Unknown and name-only, and no schema is read |
| Extractor.TreeStageScan | src/core/extractor.ts:58-66 | when no body name was found, the result is the schema scan |
| Extractor.Collected | src/core/extractor.ts:353-358 | a completed parse yields the tree walk's fields; a throw keeps the fields pushed so far and appends the fallback's fields |
| Extractor.ExtractKeys | src/core/extractor.ts:5-372 | the extracted list has distinct names, keeps every collected name, is a subsequence of the collected fields, and holds the first field of each name |
| Extractor.ExtractedSchemaShapes | src/core/extractor.ts:59-70 | when the body yields no name and parsing completes, every extracted field has the top-level schema shape and passes the skip rule |
| Json.AssembleKeys | src/core/faker.ts:13-14 | the keys of an object built by keyed assignments are exactly the names that received a value |
| Json.AssembleLast | src/core/faker.ts:13-14 | a key holds the value of the last assignment to it |
| Json.AssembleSource | src/core/faker.ts:13-14 | every key's value was assigned by some field of that name |
| Oracle.IntIn | src/core/faker.ts:133-135 | an integer drawn between two bounds lies within them |
| Oracle.IntInOnto | src/core/faker.ts:133-135 | every integer between the bounds is drawn by some generator state |
| Faker.GenerateFakePayload | src/core/faker.ts:4-496 | no payload value is nested deeper than two object levels (arrays are not counted) |
| Faker.AddressPart | src/core/faker.ts:40-75 | a member of an address object is left out exactly when it is a `coordinates` member that is not an Object with a nested-field list; the other non-coordinate members are strings |
| Faker.WorkPart | src/core/faker.ts:299-313 | a work-experience salary is an integer between 30000 and 150000 |
| PayloadProperties.PayloadKeys | src/core/faker.ts:8-14 | a key is in the payload exactly when some field has that name and its lower-cased form is not a schema option |
| PayloadProperties.NoMetadataKey | src/core/faker.ts:8-11 | no payload key is a schema-option name in any letter case |
| PayloadProperties.LastFieldWins | src/core/faker.ts:13-14 | with repeated names, the payload holds the value generated for the last field of that name |
| PayloadProperties.KeysExample | src/core/faker.ts:8-11 | a `Type` field is dropped while `email` is kept |
| PayloadProperties.UnlistedNameUsesEnum | src/core/faker.ts:359-364 | a field outside the name table that has an enum gets one of the enum's values |
| PayloadProperties.RoleAndTheme | src/core/faker.ts:150-157 | role and theme take an enum value when there is an enum, and otherwise admin/user/guest or light/dark/auto |
| PayloadProperties.StatusGroup | src/core/faker.ts:158-172 | a status-like field is a boolean when declared Boolean, otherwise an enum value or one of active/inactive/pending |
| PayloadProperties.EnumIgnoredElsewhere | src/core/faker.ts:16-149 | for every other name in the table, the enum has no effect on the value |
| PayloadProperties.EmailIgnoresEnum | src/core/faker.ts:16-18 | an email field is the drawn email even when it has an enum |
| PayloadProperties.FallbackKinds | src/core/faker.ts:366-486 | without a table entry or enum, the value follows the kind: word, 1..1000, boolean, ISO date, Mongo id, array, object |
| PayloadProperties.ArrayFallback | src/core/faker.ts:380-423 | an Array field with item fields gets 1 to 3 objects keyed by the item names; without item fields it gets three words |
| PayloadProperties.ArrayFallbackMember | src/core/faker.ts:386-412 | inside an array item, a Number member is an integer in 1..100, a Boolean member is a boolean, and any other member is a string |
| PayloadProperties.ObjectFallback | src/core/faker.ts:424-478 | an Object field gets its nested names as keys, or key1/key2 when it has none |
| PayloadProperties.ObjectFallbackMember | src/core/faker.ts:428-470 | a nested Number member is an integer in 1..100; a nested Object member holds its own names, or just `value` |
| PayloadProperties.DepthBoundReached | src/core/faker.ts:445-465 | the depth bound is reached: an object inside an object yields a value deeper than one level |
| PayloadProperties.AgeRange | src/core/faker.ts:133-135 | an age is an integer between 18 and 80 |
| PayloadProperties.ListGroup | src/core/faker.ts:184-214 | a list-like field is an array of 2 to 5 strings (3 when not declared Array); they are Mongo ids when the first item field is ObjectId, otherwise words |
| PayloadProperties.AddressShape | src/core/faker.ts:36-82 | an address with nested fields is an object keyed by those names, leaving out a `coordinates` member that is not an Object with a nested-field list; otherwise it is a drawn street address |
| PayloadProperties.AddressMembersAreStrings | src/core/faker.ts:40-58 | every address member other than coordinates is a string |
| PayloadProperties.SettingsShape | src/core/faker.ts:331-339 | settings-like fields are the object {setting1, setting2: boolean, setting3: 1..100} |
| PayloadProperties.SocialLinksShape | src/core/faker.ts:340-358 | social links are an object with keys twitter, facebook and linkedin |
| PayloadProperties.SocialMediaWithChildren | src/core/faker.ts:215-239 | with item fields, social media is two objects on the Facebook and Twitter platforms, each keyed by every item name, with the fixed profile URLs |
| PayloadProperties.SocialMediaFixed | src/core/faker.ts:240-254 | without item fields, social media is a Twitter entry and a LinkedIn entry with platform, url and username |
| PayloadProperties.OneItemWithChildren | src/core/faker.ts:255-330 | education and work experience with item fields are one object keyed by exactly those names |
| Escape.EscapeHtml | src/ui/PayloadPanel.ts:285-292 | the escaped text contains no `<`, `>`, double quote or single quote |
| Escape.EscapeHtmlIsEach | src/ui/PayloadPanel.ts:285-292 | the five successive passes equal escaping each character independently, so the `&` pass first never double-escapes |
| Escape.EscapeHtmlLength | src/ui/PayloadPanel.ts:285-292 | the output grows by 4 per `&`, 3 per `<` or `>`, and 5 per quote |
| Escape.NoSpecialsUnchanged | src/ui/PayloadPanel.ts:285-292 | text without the five special characters is returned unchanged |
| Escape.UnescapeEscape | src/ui/PayloadPanel.ts:285-292 | decoding the five entities recovers the original text |
| Escape.EscapeHtmlWellEscaped | src/ui/PayloadPanel.ts:285-292 | escaped text is well-formed: only entities follow each `&` |
| Escape.EscapeUnescape | src/ui/PayloadPanel.ts:285-292 | every well-formed text is the escaping of its decoding, so escaping maps onto the well-formed texts |
| Escape.AmpersandsBeginEntities | src/ui/PayloadPanel.ts:285-292 | in well-formed text every `&` begins one of the five entities |

## Left out

- Parsing with ts-morph. The extractor reads a `Syntax.Ast`: the destructured
  and accessed body names, the object literals in schema positions, and the
  variable declarations. Which code makes the parser throw is an input too
  (`Extractor.Outcome`).
- The schema part of the text-pattern fallback (src/core/extractor.ts:395-606).
  This is a separate regex scanner, and its result is a parameter
  (`schemaScanFields`) of `Extractor.Collected`.
- `extractFieldsFromTypeScriptModel` and the rest of extractor.ts after line
  606. The core does not call them.
- The complex-array branch (src/core/extractor.ts:301-335). It is the `else`
  of the first-element test at line 270, so it would run for a first element
  that is not an object literal, but it tests `propValue` again, and inside
  the array branch (line 263) that is an array literal, never an object
  literal. It is unreachable, so it is not modelled.
- The `console.error` logging on a parse failure.
- The content of faker's generators. Every draw comes from an `Oracle`
  value, so the properties hold for any generated text. Faker floats
  (rating, coordinates, gpa) are opaque `VNum` values.
- Key order in JavaScript objects. Payloads are maps, and a repeated name
  overwrites the earlier value, as assignment does.
- A field named `__proto__`, which in JavaScript changes the prototype
  instead of adding a key.
- Full Unicode lower-casing. `Text.Lower` folds ASCII letters and the Kelvin
  sign only, which is enough for the ASCII table keys.
- The VS Code commands, the webview panel, syntax highlighting and the
  clipboard.
- Extractor.TreeStage: carries no contract of its own. Its behaviour is
  stated by Extractor.TreeStageBody and Extractor.TreeStageScan.
- Escape.EscapeHtml: its own contract states only the absence of the four
  markup characters. The full meaning is in Escape.EscapeHtmlIsEach and the
  round-trip lemmas.
- RegexFallback.DestructureCaptures: its own contract states only that each
  capture is non-empty and has no `}`. Which text each capture is, and where
  the search resumes, is stated by RegexFallback.DestructureCapturesLeftmost,
  RegexFallback.DestructureCapturesEmpty and the DestructureAt lemmas.
- Extractor.EnumOf: its own contract states the array case in full, but for
  `Object.values` only that the enum is non-empty. The resolved values are
  stated by Extractor.EnumFromDeclaration, Extractor.EnumFromOtherDeclaration
  and Extractor.EnumUndeclared, for an enum whose text is exactly
  `Object.values(X)`. An enum text with more around the call is not covered
  by a lemma.
- Syntax.Render stands in for ts-morph's `getText()` with one fixed layout:
  single-quoted strings, `, ` between elements and members, and no comments
  or original spacing. It gives the type texts, the `Object.values` test and
  the quote-stripped text of a non-string enum element, so source layouts
  that `getText()` would keep are not modelled.
- Faker.GenerateFakePayload: its own contract states only the depth bound,
  which counts object levels and not arrays.
  Its keys and values are stated in the PayloadProperties lemmas.

Behaviour of the code worth knowing:

- An `enum` of `Object.values(X)` whose X has no assigned members falls back
  to admin/user/guest.
- The ObjectId and `ref` branches of the extractor can never fire: the
  `Object` entry always matches first (`Classify.NeverObjectId`).
- A doubly nested `Date` property is generated as a word, because the deep
  fallback of the synthesizer has no Date case.
