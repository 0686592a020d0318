/** The field tree shared by the extractor and the payload synthesizer. */
module Schema {

  datatype Option<+T> = None | Some(value: T)

  /** The kind of a field. `Buffer` and `Map` are produced by the extractor and
      matched by the synthesizer even though the declared union leaves them out. */
  datatype Kind =
    | String | Number | Boolean | Date | Array | Object | ObjectId | Buffer | Map | Unknown

  /** The name the source gives a kind: its `type` string. */
  function KindName(k: Kind): string
  {
    match k
    case String => "String"
    case Number => "Number"
    case Boolean => "Boolean"
    case Date => "Date"
    case Array => "Array"
    case Object => "Object"
    case ObjectId => "ObjectId"
    case Buffer => "Buffer"
    case Map => "Map"
    case Unknown => "Unknown"
  }

  /** One inferred data field: a name, a kind, an optional list of permitted
      values, optional nested fields and an optional referenced model name. */
  datatype Field = Field(
    name: string,
    kind: Kind,
    enumValues: Option<seq<string>>,
    children: Option<seq<Field>>,
    ref: Option<string>)

  /** A field that carries only a name and a kind. */
  function Plain(name: string, kind: Kind): (f: Field)
    ensures f.name == name && f.kind == kind
    ensures f.enumValues.None? && f.children.None? && f.ref.None?
  {
    Field(name, kind, None, None, None)
  }

  /** One name-only field of kind Unknown per name, in order: what the
      request-body strategies push. */
  function Unknowns(ns: seq<string>): (fs: seq<Field>)
    ensures |fs| == |ns|
    ensures forall i :: 0 <= i < |ns| ==> fs[i] == Plain(ns[i], Unknown)
  {
    seq(|ns|, i requires 0 <= i < |ns| => Plain(ns[i], Unknown))
  }

  /** The field names of a list, in order. */
  function Names(fs: seq<Field>): (ns: seq<string>)
    ensures |ns| == |fs|
    ensures forall i :: 0 <= i < |fs| ==> ns[i] == fs[i].name
  {
    if |fs| == 0 then [] else Names(fs[..|fs| - 1]) + [fs[|fs| - 1].name]
  }

  /** The set of field names of a list. */
  function NameSet(fs: seq<Field>): set<string>
  {
    set i | 0 <= i < |fs| :: fs[i].name
  }

  /** True iff no two fields of the list share a name. */
  predicate DistinctNames(fs: seq<Field>)
  {
    forall i, j :: 0 <= i < j < |fs| ==> fs[i].name != fs[j].name
  }

  /** True iff the field has a non-empty list of nested fields. */
  predicate HasChildren(f: Field)
  {
    f.children.Some? && |f.children.value| > 0
  }

  /** True iff the field has a non-empty list of permitted values. */
  predicate HasEnum(f: Field)
  {
    f.enumValues.Some? && |f.enumValues.value| > 0
  }
}
