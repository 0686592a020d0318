/** The abstract syntax tree the extractor reads. The parser that produces it
    is a foreign library; this module stands in for the few node kinds and
    queries the extractor uses. */
module Syntax {
  import opened Schema
  import opened Text

  /** An expression, as far as the extractor distinguishes them. */
  datatype Expr =
    | ObjLit(props: seq<Prop>)
    | ArrLit(elems: seq<Expr>)
    | StrLit(value: string)
    | Other(raw: string)

  /** A member of an object literal: a `name: value` assignment, or any other
      member (shorthand, method, accessor, spread) under the name the parser
      reports for it (empty for a spread). */
  datatype Prop =
    | Assign(name: string, init: Expr)
    | NonAssign(key: string)

  /** A variable declaration: its name and its initializer, if any. */
  datatype Decl = Decl(name: string, init: Option<Expr>)

  /** An object literal of the source together with the text of its parent node. */
  datatype LiteralSite = LiteralSite(parentText: string, props: seq<Prop>)

  /** What the parser reports about one source text, in document order:
      - `destructured`: the names bound by object patterns whose initializer is
        a member access named `body` (`const { a, b } = req.body`);
      - `bodyAccesses`: the names `<f>` of member accesses `<x>.body.<f>`;
      - `literals`: every object literal, with its parent's text;
      - `decls`: every variable declaration. */
  datatype Ast = Ast(
    destructured: seq<string>,
    bodyAccesses: seq<string>,
    literals: seq<LiteralSite>,
    decls: seq<Decl>)

  function PropKey(p: Prop): string
  {
    match p
    case Assign(n, _) => n
    case NonAssign(k) => k
  }

  /** `getProperty(name)`: the first member with that name. */
  function GetProperty(props: seq<Prop>, name: string): (r: Option<Prop>)
    ensures r.Some? ==> PropKey(r.value) == name
    ensures r.None? <==> forall i :: 0 <= i < |props| ==> PropKey(props[i]) != name
  {
    if |props| == 0 then None
    else if PropKey(props[0]) == name then Some(props[0])
    else GetProperty(props[1..], name)
  }

  /** The initializer of the member named `name`, when the first member with
      that name is an assignment. */
  function AssignedValue(props: seq<Prop>, name: string): Option<Expr>
  {
    match GetProperty(props, name)
    case Some(Assign(_, e)) => Some(e)
    case _ => None
  }

  /** The source text of an expression (`getText()`), printed in one fixed
      layout: string literals in single quotes, members separated by `, `. */
  function Render(e: Expr): string
  {
    match e
    case StrLit(v) => "'" + v + "'"
    case Other(raw) => raw
    case ArrLit(es) => "[" + RenderList(es) + "]"
    case ObjLit(ps) => "{" + RenderProps(ps) + "}"
  }

  function RenderList(es: seq<Expr>): string
  {
    if |es| == 0 then ""
    else if |es| == 1 then Render(es[0])
    else Render(es[0]) + ", " + RenderList(es[1..])
  }

  function RenderProps(ps: seq<Prop>): string
  {
    if |ps| == 0 then ""
    else
      var head := match ps[0]
        case Assign(n, v) => n + ": " + Render(v)
        case NonAssign(k) => k;
      if |ps| == 1 then head else head + ", " + RenderProps(ps[1..])
  }

  /** The value read from a string-valued member (`ref`, an enum element, an
      enum object's member): a string literal's contents, otherwise the
      expression's text with every quote character removed. */
  function LiteralText(e: Expr): (r: string)
    ensures e.StrLit? ==> r == e.value
    ensures !e.StrLit? ==> '\'' !in r && '"' !in r
  {
    if e.StrLit? then e.value else StripQuotes(Render(e))
  }
}
