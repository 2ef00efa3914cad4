/**
 * The parts of a parsed `#[derive(...)]` input that the size calculator looks at:
 * types, fields, attributes and the struct/enum/union shell around them, shaped
 * after the syntax tree the macro receives. Parsing itself is not modelled; these
 * values are what parsing hands over.
 *
 * `Render` approximates turning a type back into its token text, which is what
 * the size calculator matches on: tokens are mostly separated by single spaces
 * and `::` is kept together, so `Vec<u64>` renders as "Vec < u64 >" and `a::B`
 * as "a :: B"; a comma and a parenthesized argument list follow without a space.
 */
module Syntax {

  /** A type. Only path types have structure here; every other kind of type
      (references, arrays, tuples, ...) is kept as its rendered token text. */
  datatype Ty =
    | TypePath(path: Path)
    | OtherType(tokens: string)

  datatype Path = Path(leadingColon: bool, segments: seq<PathSegment>)

  datatype PathSegment = PathSegment(ident: string, arguments: PathArguments)

  datatype PathArguments =
    | NoArguments
    | AngleBracketed(args: seq<GenericArgument>)
    | Parenthesized(tokens: string)

  /** A generic argument: a type, or anything else (a lifetime, a constant,
      an associated-type binding) kept as its token text. */
  datatype GenericArgument =
    | TypeArgument(ty: Ty)
    | OtherArgument(tokens: string)

  /** The argument list of an attribute, as read by asking for one integer
      literal between its parentheses: either such a literal, or the reason the
      arguments are not one. A leading `-` is accepted as part of an integer
      literal and kept as written, so `-0` is a negative literal of magnitude 0. */
  datatype AttrArgs =
    | IntLiteral(negative: bool, magnitude: nat)
    | NotIntLiteral(reason: string)

  datatype Attribute = Attribute(path: Path, args: AttrArgs)

  /** A struct field; `ident` is its name, used in diagnostics only (empty for
      the fields of a tuple struct). */
  datatype Field = Field(ident: string, ty: Ty, attrs: seq<Attribute>)

  datatype Fields =
    | Named(named: seq<Field>)
    | Unnamed(unnamed: seq<Field>)
    | Unit

  datatype DataStruct = DataStruct(fields: Fields)

  datatype Data =
    | Struct(strct: DataStruct)
    | Enum
    | Union

  datatype DeriveInput = DeriveInput(ident: string, data: Data)

  /** A path is the single identifier `name`: no leading `::`, one segment,
      no generic arguments. */
  predicate IsIdent(p: Path, name: string) {
    && !p.leadingColon
    && |p.segments| == 1
    && p.segments[0].arguments.NoArguments?
    && p.segments[0].ident == name
  }

  /** The type written as the bare identifier `name`, such as `u64` or `String`. */
  function Named1(name: string): Ty {
    TypePath(Path(false, [PathSegment(name, NoArguments)]))
  }

  /** The type `Vec<t>`. */
  function VecOf(t: Ty): Ty {
    TypePath(Path(false, [PathSegment("Vec", AngleBracketed([TypeArgument(t)]))]))
  }

  /** The token text of a type. */
  function Render(t: Ty): string
    decreases t
  {
    match t
    case OtherType(tokens) => tokens
    case TypePath(p) => (if p.leadingColon then ":: " else "") + RenderSegments(p.segments)
  }

  function RenderSegments(segs: seq<PathSegment>): string
    decreases segs
  {
    if segs == [] then ""
    else if |segs| == 1 then RenderSegment(segs[0])
    else RenderSegment(segs[0]) + " :: " + RenderSegments(segs[1..])
  }

  function RenderSegment(s: PathSegment): string
    decreases s
  {
    s.ident +
      match s.arguments
      case NoArguments => ""
      case Parenthesized(tokens) => tokens
      case AngleBracketed(args) => if args == [] then " < >" else " < " + RenderArguments(args) + " >"
  }

  function RenderArguments(args: seq<GenericArgument>): string
    decreases args
  {
    if args == [] then ""
    else if |args| == 1 then RenderArgument(args[0])
    else RenderArgument(args[0]) + ", " + RenderArguments(args[1..])
  }

  function RenderArgument(a: GenericArgument): string
    decreases a
  {
    match a
    case TypeArgument(t) => Render(t)
    case OtherArgument(tokens) => tokens
  }

  /** A bare identifier renders as itself. */
  lemma RenderNamed1(name: string)
    ensures Render(Named1(name)) == name
  {
    assert RenderSegment(PathSegment(name, NoArguments)) == name + "";
    assert name + "" == name && "" + name == name;
  }

  /** A path type's text starts with its leading `::`, if any, and then its
      first identifier. */
  lemma RenderStartsWithHead(p: Path)
    requires |p.segments| > 0
    ensures var head := (if p.leadingColon then ":: " else "") + p.segments[0].ident;
      |Render(TypePath(p))| >= |head| && Render(TypePath(p))[..|head|] == head
  {
    var segs := p.segments;
    var first := RenderSegment(segs[0]);
    assert first[..|segs[0].ident|] == segs[0].ident;
    if |segs| > 1 {
      assert RenderSegments(segs) == first + " :: " + RenderSegments(segs[1..]);
    }
  }

  /** A path whose first segment carries angle-bracketed arguments renders
      with an opening bracket after the identifier. */
  lemma {:induction false} RenderAngleShowsBracket(p: Path)
    requires |p.segments| > 0 && p.segments[0].arguments.AngleBracketed?
    ensures '<' in Render(TypePath(p))
  {
    var segs := p.segments;
    var first := RenderSegment(segs[0]);
    assert first[|segs[0].ident| + 1] == '<';
    if |segs| > 1 {
      assert RenderSegments(segs) == first + " :: " + RenderSegments(segs[1..]);
    }
    var prefix := if p.leadingColon then ":: " else "";
    assert Render(TypePath(p)) == prefix + RenderSegments(segs);
    assert Render(TypePath(p))[|prefix| + |segs[0].ident| + 1] == '<';
  }
}
