/** The input a derive macro receives, already parsed by syn, and the values
    darling builds from it: the shape-tagged `Data`, the per-member options
    under the tool's attribute namespace, the diagnostics, and the emitted
    `impl` block. */
module Syntax {
  import opened Wrappers

  /** How the members of a struct or of an enum variant are written. */
  datatype Style = Named | Tuple | Unit

  /** `syn::Generics`: only ever echoed back, so its contents are opaque text. */
  datatype Generics = Generics(params: seq<string>, whereClause: seq<string>)

  /** The options written under `#[field_names(...)]` / `#[variant_names(...)]`
      on one member: the value given for `skip` (None when `skip` is absent),
      and the names of all other options, which darling does not recognise. */
  datatype MemberAttrs = MemberAttrs(skip: Option<bool>, unknown: seq<string>)

  /** A member with no tool attribute at all. */
  const NoAttrs: MemberAttrs := MemberAttrs(None, [])

  /** A field as syn gives it: named fields carry an identifier, positional ones do not. */
  datatype RawField = RawField(ident: Option<string>, attrs: MemberAttrs)

  /** An enum variant as syn gives it, payload included. */
  datatype RawVariant = RawVariant(ident: string, style: Style, fields: seq<RawField>, attrs: MemberAttrs)

  datatype Body =
    | StructBody(style: Style, fields: seq<RawField>)
    | EnumBody(variants: seq<RawVariant>)
    | UnionBody(unionFields: seq<RawField>)

  /** `syn::DeriveInput`: the type's identifier, its generics and its body. */
  datatype DeriveInput = DeriveInput(ident: string, generics: Generics, body: Body)

  /** What syn guarantees of a member list written in a given style:
      named members have identifiers, positional ones do not, a unit list is empty. */
  predicate FieldsWellFormed(style: Style, fields: seq<RawField>)
  {
    match style
    case Named => forall i :: 0 <= i < |fields| ==> fields[i].ident.Some?
    case Tuple => forall i :: 0 <= i < |fields| ==> fields[i].ident.None?
    case Unit => fields == []
  }

  predicate WellFormed(input: DeriveInput)
  {
    match input.body
    case StructBody(style, fields) => FieldsWellFormed(style, fields)
    case EnumBody(variants) =>
      forall i :: 0 <= i < |variants| ==> FieldsWellFormed(variants[i].style, variants[i].fields)
    case UnionBody(fields) => FieldsWellFormed(Named, fields)
  }

  /** The shapes darling's `supports(...)` distinguishes. */
  datatype Shape = NamedStruct | TupleStruct | UnitStruct | EnumShape | UnionShape

  function ShapeOf(body: Body): Shape
  {
    match body
    case StructBody(Named, _) => NamedStruct
    case StructBody(Tuple, _) => TupleStruct
    case StructBody(Unit, _) => UnitStruct
    case EnumBody(_) => EnumShape
    case UnionBody(_) => UnionShape
  }

  /** Diagnostics reported by darling while decoding, and panics raised by the
      derives' own `expect` calls (carrying the message the source gives). */
  datatype Error =
    | UnsupportedShape(shape: Shape)
    | UnknownOption(option: string)
    | Panicked(message: string)

  /** The `skip: bool` option with `#[darling(default)]`: an unrecognised
      option is an error; otherwise the flag is the value given, or `false`
      when the option is absent. */
  function SkipFlag(attrs: MemberAttrs): (r: Result<bool, Error>)
    ensures r.Ok? <==> attrs.unknown == []
    ensures r.Err? ==> r.error == UnknownOption(attrs.unknown[0])
    ensures r.Ok? ==> (r.value <==> attrs.skip == Some(true))
    ensures attrs == NoAttrs ==> r == Ok(false)
  {
    if attrs.unknown != [] then Err(UnknownOption(attrs.unknown[0]))
    else match attrs.skip
      case None => Ok(false)
      case Some(b) => Ok(b)
  }

  /** `darling::ast::Data`: the body of a decoded declaration, struct-shaped
      (with the style of its fields) or enum-shaped. */
  datatype Data<V, F> = Enum(variants: seq<V>) | Struct(style: Style, fields: seq<F>)

  /** `Data::take_struct`: the fields when the data is struct-shaped. */
  function TakeStruct<V, F>(data: Data<V, F>): (r: Option<seq<F>>)
    ensures r.Some? <==> data.Struct?
    ensures r.Some? ==> r.value == data.fields
  {
    match data
    case Struct(_, fields) => Some(fields)
    case Enum(_) => None
  }

  /** `Data::take_enum`: the variants when the data is enum-shaped. */
  function TakeEnum<V, F>(data: Data<V, F>): (r: Option<seq<V>>)
    ensures r.Some? <==> data.Enum?
    ensures r.Some? ==> r.value == data.variants
  {
    match data
    case Enum(variants) => Some(variants)
    case Struct(_, _) => None
  }

  /** The emitted
        impl <generics> <selfType> <generics> <where> {
          const <constName>: [&'static str; <len>] = [<names>, ...];
        }
      kept as a record rather than as tokens. */
  datatype ImplBlock = ImplBlock(selfType: string, generics: Generics, constName: string, len: nat, names: seq<string>)

  /** The declared array length agrees with the number of elements, as the
      compiler demands of `[&'static str; N]`. */
  predicate ArrayLengthMatches(b: ImplBlock)
  {
    b.len == |b.names|
  }

  /** The caller's `proc_macro2::TokenStream`, seen as the sequence of impl
      blocks appended to it. */
  class TokenStream {
    var items: seq<ImplBlock>

    constructor ()
      ensures items == []
    {
      items := [];
    }

    /** `TokenStream::extend` with one generated item. */
    method Extend(b: ImplBlock)
      modifies this
      ensures items == old(items) + [b]
    {
      items := items + [b];
    }
  }
}
