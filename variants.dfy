/** The `VariantNames` derive: from an enum of any variant shape, an impl
    block holding `const VARIANTS: [&'static str; N]`, the names of the
    variants that are not marked `#[variant_names(skip)]`, in declaration order. */
module Variants {
  import opened Wrappers
  import opened Syntax
  import opened Members

  const EnumsOnly := "VariantNames only takes enums"

  /** One decoded variant: its identifier and its `skip` flag; the payload is
      not decoded at all. */
  datatype ReceiverVariant = ReceiverVariant(ident: string, skip: bool)

  /** The decoded declaration. Its data is enum-shaped once decoding has
      succeeded, but the type, like darling's, also admits struct data. */
  datatype Receiver = Receiver(ident: string, generics: Generics, data: Data<ReceiverVariant, ()>)

  /** `FromVariant` for `ReceiverVariant`: keeps the identifier and reads
      `skip`, which defaults to false. */
  function FromVariant(v: RawVariant): (r: Result<ReceiverVariant, Error>)
    ensures r.Ok? <==> v.attrs.unknown == []
    ensures r.Err? ==> r.error == UnknownOption(v.attrs.unknown[0])
    ensures r.Ok? ==> r.value.ident == v.ident && (r.value.skip <==> v.attrs.skip == Some(true))
  {
    match SkipFlag(v.attrs)
    case Err(e) => Err(e)
    case Ok(skip) => Ok(ReceiverVariant(v.ident, skip))
  }

  /** `FromDeriveInput` for `Receiver` under `supports(enum_any)`: every enum
      is accepted whatever its variants look like; structs and unions are
      rejected, and so is any variant carrying an unknown option. */
  function FromDeriveInput(input: DeriveInput): (r: Result<Receiver, Error>)
    ensures !input.body.EnumBody? ==> r == Err(UnsupportedShape(ShapeOf(input.body)))
    ensures input.body.EnumBody? ==>
      (r.Ok? <==> forall i :: 0 <= i < |input.body.variants| ==> input.body.variants[i].attrs.unknown == [])
    ensures input.body.EnumBody? && r.Err? ==>
      exists i :: 0 <= i < |input.body.variants| && input.body.variants[i].attrs.unknown != []
        && r.error == UnknownOption(input.body.variants[i].attrs.unknown[0])
        && forall j :: 0 <= j < i ==> input.body.variants[j].attrs.unknown == []
    ensures r.Ok? ==>
      && r.value.ident == input.ident
      && r.value.generics == input.generics
      && r.value.data.Enum?
      && |r.value.data.variants| == |input.body.variants|
      && forall i :: 0 <= i < |input.body.variants| ==>
           r.value.data.variants[i].ident == input.body.variants[i].ident
           && (r.value.data.variants[i].skip <==> input.body.variants[i].attrs.skip == Some(true))
  {
    match input.body
    case EnumBody(raw) =>
      (match TryMap(raw, FromVariant)
       case Err(e) => Err(e)
       case Ok(variants) => Ok(Receiver(input.ident, input.generics, Enum(variants))))
    case _ => Err(UnsupportedShape(ShapeOf(input.body)))
  }

  /** The negation of the filter predicate `|v| !v.skip`. */
  function Skipped(v: ReceiverVariant): bool
  {
    v.skip
  }

  /** `Receiver::variants_to_emit`: panics on struct data; otherwise the
      identifiers of the kept variants, in order. */
  function VariantsToEmit(r: Receiver): (out: Result<seq<string>, Error>)
    ensures r.data.Struct? ==> out == Err(Panicked(EnumsOnly))
    ensures r.data.Enum? ==> out.Ok?
    ensures out.Ok? ==>
      && |out.value| == |Kept(r.data.variants, Skipped)|
      && forall k :: 0 <= k < |out.value| ==> out.value[k] == Kept(r.data.variants, Skipped)[k].ident
  {
    match TakeEnum(r.data)
    case None => Err(Panicked(EnumsOnly))
    case Some(variants) =>
      var kept := Kept(variants, Skipped);
      Ok(seq(|kept|, k requires 0 <= k < |kept| => kept[k].ident))
  }

  /** The `quote!` block of `to_tokens`: an impl on the same type with the
      same generics, whose `VARIANTS` array has exactly the emitted names and
      a length equal to their number. */
  function Expand(r: Receiver): (out: Result<ImplBlock, Error>)
    ensures out.Ok? <==> VariantsToEmit(r).Ok?
    ensures out.Err? ==> out.error == VariantsToEmit(r).error
    ensures out.Ok? ==>
      && out.value.selfType == r.ident
      && out.value.generics == r.generics
      && out.value.constName == "VARIANTS"
      && out.value.names == VariantsToEmit(r).value
      && ArrayLengthMatches(out.value)
  {
    match VariantsToEmit(r)
    case Err(e) => Err(e)
    case Ok(variants) => Ok(ImplBlock(r.ident, r.generics, "VARIANTS", |variants|, variants))
  }

  /** `ToTokens::to_tokens`: appends the generated impl to the caller's
      stream; a panic leaves the stream as it was and is returned instead. */
  method ToTokens(r: Receiver, tokens: TokenStream) returns (panic: Option<Error>)
    modifies tokens
    ensures panic.None? <==> Expand(r).Ok?
    ensures panic.Some? ==> panic.value == Expand(r).error && tokens.items == old(tokens.items)
    ensures panic.None? ==> tokens.items == old(tokens.items) + [Expand(r).value]
  {
    var expanded := Expand(r);
    match expanded
    case Err(e) =>
      panic := Some(e);
    case Ok(block) =>
      tokens.Extend(block);
      panic := None;
  }

  /** A successfully decoded declaration always expands: its data is an enum. */
  lemma DecodedNeverPanics(input: DeriveInput)
    requires FromDeriveInput(input).Ok?
    ensures Expand(FromDeriveInput(input).value).Ok?
    ensures |Expand(FromDeriveInput(input).value).value.names| <= |input.body.variants|
  {
  }

  /** The payload of a variant plays no part: two enums whose variants agree
      on identifiers and options decode alike, whatever their fields. */
  lemma PayloadIrrelevant(a: DeriveInput, b: DeriveInput)
    requires a.ident == b.ident && a.generics == b.generics
    requires a.body.EnumBody? && b.body.EnumBody?
    requires |a.body.variants| == |b.body.variants|
    requires forall i :: 0 <= i < |a.body.variants| ==>
      a.body.variants[i].ident == b.body.variants[i].ident && a.body.variants[i].attrs == b.body.variants[i].attrs
    ensures FromDeriveInput(a) == FromDeriveInput(b)
  {
    var va, vb := a.body.variants, b.body.variants;
    forall i | 0 <= i < |va|
      ensures FromVariant(va[i]) == FromVariant(vb[i])
    {
      assert va[i].attrs == vb[i].attrs;
    }
    TryMapPointwise(va, vb, FromVariant);
  }

  /** Each kept variant's identifier sits at the variant's rank in the output. */
  lemma NameAtRank(r: Receiver, i: nat)
    requires r.data.Enum?
    requires i < |r.data.variants| && !r.data.variants[i].skip
    ensures VariantsToEmit(r).Ok?
    ensures Rank(r.data.variants, Skipped, i) < |VariantsToEmit(r).value|
    ensures VariantsToEmit(r).value[Rank(r.data.variants, Skipped, i)] == r.data.variants[i].ident
  {
    KeptAt(r.data.variants, Skipped, i);
  }

  /** Order preservation: of two kept variants, the earlier one's name comes first. */
  lemma NamesInDeclarationOrder(r: Receiver, i: nat, j: nat)
    requires r.data.Enum?
    requires i < j < |r.data.variants| && !r.data.variants[i].skip && !r.data.variants[j].skip
    ensures VariantsToEmit(r).Ok?
    ensures Rank(r.data.variants, Skipped, i) < Rank(r.data.variants, Skipped, j) < |VariantsToEmit(r).value|
    ensures VariantsToEmit(r).value[Rank(r.data.variants, Skipped, i)] == r.data.variants[i].ident
    ensures VariantsToEmit(r).value[Rank(r.data.variants, Skipped, j)] == r.data.variants[j].ident
  {
    RankMonotone(r.data.variants, Skipped, i, j);
    NameAtRank(r, i);
    NameAtRank(r, j);
  }

  /** Every emitted name is the identifier of some kept variant. */
  lemma EmittedNamesAreKeptVariants(r: Receiver, k: nat)
    requires r.data.Enum? && k < |VariantsToEmit(r).value|
    ensures exists i: nat ::
      (i < |r.data.variants| && !r.data.variants[i].skip
       && Rank(r.data.variants, Skipped, i) == k && r.data.variants[i].ident == VariantsToEmit(r).value[k])
  {
    KeptSurjective(r.data.variants, Skipped, k);
    var i: nat :| i < |r.data.variants| && !Skipped(r.data.variants[i]) && Rank(r.data.variants, Skipped, i) == k;
    NameAtRank(r, i);
  }

  /** The number of emitted names is the number of variants with `skip == false`. */
  lemma NameCount(r: Receiver)
    requires r.data.Enum?
    ensures VariantsToEmit(r).Ok?
    ensures |VariantsToEmit(r).value| == |set i | 0 <= i < |r.data.variants| && !r.data.variants[i].skip|
  {
    KeptCount(r.data.variants, Skipped);
    assert RetainedIndices(r.data.variants, Skipped) == set i | 0 <= i < |r.data.variants| && !r.data.variants[i].skip;
  }

  /** The list is empty exactly when every variant is skipped. */
  lemma EmptyIffAllSkipped(r: Receiver)
    requires r.data.Enum?
    ensures VariantsToEmit(r).Ok?
    ensures VariantsToEmit(r).value == [] <==> forall i :: 0 <= i < |r.data.variants| ==> r.data.variants[i].skip
  {
    KeptEmptyIff(r.data.variants, Skipped);
  }

  /** With nothing skipped, the output is every variant identifier verbatim, in order. */
  lemma NoSkipIsVerbatim(r: Receiver)
    requires r.data.Enum?
    requires forall i :: 0 <= i < |r.data.variants| ==> !r.data.variants[i].skip
    ensures VariantsToEmit(r).Ok?
    ensures |VariantsToEmit(r).value| == |r.data.variants|
    ensures forall i :: 0 <= i < |r.data.variants| ==> VariantsToEmit(r).value[i] == r.data.variants[i].ident
  {
    KeptAllIff(r.data.variants, Skipped);
  }

  /** `Hello(String)` */
  function HelloVariant(attrs: MemberAttrs): RawVariant
  {
    RawVariant("Hello", Tuple, [RawField(None, NoAttrs)], attrs)
  }

  /** `World { planet: String, person: String }` */
  function WorldVariant(): RawVariant
  {
    RawVariant("World", Named, [RawField(Some("planet"), NoAttrs), RawField(Some("person"), NoAttrs)], NoAttrs)
  }

  /** `enum Example { Hello(String), World { planet: String, person: String } }` */
  function SimpleInput(): DeriveInput
  {
    DeriveInput("Example", Generics([], []), EnumBody([HelloVariant(NoAttrs), WorldVariant()]))
  }

  /** The crate's `simple` test: tuple and struct-like variants alike. */
  lemma SimpleExample()
    ensures FromDeriveInput(SimpleInput()).Ok?
    ensures VariantsToEmit(FromDeriveInput(SimpleInput()).value) == Ok(["Hello", "World"])
  {
    var r := FromDeriveInput(SimpleInput()).value;
    var vs := r.data.variants;
    assert |vs| == 2;
    assert vs[0].ident == "Hello" && !vs[0].skip;
    assert vs[1].ident == "World" && !vs[1].skip;
    NoSkipIsVerbatim(r);
    assert VariantsToEmit(r).value == ["Hello", "World"];
  }

  /** The same enum with `#[variant_names(skip)] Secret(String)` between the two. */
  function SkipVariantInput(): DeriveInput
  {
    DeriveInput("Example", Generics([], []), EnumBody([
      HelloVariant(NoAttrs),
      RawVariant("Secret", Tuple, [RawField(None, NoAttrs)], MemberAttrs(Some(true), [])),
      WorldVariant()]))
  }

  /** The crate's `skip_variant` test. */
  lemma SkipVariantExample()
    ensures FromDeriveInput(SkipVariantInput()).Ok?
    ensures VariantsToEmit(FromDeriveInput(SkipVariantInput()).value) == Ok(["Hello", "World"])
  {
    var r := FromDeriveInput(SkipVariantInput()).value;
    var vs := r.data.variants;
    assert |vs| == 3;
    assert vs[0].ident == "Hello" && !vs[0].skip;
    assert vs[1].skip;
    assert vs[2].ident == "World" && !vs[2].skip;
    assert vs[1..][0] == vs[1] && vs[1..][1..] == [vs[2]];
    assert Kept([vs[2]], Skipped) == [vs[2]];
    assert Kept(vs[1..], Skipped) == [vs[2]];
    assert Kept(vs, Skipped) == [vs[0], vs[2]];
    assert VariantsToEmit(r).value == ["Hello", "World"];
  }
}
