/** The `FieldNames` derive: from a struct with named fields, an impl block
    holding `const FIELDS: [&'static str; N]`, the names of the fields that
    are not marked `#[field_names(skip)]`, in declaration order. */
module Fields {
  import opened Wrappers
  import opened Syntax
  import opened Members

  const NamedStructsOnly := "FieldNames only supports named structs"
  const NamedFieldsOnly := "FieldNames only supports named fields"

  /** One decoded field: its identifier (absent for a positional field) and
      its `skip` flag. */
  datatype ReceiverField = ReceiverField(ident: Option<string>, skip: bool)

  /** The decoded declaration. Its data is struct-shaped once decoding has
      succeeded, but the type, like darling's, also admits enum data. */
  datatype Receiver = Receiver(ident: string, generics: Generics, data: Data<(), ReceiverField>)

  /** `FromField` for `ReceiverField`: keeps the identifier and reads `skip`,
      which defaults to false. */
  function FromField(f: RawField): (r: Result<ReceiverField, Error>)
    ensures r.Ok? <==> f.attrs.unknown == []
    ensures r.Err? ==> r.error == UnknownOption(f.attrs.unknown[0])
    ensures r.Ok? ==> r.value.ident == f.ident && (r.value.skip <==> f.attrs.skip == Some(true))
  {
    match SkipFlag(f.attrs)
    case Err(e) => Err(e)
    case Ok(skip) => Ok(ReceiverField(f.ident, skip))
  }

  /** `FromDeriveInput` for `Receiver` under `supports(struct_named)`: any
      other shape is rejected, and so is any field carrying an unknown option. */
  function FromDeriveInput(input: DeriveInput): (r: Result<Receiver, Error>)
    ensures ShapeOf(input.body) != NamedStruct ==> r == Err(UnsupportedShape(ShapeOf(input.body)))
    ensures ShapeOf(input.body) == NamedStruct ==>
      (r.Ok? <==> forall i :: 0 <= i < |input.body.fields| ==> input.body.fields[i].attrs.unknown == [])
    ensures ShapeOf(input.body) == NamedStruct && r.Err? ==>
      exists i :: 0 <= i < |input.body.fields| && input.body.fields[i].attrs.unknown != []
        && r.error == UnknownOption(input.body.fields[i].attrs.unknown[0])
        && forall j :: 0 <= j < i ==> input.body.fields[j].attrs.unknown == []
    ensures r.Ok? ==>
      && r.value.ident == input.ident
      && r.value.generics == input.generics
      && r.value.data.Struct?
      && r.value.data.style == Named
      && |r.value.data.fields| == |input.body.fields|
      && forall i :: 0 <= i < |input.body.fields| ==>
           r.value.data.fields[i].ident == input.body.fields[i].ident
           && (r.value.data.fields[i].skip <==> input.body.fields[i].attrs.skip == Some(true))
  {
    if ShapeOf(input.body) != NamedStruct then Err(UnsupportedShape(ShapeOf(input.body)))
    else match TryMap(input.body.fields, FromField)
      case Err(e) => Err(e)
      case Ok(fields) => Ok(Receiver(input.ident, input.generics, Struct(Named, fields)))
  }

  /** The negation of the filter predicate `|field| !field.skip`. */
  function Skipped(f: ReceiverField): bool
  {
    f.skip
  }

  /** `ReceiverField::name`: the identifier as text, or the panic of a
      positional field. */
  function Name(f: ReceiverField): (r: Result<string, Error>)
    ensures r.Ok? <==> f.ident.Some?
    ensures r.Ok? ==> r.value == f.ident.value
    ensures r.Err? ==> r.error == Panicked(NamedFieldsOnly)
  {
    match f.ident
    case Some(id) => Ok(id)
    case None => Err(Panicked(NamedFieldsOnly))
  }

  /** `Receiver::fields_to_emit`: panics on enum data; otherwise the names of
      the kept fields, in order, panicking at the first kept positional field
      (skipped fields are never asked for a name). */
  function FieldsToEmit(r: Receiver): (out: Result<seq<string>, Error>)
    ensures r.data.Enum? ==> out == Err(Panicked(NamedStructsOnly))
    ensures r.data.Struct? ==>
      (out.Ok? <==> forall k :: 0 <= k < |Kept(r.data.fields, Skipped)| ==> Kept(r.data.fields, Skipped)[k].ident.Some?)
    ensures r.data.Struct? && out.Err? ==> out.error == Panicked(NamedFieldsOnly)
    ensures out.Ok? ==>
      && |out.value| == |Kept(r.data.fields, Skipped)|
      && forall k :: 0 <= k < |out.value| ==> out.value[k] == Kept(r.data.fields, Skipped)[k].ident.value
  {
    match TakeStruct(r.data)
    case None => Err(Panicked(NamedStructsOnly))
    case Some(fields) =>
      var kept := Kept(fields, Skipped);
      assert kept == Kept(r.data.fields, Skipped);
      assert forall k :: 0 <= k < |kept| && Name(kept[k]).Err? ==> Name(kept[k]).error == Panicked(NamedFieldsOnly);
      TryMap(kept, Name)
  }

  /** The `quote!` block of `to_tokens`: an impl on the same type with the
      same generics, whose `FIELDS` array has exactly the emitted names and
      a length equal to their number. */
  function Expand(r: Receiver): (out: Result<ImplBlock, Error>)
    ensures out.Ok? <==> FieldsToEmit(r).Ok?
    ensures out.Err? ==> out.error == FieldsToEmit(r).error
    ensures out.Ok? ==>
      && out.value.selfType == r.ident
      && out.value.generics == r.generics
      && out.value.constName == "FIELDS"
      && out.value.names == FieldsToEmit(r).value
      && ArrayLengthMatches(out.value)
  {
    match FieldsToEmit(r)
    case Err(e) => Err(e)
    case Ok(fields) => Ok(ImplBlock(r.ident, r.generics, "FIELDS", |fields|, fields))
  }

  /** `ToTokens::to_tokens`: appends the generated impl to the caller's
      stream; a panic leaves the stream as it was and is returned instead. */
  method ToTokens(r: Receiver, tokens: TokenStream) returns (panic: Option<Error>)
    modifies tokens
    ensures panic.None? <==> Expand(r).Ok?
    ensures panic.Some? ==> panic.value == Expand(r).error && tokens.items == old(tokens.items)
    ensures panic.None? ==> tokens.items == old(tokens.items) + [Expand(r).value]
  {
    var expanded := Expand(r);
    match expanded
    case Err(e) =>
      panic := Some(e);
    case Ok(block) =>
      tokens.Extend(block);
      panic := None;
  }

  /** A successfully decoded declaration never reaches either panic: its data
      is a named struct, so every field has an identifier. */
  lemma DecodedNeverPanics(input: DeriveInput)
    requires WellFormed(input)
    requires FromDeriveInput(input).Ok?
    ensures FieldsToEmit(FromDeriveInput(input).value).Ok?
    ensures Expand(FromDeriveInput(input).value).Ok?
  {
  }

  /** Each kept field's name sits at the field's rank in the output. */
  lemma NameAtRank(r: Receiver, i: nat)
    requires r.data.Struct? && FieldsToEmit(r).Ok?
    requires i < |r.data.fields| && !r.data.fields[i].skip
    ensures Rank(r.data.fields, Skipped, i) < |FieldsToEmit(r).value|
    ensures r.data.fields[i].ident.Some?
    ensures FieldsToEmit(r).value[Rank(r.data.fields, Skipped, i)] == r.data.fields[i].ident.value
  {
    KeptAt(r.data.fields, Skipped, i);
  }

  /** Order preservation: of two kept fields, the earlier one's name comes first. */
  lemma NamesInDeclarationOrder(r: Receiver, i: nat, j: nat)
    requires r.data.Struct? && FieldsToEmit(r).Ok?
    requires i < j < |r.data.fields| && !r.data.fields[i].skip && !r.data.fields[j].skip
    ensures Rank(r.data.fields, Skipped, i) < Rank(r.data.fields, Skipped, j) < |FieldsToEmit(r).value|
    ensures r.data.fields[i].ident.Some? && r.data.fields[j].ident.Some?
    ensures FieldsToEmit(r).value[Rank(r.data.fields, Skipped, i)] == r.data.fields[i].ident.value
    ensures FieldsToEmit(r).value[Rank(r.data.fields, Skipped, j)] == r.data.fields[j].ident.value
  {
    RankMonotone(r.data.fields, Skipped, i, j);
    NameAtRank(r, i);
    NameAtRank(r, j);
  }

  /** Every emitted name is the name of some kept field. */
  lemma EmittedNamesAreKeptFields(r: Receiver, k: nat)
    requires r.data.Struct? && FieldsToEmit(r).Ok? && k < |FieldsToEmit(r).value|
    ensures exists i: nat ::
      (i < |r.data.fields| && !r.data.fields[i].skip
       && Rank(r.data.fields, Skipped, i) == k && r.data.fields[i].ident == Some(FieldsToEmit(r).value[k]))
  {
    KeptSurjective(r.data.fields, Skipped, k);
    var i: nat :| i < |r.data.fields| && !Skipped(r.data.fields[i]) && Rank(r.data.fields, Skipped, i) == k;
    NameAtRank(r, i);
  }

  /** The number of emitted names is the number of fields with `skip == false`,
      so never more than the number of fields. */
  lemma NameCount(r: Receiver)
    requires r.data.Struct? && FieldsToEmit(r).Ok?
    ensures |FieldsToEmit(r).value| == |set i | 0 <= i < |r.data.fields| && !r.data.fields[i].skip|
    ensures |FieldsToEmit(r).value| <= |r.data.fields|
  {
    KeptCount(r.data.fields, Skipped);
    assert RetainedIndices(r.data.fields, Skipped) == set i | 0 <= i < |r.data.fields| && !r.data.fields[i].skip;
  }

  /** A struct whose fields are all skipped emits an empty list, not a panic,
      even if those fields have no names. */
  lemma AllSkippedIsEmpty(r: Receiver)
    requires r.data.Struct?
    requires forall i :: 0 <= i < |r.data.fields| ==> r.data.fields[i].skip
    ensures FieldsToEmit(r) == Ok([])
  {
  }

  /** With nothing skipped and every field named, the output is every field
      name verbatim, in order. */
  lemma NoSkipIsVerbatim(r: Receiver)
    requires r.data.Struct?
    requires forall i :: 0 <= i < |r.data.fields| ==> !r.data.fields[i].skip && r.data.fields[i].ident.Some?
    ensures FieldsToEmit(r).Ok?
    ensures |FieldsToEmit(r).value| == |r.data.fields|
    ensures forall i :: 0 <= i < |r.data.fields| ==> FieldsToEmit(r).value[i] == r.data.fields[i].ident.value
  {
    KeptAllIff(r.data.fields, Skipped);
  }

  /** The emitted names do not depend on the generics: a generic struct lists
      the same names whatever its type arguments. */
  lemma GenericsTransparent(r: Receiver, g: Generics)
    requires Expand(r).Ok?
    ensures Expand(r.(generics := g)).Ok?
    ensures Expand(r.(generics := g)).value.names == Expand(r).value.names
    ensures Expand(r.(generics := g)).value.generics == g
  {
  }

  /** `struct Example { hello: String, world: String }` */
  function SimpleInput(): DeriveInput
  {
    DeriveInput("Example", Generics([], []),
      StructBody(Named, [RawField(Some("hello"), NoAttrs), RawField(Some("world"), NoAttrs)]))
  }

  /** The crate's `simple` test. */
  lemma SimpleExample()
    ensures FromDeriveInput(SimpleInput()).Ok?
    ensures FieldsToEmit(FromDeriveInput(SimpleInput()).value) == Ok(["hello", "world"])
  {
    var raw := SimpleInput().body.fields;
    var r := FromDeriveInput(SimpleInput()).value;
    var fs := r.data.fields;
    assert |fs| == 2;
    assert fs[0].ident == raw[0].ident == Some("hello") && !fs[0].skip;
    assert fs[1].ident == raw[1].ident == Some("world") && !fs[1].skip;
    NoSkipIsVerbatim(r);
    assert FieldsToEmit(r).value == ["hello", "world"];
  }

  /** `struct Example { hello: String, #[field_names(skip)] hidden: bool, world: String }` */
  function SkipFieldInput(): DeriveInput
  {
    DeriveInput("Example", Generics([], []),
      StructBody(Named, [
        RawField(Some("hello"), NoAttrs),
        RawField(Some("hidden"), MemberAttrs(Some(true), [])),
        RawField(Some("world"), NoAttrs)]))
  }

  /** The crate's `skip_field` test. */
  lemma SkipFieldExample()
    ensures FromDeriveInput(SkipFieldInput()).Ok?
    ensures FieldsToEmit(FromDeriveInput(SkipFieldInput()).value) == Ok(["hello", "world"])
  {
    var raw := SkipFieldInput().body.fields;
    var r := FromDeriveInput(SkipFieldInput()).value;
    var fs := r.data.fields;
    assert |fs| == 3;
    assert fs[0].ident == raw[0].ident == Some("hello") && !fs[0].skip;
    assert fs[1].skip;
    assert fs[2].ident == raw[2].ident == Some("world") && !fs[2].skip;
    assert fs[1..][0] == fs[1] && fs[1..][1..] == [fs[2]];
    assert Kept([fs[2]], Skipped) == [fs[2]];
    assert Kept(fs[1..], Skipped) == [fs[2]];
    assert Kept(fs, Skipped) == [fs[0], fs[2]];
    assert FieldsToEmit(r).value == ["hello", "world"];
  }
}
