# field_names — the name-extraction core of the `FieldNames` and `VariantNames` derives

`field_names` is a Rust procedural-macro crate. `#[derive(FieldNames)]` on a
struct with named fields adds

    impl<..> Example<..> where .. { const FIELDS: [&'static str; N] = ["hello", "world"]; }

and `#[derive(VariantNames)]` on an enum adds `const VARIANTS` the same way.
A member marked `#[field_names(skip)]` / `#[variant_names(skip)]` is left out.
The list keeps declaration order, and `N` is the number of names listed.

This project models that pipeline over a declaration that syn has already
parsed. There are three steps:

1. **Decode.** darling's `FromDeriveInput` checks the shape:
   `supports(struct_named)` for fields and `supports(enum_any)` for variants.
   It reads every member's options and rejects unknown ones. `skip` defaults to
   false.
2. **Filter and order.** `fields_to_emit` / `variants_to_emit` drop the skipped
   members and map the rest to their identifiers, in order.
3. **Emit.** `to_tokens` appends the impl to the caller's token stream.

Modules:

- `Wrappers`: `Option` and `Result`.
- `Syntax`: the parsed input (`DeriveInput`, `Body`, `RawField`, `RawVariant`,
  `MemberAttrs`, opaque `Generics`), darling's `Data` with `TakeStruct` and
  `TakeEnum`, and `Error`. `Error` covers darling diagnostics and the panics of
  the source's own `expect` calls, which carry the source's messages. It also
  holds the emitted `ImplBlock` record, kept as a record rather than tokens, and
  a `TokenStream` class whose `Extend` appends to it.
- `Members`: the shared "filter non-skipped, then map" shape, generic over the
  member type. `Kept` is the filter. `Rank` gives where a kept member lands in
  the output. `TryMap` is an in-order map that stops at the first failure.
  The lemmas prove order preservation, membership, length and the
  empty/all cases once, for both derives.
- `Fields` (src/fields.rs) and `Variants` (src/variants.rs): the receivers,
  their decoding, the name lists, the impl blocks, `to_tokens`, and the
  properties of each, including the crate's unit tests as lemmas.

Identifiers are kept as text exactly as `Ident::to_string` gives them. For
example, a raw identifier keeps its `r#` prefix. Nothing deduplicates or
normalises names, so a name written twice is listed twice.

Two facts about the code shape the model:

- src/lib.rs registers only `FieldNames` and never declares `mod variants`.
  The `VariantNames` derive is modelled from src/variants.rs alone.
- A positional field is not rejected while decoding. The
  `expect("FieldNames only supports named fields")` panic sits in
  `ReceiverField::name` (src/fields.rs:57), and `supports(struct_named)` makes
  it unreachable. The model keeps both. `Fields.FieldsToEmit` panics only on a
  positional field that is not skipped. `Fields.DecodedNeverPanics` proves that
  no decoded declaration reaches that panic.

## Model

| member | source | states |
|---|---|---|
| Syntax.SkipFlag | src/fields.rs:45-51 | An unrecognised option under the tool attribute is an `UnknownOption` error. Otherwise `skip` is true exactly when the option was given as true. With no attribute it is false. |
| Syntax.TakeStruct | src/fields.rs:16-19 | `take_struct` yields the fields exactly when the data is struct-shaped. |
| Syntax.TakeEnum | src/variants.rs:16-19 | `take_enum` yields the variants exactly when the data is enum-shaped. |
| Syntax.TokenStream.Extend | src/fields.rs:34 | `extend` appends the item to the stream and keeps what was there. |
| Members.Kept | src/fields.rs:20-21 | The filter yields no more members than it was given. Every member it yields is unskipped and comes from the input. |
| Members.KeptAt | src/fields.rs:20-23 | Every unskipped member appears in the output, at its rank. The rank equals the number of unskipped members before it. |
| Members.RankMonotone | src/fields.rs:20-23 | A kept member lands before every later member, however many skipped members lie between them. |
| Members.KeptSurjective | src/fields.rs:20-23 | Every output position holds some unskipped member of the input. |
| Members.KeptCount | src/fields.rs:21 | The output length equals the number of indices whose member is not skipped. |
| Members.KeptEmptyIff | src/fields.rs:21 | The output is empty exactly when every member is skipped. |
| Members.KeptAllIff | src/fields.rs:21 | The output is the whole input exactly when no member is skipped. |
| Members.TryMap | src/fields.rs:22-23 | Succeeds exactly when the step succeeds on every element, with the step's results in order. Otherwise it fails with the error of the first failing element. |
| Fields.FromField | src/fields.rs:45-51 | A field decodes exactly when it has no unknown option. The result keeps the identifier, and `skip` is true only when it was given as true. |
| Fields.FromDeriveInput | src/fields.rs:6-12 | Any shape other than a named struct is rejected with `UnsupportedShape`. A named struct decodes exactly when no field has an unknown option; otherwise the error names the first such field's option. On success the result keeps the identifier and generics and decodes the fields pointwise, in order. |
| Fields.Name | src/fields.rs:53-60 | A field's name is its identifier. A field without one panics with "FieldNames only supports named fields". |
| Fields.FieldsToEmit | src/fields.rs:15-24 | Enum data panics with "FieldNames only supports named structs". Struct data succeeds exactly when every unskipped field has an identifier, and yields those identifiers in order. |
| Fields.Expand | src/fields.rs:29-41 | The impl targets the same type with unchanged generics. It defines `FIELDS` with exactly the emitted names, and its array length equals their number. It fails exactly when `fields_to_emit` panics. |
| Fields.ToTokens | src/fields.rs:28-42 | On success it appends exactly the generated impl to the stream. On a panic the stream is unchanged and the panic is returned. |
| Fields.DecodedNeverPanics | src/fields.rs:54-58 | A declaration that decodes, and whose syntax is well formed, never reaches either `expect` panic. |
| Fields.NameAtRank | src/fields.rs:20-23 | Each unskipped field's name is listed, at the field's rank. |
| Fields.NamesInDeclarationOrder | src/fields.rs:20-23 | Of two unskipped fields, the earlier one's name comes first. |
| Fields.EmittedNamesAreKeptFields | src/fields.rs:20-23 | Every listed name is the identifier of an unskipped field, which sits at that position. |
| Fields.NameCount | src/fields.rs:21-32 | The number of names, and so the array length, equals the number of fields with `skip == false`. It is at most the field count. |
| Fields.AllSkippedIsEmpty | src/fields.rs:21-23 | A struct whose fields are all skipped yields the empty list, not a panic, even when those fields are unnamed. |
| Fields.NoSkipIsVerbatim | src/fields.rs:68-83 | With no skips and named fields, the list is every field name verbatim, in order. |
| Fields.GenericsTransparent | src/fields.rs:29-30 | Changing the generics changes only the generics echoed in the impl, not the names. |
| Fields.SimpleExample | src/fields.rs:68-83 | `struct Example { hello, world }` gives `["hello", "world"]`. |
| Fields.SkipFieldExample | src/fields.rs:85-102 | `{ hello, #[field_names(skip)] hidden, world }` gives `["hello", "world"]`. |
| Variants.FromVariant | src/variants.rs:45-51 | A variant decodes exactly when it has no unknown option. The result keeps the identifier, and `skip` defaults to false. |
| Variants.FromDeriveInput | src/variants.rs:6-12 | Every enum shape is accepted. Structs and unions are rejected with `UnsupportedShape`. An enum decodes exactly when no variant has an unknown option; otherwise the error names the first one's. On success the identifier and generics are kept and the variants are decoded pointwise. |
| Variants.VariantsToEmit | src/variants.rs:15-24 | Struct data panics with "VariantNames only takes enums". Enum data always succeeds, with the identifiers of the unskipped variants in order. |
| Variants.Expand | src/variants.rs:29-41 | The impl targets the same type with unchanged generics. It defines `VARIANTS` with exactly the emitted names, and its array length equals their number. |
| Variants.ToTokens | src/variants.rs:28-42 | On success it appends exactly the generated impl to the stream. On a panic the stream is unchanged. |
| Variants.DecodedNeverPanics | src/variants.rs:16-19 | A decoded enum always expands, and lists no more names than it has variants. |
| Variants.PayloadIrrelevant | src/variants.rs:45-51 | Two enums whose variants agree on identifiers and options decode identically, whatever their payloads. |
| Variants.NameAtRank | src/variants.rs:20-23 | Each unskipped variant's identifier is listed, at the variant's rank. |
| Variants.NamesInDeclarationOrder | src/variants.rs:20-23 | Of two unskipped variants, the earlier one's identifier comes first. |
| Variants.EmittedNamesAreKeptVariants | src/variants.rs:20-23 | Every listed name is the identifier of an unskipped variant, which sits at that position. |
| Variants.NameCount | src/variants.rs:21-32 | The number of names equals the number of variants with `skip == false`. |
| Variants.EmptyIffAllSkipped | src/variants.rs:21-23 | The list is empty exactly when every variant is skipped. |
| Variants.NoSkipIsVerbatim | src/variants.rs:15-24 | With no skips, the list is every variant identifier verbatim, in order. |
| Variants.SimpleExample | src/variants.rs:59-77 | `Hello(String)` and `World { planet, person }` give `["Hello", "World"]`. |
| Variants.SkipVariantExample | src/variants.rs:79-99 | Adding `#[variant_names(skip)] Secret(String)` between them still gives `["Hello", "World"]`. |

## Left out

- Parsing token streams (syn, `parse_macro_input`). The model starts from an already-parsed `DeriveInput`. `Syntax.WellFormed` states what syn guarantees about identifiers in each style.
- darling's reading of option syntax. The model takes a member's options as already read: the value of `skip`, if present, and the names of unrecognised options. Malformed option syntax, such as a duplicate `skip` or a value of the wrong type, is not modelled.
- Fields.FromDeriveInput, Variants.FromDeriveInput: these report only the first unknown option, after the shape check. darling gathers all errors of a declaration into one diagnostic, and its exact texts are not modelled.
- The shape names in darling's diagnostics. `Shape` tells the shapes apart only as far as `supports(...)` needs. It does not separate a one-field tuple struct, a "newtype", from other tuple structs.
- `Generics::split_for_impl` and the `#[automatically_derived]` attribute. Generics are opaque, echoed back unchanged.
- `quote!` token generation. The emitted impl is a record. `TokenStream` holds only the impl blocks appended to it, not other tokens.
- A panic is a returned `Err(Panicked(message))` value, not an unwinding abort of the compilation.
- src/lib.rs (dispatch and `write_errors`), tests/keep_in_sync.rs (consumers of `FIELDS`) and examples/*.rs (printing with `println!`) are not part of this model.
