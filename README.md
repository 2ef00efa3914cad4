# Spacy account-size calculator, in Dafny

This project models the build-time size calculator behind `#[derive(Spacy)]`.
Given a struct's fields, the derive computes the number of bytes an on-chain account holding that struct needs:

- an 8-byte discriminator;
- plus, for each named field, a fixed width from a table of primitive types (`u8` … `i128`, `bool`, `Pubkey`);
- or, for a `String`, a 4-byte length prefix plus 4 bytes per character of the capacity declared with `#[size(N)]`;
- or, for a `Vec`, a 4-byte length prefix plus N times the element width. The rule exists in `calculate_vec_size`, but as written only a type spelled exactly `Vec` reaches it, and that type has no element type (see Findings).

A field that cannot be sized stops the computation.
An unknown type or a malformed attribute becomes a compile error.
A missing `#[size]` on a `String` or `Vec` panics the macro.
Tuple structs are an error, unit structs get size 0, and enums and unions are refused.

Modules:

- `Wrappers`: `Option` and `Result`.
- `Syntax`: the parsed input the macro receives (types as paths with generic arguments, fields, attributes, struct/enum/union), and `Render`, an approximation of the token text of a type (`quote! { #ty }.to_string()`, shared-derive/src/size_calculator.rs:23 and :74). The size rules match on that text. Tokens are mostly separated by spaces, so `Vec<u64>` is `"Vec < u64 >"`. `IsIdent` is `Path::is_ident` (shared-derive/src/size_calculator.rs:123).
- `SizeCalculator` (`shared-derive/src/size_calculator.rs`): the two width tables (`PrimitiveWidth`, the match at shared-derive/src/size_calculator.rs:27-37, and `ElementWidth`, the match at :77-88), the `#[size]` reader (`GetComplexAttrSize`, a loop proved against the function `ReadSize`, which scans the attributes of shared-derive/src/size_calculator.rs:122-128 from the back), `ExtractVecInner`, the `String` and `Vec` rules and `GetTypeSize`. The result is `Outcome = Ok(size) | Err(msg) | Panic(msg)`. `Panic` is an `expect` that aborts the build.
- `SpacyDerive` (`shared-derive/src/lib.rs`): `CalculateStructSize`, a loop proved against the function `StructSize`, and `DeriveSpacy`. Also the lemmas on the summation: additivity, field-order independence and first failure wins.
- `VecDispatch`: the finding below. It contains the as-written behaviour of vector fields, the corrected dispatch and the struct size under that dispatch.
- `Accounts`: `NoteData` and `UserCounter` and their sizes (828 and 24), plus a few more field lists.

The model keeps these behaviours of the code:

- Two `#[size]` attributes on one field are not rejected; the last one wins.
- A capacity of 0 is accepted; a `String` then takes 4 bytes.
- A missing capacity is a panic (`expect`), not a reported error.
- A unit struct gets 0, without the discriminator.

## Model

| member | source | states |
|---|---|---|
| `SizeCalculator.PrimitiveTableSound` | shared-derive/src/size_calculator.rs:25-37 | every supported integer of b bits is in the table under its Rust name (`u`/`i` + b) with width b/8; `bool` is 1 byte and `Pubkey` 32 |
| `SizeCalculator.PrimitiveTableComplete` | shared-derive/src/size_calculator.rs:25-37 | the table holds nothing else: every name in it is the Rust name of such a type, with that type's width |
| `SizeCalculator.PrimitiveNameShape` | shared-derive/src/size_calculator.rs:27-37 | every table key is a plain identifier (no `<`, no `::`) starting with `u`, `i`, `b` or `P` |
| `SizeCalculator.ElementTableAgrees` | shared-derive/src/size_calculator.rs:76-89 | the vector element table agrees entry for entry with the field table |
| `SizeCalculator.ParseSize` | shared-derive/src/size_calculator.rs:127-128 | an attribute argument is accepted exactly when it is an unsigned integer literal no larger than usize::MAX, and then as its value; a literal with a `-` sign (`-0` included) fails "invalid digit found in string", one too large fails "number too large to fit in target type", and any other argument fails with the parser's reason |
| `SizeCalculator.GetComplexAttrSize` | shared-derive/src/size_calculator.rs:119-141 | the scan over the attributes returns exactly `ReadSize` of the field's attributes |
| `SizeCalculator.ReadSizeFailureSticks` | shared-derive/src/size_calculator.rs:127-128 | once a malformed `size` attribute fails the scan, attributes after it change nothing |
| `SizeCalculator.ReadSizeNone` | shared-derive/src/size_calculator.rs:119-141 | the result is `Ok(None)` exactly when no attribute is `size` |
| `SizeCalculator.ReadSizeFails` | shared-derive/src/size_calculator.rs:122-128 | the scan fails exactly when some `size` attribute is malformed, and with the error of the first malformed one |
| `SizeCalculator.ReadSizeLastWins` | shared-derive/src/size_calculator.rs:122-128 | when all `size` attributes are well formed, the capacity is the value of the last one; duplicates are not rejected |
| `SizeCalculator.ReadSizeIgnoresOthers` | shared-derive/src/size_calculator.rs:123-125 | inserting an attribute that is not `size` anywhere in the list leaves the result unchanged |
| `SizeCalculator.ReadSizeInRange` | shared-derive/src/size_calculator.rs:128 | a capacity that is read fits in a `usize` |
| `SizeCalculator.ExtractVecInner` | shared-derive/src/size_calculator.rs:143-156 | returns a type exactly when the first path segment is `Vec` with angle-bracketed arguments whose first is a type, and then that first argument |
| `SizeCalculator.ExtractVecInnerOfVec` | shared-derive/src/size_calculator.rs:143-156 | `Vec<T, ...>` gives back `T`: only the first generic argument counts |
| `SizeCalculator.BareVecHasNoInner` | shared-derive/src/size_calculator.rs:143-156 | a type whose text is exactly `"Vec"` has no element type |
| `SizeCalculator.CalculateStringSize` | shared-derive/src/size_calculator.rs:59-63 | sized exactly when a capacity N is read, as 4 + 4·N (capacity 0 gives 4); no capacity panics "No size passed!"; a malformed attribute is its error |
| `SizeCalculator.CalculateVecSize` | shared-derive/src/size_calculator.rs:71-99 | sized exactly when a capacity N is read, an element type T is found and T is in the element table, as 4 + N·width(T); otherwise, in this order: the attribute error, panic "No size passed!", panic "No inner type provided!", error "Unsupported Inner Type of the vector" |
| `SizeCalculator.GetTypeSize` | shared-derive/src/size_calculator.rs:21-49 | a type in the table gets its width; `String` and `Vec` go to their rules; any other text is the error "Unrecognized type!"; every size it yields comes from the table or a `String` |
| `SpacyDerive.FirstFailure` | shared-derive/src/lib.rs:99-100 | the position of a field that cannot be sized, with every field before it sized |
| `SpacyDerive.Summation` | shared-derive/src/lib.rs:96-104 | sized exactly when every field is, then at least 8; otherwise the outcome of a field all of whose predecessors are sized |
| `SpacyDerive.StructSize` | shared-derive/src/lib.rs:95-120 | named fields are sized exactly when every field is, and then to at least 8; tuple structs are the error "Tuple structs are not yet supported"; unit structs are 0 |
| `SpacyDerive.CalculateStructSize` | shared-derive/src/lib.rs:95-120 | the loop that adds the field sizes to 8 and returns on the first failure computes exactly `StructSize` |
| `SpacyDerive.DeriveSpacy` | shared-derive/src/lib.rs:42-68 | an implementation carrying the struct's name and size is emitted exactly when the input is a struct that can be sized; a non-struct is the error "Spacy can only be derived by structs"; a struct's error or panic is passed on |
| `SpacyDerive.SizeSumConcat` | shared-derive/src/lib.rs:99-103 | the sum of the sizes of two field lists is the sum of their sums |
| `SpacyDerive.SizeSumPermutation` | shared-derive/src/lib.rs:99-103 | reordering the fields' outcomes does not change their total |
| `SpacyDerive.OutcomesPermutation` | shared-derive/src/lib.rs:99-100 | reordering the fields reorders their outcomes |
| `SpacyDerive.FieldOrderIrrelevant` | shared-derive/src/lib.rs:96-104 | a reordering of a struct's fields is sized exactly when the original is, and to the same size |
| `SpacyDerive.StructSizeAdditive` | shared-derive/src/lib.rs:96-104 | the struct made of the fields of two sized structs is sized to the sum of their sizes minus one discriminator |
| `SpacyDerive.FirstFieldFailureWins` | shared-derive/src/lib.rs:99-101 | the first field that cannot be sized decides the outcome; later fields, even ones that would panic, are not looked at |
| `SpacyDerive.UnrecognizedFieldFailsStruct` | shared-derive/src/lib.rs:56-58 | a struct with any field that cannot be sized gets no implementation: no partial size is emitted |
| `Syntax.RenderNamed1` | shared-derive/src/size_calculator.rs:22-23 | the text of a type written as a bare identifier is that identifier |
| `Syntax.RenderStartsWithHead` | shared-derive/src/size_calculator.rs:22-23 | the text of a path type begins with its leading `::`, if any, and its first identifier |
| `Syntax.RenderAngleShowsBracket` | shared-derive/src/size_calculator.rs:22-23 | the text of a path type whose first segment has generic arguments contains `<` |
| `VecDispatch.GenericFieldUnrecognized` | shared-derive/src/size_calculator.rs:21-49 | as written, a field whose type has generic arguments on its first segment (`Vec<T>`, `Option<T>`) is always "Unrecognized type!" |
| `VecDispatch.VecFieldNeverSized` | shared-derive/src/size_calculator.rs:39-47 | as written, `Vec<T>` is unrecognized whatever T and the capacity, and a type whose text is exactly `Vec` never gets a size |
| `VecDispatch.GetTypeSizeIntended` | shared-derive/src/size_calculator.rs:21-49 | corrected dispatch: a type whose path starts with `Vec` goes to the vector rule; every other type, and every field the original sizes, is treated as before |
| `VecDispatch.VecFieldSizedAsIntended` | shared-derive/src/size_calculator.rs:71-99 | with the corrected dispatch, `#[size(N)] Vec<T>` takes 4 + N·width(T) for T in the table and fails "Unsupported Inner Type of the vector" otherwise; as written, the same field is unrecognized |
| `VecDispatch.IntendedStructSize` | shared-derive/src/lib.rs:95-120 | with the corrected dispatch, every struct the original sizes keeps its size, and a struct is sized exactly when each of its fields is |
| `Accounts.NoteDataSize` | programs/app_program/src/state/note.rs:4-11 | `NoteData` (`#[size(200)] String`, `i64`, `u64`) gets `SIZE` 8 + 804 + 8 + 8 = 828 |
| `Accounts.UserCounterSize` | programs/counter_service/src/state/user_counter.rs:4-9 | `UserCounter` (two `u64`) gets `SIZE` 8 + 8 + 8 = 24 |
| `Accounts.StringWithoutCapacityPanics` | shared-derive/src/size_calculator.rs:59-60 | a leading `String` field with no `#[size]` panics the macro with "No size passed!", whatever fields follow |
| `Accounts.NestedStructUnrecognized` | shared-derive/src/size_calculator.rs:46-47 | a field whose type is another struct is the compile error "Unrecognized type!" |
| `Accounts.VecOfU64Size` | shared-derive/src/size_calculator.rs:39-40 | a struct with one `#[size(10)] Vec<u64>` field is "Unrecognized type!" as written, and 8 + 4 + 10·8 = 92 with the corrected dispatch |
| `Accounts.NegativeZeroRejected` | shared-derive/src/size_calculator.rs:127-128 | `#[size(-0)] String` is the error "invalid digit found in string", not a 4-byte string |
| `SpacyDerive.FailureAt` | shared-derive/src/lib.rs:99-101 | a field that cannot be sized, after fields that all can, is the struct's outcome |
| `Accounts.DuplicateSizeAttrs` | shared-derive/src/size_calculator.rs:122-128 | `#[size(5)] #[size(7)] String` is sized for 7 characters (32 bytes) |

## Left out

- Parsing of the macro input and generation of the output tokens are not modelled. The model starts from the parsed input and stops at the emitted implementation (`SpacyImpl(name, size)`). Errors keep their message and not their source location.
- `Syntax.Render` approximates the token printer for path types. Every other kind of type, parenthesized arguments and non-type generic arguments are given as their token text. A qualified-self path (`<T as Trait>::X`) is one of those other types, so its segments are not inspected.
- `_calculate_option_size` is not modelled: it is a stub that only panics and nothing calls it.
- `SizeCalculator.CalculateStringSize`: sizes are unbounded; the `usize` overflow of `4 + N * 4` for capacities near `usize::MAX` is not modelled.
- `SizeCalculator.CalculateVecSize`: sizes are unbounded; the `usize` overflow of `4 + width * N` is not modelled.
- `SpacyDerive.CalculateStructSize`: the running total is unbounded; `usize` overflow of the sum is not modelled.
- `SizeCalculator.UsizeMax` assumes a 64-bit machine running the macro.
- The Anchor programs are not part of this model: instructions, cross-program calls, address derivation, rent and clock, account creation and logging. Neither are the integration test or the re-export crate.

## Findings

| source | as written | input that shows it | evidently intended | confidence | as-written member | corrected member |
|---|---|---|---|---|---|---|
| shared-derive/src/size_calculator.rs:23-47 | the field's type is matched on its exact token text, and `Vec<T>` prints as `Vec < T >`. So every vector field falls through to "Unrecognized type!". Only the bare word `Vec` reaches the vector rule, and that has no element type, so it panics | `#[size(10)] items: Vec<u64>` | the field takes 4 + 10·8 = 84 bytes; the struct takes 92 | not executed; the rendering of `Vec<u64>` is a property of the token printer | `VecDispatch.VecFieldNeverSized` | `VecDispatch.GetTypeSizeIntended` |
