/**
 * The account structs that derive `Spacy`, and what the derive makes of them
 * and of a few other field lists.
 */
module Accounts {
  import opened Syntax
  import opened SizeCalculator
  import opened SpacyDerive
  import opened VecDispatch

  /** The attribute `#[size(n)]`. */
  function SizeAttr(n: nat): Attribute {
    Attribute(Path(false, [PathSegment("size", NoArguments)]), IntLiteral(false, n))
  }

  /** A field of type `t` with no attributes. */
  function Plain(name: string, t: string): Field {
    Field(name, Named1(t), [])
  }

  /** `NoteData`: a `#[size(200)]` string and two 64-bit integers. */
  function NoteData(): DeriveInput {
    DeriveInput("NoteData", Struct(DataStruct(Named([
      Field("content", Named1("String"), [SizeAttr(200)]),
      Plain("last_edited", "i64"),
      Plain("note_id", "u64")]))))
  }

  /** `UserCounter`: two 64-bit counters. */
  function UserCounter(): DeriveInput {
    DeriveInput("UserCounter", Struct(DataStruct(Named([
      Plain("created_count", "u64"),
      Plain("edited_count", "u64")]))))
  }

  /** A note takes 8 + (4 + 200 * 4) + 8 + 8 = 828 bytes. */
  lemma NoteDataSize()
    ensures DeriveSpacy(NoteData()) == SpacyImpl("NoteData", 828)
  {
    var fs := NoteData().data.strct.fields.named;
    RenderNamed1("String");
    ReadSizeLastWins(fs[0].attrs, 0);
    RenderNamed1("i64");
    RenderNamed1("u64");
    assert FieldOutcomes(fs) == [Ok(804), Ok(8), Ok(8)];
    assert SizeSum([Ok(804), Ok(8), Ok(8)]) == 820 by {
      assert [Ok(804), Ok(8), Ok(8)][..2] == [Ok(804), Ok(8)];
      assert [Ok(804), Ok(8)][..1] == [Ok(804)];
      assert [Ok(804)][..0] == [];
    }
  }

  /** A user counter takes 8 + 8 + 8 = 24 bytes. */
  lemma UserCounterSize()
    ensures DeriveSpacy(UserCounter()) == SpacyImpl("UserCounter", 24)
  {
    var fs := UserCounter().data.strct.fields.named;
    RenderNamed1("u64");
    assert FieldOutcomes(fs) == [Ok(8), Ok(8)];
    assert SizeSum([Ok(8), Ok(8)]) == 16 by {
      assert [Ok(8), Ok(8)][..1] == [Ok(8)];
      assert [Ok(8)][..0] == [];
    }
  }

  /** A string without `#[size]` makes the macro panic, whatever comes after it. */
  lemma StringWithoutCapacityPanics(rest: seq<Field>)
    ensures DeriveSpacy(DeriveInput("Note", Struct(DataStruct(Named([Plain("content", "String")] + rest)))))
      == MacroPanic(NoSizePassed)
  {
    var fs := [Plain("content", "String")] + rest;
    RenderNamed1("String");
    assert GetTypeSize(fs[0]) == Panic(NoSizePassed);
    FirstFieldFailureWins(fs, 0);
  }

  /** A field whose type is another struct is unrecognized. */
  lemma NestedStructUnrecognized()
    ensures DeriveSpacy(DeriveInput("Outer", Struct(DataStruct(Named([Plain("inner", "Inner")])))))
      == CompileError(UnrecognizedType)
  {
  }

  /** `#[size(10)] Vec<u64>`: unrecognized as written; 8 + 4 + 10 * 8 = 92
      bytes with the intended dispatch. */
  lemma VecOfU64Size()
    ensures DeriveSpacy(DeriveInput("Log", Struct(DataStruct(Named([Field("items", VecOf(Named1("u64")), [SizeAttr(10)])])))))
      == CompileError(UnrecognizedType)
    ensures IntendedStructSize(DataStruct(Named([Field("items", VecOf(Named1("u64")), [SizeAttr(10)])]))) == Ok(92)
  {
    var f := Field("items", VecOf(Named1("u64")), [SizeAttr(10)]);
    RenderNamed1("u64");
    ReadSizeLastWins(f.attrs, 0);
    VecFieldSizedAsIntended(f, Named1("u64"), 10);
    FirstFieldFailureWins([f], 0);
    assert Outcomes(GetTypeSizeIntended, [f]) == [Ok(84)];
    assert SizeSum([Ok(84)]) == 84 by {
      assert [Ok(84)][..0] == [];
    }
  }

  /** `#[size(-0)]` is rejected: the sign makes the digits invalid for a
      `usize`, even on zero. */
  lemma NegativeZeroRejected()
    ensures CalculateStringSize(Field("s", Named1("String"), [Attribute(Path(false, [PathSegment("size", NoArguments)]), IntLiteral(true, 0))]))
      == Err(InvalidDigit)
  {
  }

  /** Two `size` attributes are not rejected: the later one decides. */
  lemma DuplicateSizeAttrs()
    ensures CalculateStringSize(Field("s", Named1("String"), [SizeAttr(5), SizeAttr(7)])) == Ok(32)
  {
    ReadSizeLastWins([SizeAttr(5), SizeAttr(7)], 1);
  }
}
