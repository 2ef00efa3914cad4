/**
 * Vector fields as written and as intended.
 *
 * `get_type_size` matches a field's type on its exact token text, and the text
 * of `Vec<u64>` is "Vec < u64 >", not "Vec". So every vector field with an
 * element type falls through to "Unrecognized type!", and the `Vec` arm is
 * reached only by a type written as the bare word `Vec`, which has no element
 * type and panics. The intended dispatch sends every type whose path starts
 * with `Vec` to the vector rule.
 */
module VecDispatch {
  import opened Wrappers
  import opened Syntax
  import opened SizeCalculator
  import opened SpacyDerive

  /** As written: a field whose type carries generic arguments on its first
      path segment (`Vec<T>`, `Option<T>`, ...) is never recognized. */
  lemma GenericFieldUnrecognized(f: Field)
    requires f.ty.TypePath? && |f.ty.path.segments| > 0
    requires f.ty.path.segments[0].arguments.AngleBracketed?
    ensures GetTypeSize(f) == Err(UnrecognizedType)
  {
    RenderAngleShowsBracket(f.ty.path);
    if PrimitiveWidth(TypeName(f)).Some? {
      PrimitiveNameShape(TypeName(f));
    }
    assert '<' !in "String" && '<' !in "Vec";
  }

  /** As written: no vector field gets a size. `Vec<T>` is unrecognized
      whatever `T` and its capacity are, and a type that does reach the
      vector rule has no element type. */
  lemma VecFieldNeverSized(f: Field, t: Ty)
    ensures f.ty == VecOf(t) ==> GetTypeSize(f) == Err(UnrecognizedType)
    ensures TypeName(f) == "Vec" ==> !GetTypeSize(f).Ok?
  {
    if f.ty == VecOf(t) {
      GenericFieldUnrecognized(f);
    }
  }

  /** The type's path starts with the segment `Vec`. */
  predicate VecHeaded(ty: Ty) {
    ty.TypePath? && |ty.path.segments| > 0 && ty.path.segments[0].ident == "Vec"
  }

  /** The intended `get_type_size`: a type whose path starts with `Vec` goes to
      the vector rule; every other type is dispatched as before. */
  function GetTypeSizeIntended(f: Field): (r: Outcome)
    ensures !VecHeaded(f.ty) ==> r == GetTypeSize(f)
    ensures GetTypeSize(f).Ok? ==> r == GetTypeSize(f)
    ensures VecHeaded(f.ty) ==> r == CalculateVecSize(f)
  {
    if VecHeaded(f.ty) then
      assert PrimitiveWidth(TypeName(f)).None? && TypeName(f) != "String" by {
        RenderStartsWithHead(f.ty.path);
        assert TypeName(f)[0] in {':', 'V'};
        if PrimitiveWidth(TypeName(f)).Some? {
          PrimitiveNameShape(TypeName(f));
        }
      }
      CalculateVecSize(f)
    else GetTypeSize(f)
  }

  /** Intended: `Vec<T>` with `#[size(N)]` takes the length prefix plus N times
      the width of T when T is a fixed-width type, and fails naming the element
      type otherwise; as written, the same field is unrecognized. */
  lemma VecFieldSizedAsIntended(f: Field, t: Ty, n: nat)
    requires f.ty == VecOf(t) && ReadSize(f.attrs) == Success(Some(n))
    ensures PrimitiveWidth(Render(t)).Some? ==>
      GetTypeSizeIntended(f) == Ok(LengthPrefix + n * PrimitiveWidth(Render(t)).value)
    ensures PrimitiveWidth(Render(t)).None? ==> GetTypeSizeIntended(f) == Err(UnsupportedInnerType)
    ensures GetTypeSize(f) == Err(UnrecognizedType)
  {
    ElementTableAgrees(Render(t));
    VecFieldNeverSized(f, t);
  }

  /** The struct size with the intended dispatch. */
  function IntendedStructSize(data: DataStruct): (r: Outcome)
    ensures StructSize(data).Ok? ==> r == StructSize(data)
    ensures data.fields.Named? ==>
      (r.Ok? <==> forall i :: 0 <= i < |data.fields.named| ==> GetTypeSizeIntended(data.fields.named[i]).Ok?)
    ensures !data.fields.Named? ==> r == StructSize(data)
  {
    match data.fields
    case Named(fs) =>
      var os := Outcomes(GetTypeSizeIntended, fs);
      assert StructSize(data).Ok? ==> os == FieldOutcomes(fs) by {
        if StructSize(data).Ok? {
          assert forall i :: 0 <= i < |fs| ==> FieldOutcomes(fs)[i].Ok?;
        }
      }
      Summation(os)
    case _ => StructSize(data)
  }
}
