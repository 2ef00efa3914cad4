/**
 * The per-field size rules of the `Spacy` derive: a fixed table of primitive
 * widths, the `#[size(N)]` attribute reader, and the `String` and `Vec`
 * container rules. A field's type is dispatched on by its exact token text.
 */
module SizeCalculator {
  import opened Wrappers
  import opened Syntax

  /** Bytes budgeted per character of a `String` (the worst-case UTF-8 width). */
  const Utf8CharLen: nat := 4

  /** Bytes of the length prefix stored in front of a `String` or `Vec`. */
  const LengthPrefix: nat := 4

  /** The largest `usize` of the (64-bit) host that runs the macro. */
  const UsizeMax: nat := 0xFFFF_FFFF_FFFF_FFFF

  const UnrecognizedType := "Unrecognized type!"
  const NoSizePassed := "No size passed!"
  const NoInnerType := "No inner type provided!"
  const UnsupportedInnerType := "Unsupported Inner Type of the vector"

  /** What parsing a decimal literal as a `usize` reports for a sign or for a value out of range. */
  const InvalidDigit := "invalid digit found in string"
  const NumberTooLarge := "number too large to fit in target type"

  /** The result of sizing a field: a byte count, an error reported as a compile
      error, or a panic (an `expect` on a missing value), which aborts the build. */
  datatype Outcome = Ok(size: nat) | Err(msg: string) | Panic(msg: string)

  /** The text a field's type is matched on. */
  function TypeName(f: Field): string {
    Render(f.ty)
  }

  // ---------------------------------------------------------------------------
  // Primitive widths
  // ---------------------------------------------------------------------------

  /** The width table `get_type_size` applies to a field's own type. */
  function PrimitiveWidth(name: string): Option<nat> {
    match name
    case "u8" => Some(1)
    case "i8" => Some(1)
    case "u16" => Some(2)
    case "i16" => Some(2)
    case "u32" => Some(4)
    case "i32" => Some(4)
    case "u64" => Some(8)
    case "i64" => Some(8)
    case "u128" => Some(16)
    case "i128" => Some(16)
    case "bool" => Some(1)
    case "Pubkey" => Some(32)
    case _ => None
  }

  /** The width table `calculate_vec_size` applies to a vector's element type;
      the source spells it out a second time. */
  function ElementWidth(name: string): Option<nat> {
    match name
    case "u8" => Some(1)
    case "i8" => Some(1)
    case "u16" => Some(2)
    case "i16" => Some(2)
    case "u32" => Some(4)
    case "i32" => Some(4)
    case "u64" => Some(8)
    case "i64" => Some(8)
    case "u128" => Some(16)
    case "i128" => Some(16)
    case "bool" => Some(1)
    case "Pubkey" => Some(32)
    case _ => None
  }

  /** The two tables agree entry for entry. */
  lemma ElementTableAgrees(name: string)
    ensures ElementWidth(name) == PrimitiveWidth(name)
  {
  }

  /** Every name in the table is a plain identifier starting with one of
      `u`, `i`, `b` or `P`. */
  lemma PrimitiveNameShape(name: string)
    requires PrimitiveWidth(name).Some?
    ensures |name| > 0 && name[0] in {'u', 'i', 'b', 'P'}
    ensures '<' !in name && ':' !in name
  {
  }

  /** The fixed-width types by what they are rather than by name: integers of a
      number of bits, booleans, and 32-byte public keys. */
  datatype Primitive = Unsigned(bits: nat) | Signed(bits: nat) | Boolean | PublicKey

  predicate Supported(p: Primitive) {
    match p
    case Unsigned(b) => b in {8, 16, 32, 64, 128}
    case Signed(b) => b in {8, 16, 32, 64, 128}
    case _ => true
  }

  /** Decimal digits of `n`, most significant first. */
  function Decimal(n: nat): (s: string)
    ensures |s| > 0
  {
    var d := ['0', '1', '2', '3', '4', '5', '6', '7', '8', '9'][n % 10];
    if n < 10 then [d] else Decimal(n / 10) + [d]
  }

  /** The Rust name of a fixed-width type: `u64`, `i8`, `bool`, `Pubkey`. */
  function RustName(p: Primitive): string {
    match p
    case Unsigned(b) => "u" + Decimal(b)
    case Signed(b) => "i" + Decimal(b)
    case Boolean => "bool"
    case PublicKey => "Pubkey"
  }

  /** The byte width of a fixed-width type: an integer takes its bits over
      eight, a boolean one byte, a public key 32 bytes. */
  function ByteWidth(p: Primitive): nat {
    match p
    case Unsigned(b) => b / 8
    case Signed(b) => b / 8
    case Boolean => 1
    case PublicKey => 32
  }

  /** Every supported fixed-width type is in the table under its Rust name,
      with its byte width. */
  lemma PrimitiveTableSound(p: Primitive)
    requires Supported(p)
    ensures PrimitiveWidth(RustName(p)) == Some(ByteWidth(p))
  {
    assert Decimal(8) == "8" && Decimal(16) == "16" && Decimal(32) == "32";
    assert Decimal(64) == "64" && Decimal(128) == "128";
    match p
    case Unsigned(b) =>
      if b == 8 { assert RustName(p) == "u" + "8" == "u8"; }
      else if b == 16 { assert RustName(p) == "u" + "16" == "u16"; }
      else if b == 32 { assert RustName(p) == "u" + "32" == "u32"; }
      else if b == 64 { assert RustName(p) == "u" + "64" == "u64"; }
      else { assert RustName(p) == "u" + "128" == "u128"; }
    case Signed(b) =>
      if b == 8 { assert RustName(p) == "i" + "8" == "i8"; }
      else if b == 16 { assert RustName(p) == "i" + "16" == "i16"; }
      else if b == 32 { assert RustName(p) == "i" + "32" == "i32"; }
      else if b == 64 { assert RustName(p) == "i" + "64" == "i64"; }
      else { assert RustName(p) == "i" + "128" == "i128"; }
    case _ =>
  }

  /** The table holds nothing else: each name in it is the Rust name of a
      supported fixed-width type, with that type's byte width. */
  lemma PrimitiveTableComplete(name: string)
    requires PrimitiveWidth(name).Some?
    ensures exists p :: Supported(p) && RustName(p) == name && PrimitiveWidth(name) == Some(ByteWidth(p))
  {
    var p: Primitive :=
      match name
      case "u8" => Unsigned(8)
      case "i8" => Signed(8)
      case "u16" => Unsigned(16)
      case "i16" => Signed(16)
      case "u32" => Unsigned(32)
      case "i32" => Signed(32)
      case "u64" => Unsigned(64)
      case "i64" => Signed(64)
      case "u128" => Unsigned(128)
      case "i128" => Signed(128)
      case "bool" => Boolean
      case _ => PublicKey;
    PrimitiveTableSound(p);
    assert RustName(p) == name;
  }

  // ---------------------------------------------------------------------------
  // The `#[size(N)]` attribute
  // ---------------------------------------------------------------------------

  predicate IsSizeAttr(a: Attribute) {
    IsIdent(a.path, "size")
  }

  /** Reading an attribute's arguments as one integer literal and that literal
      as a `usize`. Any sign makes the digits invalid, `-0` included. */
  function ParseSize(args: AttrArgs): (r: Result<nat>)
    ensures r.Success? <==> args.IntLiteral? && !args.negative && args.magnitude <= UsizeMax
    ensures r.Success? ==> r.value == args.magnitude
    ensures args.NotIntLiteral? ==> r == Failure(args.reason)
    ensures args.IntLiteral? && args.negative ==> r == Failure(InvalidDigit)
    ensures args.IntLiteral? && !args.negative && args.magnitude > UsizeMax ==> r == Failure(NumberTooLarge)
  {
    match args
    case NotIntLiteral(reason) => Failure(reason)
    case IntLiteral(negative, v) =>
      if negative then Failure(InvalidDigit)
      else if v > UsizeMax then Failure(NumberTooLarge)
      else Success(v)
  }

  /** The capacity declared by a list of attributes, as the attributes are
      scanned in order: `size` attributes overwrite the capacity, others are
      skipped, and the first malformed `size` attribute stops the scan. */
  function ReadSize(attrs: seq<Attribute>): Result<Option<nat>>
    decreases |attrs|
  {
    if attrs == [] then Success(None)
    else
      var last := attrs[|attrs| - 1];
      match ReadSize(attrs[..|attrs| - 1])
      case Failure(e) => Failure(e)
      case Success(prev) =>
        if !IsSizeAttr(last) then Success(prev)
        else match ParseSize(last.args)
          case Failure(e) => Failure(e)
          case Success(n) => Success(Some(n))
  }

  /** `get_complex_attr_size`: scans a field's attributes for `#[size(N)]`. */
  method GetComplexAttrSize(f: Field) returns (r: Result<Option<nat>>)
    ensures r == ReadSize(f.attrs)
  {
    var attrSize: Option<nat> := None;
    for i := 0 to |f.attrs|
      invariant ReadSize(f.attrs[..i]) == Success(attrSize)
    {
      var attr := f.attrs[i];
      assert f.attrs[..i + 1][..i] == f.attrs[..i];
      if !IsSizeAttr(attr) {
        continue;
      }
      var size := ParseSize(attr.args);
      if size.Failure? {
        ReadSizeFailureSticks(f.attrs, i + 1);
        return Failure(size.error);
      }
      attrSize := Some(size.value);
    }
    assert f.attrs[..|f.attrs|] == f.attrs;
    return Success(attrSize);
  }

  /** Once a prefix of the attributes fails to read, the whole list fails
      with the same error. */
  lemma {:induction false} ReadSizeFailureSticks(attrs: seq<Attribute>, k: nat)
    requires k <= |attrs| && ReadSize(attrs[..k]).Failure?
    ensures ReadSize(attrs) == ReadSize(attrs[..k])
    decreases |attrs| - k
  {
    if k < |attrs| {
      assert attrs[..k + 1][..k] == attrs[..k];
      ReadSizeFailureSticks(attrs, k + 1);
    } else {
      assert attrs[..k] == attrs;
    }
  }

  /** No capacity is read exactly when no attribute is a `size` attribute. */
  lemma {:induction false} ReadSizeNone(attrs: seq<Attribute>)
    ensures ReadSize(attrs) == Success(None) <==> forall i :: 0 <= i < |attrs| ==> !IsSizeAttr(attrs[i])
    decreases |attrs|
  {
    if attrs != [] {
      var init := attrs[..|attrs| - 1];
      ReadSizeNone(init);
      assert forall i :: 0 <= i < |init| ==> init[i] == attrs[i];
    }
  }

  /** Reading fails exactly when some `size` attribute is malformed, and the
      error is that of the first malformed one. */
  lemma {:induction false} ReadSizeFails(attrs: seq<Attribute>)
    ensures ReadSize(attrs).Failure? <==>
      exists i :: 0 <= i < |attrs| && IsSizeAttr(attrs[i]) && ParseSize(attrs[i].args).Failure?
    ensures ReadSize(attrs).Failure? ==>
      exists i :: && 0 <= i < |attrs| && IsSizeAttr(attrs[i])
                  && ParseSize(attrs[i].args) == Failure(ReadSize(attrs).error)
                  && forall j :: 0 <= j < i && IsSizeAttr(attrs[j]) ==> ParseSize(attrs[j].args).Success?
    decreases |attrs|
  {
    if attrs != [] {
      var init := attrs[..|attrs| - 1];
      ReadSizeFails(init);
      assert forall i :: 0 <= i < |init| ==> init[i] == attrs[i];
      if ReadSize(init).Success? && ReadSize(attrs).Failure? {
        var i := |attrs| - 1;
        assert IsSizeAttr(attrs[i]) && ParseSize(attrs[i].args) == Failure(ReadSize(attrs).error);
      }
    }
  }

  /** When every `size` attribute is well formed, the capacity read is the
      value of the last one: a duplicate overrides an earlier one. */
  lemma {:induction false} ReadSizeLastWins(attrs: seq<Attribute>, k: nat)
    requires forall i :: 0 <= i < |attrs| && IsSizeAttr(attrs[i]) ==> ParseSize(attrs[i].args).Success?
    requires k < |attrs| && IsSizeAttr(attrs[k])
    requires forall j :: k < j < |attrs| ==> !IsSizeAttr(attrs[j])
    ensures ReadSize(attrs) == Success(Some(ParseSize(attrs[k].args).value))
    decreases |attrs|
  {
    var init := attrs[..|attrs| - 1];
    assert forall i :: 0 <= i < |init| ==> init[i] == attrs[i];
    if k < |attrs| - 1 {
      ReadSizeLastWins(init, k);
    } else {
      ReadSizeFails(init);
    }
  }

  /** An attribute that is not `size` is ignored wherever it stands. */
  lemma {:induction false} ReadSizeIgnoresOthers(before: seq<Attribute>, a: Attribute, after: seq<Attribute>)
    requires !IsSizeAttr(a)
    ensures ReadSize(before + [a] + after) == ReadSize(before + after)
    decreases |after|
  {
    if after == [] {
      assert (before + [a] + after)[..|before|] == before;
      assert before + after == before;
    } else {
      var init := after[..|after| - 1];
      ReadSizeIgnoresOthers(before, a, init);
      assert (before + [a] + after)[..|before + [a] + after| - 1] == before + [a] + init;
      assert (before + after)[..|before + after| - 1] == before + init;
    }
  }

  /** A capacity that is read fits in a `usize`. */
  lemma {:induction false} ReadSizeInRange(attrs: seq<Attribute>)
    ensures ReadSize(attrs).Success? && ReadSize(attrs).value.Some? ==> ReadSize(attrs).value.value <= UsizeMax
    decreases |attrs|
  {
    if attrs != [] {
      ReadSizeInRange(attrs[..|attrs| - 1]);
    }
  }

  // ---------------------------------------------------------------------------
  // Containers
  // ---------------------------------------------------------------------------

  /** `extract_vec_inner`: the first generic argument of a path type whose
      first segment is `Vec` with angle-bracketed arguments. */
  function ExtractVecInner(ty: Ty): (r: Option<Ty>)
    ensures r.Some? <==>
      && ty.TypePath? && |ty.path.segments| > 0
      && ty.path.segments[0].ident == "Vec"
      && ty.path.segments[0].arguments.AngleBracketed?
      && |ty.path.segments[0].arguments.args| > 0
      && ty.path.segments[0].arguments.args[0].TypeArgument?
    ensures r.Some? ==> TypeArgument(r.value) == ty.path.segments[0].arguments.args[0]
  {
    match ty
    case OtherType(_) => None
    case TypePath(p) =>
      if |p.segments| == 0 then None
      else
        var segment := p.segments[0];
        if segment.ident == "Vec" && segment.arguments.AngleBracketed?
           && |segment.arguments.args| > 0 && segment.arguments.args[0].TypeArgument?
        then Some(segment.arguments.args[0].ty)
        else None
  }

  /** `Vec<t>` gives back `t`, and only the first generic argument counts. */
  lemma ExtractVecInnerOfVec(t: Ty, rest: seq<GenericArgument>)
    ensures ExtractVecInner(VecOf(t)) == Some(t)
    ensures ExtractVecInner(TypePath(Path(false, [PathSegment("Vec", AngleBracketed([TypeArgument(t)] + rest))]))) == Some(t)
  {
  }

  /** A type that renders as the bare text "Vec" yields no element type: one
      that does carries its angle brackets in its text. */
  lemma BareVecHasNoInner(ty: Ty)
    ensures Render(ty) == "Vec" ==> ExtractVecInner(ty).None?
  {
    if ExtractVecInner(ty).Some? {
      RenderAngleShowsBracket(ty.path);
    }
  }

  /** `calculate_string_size`: a length prefix and `Utf8CharLen` bytes per
      character of the declared capacity. */
  function CalculateStringSize(f: Field): (r: Outcome)
    ensures r.Ok? <==> ReadSize(f.attrs).Success? && ReadSize(f.attrs).value.Some?
    ensures r.Ok? ==> r.size == LengthPrefix + Utf8CharLen * ReadSize(f.attrs).value.value
    ensures ReadSize(f.attrs) == Success(None) ==> r == Panic(NoSizePassed)
    ensures ReadSize(f.attrs).Failure? ==> r == Err(ReadSize(f.attrs).error)
  {
    match ReadSize(f.attrs)
    case Failure(e) => Err(e)
    case Success(None) => Panic(NoSizePassed)
    case Success(Some(n)) => Ok(LengthPrefix + n * Utf8CharLen)
  }

  /** `calculate_vec_size`: a length prefix and the declared capacity times the
      element width; the element type must be in the primitive table. */
  function CalculateVecSize(f: Field): (r: Outcome)
    ensures r.Ok? <==>
      && ReadSize(f.attrs).Success? && ReadSize(f.attrs).value.Some?
      && ExtractVecInner(f.ty).Some?
      && ElementWidth(Render(ExtractVecInner(f.ty).value)).Some?
    ensures r.Ok? ==>
      r.size == LengthPrefix + ReadSize(f.attrs).value.value * ElementWidth(Render(ExtractVecInner(f.ty).value)).value
    ensures ReadSize(f.attrs).Failure? ==> r == Err(ReadSize(f.attrs).error)
    ensures ReadSize(f.attrs) == Success(None) ==> r == Panic(NoSizePassed)
    ensures ReadSize(f.attrs).Success? && ReadSize(f.attrs).value.Some? && ExtractVecInner(f.ty).None? ==>
      r == Panic(NoInnerType)
    ensures (&& ReadSize(f.attrs).Success? && ReadSize(f.attrs).value.Some? && ExtractVecInner(f.ty).Some?
             && ElementWidth(Render(ExtractVecInner(f.ty).value)).None?) ==> r == Err(UnsupportedInnerType)
  {
    match ReadSize(f.attrs)
    case Failure(e) => Err(e)
    case Success(None) => Panic(NoSizePassed)
    case Success(Some(n)) =>
      match ExtractVecInner(f.ty)
      case None => Panic(NoInnerType)
      case Some(inner) =>
        match ElementWidth(Render(inner))
        case Some(w) => Ok(LengthPrefix + w * n)
        case None => Err(UnsupportedInnerType)
  }

  /** `get_type_size`: the size of one field, dispatched on the exact text of
      its type. */
  function GetTypeSize(f: Field): (r: Outcome)
    ensures PrimitiveWidth(TypeName(f)).Some? ==> r == Ok(PrimitiveWidth(TypeName(f)).value)
    ensures TypeName(f) == "String" ==> r == CalculateStringSize(f)
    ensures TypeName(f) == "Vec" ==> r == CalculateVecSize(f)
    ensures PrimitiveWidth(TypeName(f)).None? && TypeName(f) != "String" && TypeName(f) != "Vec" ==>
      r == Err(UnrecognizedType)
    ensures r.Ok? ==> PrimitiveWidth(TypeName(f)).Some? || TypeName(f) == "String"
  {
    match TypeName(f)
    case "String" => CalculateStringSize(f)
    case "Vec" => BareVecHasNoInner(f.ty); CalculateVecSize(f)
    case name =>
      match PrimitiveWidth(name)
      case Some(w) => Ok(w)
      case None => Err(UnrecognizedType)
  }
}
