/**
 * The `Spacy` derive itself: the size of a struct is an 8-byte discriminator
 * plus the size of each named field, taken in declaration order and stopping at
 * the first field that cannot be sized; only structs are accepted.
 */
module SpacyDerive {
  import opened Syntax
  import opened SizeCalculator

  /** Bytes of the account discriminator in front of every struct. */
  const Discriminator: nat := 8

  const NotAStruct := "Spacy can only be derived by structs"
  const TupleStructs := "Tuple structs are not yet supported"

  /** What the derive expands to: the trait implementation carrying the size,
      a compile error, or a panic of the macro. */
  datatype Expansion =
    | SpacyImpl(name: string, size: nat)
    | CompileError(msg: string)
    | MacroPanic(msg: string)

  /** The size outcome of each field under the sizing rule `sizeOf`, in
      declaration order. */
  function Outcomes(sizeOf: Field -> Outcome, fs: seq<Field>): (os: seq<Outcome>)
    ensures |os| == |fs| && forall i :: 0 <= i < |fs| ==> os[i] == sizeOf(fs[i])
  {
    seq(|fs|, i requires 0 <= i < |fs| => sizeOf(fs[i]))
  }

  /** The size outcome of each field, in declaration order. */
  function FieldOutcomes(fs: seq<Field>): seq<Outcome> {
    Outcomes(GetTypeSize, fs)
  }

  predicate AllSized(os: seq<Outcome>) {
    forall i :: 0 <= i < |os| ==> os[i].Ok?
  }

  /** The total of the sizes among `os` (an outcome without a size adds nothing). */
  function SizeSum(os: seq<Outcome>): nat
    decreases |os|
  {
    if os == [] then 0
    else SizeSum(os[..|os| - 1]) + (if os[|os| - 1].Ok? then os[|os| - 1].size else 0)
  }

  /** The position of the first outcome that is not a size. */
  function FirstFailure(os: seq<Outcome>): (k: nat)
    requires !AllSized(os)
    ensures k < |os| && !os[k].Ok?
    ensures forall j :: 0 <= j < k ==> os[j].Ok?
    decreases |os|
  {
    if !os[0].Ok? then 0
    else
      assert !AllSized(os[1..]) by {
        var i :| 0 <= i < |os| && !os[i].Ok?;
        assert os[1..][i - 1] == os[i];
      }
      1 + FirstFailure(os[1..])
  }

  /** The struct size from its fields' outcomes: the discriminator plus every
      field size, or else the first failure. */
  function Summation(os: seq<Outcome>): (r: Outcome)
    ensures r.Ok? <==> AllSized(os)
    ensures r.Ok? ==> r.size >= Discriminator
    ensures !r.Ok? ==> exists k :: 0 <= k < |os| && r == os[k] && forall j :: 0 <= j < k ==> os[j].Ok?
  {
    if AllSized(os) then Ok(Discriminator + SizeSum(os)) else os[FirstFailure(os)]
  }

  /** The outcome `calculate_struct_size` computes for a struct body. */
  function StructSize(data: DataStruct): (r: Outcome)
    ensures data.fields.Named? ==> (r.Ok? <==> AllSized(FieldOutcomes(data.fields.named)))
    ensures data.fields.Named? && r.Ok? ==> r.size >= Discriminator
    ensures data.fields.Unnamed? ==> r == Err(TupleStructs)
    ensures data.fields.Unit? ==> r == Ok(0)
  {
    match data.fields
    case Named(fs) => Summation(FieldOutcomes(fs))
    case Unnamed(_) => Err(TupleStructs)
    case Unit => Ok(0)
  }

  /** `calculate_struct_size`: starts from the discriminator and adds each named
      field's size, returning the first field failure as soon as it occurs. */
  method CalculateStructSize(data: DataStruct) returns (r: Outcome)
    ensures r == StructSize(data)
  {
    var totalSize := Discriminator;
    match data.fields {
      case Named(fs) =>
        ghost var os := FieldOutcomes(fs);
        for i := 0 to |fs|
          invariant AllSized(os[..i])
          invariant totalSize == Discriminator + SizeSum(os[..i])
        {
          var size := GetTypeSize(fs[i]);
          assert os[i] == size;
          assert os[..i + 1][..i] == os[..i];
          if !size.Ok? {
            FailureAt(os, i);
            return size;
          }
          totalSize := totalSize + size.size;
        }
        assert os[..|fs|] == os;
        return Ok(totalSize);
      case Unnamed(_) =>
        return Err(TupleStructs);
      case Unit =>
        return Ok(0);
    }
  }

  /** A failure right after a sized prefix is the first failure. */
  lemma FailureAt(os: seq<Outcome>, i: nat)
    requires i < |os| && AllSized(os[..i]) && !os[i].Ok?
    ensures Summation(os) == os[i]
  {
    assert forall j :: 0 <= j < i ==> os[j] == os[..i][j];
    assert FirstFailure(os) == i;
  }

  /** `derive_spacy`: structs get an implementation carrying their size;
      anything else, or a struct that cannot be sized, gets no size at all. */
  function DeriveSpacy(input: DeriveInput): (r: Expansion)
    ensures r.SpacyImpl? <==> input.data.Struct? && StructSize(input.data.strct).Ok?
    ensures r.SpacyImpl? ==> r.name == input.ident && r.size == StructSize(input.data.strct).size
    ensures !input.data.Struct? ==> r == CompileError(NotAStruct)
    ensures input.data.Struct? && StructSize(input.data.strct).Err? ==>
      r == CompileError(StructSize(input.data.strct).msg)
    ensures input.data.Struct? && StructSize(input.data.strct).Panic? ==>
      r == MacroPanic(StructSize(input.data.strct).msg)
  {
    match input.data
    case Struct(s) =>
      (match StructSize(s)
       case Ok(size) => SpacyImpl(input.ident, size)
       case Err(msg) => CompileError(msg)
       case Panic(msg) => MacroPanic(msg))
    case _ => CompileError(NotAStruct)
  }

  // ---------------------------------------------------------------------------
  // Properties of the summation
  // ---------------------------------------------------------------------------

  lemma OutcomesConcat(sizeOf: Field -> Outcome, a: seq<Field>, b: seq<Field>)
    ensures Outcomes(sizeOf, a + b) == Outcomes(sizeOf, a) + Outcomes(sizeOf, b)
  {
  }

  lemma {:induction false} SizeSumConcat(a: seq<Outcome>, b: seq<Outcome>)
    ensures SizeSum(a + b) == SizeSum(a) + SizeSum(b)
    decreases |b|
  {
    if b == [] {
      assert a + b == a;
    } else {
      var init := b[..|b| - 1];
      SizeSumConcat(a, init);
      assert (a + b)[..|a + b| - 1] == a + init;
    }
  }

  /** The last element of a sequence can be matched with an occurrence in any
      permutation of it, leaving permutations of each other behind. */
  lemma MatchLast<T>(xs: seq<T>, ys: seq<T>) returns (j: nat)
    requires |xs| > 0 && multiset(xs) == multiset(ys)
    ensures j < |ys| && ys[j] == xs[|xs| - 1]
    ensures ys == ys[..j] + [ys[j]] + ys[j + 1..]
    ensures multiset(xs[..|xs| - 1]) == multiset(ys[..j] + ys[j + 1..])
  {
    var x := xs[|xs| - 1];
    assert xs == xs[..|xs| - 1] + [x];
    assert x in multiset(ys);
    j :| 0 <= j < |ys| && ys[j] == x;
    assert ys == ys[..j] + [x] + ys[j + 1..];
    assert multiset(xs[..|xs| - 1]) == multiset(xs) - multiset{x};
    assert multiset(ys[..j] + ys[j + 1..]) == multiset(ys) - multiset{x};
  }

  /** Reordering outcomes does not change their total. */
  lemma {:induction false} SizeSumPermutation(os: seq<Outcome>, ps: seq<Outcome>)
    requires multiset(os) == multiset(ps)
    ensures SizeSum(os) == SizeSum(ps)
    decreases |os|
  {
    if os == [] {
      assert |ps| == |multiset(ps)| == 0;
    } else {
      var j := MatchLast(os, ps);
      var x, init := os[|os| - 1], os[..|os| - 1];
      var before, after := ps[..j], ps[j + 1..];
      SizeSumPermutation(init, before + after);
      SizeSumConcat(before, after);
      SizeSumConcat(before + [x], after);
      SizeSumConcat(before, [x]);
      assert os == init + [x];
      SizeSumConcat(init, [x]);
    }
  }

  /** Reordering fields reorders their outcomes. */
  lemma {:induction false} OutcomesPermutation(sizeOf: Field -> Outcome, fs: seq<Field>, gs: seq<Field>)
    requires multiset(fs) == multiset(gs)
    ensures multiset(Outcomes(sizeOf, fs)) == multiset(Outcomes(sizeOf, gs))
    decreases |fs|
  {
    if fs == [] {
      assert |gs| == |multiset(gs)| == 0;
    } else {
      var j := MatchLast(fs, gs);
      var x, init := fs[|fs| - 1], fs[..|fs| - 1];
      var before, after := gs[..j], gs[j + 1..];
      OutcomesPermutation(sizeOf, init, before + after);
      var a, b, c := Outcomes(sizeOf, init), Outcomes(sizeOf, before), Outcomes(sizeOf, after);
      assert fs == init + [x];
      OutcomesConcat(sizeOf, init, [x]);
      OutcomesConcat(sizeOf, before, after);
      OutcomesConcat(sizeOf, before + [x], after);
      OutcomesConcat(sizeOf, before, [x]);
      assert Outcomes(sizeOf, fs) == a + [sizeOf(x)];
      assert Outcomes(sizeOf, gs) == b + [sizeOf(x)] + c;
    }
  }

  /** The struct size does not depend on the order the fields are declared in:
      a reordered struct is sized exactly when the original is, to the same size. */
  lemma FieldOrderIrrelevant(fs: seq<Field>, gs: seq<Field>)
    requires multiset(fs) == multiset(gs)
    ensures StructSize(DataStruct(Named(fs))).Ok? <==> StructSize(DataStruct(Named(gs))).Ok?
    ensures StructSize(DataStruct(Named(fs))).Ok? ==> StructSize(DataStruct(Named(fs))) == StructSize(DataStruct(Named(gs)))
  {
    var os, ps := FieldOutcomes(fs), FieldOutcomes(gs);
    OutcomesPermutation(GetTypeSize, fs, gs);
    SizeSumPermutation(os, ps);
    forall i | 0 <= i < |ps| && AllSized(os) ensures ps[i].Ok? {
      assert ps[i] in multiset(os);
    }
    forall i | 0 <= i < |os| && AllSized(ps) ensures os[i].Ok? {
      assert os[i] in multiset(ps);
    }
  }

  /** Sizes add up: the struct made of the fields of two sized structs is
      sized, and counts the discriminator once. */
  lemma StructSizeAdditive(fs: seq<Field>, gs: seq<Field>)
    requires StructSize(DataStruct(Named(fs))).Ok? && StructSize(DataStruct(Named(gs))).Ok?
    ensures StructSize(DataStruct(Named(fs + gs))) ==
      Ok(StructSize(DataStruct(Named(fs))).size + StructSize(DataStruct(Named(gs))).size - Discriminator)
  {
    OutcomesConcat(GetTypeSize, fs, gs);
    SizeSumConcat(FieldOutcomes(fs), FieldOutcomes(gs));
    var os := FieldOutcomes(fs + gs);
    forall i | 0 <= i < |os| ensures os[i].Ok? {
      if i >= |fs| {
        assert os[i] == FieldOutcomes(gs)[i - |fs|];
      }
    }
  }

  /** The first field that cannot be sized decides the outcome; later fields,
      even ones that would panic, are never looked at. */
  lemma FirstFieldFailureWins(fs: seq<Field>, k: nat)
    requires k < |fs| && !GetTypeSize(fs[k]).Ok?
    requires forall j :: 0 <= j < k ==> GetTypeSize(fs[j]).Ok?
    ensures StructSize(DataStruct(Named(fs))) == GetTypeSize(fs[k])
  {
  }

  /** A struct with a field of a type that is not recognized never gets a
      size: the field does not silently count as zero bytes. */
  lemma UnrecognizedFieldFailsStruct(input: DeriveInput, k: nat)
    requires input.data.Struct? && input.data.strct.fields.Named?
    requires k < |input.data.strct.fields.named|
    requires !GetTypeSize(input.data.strct.fields.named[k]).Ok?
    ensures !DeriveSpacy(input).SpacyImpl?
  {
  }
}
