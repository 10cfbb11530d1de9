/** The generic parameter list of a struct and the two helpers of the macro crate
    that split it: `extract_lifetimes_and_type_params` (used by `#[calls]`) and
    `extract_type_params` (used when parsing the input of `contract!`). */
module Generics {

  /** A type parameter: its identifier and the bounds written inline (`T: Clone`). */
  datatype TypeParam = TypeParam(ident: string, bounds: seq<string>)

  /** One entry of a generic parameter list, in the three forms `syn::GenericParam` has. */
  datatype GenericParam =
    | Lifetime(name: string, bounds: seq<string>)
    | Type(param: TypeParam)
    | Const(ident: string, ty: string)

  datatype Kind = LifetimeKind | TypeKind | ConstKind

  function KindOf(p: GenericParam): Kind
  {
    match p
    case Lifetime(_, _) => LifetimeKind
    case Type(_) => TypeKind
    case Const(_, _) => ConstKind
  }

  // The specification functions below recurse on the LAST entry, so that a loop
  // walking the list from left to right is proved against them entry by entry.

  /** The lifetimes of `ps` (their names, without their bounds), in order. */
  function LifetimeNames(ps: seq<GenericParam>): (r: seq<string>)
    ensures |r| <= |ps|
  {
    if ps == [] then []
    else
      var last := ps[|ps| - 1];
      LifetimeNames(ps[..|ps| - 1]) + (if last.Lifetime? then [last.name] else [])
  }

  /** The type parameters of `ps` (with their bounds), in order. */
  function TypeParamsOf(ps: seq<GenericParam>): (r: seq<TypeParam>)
    ensures |r| <= |ps|
  {
    if ps == [] then []
    else
      var last := ps[|ps| - 1];
      TypeParamsOf(ps[..|ps| - 1]) + (if last.Type? then [last.param] else [])
  }

  /** The identifiers of the type parameters of `ps`, in order. */
  function TypeParamIdents(ps: seq<GenericParam>): (r: seq<string>)
    ensures |r| <= |ps|
  {
    if ps == [] then []
    else
      var last := ps[|ps| - 1];
      TypeParamIdents(ps[..|ps| - 1]) + (if last.Type? then [last.param.ident] else [])
  }

  /** How many const parameters `ps` holds. */
  function ConstCount(ps: seq<GenericParam>): (n: nat)
    ensures n <= |ps|
  {
    if ps == [] then 0
    else ConstCount(ps[..|ps| - 1]) + (if ps[|ps| - 1].Const? then 1 else 0)
  }

  /** The indices of the entries of kind `k` in `ps`, in increasing order: an
      independent description of which entries a filter keeps. */
  function Positions(ps: seq<GenericParam>, k: Kind): (r: seq<nat>)
    ensures |r| <= |ps|
    ensures forall j :: 0 <= j < |r| ==> r[j] < |ps|
  {
    if ps == [] then []
    else Positions(ps[..|ps| - 1], k) + (if KindOf(ps[|ps| - 1]) == k then [|ps| - 1] else [])
  }

  /** `Positions` lists exactly the entries of kind `k`, each once, in order. */
  lemma {:induction false} PositionsExact(ps: seq<GenericParam>, k: Kind)
    ensures forall j :: 0 <= j < |Positions(ps, k)| ==> KindOf(ps[Positions(ps, k)[j]]) == k
    ensures forall j1, j2 :: 0 <= j1 < j2 < |Positions(ps, k)| ==> Positions(ps, k)[j1] < Positions(ps, k)[j2]
    ensures forall i :: 0 <= i < |ps| && KindOf(ps[i]) == k ==> i in Positions(ps, k)
  {
    if ps != [] {
      var init := ps[..|ps| - 1];
      PositionsExact(init, k);
      assert forall i :: 0 <= i < |init| ==> init[i] == ps[i];
    }
  }

  /** The i-th lifetime is the name of the entry at the i-th lifetime position. */
  lemma {:induction false} LifetimeNamesAt(ps: seq<GenericParam>)
    ensures |LifetimeNames(ps)| == |Positions(ps, LifetimeKind)|
    ensures forall j :: 0 <= j < |LifetimeNames(ps)| ==>
      ps[Positions(ps, LifetimeKind)[j]].Lifetime? && ps[Positions(ps, LifetimeKind)[j]].name == LifetimeNames(ps)[j]
  {
    if ps != [] {
      var init := ps[..|ps| - 1];
      LifetimeNamesAt(init);
      assert forall i :: 0 <= i < |init| ==> init[i] == ps[i];
    }
  }

  /** The i-th type parameter is the entry at the i-th type position. */
  lemma {:induction false} TypeParamsAt(ps: seq<GenericParam>)
    ensures |TypeParamsOf(ps)| == |Positions(ps, TypeKind)|
    ensures forall j :: 0 <= j < |TypeParamsOf(ps)| ==> ps[Positions(ps, TypeKind)[j]] == Type(TypeParamsOf(ps)[j])
  {
    if ps != [] {
      var init := ps[..|ps| - 1];
      TypeParamsAt(init);
      assert forall i :: 0 <= i < |init| ==> init[i] == ps[i];
    }
  }

  /** The identifiers `#[calls]` sees are those of the type parameters `contract!` sees. */
  lemma {:induction false} TypeParamIdentsOfTypeParams(ps: seq<GenericParam>)
    ensures |TypeParamIdents(ps)| == |TypeParamsOf(ps)|
    ensures forall j :: 0 <= j < |TypeParamIdents(ps)| ==> TypeParamIdents(ps)[j] == TypeParamsOf(ps)[j].ident
  {
    if ps != [] {
      TypeParamIdentsOfTypeParams(ps[..|ps| - 1]);
    }
  }

  /** Every entry is a lifetime, a type parameter or a const: the split loses only the consts. */
  lemma {:induction false} PartitionSizes(ps: seq<GenericParam>)
    ensures |LifetimeNames(ps)| + |TypeParamIdents(ps)| + ConstCount(ps) == |ps|
    ensures ConstCount(ps) == |Positions(ps, ConstKind)|
  {
    if ps != [] {
      PartitionSizes(ps[..|ps| - 1]);
    }
  }

  /** `extract_lifetimes_and_type_params`: one pass over the list, pushing each
      lifetime's name and each type parameter's identifier, skipping consts. */
  method ExtractLifetimesAndTypeParams(generics: seq<GenericParam>) returns (lifetimes: seq<string>, typeParams: seq<string>)
    ensures lifetimes == LifetimeNames(generics)
    ensures typeParams == TypeParamIdents(generics)
  {
    lifetimes, typeParams := [], [];
    for i := 0 to |generics|
      invariant lifetimes == LifetimeNames(generics[..i])
      invariant typeParams == TypeParamIdents(generics[..i])
    {
      assert generics[..i + 1][..i] == generics[..i];
      match generics[i]
      case Lifetime(name, _) => lifetimes := lifetimes + [name];
      case Type(param) => typeParams := typeParams + [param.ident];
      case Const(_, _) =>
    }
    assert generics[..|generics|] == generics;
  }

  /** `extract_type_params`: one pass over the list, keeping each type parameter
      whole (bounds included). */
  method ExtractTypeParams(generics: seq<GenericParam>) returns (typeParams: seq<TypeParam>)
    ensures typeParams == TypeParamsOf(generics)
  {
    typeParams := [];
    for i := 0 to |generics|
      invariant typeParams == TypeParamsOf(generics[..i])
    {
      assert generics[..i + 1][..i] == generics[..i];
      if generics[i].Type? {
        typeParams := typeParams + [generics[i].param];
      }
    }
    assert generics[..|generics|] == generics;
  }
}
