/** The two procedural macros of the crate, on parsed values instead of token
    streams: `contract!` emits the wrapper struct and its constructor, and
    `#[calls(..)]`, attached to that struct, re-emits it with one method per call
    type. A macro either expands (`Success`) or reports one diagnostic (`Failure`). */
module Macros {
  import opened Wrappers
  import opened Generics
  import opened Naming

  datatype Visibility = Inherited | Public | Restricted(path: string)

  /** Where a diagnostic points: the end of the `contract!` input, or the generic
      parameter list of the struct given to `#[calls]`. */
  datatype Span = InputSpan | GenericsSpan

  datatype Diagnostic = Diagnostic(message: string, span: Span)

  const ContractArityMessage: string := "Expected exactly two type parameters, e.g., <T1, T2>"
  const LifetimeCountMessage: string := "Expected exactly two lifetimes in the struct definition"
  const TypeParamCountMessage: string := "Expected exactly two type parameters in the struct definition"

  /** The two lifetimes `contract!` injects: `'b` bounds the borrow of the EVM and
      `'a` is the EVM's own lifetime, with `'a: 'b`. */
  const Outer: string := "'b"
  const Inner: string := "'a"
  const DatabaseTrait: string := "revm::Database"

  /** An outer attribute: `#[calls(..)]` with its list of call types, or any
      other attribute, which the macros pass through as it is. */
  datatype Attribute = CallsAttr(types: seq<string>) | OtherAttr(text: string)

  /** What `contract!` parses: outer attributes, visibility, struct name, and
      the type parameters of its generic list. */
  datatype ContractInput = ContractInput(attrs: seq<Attribute>, vis: Visibility, name: string, typeParams: seq<TypeParam>)

  datatype WherePredicate =
    | Implements(ty: string, bound: string)
    | Outlives(longer: string, shorter: string)

  datatype FieldType =
    | EvmRef(outer: string, inner: string, ext: string, db: string)   // `&'b mut Evm<'a, EXT, DB>`
    | AddressType

  datatype Field = Field(name: string, ty: FieldType)

  datatype StructItem = StructItem(
    attrs: seq<Attribute>,
    vis: Visibility,
    name: string,
    generics: seq<GenericParam>,
    whereClause: seq<WherePredicate>,
    fields: seq<Field>)

  /** A function of an `impl` block: the constructor `new`, or the method
      generated for one call type. */
  datatype ImplFn = NewFn | CallFn(name: string, callType: string)

  datatype ImplBlock = ImplBlock(
    generics: seq<string>,
    selfType: string,
    whereClause: seq<WherePredicate>,
    fns: seq<ImplFn>)

  /** What a macro emits: a struct and an `impl` block for it. */
  datatype Expansion = Expansion(item: StructItem, impl: ImplBlock)

  /** The generic list `contract!` gives the struct: the two injected lifetimes,
      then the two caller's type parameters. */
  function ContractGenerics(tp1: TypeParam, tp2: TypeParam): (g: seq<GenericParam>)
    ensures Positions(g, LifetimeKind) == [0, 1] && Positions(g, TypeKind) == [2, 3]
    ensures g[0] == Lifetime(Outer, []) && g[1] == Lifetime(Inner, [])
    ensures LifetimeNames(g) == [Outer, Inner]
    ensures TypeParamsOf(g) == [tp1, tp2]
    ensures TypeParamIdents(g) == [tp1.ident, tp2.ident]
    ensures ConstCount(g) == 0
  {
    var g1 := [Lifetime(Outer, [])];
    var g2 := g1 + [Lifetime(Inner, [])];
    var g3 := g2 + [Type(tp1)];
    var g := g3 + [Type(tp2)];
    assert g1[..0] == [] && g2[..1] == g1 && g3[..2] == g2 && g[..3] == g3;
    assert LifetimeNames(g1) == [Outer] && TypeParamsOf(g1) == [] && TypeParamIdents(g1) == [] && ConstCount(g1) == 0;
    assert LifetimeNames(g2) == [Outer, Inner] && TypeParamsOf(g2) == [] && TypeParamIdents(g2) == [] && ConstCount(g2) == 0;
    assert LifetimeNames(g3) == [Outer, Inner] && TypeParamsOf(g3) == [tp1] && TypeParamIdents(g3) == [tp1.ident] && ConstCount(g3) == 0;
    assert Positions(g1, LifetimeKind) == [0] && Positions(g1, TypeKind) == [];
    assert Positions(g2, LifetimeKind) == [0, 1] && Positions(g2, TypeKind) == [];
    assert Positions(g3, LifetimeKind) == [0, 1] && Positions(g3, TypeKind) == [2];
    g
  }

  /** `contract!`: with exactly two type parameters, the struct named by the input
      (attributes and visibility passed through) holding `evm`, a `'b` borrow of an
      EVM over the two parameters, and `address`; the second parameter is bound by
      `revm::Database`; the `impl` holds the constructor. With any other number,
      only the diagnostic. */
  function Contract(input: ContractInput): (r: Result<Expansion, Diagnostic>)
    ensures r.Failure? <==> |input.typeParams| != 2
    ensures r.Failure? ==> r.error == Diagnostic(ContractArityMessage, InputSpan)
    ensures r.Success? ==>
      var item := r.value.item;
      && item.attrs == input.attrs && item.vis == input.vis && item.name == input.name
      && Positions(item.generics, LifetimeKind) == [0, 1] && Positions(item.generics, TypeKind) == [2, 3]
      && LifetimeNames(item.generics) == [Outer, Inner]
      && TypeParamsOf(item.generics) == input.typeParams
      && ConstCount(item.generics) == 0
      && item.whereClause == [Implements(input.typeParams[1].ident, DatabaseTrait), Outlives(Inner, Outer)]
      && item.fields == [Field("evm", EvmRef(Outer, Inner, input.typeParams[0].ident, input.typeParams[1].ident)),
                         Field("address", AddressType)]
      && r.value.impl.generics == [Outer, Inner, input.typeParams[0].ident, input.typeParams[1].ident]
      && r.value.impl.selfType == input.name
      && r.value.impl.whereClause == item.whereClause
      && r.value.impl.fns == [NewFn]
  {
    if |input.typeParams| != 2 then
      Failure(Diagnostic(ContractArityMessage, InputSpan))
    else
      var tp1, tp2 := input.typeParams[0], input.typeParams[1];
      var whereClause := [Implements(tp2.ident, DatabaseTrait), Outlives(Inner, Outer)];
      var item := StructItem(
        input.attrs, input.vis, input.name,
        ContractGenerics(tp1, tp2),
        whereClause,
        [Field("evm", EvmRef(Outer, Inner, tp1.ident, tp2.ident)), Field("address", AddressType)]);
      var impl := ImplBlock([Outer, Inner, tp1.ident, tp2.ident], input.name, whereClause, [NewFn]);
      Success(Expansion(item, impl))
  }

  /** The `Parse` implementation for `ContractInput`, past the token level: the
      type parameters are those `extract_type_params` finds in the generic list. */
  method ParseContractInput(attrs: seq<Attribute>, vis: Visibility, name: string, generics: seq<GenericParam>)
    returns (input: ContractInput)
    ensures input == ContractInput(attrs, vis, name, TypeParamsOf(generics))
  {
    var typeParams := ExtractTypeParams(generics);
    input := ContractInput(attrs, vis, name, typeParams);
  }

  /** The two count checks of `#[calls]`, in the order the macro makes them:
      the lifetime count first, so its error wins when both counts are wrong. */
  function CheckShape(lifetimes: seq<string>, typeParams: seq<string>): (r: Result<seq<string>, Diagnostic>)
    ensures r.Success? <==> |lifetimes| == 2 && |typeParams| == 2
    ensures |lifetimes| != 2 ==> r == Failure(Diagnostic(LifetimeCountMessage, GenericsSpan))
    ensures |lifetimes| == 2 && |typeParams| != 2 ==> r == Failure(Diagnostic(TypeParamCountMessage, GenericsSpan))
    ensures r.Success? ==> r.value == lifetimes + typeParams
  {
    if |lifetimes| != 2 then
      Failure(Diagnostic(LifetimeCountMessage, GenericsSpan))
    else if |typeParams| != 2 then
      Failure(Diagnostic(TypeParamCountMessage, GenericsSpan))
    else
      Success([lifetimes[0], lifetimes[1], typeParams[0], typeParams[1]])
  }

  /** The methods generated for `types`, one per call type, in order. */
  predicate GeneratesCallsFor(fns: seq<ImplFn>, types: seq<string>)
  {
    && |fns| == |types|
    && forall i :: 0 <= i < |types| ==> fns[i] == CallFn(MethodName(types[i]), types[i])
  }

  /** `#[calls(types)]` applied to `item`: when the struct's generic list holds
      exactly two lifetimes and two type parameters, the struct unchanged and an
      `impl` over those four parameters (the second type parameter bound by
      `revm::Database`) with one method per call type, in list order; otherwise
      only the first failing check's diagnostic, and no struct. */
  method Calls(item: StructItem, types: seq<string>) returns (r: Result<Expansion, Diagnostic>)
    ensures r.Failure? <==> |LifetimeNames(item.generics)| != 2 || |TypeParamIdents(item.generics)| != 2
    ensures |LifetimeNames(item.generics)| != 2 ==>
      r == Failure(Diagnostic(LifetimeCountMessage, GenericsSpan))
    ensures |LifetimeNames(item.generics)| == 2 && |TypeParamIdents(item.generics)| != 2 ==>
      r == Failure(Diagnostic(TypeParamCountMessage, GenericsSpan))
    ensures r.Success? ==>
      && r.value.item == item
      && r.value.impl.generics == LifetimeNames(item.generics) + TypeParamIdents(item.generics)
      && r.value.impl.selfType == item.name
      && r.value.impl.whereClause == [Implements(TypeParamIdents(item.generics)[1], DatabaseTrait)]
      && GeneratesCallsFor(r.value.impl.fns, types)
  {
    var lifetimes, typeParams := ExtractLifetimesAndTypeParams(item.generics);
    var shape := CheckShape(lifetimes, typeParams);
    if shape.Failure? {
      return Failure(shape.error);
    }
    var methods: seq<ImplFn> := [];
    for i := 0 to |types|
      invariant GeneratesCallsFor(methods, types[..i])
    {
      methods := methods + [CallFn(MethodName(types[i]), types[i])];
    }
    assert types[..|types|] == types;
    var impl := ImplBlock(shape.value, item.name, [Implements(typeParams[1], DatabaseTrait)], methods);
    r := Success(Expansion(item, impl));
  }

  /** Every struct `contract!` emits passes the shape checks of `#[calls]`, which
      sees the injected lifetimes and the caller's type parameters in order. */
  lemma ContractOutputFitsCalls(input: ContractInput)
    requires Contract(input).Success?
    ensures CheckShape(LifetimeNames(Contract(input).value.item.generics),
                       TypeParamIdents(Contract(input).value.item.generics))
            == Success([Outer, Inner, input.typeParams[0].ident, input.typeParams[1].ident])
  {
    var g := Contract(input).value.item.generics;
    TypeParamIdentsOfTypeParams(g);
    assert TypeParamIdents(g) == [input.typeParams[0].ident, input.typeParams[1].ident];
  }

  /** The index of the first `#[calls(..)]` attribute of `attrs`, if any. */
  function FirstCallsAttr(attrs: seq<Attribute>): (k: Option<nat>)
    ensures k.Some? ==>
      && k.value < |attrs| && attrs[k.value].CallsAttr?
      && forall j :: 0 <= j < k.value ==> !attrs[j].CallsAttr?
    ensures k.None? ==> forall j :: 0 <= j < |attrs| ==> !attrs[j].CallsAttr?
  {
    if attrs == [] then None
    else if attrs[0].CallsAttr? then Some(0)
    else
      match FirstCallsAttr(attrs[1..])
      case None => None
      case Some(k) => Some(k + 1)
  }

  /** A struct with the `impl` blocks emitted beside it. */
  datatype Declaration = Declaration(item: StructItem, impls: seq<ImplBlock>)

  /** A `contract!` declaration as the compiler expands it (the ERC-20 example
      writes `#[calls(..)]` inside `contract!`): `contract!` emits the struct,
      carrying the attributes through, and the `impl` with `new`; the first
      `#[calls(types)]` attribute on that struct is then expanded with the
      attribute itself removed from the struct it receives. Its `impl` with the
      call methods stands where the struct stood, before the `impl` with `new`. */
  method ExpandDeclaration(input: ContractInput) returns (r: Result<Declaration, Diagnostic>)
    ensures r.Failure? <==> |input.typeParams| != 2
    ensures r.Failure? ==> r.error == Diagnostic(ContractArityMessage, InputSpan)
    ensures r.Success? ==>
      && r.value.item == Contract(input).value.item.(attrs := r.value.item.attrs)
      && r.value.impls != []
      && r.value.impls[|r.value.impls| - 1] == Contract(input).value.impl
    ensures r.Success? && FirstCallsAttr(input.attrs).None? ==>
      && r.value.item.attrs == input.attrs
      && |r.value.impls| == 1
    ensures r.Success? && FirstCallsAttr(input.attrs).Some? ==>
      var k := FirstCallsAttr(input.attrs).value;
      && r.value.item.attrs == input.attrs[..k] + input.attrs[k + 1..]
      && |r.value.impls| == 2
      && r.value.impls[0].generics == [Outer, Inner, input.typeParams[0].ident, input.typeParams[1].ident]
      && r.value.impls[0].selfType == input.name
      && r.value.impls[0].whereClause == [Implements(input.typeParams[1].ident, DatabaseTrait)]
      && GeneratesCallsFor(r.value.impls[0].fns, input.attrs[k].types)
  {
    var contract := Contract(input);
    if contract.Failure? {
      return Failure(contract.error);
    }
    var item, newImpl := contract.value.item, contract.value.impl;
    var first := FirstCallsAttr(item.attrs);
    if first.None? {
      return Success(Declaration(item, [newImpl]));
    }
    var k := first.value;
    var received := item.(attrs := item.attrs[..k] + item.attrs[k + 1..]);
    assert received.generics == item.generics;
    ContractOutputFitsCalls(input);
    var calls := Calls(received, item.attrs[k].types);
    r := Success(Declaration(calls.value.item, [calls.value.impl, newImpl]));
  }
}
