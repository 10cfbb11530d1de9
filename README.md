# revm-contract, modelled in Dafny

`revm-contract` is a Rust procedural-macro crate. It generates typed wrappers for calling a
Solidity contract inside a local revm EVM. Two macros work together:

- `contract!(#[calls(A, B, ..)] pub Name<EXT, DB>)` emits a struct `Name<'b, 'a, EXT, DB>`.
  The struct holds `evm: &'b mut Evm<'a, EXT, DB>` and `address: Address`. The macro adds the
  bounds `DB: revm::Database` and `'a: 'b`, and a constructor `new`. It rejects any other number
  of type parameters than two.
- `#[calls(A, B, ..)]` is attached to that struct. It checks that the struct's generic list
  holds exactly two lifetimes and exactly two type parameters. It re-emits the struct and adds an
  `impl` block with one method per listed call type. The method for `balanceOfCall` is named
  `balance_of`: a trailing `Call` is dropped, and the rest is put in snake case.
- Each generated method takes the call and a transaction template. It fills in the template's
  payload with the ABI-encoded call. It sets the destination to the wrapper's address. It
  installs the result as the EVM's pending transaction and runs `transact`. An execution error is
  returned unchanged.

The model works on parsed values, not token streams:

- `wrappers.dfy`: `Option` and `Result` (`Success` for Rust's `Ok`, `Failure` for `Err`).
- `generics.dfy`: a generic parameter list as a sequence of `Lifetime | Type | Const` entries.
  It holds the two helpers that split such a list, as loops proved against specification
  functions. Lemmas say which entries those functions keep and in what order.
- `naming.dfy`: the `Call`-suffix strip and the snake-case conversion, with their properties.
- `macros.dfy`: `contract!` as a function and `#[calls]` as a method with its emission loop.
  Each yields an `Expansion` (a struct item plus an `impl` block) or a `Diagnostic`.
  `ExpandDeclaration` chains them as the compiler does for the ERC-20 example: the struct
  `contract!` emits goes to `#[calls]` without its `#[calls(..)]` attribute, and the result is
  the struct, the methods `impl` and the `impl` with `new`.
- `runtime.dfy`: what a generated method does at run time. An `Evm` class has a pending
  transaction, a database and an abstract `execute` function. A `ContractWrapper` class stands
  for the generated struct, and its `Invoke` method is the generated body.

The model keeps three behaviours of the code that a reader might not expect:

- When a shape check of `#[calls]` fails, the macro returns only the compile error. The struct
  is not re-emitted (src/lib.rs:90-107).
- A generated method wraps whatever `process_transact_result` returns in `Ok`. There is no
  separate decode-error path at this level (src/lib.rs:146).
- A call type named `Call` alone yields an empty method name. No check rejects it before
  `Ident::new`.

## Model

| member | source | states |
|---|---|---|
| Generics.ExtractLifetimesAndTypeParams | src/lib.rs:218-231 | the loop returns exactly the lifetime names and the type-parameter identifiers of the list, each in list order, with consts skipped |
| Generics.ExtractTypeParams | src/lib.rs:234-244 | the loop returns exactly the type parameters of the list (bounds included), in list order |
| Generics.TypeParamsOf | src/lib.rs:234-244 | the type parameters kept are never more than the entries of the list |
| Generics.PositionsExact | src/lib.rs:222-228 | the positions of one kind are exactly the indices of the entries of that kind, strictly increasing |
| Generics.LifetimeNamesAt | src/lib.rs:218-231 | the i-th lifetime returned is the name of the lifetime entry at the i-th lifetime position: an order-preserving subsequence holding every lifetime |
| Generics.TypeParamsAt | src/lib.rs:237-241 | the i-th type parameter returned is the type entry at the i-th type position: an order-preserving subsequence holding every type parameter |
| Generics.TypeParamIdentsOfTypeParams | src/lib.rs:225 | the identifiers `#[calls]` extracts are those of the type parameters `contract!` extracts, in the same order |
| Generics.PartitionSizes | src/lib.rs:222-228 | the number of lifetimes plus type parameters plus consts is the length of the list; only consts are dropped |
| Macros.ParseContractInput | src/lib.rs:181-203 | the parsed input carries attributes, visibility and name through, and its type parameters are those of the generic list |
| Macros.ContractGenerics | src/lib.rs:46 | the emitted generic list holds the lifetimes `'b`, `'a`, written without bounds, at positions 0 and 1, in that order, then the two type parameters in input order at positions 2 and 3, and no const |
| Macros.Contract | src/lib.rs:21-70 | fails with the arity diagnostic, and emits nothing, exactly when there are not two type parameters; otherwise emits the struct with the input's attributes, visibility and name, the lifetimes `'b`, `'a` first and then the first and second type parameters in that order, a where clause of exactly the `revm::Database` bound on the second and `'a: 'b`, the `evm` and `address` fields, and an `impl` over `'b`, `'a` and the two type parameters, with the same where clause, holding the constructor |
| Macros.CheckShape | src/lib.rs:89-107 | succeeds exactly when there are two lifetimes and two type parameters; a wrong lifetime count gives the lifetime diagnostic even when the type-parameter count is also wrong; the type-parameter diagnostic needs exactly two lifetimes |
| Macros.Calls | src/lib.rs:74-170 | fails exactly when the struct's generics are not two lifetimes and two type parameters, with the lifetime diagnostic taking precedence; on success re-emits the struct unchanged, with an `impl` over the two lifetimes and two type parameters in order, bounded by `revm::Database` on the second, and exactly one method per call type, the i-th method named after and taking the i-th type |
| Macros.ContractOutputFitsCalls | src/lib.rs:44-53 | every struct `contract!` emits passes both shape checks of `#[calls]`, which sees `'b`, `'a` and the caller's two type parameters in order |
| Macros.ExpandDeclaration | examples/main.rs:35-38 | a `contract!` declaration expands exactly when it has two type parameters; the struct is the one `contract!` emits, differing at most in its attributes, and the last `impl` is `contract!`'s `impl` with `new`; when the struct carries `#[calls(types)]`, that attribute is removed from the struct, the other attributes stay, and a first `impl` for the struct, over `'b`, `'a` and the two type parameters and bounded by `revm::Database` on the second, holds one method per listed call type, in order |
| Naming.StripCallSuffix | src/lib.rs:120-124 | for a name ending in `Call` the result followed by `Call` is the name; any other name is returned unchanged |
| Naming.StripAppendedSuffix | src/lib.rs:120-124 | stripping undoes appending `Call` |
| Naming.StripCallAlone | src/lib.rs:120-124 | the name `Call` alone strips to the empty string |
| Naming.SnakeCaseHasNoUpper | src/lib.rs:126 | the snake-case conversion leaves no upper-case letter |
| Naming.SnakeCaseOfNoUpper | src/lib.rs:126 | a name with no upper-case letter is returned unchanged by the conversion |
| Naming.SnakeCaseIdempotent | src/lib.rs:126 | converting twice gives the same as converting once |
| Naming.SnakeCaseOnlyInsertsUnderscores | src/lib.rs:126 | with underscores deleted, the converted name is the lowered name with underscores deleted: the conversion only lowers letters and inserts separators |
| Naming.SnakeCaseBalanceOf | src/lib.rs:126 | `balanceOf` converts to `balance_of` |
| Naming.SnakeCaseAcronym | src/lib.rs:126 | an upper-case run is one word: `getHTML` converts to `get_html` |
| Naming.MethodNameOfCallType | src/lib.rs:119-126 | the method for `<base>Call` is the snake case of `<base>`: the strip comes before the conversion |
| Naming.MethodNameHasNoUpper | src/lib.rs:119-126 | no generated method name holds an upper-case letter |
| Naming.MethodNameExamples | examples/main.rs:60-64 | `balanceOfCall`, `transferCall` and `allowanceCall` give `balance_of`, `transfer` and `allowance`; `Call` alone gives the empty name |
| Runtime.CallTx | src/lib.rs:136-139 | the transaction sent carries the encoded call as payload and the wrapper's address as destination, and agrees with the template on every other field |
| Runtime.CallTxIgnoresTemplateTarget | src/lib.rs:133-139 | the template's own payload and destination do not influence the transaction sent |
| Runtime.Dispatch | src/lib.rs:144-146 | the method fails exactly when `transact` fails, with the same error; otherwise its output is the processed outcome |
| Runtime.ContractWrapper.constructor | src/lib.rs:61-63 | `new` stores the given address and EVM borrow |
| Runtime.ContractWrapper.Invoke | src/lib.rs:134-147 | the EVM's pending transaction becomes the template with the encoded call and the wrapper's address as destination; nothing is committed to the database (see the Runtime.Evm.Transact line below), and the wrapper's address and its EVM are unchanged; an execution error is returned as it is |
| Runtime.EchoRoundTrip | src/lib.rs:136-146 | over an EVM that answers with the payload it received, the transaction goes to the wrapper's address whatever the template says, and decoding the answer gives back the call when decoding inverts encoding |

## Left out

- Token handling: the `Parse` implementations (src/lib.rs:181-215), the `quote!` templates and
  span handling. Inputs are modelled as parsed sequences and outputs as `Expansion` values. A
  parse error of the macro input is not modelled.
- The rendering of a call type to a string (src/lib.rs:116-117). A call type is modelled as a
  plain identifier. A path type such as `IERC20::balanceOfCall` renders with spaces and `::`.
- `Ident::new` validity (src/lib.rs:128). An empty or malformed method name, such as the one
  `Call` yields, makes that call panic. The model records the name as computed.
- Naming.ToSnakeCase: `heck`'s `to_snake_case` is library code whose source is not part of this
  model. It is modelled by a simple rule: put `_` before an ASCII upper-case letter that follows
  an ASCII lower-case letter or a digit, then lower every ASCII upper-case letter. `heck` also
  splits before the last letter of an upper-case run that is followed by a lower-case letter
  (`HTMLParser` becomes `html_parser`, where the rule gives `htmlparser`). It also treats
  underscores and other non-alphanumerics as separators and collapses them. In `heck` a digit
  keeps the case of the word it is in, so an upper-case letter after a digit that follows an
  upper-case letter does not start a word (`A1B` gives `a1b`, where the rule gives `a1_b`).
  `heck` also uses Unicode case (`fooÄbar` gives `foo_äbar`), where the rule changes only ASCII
  letters. The rule gives the same names as `heck` for the call types of the ERC-20 example
  (`balanceOf`, `transfer`, `allowance`).
- Macros.Contract: a type parameter with inline bounds (`B: Clone`) is emitted whole wherever
  the source writes it: in the `where` clause (giving `B: Clone: revm::Database`), in the type of
  the `evm` field (src/lib.rs:51), in the `impl`'s generic list and self type (src/lib.rs:55),
  and in the type of the constructor's EVM argument (src/lib.rs:61). The model keeps the bounds only in the
  struct's generic list and records the identifier everywhere else.
- ABI encoding (`abi_encode`), revm's `Evm::transact` and `types::process_transact_result`
  (the `types` module is not part of this model). They are the parameters `encode`, `execute`
  and `process`.
- Runtime.Evm.Transact: revm's `transact` does not commit state, so the model leaves the
  database unchanged. Caches a `CacheDB` fills while loading accounts are not modelled.
- Lifetimes, borrow exclusivity and the `revm::Database` trait bound
  (src/lib.rs:46-51). They are compile-time type-system facts. The model records them as data
  in the emitted struct and checks no borrow discipline.
- `TxEnv` fields for blobs and authorization lists. The model keeps the other fields, and the
  generated method carries all of them through unchanged.
- Macros.ExpandDeclaration: only the first `#[calls(..)]` attribute of a declaration is
  expanded. Any later one stays on the struct that `#[calls]` re-emits, where the compiler would
  expand it again; that second expansion is not modelled.
- src/main.rs and examples/main.rs: demo programs that build an HTTP RPC provider and a cached
  database under `tokio`, then print a balance. This is network I/O with no logic of its own.
