/** What the code `#[calls]` generates does when it runs: the wrapper struct that
    `contract!` declares holds a mutable borrow of a revm EVM and a contract
    address, and each generated method fills in the caller's transaction template,
    installs it as the EVM's pending transaction and runs it. The ABI encoding of a
    call, the EVM's execution and the processing of its outcome are parameters:
    their code is not part of this model. */
module Runtime {
  import opened Wrappers

  type Byte = bv8

  type Bytes = seq<Byte>

  type Address = a: Bytes | |a| == 20 witness seq(20, _ => 0 as Byte)

  /** Where a transaction goes: a contract creation, or a call to an address. */
  datatype TxKind = Create | Call(target: Address)

  /** revm's transaction environment. */
  datatype TxEnv = TxEnv(
    caller: Address,
    gasLimit: nat,
    gasPrice: nat,
    transactTo: TxKind,
    value: nat,
    data: Bytes,
    nonce: Option<nat>,
    chainId: Option<nat>,
    gasPriorityFee: Option<nat>,
    accessList: seq<(Address, seq<nat>)>)

  /** `a` and `b` agree on every field but the payload and the destination. */
  predicate SameSettings(a: TxEnv, b: TxEnv)
  {
    && a.caller == b.caller
    && a.gasLimit == b.gasLimit
    && a.gasPrice == b.gasPrice
    && a.value == b.value
    && a.nonce == b.nonce
    && a.chainId == b.chainId
    && a.gasPriorityFee == b.gasPriorityFee
    && a.accessList == b.accessList
  }

  /** The transaction a generated method sends: the caller's template with the
      encoded call as payload and the wrapper's address as destination, whatever
      the template held there; every other field is the template's. */
  function CallTx(template: TxEnv, payload: Bytes, target: Address): (tx: TxEnv)
    ensures tx.data == payload
    ensures tx.transactTo == Call(target)
    ensures SameSettings(tx, template)
  {
    template.(data := payload, transactTo := Call(target))
  }

  /** The template's own payload and destination have no influence: two templates
      with the same settings give the same transaction. */
  lemma CallTxIgnoresTemplateTarget(t1: TxEnv, t2: TxEnv, payload: Bytes, target: Address)
    requires SameSettings(t1, t2)
    ensures CallTx(t1, payload, target) == CallTx(t2, payload, target)
  {
  }

  /** The result of a generated method given the EVM's outcome: an execution error
      is returned as it is, a successful outcome is handed to `process`. */
  function Dispatch<Outcome, Error, Out>(outcome: Result<Outcome, Error>, process: Outcome -> Out): (r: Result<Out, Error>)
    ensures r.Failure? <==> outcome.Failure?
    ensures outcome.Failure? ==> r.error == outcome.error
    ensures outcome.Success? ==> r.value == process(outcome.value)
  {
    match outcome
    case Failure(e) => Failure(e)
    case Success(o) => Success(process(o))
  }

  /** A revm EVM, as far as the generated code uses it: a pending transaction
      that can be overwritten (`tx_mut`), a backing database, and `transact`, which
      runs the pending transaction against the database without committing. */
  class Evm<Db, Outcome, Error> {
    var tx: TxEnv
    var db: Db
    const execute: (TxEnv, Db) -> Result<Outcome, Error>

    constructor (tx: TxEnv, db: Db, execute: (TxEnv, Db) -> Result<Outcome, Error>)
      ensures this.tx == tx && this.db == db && this.execute == execute
    {
      this.tx := tx;
      this.db := db;
      this.execute := execute;
    }

    /** Runs the pending transaction; neither it nor the database changes. */
    method Transact() returns (r: Result<Outcome, Error>)
      ensures r == execute(tx, db)
    {
      r := execute(tx, db);
    }
  }

  /** The struct `contract!` declares (`Erc20Contract` in the ERC-20 example): a
      borrow of an EVM and the address of the contract it calls. */
  class ContractWrapper<Db, Outcome, Error> {
    var evm: Evm<Db, Outcome, Error>
    var address: Address

    /** The generated `new`. */
    constructor (address: Address, evm: Evm<Db, Outcome, Error>)
      ensures this.address == address && this.evm == evm
    {
      this.address := address;
      this.evm := evm;
    }

    /** The body of every method `#[calls]` generates, for the call `call` of some
        call type whose ABI encoding is `encode` and whose outcome is turned into
        the method's output by `process`. The EVM's pending transaction becomes the
        template with the encoded call as payload and this wrapper's address as
        destination; the database, the wrapper's address and its EVM are left as
        they were; an execution error is returned unchanged. */
    method Invoke<C, Out>(call: C, encode: C -> Bytes, process: Outcome -> Out, txEnv: TxEnv)
      returns (r: Result<Out, Error>)
      modifies evm
      ensures unchanged(this)
      ensures evm.tx == CallTx(txEnv, encode(call), address)
      ensures evm.db == old(evm.db)
      ensures r == Dispatch(evm.execute(evm.tx, evm.db), process)
    {
      var tx := txEnv;
      tx := tx.(data := encode(call));
      tx := tx.(transactTo := Call(address));
      evm.tx := tx;
      var outcome := evm.Transact();
      if outcome.Failure? {
        return Failure(outcome.error);
      }
      r := Success(process(outcome.value));
    }
  }

  /** A call through a wrapper over an EVM that answers every transaction with
      its own payload: whatever destination the template names, the transaction
      goes to the wrapper's address, and decoding the answer gives back the call. */
  method EchoRoundTrip<C>(call: C, encode: C -> Bytes, decode: Bytes -> C, template: TxEnv, address: Address)
    returns (r: Result<C, string>, sentTo: TxKind)
    requires forall x :: decode(encode(x)) == x
    ensures r == Success(call)
    ensures sentTo == Call(address)
  {
    var echo := (tx: TxEnv, db: ()) => Success(tx.data);
    var evm := new Evm(template, (), echo);
    var wrapper := new ContractWrapper(address, evm);
    r := wrapper.Invoke(call, encode, decode, template);
    sentTo := evm.tx.transactTo;
  }
}
