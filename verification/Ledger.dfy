/** Transactions, blocks, accounts, and the cryptographic and consensus functions they depend on. */
module Ledger {
  import opened Primitives
  import Trie

  datatype Transaction = Transaction(
    from: Address,
    to: Option<Address>,
    value: Word,
    data: Bytes,
    gasPrice: Word,
    gas: U64,
    nonce: U64,
    signature: Bytes,
    publicKey: Bytes)

  datatype Log = Log(address: Address, topics: seq<H256>, data: Bytes)

  datatype Receipt = Receipt(txHash: H256, blockNumber: U64, gasUsed: U64, status: bool, logs: seq<Log>)

  datatype Header = Header(
    number: U64,
    parentHash: H256,
    timestamp: U64,
    miner: Address,
    gasLimit: U64,
    gasUsed: U64,
    stateRoot: H256,
    transactionsRoot: H256,
    receiptsRoot: H256,
    difficulty: Word,
    extraData: Bytes)

  datatype Block = Block(header: Header, transactions: seq<Transaction>, receipts: seq<Receipt>)

  datatype Account = Account(nonce: U64, balance: Word, codeHash: H256, storageRoot: H256) {
    predicate IsEmpty() {
      nonce == 0 && balance == 0 && codeHash == ZERO_HASH && storageRoot == ZERO_HASH
    }
  }

  const EMPTY_ACCOUNT := Account(0, 0, ZERO_HASH, ZERO_HASH)

  /**
   What a contract call does: the slots it writes, in order, and how it ends. A trap keeps the
   writes made before it.
   */
  datatype VmRun =
    | Trap(writes: seq<(H256, Word)>)
    | Done(writes: seq<(H256, Word)>, gasLeft: U64, success: bool, logs: seq<Log>)

  datatype BlockError = GasExceeded | TxReceiptCountMismatch | InvalidTransactionsRoot | InvalidReceiptsRoot

  datatype ConsensusError = NotValidator | InvalidTimestamp | InvalidSeal

  /** Everything taken as given: digests, encodings, signatures, seals, and the contract interpreter. */
  datatype Env = Env(
    codec: Trie.Codec,
    accountBytes: Account -> Bytes,
    headerHash: Header -> H256,
    txHash: Transaction -> H256,
    transactionsRoot: seq<Transaction> -> H256,
    receiptsRoot: seq<Receipt> -> H256,
    createAddress: (Address, U64) -> Address,
    signatureOk: Transaction -> bool,
    isValidator: Address -> bool,
    sealOk: Header -> bool,
    vm: (Address, Bytes, map<H256, Word>, U64, Bytes) -> VmRun) {

    function Hash(b: Block): H256 {
      headerHash(b.header)
    }

    /** Proof-of-authority header check. */
    function ValidateHeader(header: Header, parent: Option<Header>): (r: Option<ConsensusError>) {
      if !isValidator(header.miner) then Some(NotValidator)
      else if parent.Some? && header.timestamp < parent.value.timestamp then Some(InvalidTimestamp)
      else if !sealOk(header) then Some(InvalidSeal)
      else None
    }

    /** Header fields that need no chain context, and the two list roots. */
    function ValidateBlock(b: Block): (r: Option<BlockError>) {
      if b.header.gasUsed > b.header.gasLimit then Some(GasExceeded)
      else if |b.transactions| != |b.receipts| then Some(TxReceiptCountMismatch)
      else if b.header.transactionsRoot != transactionsRoot(b.transactions) then Some(InvalidTransactionsRoot)
      else if b.header.receiptsRoot != receiptsRoot(b.receipts) then Some(InvalidReceiptsRoot)
      else None
    }
  }

  /** The body belongs to the header: lists of one length, with the roots the header claims. */
  ghost predicate Committed(env: Env, b: Block) {
    && |b.transactions| == |b.receipts|
    && b.header.transactionsRoot == env.transactionsRoot(b.transactions)
    && b.header.receiptsRoot == env.receiptsRoot(b.receipts)
  }

  /** The header was made by a validator, carries an accepted seal, and is not older than its parent. */
  ghost predicate Authorised(env: Env, header: Header, parent: Option<Header>) {
    && env.isValidator(header.miner) && env.sealOk(header)
    && (parent.Some? ==> parent.value.timestamp <= header.timestamp)
  }

  lemma BlockChecks(env: Env, b: Block)
    ensures env.ValidateBlock(b).None? <==> Committed(env, b) && b.header.gasUsed <= b.header.gasLimit
  {
  }

  lemma HeaderChecks(env: Env, header: Header, parent: Option<Header>)
    ensures env.ValidateHeader(header, parent).None? <==> Authorised(env, header, parent)
  {
  }
}
