/**
 The block index and head rule of crates/ivory-chain/src/store.rs.

 The head, the height index and the transaction index are caches. `Inv` ties each of them to
 a plain definition over the stored blocks: the best block, its parent walk, and the
 transactions along that walk.
 */
module Store {
  import opened Primitives
  import opened Ledger
  import opened State
  import opened Execution

  datatype TxLocation = TxLocation(blockHash: H256, blockNumber: nat, index: nat)

  datatype ChainError =
    | BlockInvalid(block: BlockError)
    | Consensus(consensus: ConsensusError)
    | UnknownParent
    | DuplicateBlock
    | InvalidBlockNumber(expected: U64, got: U64)
    | InvalidGenesis
    | ExecutionFailed(execution: ExecutionError)
    | InvalidStateRoot
    | UnknownParentState

  datatype InsertOutcome = InsertOutcome(
    hash: H256,
    oldHead: Option<H256>,
    newHead: H256,
    ancestor: H256,
    headChanged: bool)

  type Blocks = map<H256, Block>

  datatype View = View(
    byHash: Blocks,
    byNumber: map<nat, H256>,
    head: Option<H256>,
    snapshots: map<H256, World>,
    txIndex: map<H256, TxLocation>)

  const EMPTY_VIEW := View(map[], map[], None, map[], map[])

  // ----- The parent walk

  ghost predicate ParentStored(blocks: Blocks, h: H256) {
    h in blocks && blocks[h].header.number > 0 ==>
      && blocks[h].header.parentHash in blocks
      && blocks[blocks[h].header.parentHash].header.number + 1 == blocks[h].header.number
  }

  /** Every block above height zero has its parent in the store, one height below. */
  ghost predicate Linked(blocks: Blocks) {
    forall h {:trigger ParentStored(blocks, h)} :: ParentStored(blocks, h)
  }

  ghost predicate Keyed(env: Env, blocks: Blocks) {
    forall h :: h in blocks ==> env.Hash(blocks[h]) == h
  }

  /** Hashes from a height-zero block to `h`. */
  ghost function Path(blocks: Blocks, h: H256): (p: seq<H256>)
    requires Linked(blocks) && h in blocks
    decreases blocks[h].header.number
  {
    assert ParentStored(blocks, h);
    (if blocks[h].header.number == 0 then [] else Path(blocks, blocks[h].header.parentHash)) + [h]
  }

  /** The same for any hash: an unknown one has no walk. */
  ghost function Walk(blocks: Blocks, h: H256): seq<H256>
    requires Linked(blocks)
  {
    if h in blocks then Path(blocks, h) else []
  }

  lemma {:induction false} PathShape(blocks: Blocks, h: H256)
    requires Linked(blocks) && h in blocks
    ensures var p := Path(blocks, h);
            && |p| == blocks[h].header.number + 1
            && p[|p| - 1] == h
            && (forall i :: 0 <= i < |p| ==> p[i] in blocks && blocks[p[i]].header.number == i)
            && (forall i :: 0 < i < |p| ==> blocks[p[i]].header.parentHash == p[i - 1])
    decreases blocks[h].header.number
  {
    assert ParentStored(blocks, h);
    if blocks[h].header.number > 0 {
      PathShape(blocks, blocks[h].header.parentHash);
    }
  }

  /** The walk from a block on a walk is the initial part of that walk. */
  lemma {:induction false} PathPrefix(blocks: Blocks, h: H256, i: nat)
    requires Linked(blocks) && h in blocks && i < |Path(blocks, h)|
    ensures Path(blocks, h)[i] in blocks && Path(blocks, Path(blocks, h)[i]) == Path(blocks, h)[..i + 1]
    decreases blocks[h].header.number
  {
    PathShape(blocks, h);
    assert ParentStored(blocks, h);
    var p := Path(blocks, h);
    if i + 1 < |p| {
      var parent := blocks[h].header.parentHash;
      PathPrefix(blocks, parent, i);
      assert p[..i + 1] == Path(blocks, parent)[..i + 1];
    } else {
      assert p[..i + 1] == p;
    }
  }

  ghost predicate SameHeaders(blocks: Blocks, blocks': Blocks) {
    forall h :: h in blocks ==> h in blocks' && blocks'[h].header == blocks[h].header
  }

  /** Adding blocks or dropping bodies does not change a walk. */
  lemma {:induction false} PathFrame(blocks: Blocks, blocks': Blocks, h: H256)
    requires Linked(blocks) && Linked(blocks') && SameHeaders(blocks, blocks') && h in blocks
    ensures Path(blocks', h) == Path(blocks, h)
    decreases blocks[h].header.number
  {
    assert ParentStored(blocks, h) && ParentStored(blocks', h);
    if blocks[h].header.number > 0 {
      PathFrame(blocks, blocks', blocks[h].header.parentHash);
    }
  }

  /** Two walks that meet at some height agree on everything below it. */
  lemma PathsAgreeBelow(blocks: Blocks, a: H256, b: H256, k: nat)
    requires Linked(blocks) && a in blocks && b in blocks
    requires k < |Path(blocks, a)| && k < |Path(blocks, b)| && Path(blocks, a)[k] == Path(blocks, b)[k]
    ensures Path(blocks, a)[..k + 1] == Path(blocks, b)[..k + 1]
  {
    PathPrefix(blocks, a, k);
    PathPrefix(blocks, b, k);
  }

  // ----- A stored run of blocks

  /** `blocks` holds exactly the first `k + 1` blocks of `chain`. */
  ghost predicate HoldsPrefix(env: Env, chain: seq<Block>, k: nat, blocks: Blocks)
    requires k < |chain|
  {
    && (forall i :: 0 <= i <= k ==> env.Hash(chain[i]) in blocks && blocks[env.Hash(chain[i])] == chain[i])
    && (forall h :: h in blocks ==> exists i :: 0 <= i <= k && h == env.Hash(chain[i]))
  }

  /** `blocks` holds exactly the first `k + 1` blocks of `chain`, perhaps without their bodies. */
  ghost predicate HoldsHeaders(env: Env, chain: seq<Block>, k: nat, blocks: Blocks)
    requires k < |chain|
  {
    && (forall i :: 0 <= i <= k ==>
      env.Hash(chain[i]) in blocks && blocks[env.Hash(chain[i])].header == chain[i].header)
    && (forall h :: h in blocks ==> exists i :: 0 <= i <= k && h == env.Hash(chain[i]))
  }

  lemma HoldsGrows(env: Env, chain: seq<Block>, blocks: Blocks, k: nat)
    requires k + 1 < |chain| && HoldsPrefix(env, chain, k, blocks)
    requires forall i :: 0 <= i <= k ==> env.Hash(chain[i]) != env.Hash(chain[k + 1])
    ensures HoldsPrefix(env, chain, k + 1, blocks[env.Hash(chain[k + 1]) := chain[k + 1]])
  {
  }

  /** Block `i` sits on block `i - 1`. */
  ghost predicate Follows(env: Env, chain: seq<Block>, i: nat)
    requires 0 < i < |chain|
  {
    chain[i].header.number == i && chain[i].header.parentHash == env.Hash(chain[i - 1])
  }

  /** The walk to block `i` of a stored run lists the run. */
  lemma {:induction false} PrefixOnPath(env: Env, chain: seq<Block>, blocks: Blocks, k: nat, i: nat)
    requires i <= k < |chain| && Linked(blocks) && HoldsHeaders(env, chain, k, blocks)
    requires chain[0].header.number == 0
    requires forall n {:trigger Follows(env, chain, n)} :: 0 < n <= k ==> Follows(env, chain, n)
    ensures Path(blocks, env.Hash(chain[i])) == seq(i + 1, n requires 0 <= n <= i => env.Hash(chain[n]))
  {
    if i > 0 {
      assert Follows(env, chain, i);
      PrefixOnPath(env, chain, blocks, k, i - 1);
    }
  }

  // ----- The head rule

  ghost predicate Beats(blocks: Blocks, a: H256, b: H256)
    requires a in blocks && b in blocks
  {
    || blocks[a].header.number > blocks[b].header.number
    || (blocks[a].header.number == blocks[b].header.number && a < b)
  }

  /** Greatest height, then smallest hash. */
  ghost predicate Best(blocks: Blocks, h: H256) {
    h in blocks && forall k :: k in blocks && k != h ==> Beats(blocks, h, k)
  }

  lemma BestUnique(blocks: Blocks, a: H256, b: H256)
    requires Best(blocks, a) && Best(blocks, b)
    ensures a == b
  {
  }

  ghost function HeightIndex(path: seq<H256>): map<nat, H256> {
    map n | 0 <= n < |path| :: path[n]
  }

  // ----- The transaction index

  ghost function IndexBlock(env: Env, hash: H256, number: nat, txs: seq<Transaction>, n: nat): map<H256, TxLocation>
    requires n <= |txs|
  {
    if n == 0 then map[]
    else IndexBlock(env, hash, number, txs, n - 1)[env.txHash(txs[n - 1]) := TxLocation(hash, number, n - 1)]
  }

  ghost function IndexPath(env: Env, blocks: Blocks, path: seq<H256>, n: nat): map<H256, TxLocation>
    requires n <= |path| && forall i :: 0 <= i < |path| ==> path[i] in blocks
  {
    if n == 0 then map[]
    else
      var txs := blocks[path[n - 1]].transactions;
      IndexPath(env, blocks, path, n - 1) + IndexBlock(env, path[n - 1], n - 1, txs, |txs|)
  }

  /** All transactions on the walk to `tip`. */
  ghost function FullIndex(env: Env, blocks: Blocks, tip: H256): map<H256, TxLocation>
    requires Linked(blocks) && tip in blocks
  {
    PathShape(blocks, tip);
    IndexPath(env, blocks, Path(blocks, tip), |Path(blocks, tip)|)
  }

  /** The indexed position lies on the walk, and if its body is still there it holds a transaction with that hash. */
  ghost predicate PointsRight(env: Env, blocks: Blocks, path: seq<H256>, h: H256, loc: TxLocation) {
    && loc.blockNumber < |path| && path[loc.blockNumber] == loc.blockHash && loc.blockHash in blocks
    && (loc.index < |blocks[loc.blockHash].transactions| ==>
          env.txHash(blocks[loc.blockHash].transactions[loc.index]) == h)
  }

  /**
   A transaction with hash `h` seen at height `n` is indexed at height `n` or above, in a body that
   is still there.
   */
  ghost predicate Finds(blocks: Blocks, idx: map<H256, TxLocation>, h: H256, n: nat) {
    && h in idx && n <= idx[h].blockNumber
    && idx[h].blockHash in blocks && idx[h].index < |blocks[idx[h].blockHash].transactions|
  }

  ghost predicate IndexSound(env: Env, blocks: Blocks, path: seq<H256>, idx: map<H256, TxLocation>) {
    forall h :: h in idx ==> PointsRight(env, blocks, path, h, idx[h])
  }

  ghost predicate IndexComplete(env: Env, blocks: Blocks, path: seq<H256>, n: nat, idx: map<H256, TxLocation>)
    requires n <= |path|
  {
    forall j, i :: 0 <= j < n && path[j] in blocks && 0 <= i < |blocks[path[j]].transactions| ==>
      Finds(blocks, idx, env.txHash(blocks[path[j]].transactions[i]), j)
  }

  lemma {:induction false} IndexBlockRight(env: Env, hash: H256, number: nat, txs: seq<Transaction>, n: nat)
    requires n <= |txs|
    ensures var idx := IndexBlock(env, hash, number, txs, n);
            && (forall h :: h in idx ==> idx[h].blockHash == hash && idx[h].blockNumber == number
                                         && idx[h].index < n && env.txHash(txs[idx[h].index]) == h)
            && (forall i :: 0 <= i < n ==> env.txHash(txs[i]) in idx)
  {
    if n > 0 {
      IndexBlockRight(env, hash, number, txs, n - 1);
    }
  }

  lemma {:induction false} IndexPathRight(env: Env, blocks: Blocks, path: seq<H256>, n: nat)
    requires n <= |path| && forall i :: 0 <= i < |path| ==> path[i] in blocks
    ensures IndexSound(env, blocks, path, IndexPath(env, blocks, path, n))
    ensures IndexComplete(env, blocks, path, n, IndexPath(env, blocks, path, n))
  {
    if n > 0 {
      IndexPathRight(env, blocks, path, n - 1);
      var txs := blocks[path[n - 1]].transactions;
      IndexBlockRight(env, path[n - 1], n - 1, txs, |txs|);
    }
  }

  // ----- The invariant

  ghost predicate Inv(env: Env, v: View) {
    && Linked(v.byHash) && Keyed(env, v.byHash)
    && (v.head.None? ==> v.byHash == map[] && v.byNumber == map[] && v.txIndex == map[])
    && (v.head.Some? ==>
          && Best(v.byHash, v.head.value)
          && v.byNumber == HeightIndex(Path(v.byHash, v.head.value))
          && IndexSound(env, v.byHash, Path(v.byHash, v.head.value), v.txIndex)
          && IndexComplete(env, v.byHash, Path(v.byHash, v.head.value), |Path(v.byHash, v.head.value)|, v.txIndex))
  }

  /** The head rule in plain numbers: no stored block is higher, and of those as high the head has the smallest hash. */
  lemma HeadRule(env: Env, v: View, h: H256)
    requires Inv(env, v) && h in v.byHash
    ensures v.head.Some? && v.head.value in v.byHash
    ensures var top := v.byHash[v.head.value].header.number;
            v.byHash[h].header.number < top || (v.byHash[h].header.number == top && v.head.value <= h)
  {
    hide Path, IndexSound, IndexComplete, HeightIndex;
  }

  /** The height index in plain terms: one stored block per height up to the head's, each the parent of the next. */
  lemma HeightRule(env: Env, v: View, n: nat)
    requires Inv(env, v) && v.head.Some?
    ensures v.head.value in v.byHash && (n in v.byNumber <==> n <= v.byHash[v.head.value].header.number)
    ensures n in v.byNumber ==> v.byNumber[n] in v.byHash && v.byHash[v.byNumber[n]].header.number == n
    ensures n + 1 in v.byNumber ==>
              n in v.byNumber && v.byNumber[n + 1] in v.byHash
              && v.byHash[v.byNumber[n + 1]].header.parentHash == v.byNumber[n]
    ensures Get(v.byNumber, v.byHash[v.head.value].header.number) == v.head
  {
    hide Path, IndexSound, IndexComplete;
    PathShape(v.byHash, v.head.value);
  }

  // ----- Inserting

  function GenesisError(env: Env, blocks: Blocks, b: Block): (r: Option<ChainError>) {
    if b.header.number != 0 || b.header.parentHash != ZERO_HASH then Some(InvalidGenesis)
    else
      match env.ValidateHeader(b.header, None)
      case Some(e) => Some(Consensus(e))
      case None =>
        match env.ValidateBlock(b)
        case Some(e) => Some(BlockInvalid(e))
        case None => if env.Hash(b) in blocks then Some(DuplicateBlock) else None
  }

  /** Parent, number and consensus checks shared by blocks and bare headers. */
  function HeaderError(env: Env, blocks: Blocks, header: Header): (r: Option<ChainError>) {
    if header.parentHash !in blocks then Some(UnknownParent)
    else
      var parent := blocks[header.parentHash].header;
      var expected := SaturatingAdd64(parent.number, 1);
      if header.number != expected then Some(InvalidBlockNumber(expected, header.number))
      else
        match env.ValidateHeader(header, Some(parent))
        case Some(e) => Some(Consensus(e))
        case None => None
  }

  /** Why `b` is refused, if it is. */
  function InsertError(env: Env, blocks: Blocks, b: Block): (r: Option<ChainError>) {
    if b.header.number == 0 then GenesisError(env, blocks, b)
    else
      match HeaderError(env, blocks, b.header)
      case Some(e) => Some(e)
      case None =>
        match env.ValidateBlock(b)
        case Some(e) => Some(BlockInvalid(e))
        case None => if env.Hash(b) in blocks then Some(DuplicateBlock) else None
  }

  /** Why a bare header is refused, if it is. */
  function BareHeaderError(env: Env, blocks: Blocks, header: Header): (r: Option<ChainError>) {
    if header.number == 0 then Some(InvalidGenesis)
    else
      match HeaderError(env, blocks, header)
      case Some(e) => Some(e)
      case None => if env.headerHash(header) in blocks then Some(DuplicateBlock) else None
  }

  /** What a block above genesis must satisfy to be accepted, in terms of its fields and its parent's. */
  ghost predicate Acceptable(env: Env, blocks: Blocks, b: Block) {
    && b.header.parentHash in blocks && env.Hash(b) !in blocks
    && var parent := blocks[b.header.parentHash].header;
    && b.header.number == (if parent.number == U64_MAX then U64_MAX else parent.number + 1)
    && Authorised(env, b.header, Some(parent))
    && b.header.gasUsed <= b.header.gasLimit && Committed(env, b)
  }

  lemma AcceptedIff(env: Env, blocks: Blocks, b: Block)
    requires b.header.number > 0
    ensures InsertError(env, blocks, b).None? <==> Acceptable(env, blocks, b)
  {
    hide Env.ValidateBlock, Env.ValidateHeader, Committed, Authorised;
    BlockChecks(env, b);
    if b.header.parentHash in blocks {
      HeaderChecks(env, b.header, Some(blocks[b.header.parentHash].header));
    }
  }

  lemma GenesisIff(env: Env, blocks: Blocks, b: Block)
    ensures GenesisError(env, blocks, b).None? <==>
              && b.header.number == 0 && b.header.parentHash == ZERO_HASH && env.Hash(b) !in blocks
              && Authorised(env, b.header, None) && b.header.gasUsed <= b.header.gasLimit && Committed(env, b)
  {
    hide Env.ValidateBlock, Env.ValidateHeader, Committed, Authorised;
    BlockChecks(env, b);
    HeaderChecks(env, b.header, None);
  }

  lemma BareHeaderIff(env: Env, blocks: Blocks, header: Header)
    ensures BareHeaderError(env, blocks, header).None? <==>
              && header.number > 0 && header.parentHash in blocks && env.headerHash(header) !in blocks
              && var parent := blocks[header.parentHash].header;
              && header.number == (if parent.number == U64_MAX then U64_MAX else parent.number + 1)
              && Authorised(env, header, Some(parent))
  {
    hide Env.ValidateHeader, Authorised;
    if header.parentHash in blocks {
      HeaderChecks(env, header, Some(blocks[header.parentHash].header));
    }
  }

  /** A refusal names the first check that fails: parent, number, consensus, body, novelty. */
  lemma InsertReason(env: Env, blocks: Blocks, b: Block)
    requires b.header.number > 0 && !Acceptable(env, blocks, b)
    ensures var e := InsertError(env, blocks, b);
            if b.header.parentHash !in blocks then e == Some(UnknownParent)
            else
              var parent := blocks[b.header.parentHash].header;
              var expected: U64 := if parent.number == U64_MAX then U64_MAX else parent.number + 1;
              if b.header.number != expected then e == Some(InvalidBlockNumber(expected, b.header.number))
              else if !env.isValidator(b.header.miner) then e == Some(Consensus(NotValidator))
              else if b.header.timestamp < parent.timestamp then e == Some(Consensus(InvalidTimestamp))
              else if !env.sealOk(b.header) then e == Some(Consensus(InvalidSeal))
              else if b.header.gasUsed > b.header.gasLimit then e == Some(BlockInvalid(GasExceeded))
              else if |b.transactions| != |b.receipts| then e == Some(BlockInvalid(TxReceiptCountMismatch))
              else if b.header.transactionsRoot != env.transactionsRoot(b.transactions)
                then e == Some(BlockInvalid(InvalidTransactionsRoot))
              else if b.header.receiptsRoot != env.receiptsRoot(b.receipts)
                then e == Some(BlockInvalid(InvalidReceiptsRoot))
              else e == Some(DuplicateBlock)
  {
  }

  /** `b` hangs below a stored parent and is new. The parent is not at the top height, where numbers saturate. */
  ghost predicate Fits(env: Env, blocks: Blocks, b: Block) {
    && env.Hash(b) !in blocks
    && (b.header.number > 0 ==>
          && b.header.parentHash in blocks
          && blocks[b.header.parentHash].header.number + 1 == b.header.number)
  }

  /**
   Heights grow strictly exactly below the largest 64-bit number. There the saturating expected
   number accepts a child at its parent's own height, and the parent walk is no longer linked.
   */
  lemma HeightCap(env: Env, blocks: Blocks, b: Block)
    requires Linked(blocks) && InsertError(env, blocks, b).None? && b.header.number > 0
    ensures b.header.parentHash in blocks
    ensures Fits(env, blocks, b) <==> blocks[b.header.parentHash].header.number < U64_MAX
    ensures Linked(Extended(env, blocks, b)) <==> blocks[b.header.parentHash].header.number < U64_MAX
  {
    hide Env.ValidateBlock, Env.ValidateHeader;
    if blocks[b.header.parentHash].header.number < U64_MAX {
      LinkedGrows(blocks, env.Hash(b), b);
    } else {
      assert !ParentStored(Extended(env, blocks, b), env.Hash(b));
    }
  }

  ghost function Extended(env: Env, blocks: Blocks, b: Block): Blocks {
    blocks[env.Hash(b) := b]
  }

  lemma ExtendedLinked(env: Env, blocks: Blocks, b: Block)
    requires Linked(blocks) && Keyed(env, blocks) && Fits(env, blocks, b)
    ensures Linked(Extended(env, blocks, b)) && Keyed(env, Extended(env, blocks, b))
    ensures SameHeaders(blocks, Extended(env, blocks, b))
  {
    LinkedGrows(blocks, env.Hash(b), b);
  }

  lemma LinkedGrows(blocks: Blocks, h: H256, b: Block)
    requires Linked(blocks) && h !in blocks
    requires b.header.number > 0 ==>
               && b.header.parentHash in blocks
               && blocks[b.header.parentHash].header.number + 1 == b.header.number
    ensures Linked(blocks[h := b])
  {
    var grown := blocks[h := b];
    forall k
      ensures ParentStored(grown, k)
    {
      assert ParentStored(blocks, k);
    }
  }

  ghost predicate Takes(env: Env, v: View, b: Block)
    requires Fits(env, v.byHash, b) && (v.head.Some? ==> v.head.value in v.byHash)
  {
    v.head.None? || Beats(Extended(env, v.byHash, b), env.Hash(b), v.head.value)
  }

  /** The store after `b` went in. */
  ghost function Inserted(env: Env, v: View, b: Block): View
    requires Inv(env, v) && Fits(env, v.byHash, b)
  {
    ExtendedLinked(env, v.byHash, b);
    var blocks := Extended(env, v.byHash, b);
    if Takes(env, v, b) then
      var h := env.Hash(b);
      View(blocks, HeightIndex(Path(blocks, h)), Some(h), v.snapshots, FullIndex(env, blocks, h))
    else v.(byHash := blocks)
  }

  /** Fork choice: after any insertion the head is the best block and every index describes its walk. */
  lemma InsertedInv(env: Env, v: View, b: Block)
    requires Inv(env, v) && Fits(env, v.byHash, b)
    ensures Inv(env, Inserted(env, v, b))
  {
    ExtendedLinked(env, v.byHash, b);
    var blocks, h := Extended(env, v.byHash, b), env.Hash(b);
    if Takes(env, v, b) {
      InsertedTakes(env, v, b);
    } else {
      PathFrame(v.byHash, blocks, v.head.value);
      PathShape(v.byHash, v.head.value);
      IndexFrame(env, v.byHash, blocks, Path(v.byHash, v.head.value), v.txIndex);
    }
  }

  lemma InsertedTakes(env: Env, v: View, b: Block)
    requires Inv(env, v) && Fits(env, v.byHash, b) && Takes(env, v, b)
    ensures Inv(env, Inserted(env, v, b))
  {
    hide Path, IndexPath, IndexSound, IndexComplete;
    ExtendedLinked(env, v.byHash, b);
    var blocks, h := Extended(env, v.byHash, b), env.Hash(b);
    var path := Path(blocks, h);
    PathShape(blocks, h);
    IndexPathRight(env, blocks, path, |path|);
    assert Best(blocks, h);
  }

  lemma IndexFrame(env: Env, blocks: Blocks, blocks': Blocks, path: seq<H256>, idx: map<H256, TxLocation>)
    requires forall h :: h in blocks ==> h in blocks' && blocks'[h] == blocks[h]
    requires forall i :: 0 <= i < |path| ==> path[i] in blocks
    requires IndexSound(env, blocks, path, idx) && IndexComplete(env, blocks, path, |path|, idx)
    ensures IndexSound(env, blocks', path, idx) && IndexComplete(env, blocks', path, |path|, idx)
  {
  }

  // ----- Dropping bodies

  ghost function Dropped(blocks: Blocks, keepFrom: nat): Blocks {
    map h | h in blocks :: if blocks[h].header.number < keepFrom then Block(blocks[h].header, [], []) else blocks[h]
  }

  /** Dropping bodies keeps the whole invariant, so retained transactions stay findable. */
  lemma DroppedInv(env: Env, v: View, keepFrom: nat)
    requires Inv(env, v)
    ensures Inv(env, v.(byHash := Dropped(v.byHash, keepFrom)))
  {
    var blocks := Dropped(v.byHash, keepFrom);
    forall h
      ensures ParentStored(blocks, h)
    {
      assert ParentStored(v.byHash, h);
    }
    if v.head.Some? {
      PathFrame(v.byHash, blocks, v.head.value);
      PathShape(v.byHash, v.head.value);
      DroppedIndex(env, v.byHash, keepFrom, Path(v.byHash, v.head.value), v.txIndex);
    }
  }

  lemma DroppedIndex(env: Env, blocks: Blocks, keepFrom: nat, path: seq<H256>, idx: map<H256, TxLocation>)
    requires forall i :: 0 <= i < |path| ==> path[i] in blocks && blocks[path[i]].header.number == i
    requires IndexSound(env, blocks, path, idx) && IndexComplete(env, blocks, path, |path|, idx)
    ensures IndexSound(env, Dropped(blocks, keepFrom), path, idx)
    ensures IndexComplete(env, Dropped(blocks, keepFrom), path, |path|, idx)
  {
    var blocks' := Dropped(blocks, keepFrom);
    forall j, i | 0 <= j < |path| && path[j] in blocks' && 0 <= i < |blocks'[path[j]].transactions|
      ensures Finds(blocks', idx, env.txHash(blocks'[path[j]].transactions[i]), j)
    {
      var h := env.txHash(blocks[path[j]].transactions[i]);
      assert Finds(blocks, idx, h, j);
      assert PointsRight(env, blocks, path, h, idx[h]);
    }
  }

  // ----- Convergence of insertion orders

  /** The store after inserting `bs` in order into an empty store, if all of them are accepted. */
  ghost function Run(env: Env, bs: seq<Block>): (r: Option<View>)
    ensures r.Some? ==> Inv(env, r.value)
  {
    if bs == [] then Some(EMPTY_VIEW)
    else
      var n := |bs| - 1;
      match Run(env, bs[..n])
      case None => None
      case Some(v) =>
        if InsertError(env, v.byHash, bs[n]).None? && Fits(env, v.byHash, bs[n]) then
          InsertedInv(env, v, bs[n]);
          Some(Inserted(env, v, bs[n]))
        else None
  }

  /** `blocks` holds exactly the blocks of `bs`, and no two of them share a hash. */
  ghost predicate Holds(env: Env, blocks: Blocks, bs: seq<Block>) {
    && (forall i :: 0 <= i < |bs| ==> env.Hash(bs[i]) in blocks && blocks[env.Hash(bs[i])] == bs[i])
    && (forall h :: h in blocks ==> blocks[h] in bs && env.Hash(blocks[h]) == h)
  }

  lemma {:induction false} RunHolds(env: Env, bs: seq<Block>)
    requires Run(env, bs).Some?
    ensures Holds(env, Run(env, bs).value.byHash, bs) && Run(env, bs).value.snapshots == map[]
  {
    hide Inv, InsertError;
    if bs != [] {
      var n := |bs| - 1;
      RunHolds(env, bs[..n]);
      var v := Run(env, bs[..n]).value;
      InsertedBlocks(env, v, bs[n]);
      assert bs == bs[..n] + [bs[n]];
    }
  }

  lemma InsertedBlocks(env: Env, v: View, b: Block)
    requires Inv(env, v) && Fits(env, v.byHash, b)
    ensures Inserted(env, v, b).byHash == v.byHash[env.Hash(b) := b]
    ensures Inserted(env, v, b).snapshots == v.snapshots
  {
    hide Inv, Path;
  }

  /** Without pruning the transaction index is the full index of the head's walk. */
  ghost predicate Exact(env: Env, v: View)
    requires Inv(env, v)
  {
    v.head.Some? ==> v.txIndex == FullIndex(env, v.byHash, v.head.value)
  }

  lemma {:induction false} RunExact(env: Env, bs: seq<Block>)
    requires Run(env, bs).Some?
    ensures Exact(env, Run(env, bs).value)
  {
    if bs != [] {
      var n := |bs| - 1;
      var v := Run(env, bs[..n]).value;
      RunExact(env, bs[..n]);
      InsertedExact(env, v, bs[n]);
    }
  }

  lemma InsertedExact(env: Env, v: View, b: Block)
    requires Inv(env, v) && Fits(env, v.byHash, b) && Exact(env, v)
    ensures Inv(env, Inserted(env, v, b)) && Exact(env, Inserted(env, v, b))
  {
    hide IndexPath, IndexSound, IndexComplete, HeightIndex, Path;
    InsertedInv(env, v, b);
    if !Takes(env, v, b) {
      ExtendedLinked(env, v.byHash, b);
      var blocks := Extended(env, v.byHash, b);
      PathFrame(v.byHash, blocks, v.head.value);
      PathShape(v.byHash, v.head.value);
      var path := Path(v.byHash, v.head.value);
      IndexPathFrame(env, v.byHash, blocks, path, |path|);
    }
  }

  lemma {:induction false} IndexPathFrame(env: Env, blocks: Blocks, blocks': Blocks, path: seq<H256>, n: nat)
    requires n <= |path|
    requires forall i :: 0 <= i < |path| ==>
             path[i] in blocks && path[i] in blocks' && blocks[path[i]] == blocks'[path[i]]
    ensures IndexPath(env, blocks, path, n) == IndexPath(env, blocks', path, n)
  {
    if n > 0 {
      IndexPathFrame(env, blocks, blocks', path, n - 1);
    }
  }

  ghost predicate ParentsFirst(env: Env, bs: seq<Block>) {
    forall i :: 0 <= i < |bs| && bs[i].header.number > 0 ==>
      exists j :: 0 <= j < i && env.Hash(bs[j]) == bs[i].header.parentHash
  }

  /** `t` lists the blocks of `s`, each once, parents first. */
  ghost predicate Reordering(env: Env, s: seq<Block>, t: seq<Block>) {
    && (forall b :: b in s <==> b in t)
    && (forall i, j :: 0 <= i < j < |t| ==> t[i] != t[j])
    && ParentsFirst(env, t)
  }

  /** What made `s[i]` acceptable is still true in any store that holds its parent and not itself. */
  lemma AcceptedAnywhere(env: Env, s: seq<Block>, i: nat, blocks: Blocks)
    requires Run(env, s).Some? && i < |s|
    requires forall h :: h in blocks ==> blocks[h] in s && env.Hash(blocks[h]) == h
    requires env.Hash(s[i]) !in blocks
    requires s[i].header.number > 0 ==> s[i].header.parentHash in blocks
    ensures InsertError(env, blocks, s[i]).None? && Fits(env, blocks, s[i])
  {
    hide Inv, Inserted, InsertError, Fits;
    RunPrefix(env, s, i + 1);
    assert s[..i + 1][..i] == s[..i] && s[..i + 1][i] == s[i];
    RunPrefix(env, s, i);
    var v := Run(env, s[..i]).value;
    RunHolds(env, s);
    RunHolds(env, s[..i]);
    if s[i].header.number > 0 {
      var p := s[i].header.parentHash;
      AcceptedParent(env, v.byHash, s[i]);
      assert v.byHash[p] in s && blocks[p] in s;
      assert v.byHash[p] == blocks[p];
    }
    AcceptedElsewhere(env, v.byHash, blocks, s[i]);
  }

  lemma AcceptedParent(env: Env, blocks: Blocks, b: Block)
    requires InsertError(env, blocks, b).None? && b.header.number > 0
    ensures b.header.parentHash in blocks
  {
    hide Env.ValidateBlock, Env.ValidateHeader;
  }

  /** Acceptance looks only at the parent and at whether the block is new. */
  lemma AcceptedElsewhere(env: Env, blocks: Blocks, blocks': Blocks, b: Block)
    requires InsertError(env, blocks, b).None? && Fits(env, blocks, b) && env.Hash(b) !in blocks'
    requires b.header.number > 0 ==> Get(blocks, b.header.parentHash) == Get(blocks', b.header.parentHash)
    ensures InsertError(env, blocks', b).None? && Fits(env, blocks', b)
  {
    hide Env.ValidateBlock, Env.ValidateHeader;
  }

  lemma {:induction false} RunPrefix(env: Env, s: seq<Block>, k: nat)
    requires Run(env, s).Some? && k <= |s|
    ensures Run(env, s[..k]).Some?
  {
    hide Inv, Inserted, InsertError;
    if k < |s| {
      var n := |s| - 1;
      RunPrefix(env, s[..n], k);
      assert s[..n][..k] == s[..k];
    } else {
      assert s[..k] == s;
    }
  }

  lemma {:induction false} ReorderingAccepted(env: Env, s: seq<Block>, t: seq<Block>, k: nat)
    requires Run(env, s).Some? && Reordering(env, s, t) && k <= |t|
    ensures Run(env, t[..k]).Some?
  {
    hide Inv, Inserted, InsertError, Fits, Reordering;
    if k > 0 {
      ReorderingAccepted(env, s, t, k - 1);
      NextAccepted(env, s, t, k - 1);
      assert t[..k][..k - 1] == t[..k - 1] && t[..k][k - 1] == t[k - 1];
    }
  }

  lemma NextAccepted(env: Env, s: seq<Block>, t: seq<Block>, n: nat)
    requires Run(env, s).Some? && Reordering(env, s, t) && n < |t| && Run(env, t[..n]).Some?
    ensures var blocks := Run(env, t[..n]).value.byHash;
            InsertError(env, blocks, t[n]).None? && Fits(env, blocks, t[n])
  {
    hide Run, InsertError, Fits, Holds;
    RunHolds(env, t[..n]);
    var blocks := Run(env, t[..n]).value.byHash;
    RunHolds(env, s);
    NextFresh(env, s, t, n, Run(env, s).value.byHash, blocks);
    assert t[n] in t;
    var i :| 0 <= i < |s| && s[i] == t[n];
    AcceptedAnywhere(env, s, i, blocks);
  }

  /** The blocks inserted so far are among those of `s`, contain the next one's parent, and not the next one. */
  lemma NextFresh(env: Env, s: seq<Block>, t: seq<Block>, n: nat, all: Blocks, blocks: Blocks)
    requires Reordering(env, s, t) && n < |t| && Holds(env, all, s) && Holds(env, blocks, t[..n])
    ensures forall h :: h in blocks ==> blocks[h] in s && env.Hash(blocks[h]) == h
    ensures env.Hash(t[n]) !in blocks
    ensures t[n].header.number > 0 ==> t[n].header.parentHash in blocks
  {
    hide ParentsFirst;
    forall h | h in blocks
      ensures blocks[h] in s && env.Hash(blocks[h]) == h && h != env.Hash(t[n])
    {
      var j :| 0 <= j < n && t[j] == blocks[h];
      assert t[j] in t && t[n] in t;
      HeldOnce(env, all, s, t[j], t[n]);
    }
    NextParent(env, t, n, blocks);
  }

  lemma HeldOnce(env: Env, all: Blocks, s: seq<Block>, a: Block, b: Block)
    requires Holds(env, all, s) && a in s && b in s
    ensures env.Hash(a) == env.Hash(b) ==> a == b
  {
  }

  lemma NextParent(env: Env, t: seq<Block>, n: nat, blocks: Blocks)
    requires ParentsFirst(env, t) && n < |t|
    requires forall i :: 0 <= i < n ==> env.Hash(t[i]) in blocks
    ensures t[n].header.number > 0 ==> t[n].header.parentHash in blocks
  {
  }

  /** Insertion order does not matter: any parents-first order of the same blocks gives the same store. */
  lemma Convergence(env: Env, s: seq<Block>, t: seq<Block>)
    requires Run(env, s).Some? && Reordering(env, s, t)
    ensures Run(env, t) == Run(env, s)
  {
    hide Run;
    ReorderingAccepted(env, s, t, |t|);
    assert t[..|t|] == t;
    RunHolds(env, s);
    RunHolds(env, t);
    RunExact(env, s);
    RunExact(env, t);
    var v, w := Run(env, s).value, Run(env, t).value;
    SameBlocks(env, v.byHash, w.byHash, s, t);
    if v.head.Some? {
      BestUnique(v.byHash, v.head.value, w.head.value);
    }
  }

  lemma SameBlocks(env: Env, a: Blocks, b: Blocks, s: seq<Block>, t: seq<Block>)
    requires Holds(env, a, s) && Holds(env, b, t) && forall x :: x in s <==> x in t
    ensures a == b
  {
    forall h
      ensures Get(a, h) == Get(b, h)
    {
      if h in a {
        assert a[h] in t;
      }
      if h in b {
        assert b[h] in s;
      }
    }
    SameLookups(a, b);
  }

  // ----- The reorganisation report

  /** The last entry of `q` that also occurs in `p`. */
  ghost function LastShared(p: seq<H256>, q: seq<H256>): (r: Option<H256>)
    ensures r.Some? ==> r.value in p && r.value in q
  {
    if q == [] then None
    else if q[|q| - 1] in p then Some(q[|q| - 1])
    else LastShared(p, q[..|q| - 1])
  }

  lemma {:induction false} LastSharedAt(p: seq<H256>, q: seq<H256>)
    ensures match LastShared(p, q)
            case None => forall i :: 0 <= i < |q| ==> q[i] !in p
            case Some(h) => exists k :: 0 <= k < |q| && q[k] == h && forall i :: k < i < |q| ==> q[i] !in p
  {
    if q != [] && q[|q| - 1] !in p {
      LastSharedAt(p, q[..|q| - 1]);
    }
  }

  /** The reported ancestor when a new block takes the head. */
  ghost function Ancestor(blocks: Blocks, oldHead: H256, newHead: H256): H256
    requires Linked(blocks) && oldHead in blocks && newHead in blocks
  {
    match LastShared(Path(blocks, oldHead), Path(blocks, newHead))
    case Some(h) => h
    case None => newHead
  }

  /**
   In a store with one genesis the reported ancestor is the true fork point: it lies on both
   walks, every block on both walks lies on its own walk, the walks agree up to it, and
   directly above it the new walk has a block the old one does not have.
   */
  lemma AncestorIsForkPoint(blocks: Blocks, a: H256, b: H256)
    requires Linked(blocks) && a in blocks && b in blocks && b !in Path(blocks, a)
    requires Path(blocks, a)[0] == Path(blocks, b)[0]
    ensures var p, q, anc := Path(blocks, a), Path(blocks, b), Ancestor(blocks, a, b);
            && anc in p && anc in q && anc in blocks
            && (forall x :: x in p && x in q ==> x in Path(blocks, anc))
            && (forall n :: 0 <= n <= blocks[anc].header.number ==> n < |p| && n < |q| && p[n] == q[n])
            && blocks[anc].header.number + 1 < |q|
            && q[blocks[anc].header.number + 1] !in p
  {
    hide Path;
    var p, q := Path(blocks, a), Path(blocks, b);
    PathShape(blocks, a);
    PathShape(blocks, b);
    LastSharedAt(p, q);
    assert q[0] in p;
    var anc := Ancestor(blocks, a, b);
    var k :| 0 <= k < |q| && q[k] == anc && forall i :: k < i < |q| ==> q[i] !in p;
    var j :| 0 <= j < |p| && p[j] == anc;
    assert j == k == blocks[anc].header.number;
    PathsAgreeBelow(blocks, a, b, k);
    PathPrefix(blocks, b, k);
    forall n | 0 <= n <= k
      ensures p[n] == q[n]
    {
      assert p[n] == p[..k + 1][n] && q[n] == q[..k + 1][n];
    }
    forall x | x in p && x in q
      ensures x in Path(blocks, anc)
    {
      var i :| 0 <= i < |q| && q[i] == x;
      assert i <= k;
      assert q[..k + 1][i] == x;
    }
  }

  /** Without a common genesis there is no shared block and the report names the new block itself. */
  lemma AncestorOfForeignChain(blocks: Blocks, a: H256, b: H256)
    requires Linked(blocks) && a in blocks && b in blocks
    requires Path(blocks, a)[0] != Path(blocks, b)[0]
    ensures Ancestor(blocks, a, b) == b
  {
    hide Path;
    var p, q := Path(blocks, a), Path(blocks, b);
    PathShape(blocks, a);
    PathShape(blocks, b);
    LastSharedAt(p, q);
    if i, j :| 0 <= i < |p| && 0 <= j < |q| && p[i] == q[j] {
      assert i == j;
      PathsAgreeBelow(blocks, a, b, i);
      assert false;
    }
  }

  /** What an insertion reports. */
  ghost function OutcomeOf(env: Env, v: View, b: Block): InsertOutcome
    requires Inv(env, v) && Fits(env, v.byHash, b)
  {
    ExtendedLinked(env, v.byHash, b);
    var h := env.Hash(b);
    if v.head.None? then InsertOutcome(h, None, h, h, true)
    else if Takes(env, v, b) then
      InsertOutcome(h, v.head, h, Ancestor(Extended(env, v.byHash, b), v.head.value, h), true)
    else InsertOutcome(h, v.head, v.head.value, v.head.value, false)
  }

  /** What an insertion reports and leaves, in plain terms: one block more, and whether and where the head moved. */
  lemma OutcomeRule(env: Env, v: View, b: Block)
    requires Inv(env, v) && Fits(env, v.byHash, b)
    ensures var o, v' := OutcomeOf(env, v, b), Inserted(env, v, b);
            && o.hash == env.Hash(b) && o.oldHead == v.head && v'.head == Some(o.newHead)
            && (o.headChanged <==> v'.head != v.head)
            && v'.byHash == v.byHash[env.Hash(b) := b] && v'.snapshots == v.snapshots
  {
    hide Path, HeightIndex, IndexSound, IndexComplete, FullIndex, Ancestor;
  }

  /** The two walks behind a head move. */
  lemma MovedHead(env: Env, v: View, b: Block)
    requires Inv(env, v) && Fits(env, v.byHash, b) && v.head.Some? && OutcomeOf(env, v, b).headChanged
    ensures var blocks, h := Extended(env, v.byHash, b), env.Hash(b);
            && Linked(v.byHash) && Linked(blocks) && v.head.value in v.byHash
            && Path(blocks, v.head.value) == Path(v.byHash, v.head.value)
            && h !in Path(blocks, v.head.value)
            && v.byNumber == HeightIndex(Path(blocks, v.head.value))
            && Inserted(env, v, b).byNumber == HeightIndex(Path(blocks, h))
            && OutcomeOf(env, v, b).ancestor == Ancestor(blocks, v.head.value, h)
  {
    hide Path, FullIndex, IndexSound, IndexComplete, Ancestor, HeightIndex;
    ExtendedLinked(env, v.byHash, b);
    PathFrame(v.byHash, Extended(env, v.byHash, b), v.head.value);
    PathShape(v.byHash, v.head.value);
  }

  /** A head move keeps the height index up to the reported ancestor and changes it right above. */
  lemma ReorgReport(env: Env, v: View, b: Block)
    requires Inv(env, v) && Fits(env, v.byHash, b) && v.head.Some?
    requires OutcomeOf(env, v, b).headChanged
    requires Get(v.byNumber, 0) == Get(Inserted(env, v, b).byNumber, 0)
    ensures var v', anc := Inserted(env, v, b), OutcomeOf(env, v, b).ancestor;
            && anc in v.byHash
            && var k := v.byHash[anc].header.number;
            && (forall n :: 0 <= n <= k ==> n in v.byNumber && n in v'.byNumber && v'.byNumber[n] == v.byNumber[n])
            && k + 1 in v'.byNumber && Get(v.byNumber, k + 1) != Some(v'.byNumber[k + 1])
  {
    hide Path, Inv, Ancestor, Inserted, OutcomeOf, Linked;
    MovedHead(env, v, b);
    var blocks, h, head := Extended(env, v.byHash, b), env.Hash(b), v.head.value;
    WalkStored(v.byHash, head);
    WalkStored(blocks, h);
    assert 0 in v.byNumber && 0 in Inserted(env, v, b).byNumber;
    AncestorIsForkPoint(blocks, head, h);
    var p, anc := Path(blocks, head), OutcomeOf(env, v, b).ancestor;
    var k := v.byHash[anc].header.number;
    assert k == blocks[anc].header.number;
    assert k + 1 < |p| ==> p[k + 1] in p;
  }

  lemma WalkStored(blocks: Blocks, h: H256)
    requires Linked(blocks) && h in blocks
    ensures var p := Path(blocks, h);
            p != [] && forall x :: x in p ==> x in blocks && blocks[x].header.number < |p|
  {
    PathShape(blocks, h);
  }

  lemma TallerTakes(env: Env, v: View, b: Block)
    requires Inv(env, v) && Fits(env, v.byHash, b) && v.head.Some?
    requires v.head.value in v.byHash && v.byHash[v.head.value].header.number < b.header.number
    ensures OutcomeOf(env, v, b).headChanged
  {
    hide Path, Ancestor;
  }

  // ----- The store object

  class BlockStore {
    const env: Env
    var byHash: Blocks
    var byNumber: map<nat, H256>
    var head: Option<H256>
    var snapshots: map<H256, World>
    var txIndex: map<H256, TxLocation>

    ghost function V(): View
      reads this
    {
      View(byHash, byNumber, head, snapshots, txIndex)
    }

    ghost predicate Valid()
      reads this
    {
      Inv(env, V())
    }

    constructor (env: Env)
      ensures this.env == env && V() == EMPTY_VIEW && Valid()
    {
      this.env := env;
      byHash, byNumber, head, snapshots, txIndex := map[], map[], None, map[], map[];
    }

    /** Hashes from genesis to `tip`, by walking parents; empty when `tip` is unknown. */
    method ChainFrom(tip: H256) returns (path: seq<H256>)
      requires Linked(byHash)
      ensures path == Walk(byHash, tip)
    {
      if tip !in byHash {
        return [];
      }
      PathShape(byHash, tip);
      ghost var p := Path(byHash, tip);
      path := [];
      var cur := tip;
      while true
        invariant |path| < |p| && cur == p[|p| - 1 - |path|]
        invariant forall i :: 0 <= i < |path| ==> path[i] == p[|p| - 1 - i]
        decreases |p| - |path|
      {
        path := path + [cur];
        if byHash[cur].header.number == 0 {
          break;
        }
        cur := byHash[cur].header.parentHash;
      }
      path := seq(|path|, i requires 0 <= i < |path| => path[|path| - 1 - i]);
    }

    /** Refills the height index from the parent walk of `tip`. */
    method RebuildCanonical(tip: H256)
      requires Linked(byHash) && tip in byHash
      modifies this`byNumber
      ensures byNumber == HeightIndex(Path(byHash, tip))
    {
      hide Path;
      PathShape(byHash, tip);
      ghost var p := Path(byHash, tip);
      var path: seq<(nat, H256)> := [];
      var cur := tip;
      while true
        invariant |path| < |p| && cur == p[|p| - 1 - |path|]
        invariant forall i :: 0 <= i < |path| ==> path[i] == (|p| - 1 - i, p[|p| - 1 - i])
        decreases |p| - |path|
      {
        path := path + [(byHash[cur].header.number, cur)];
        if byHash[cur].header.number == 0 {
          break;
        }
        cur := byHash[cur].header.parentHash;
      }
      byNumber := map[];
      for i := 0 to |path|
        invariant forall n: nat :: n in byNumber <==> |p| - i <= n < |p|
        invariant forall n: nat :: n in byNumber ==> byNumber[n] == p[n]
      {
        byNumber := byNumber[path[i].0 := path[i].1];
      }
    }

    method RebuildTxIndex()
      requires Linked(byHash)
      requires head.Some? && head.value in byHash ==> byNumber == HeightIndex(Path(byHash, head.value))
      modifies this`txIndex
      ensures txIndex == if head.Some? && head.value in byHash then FullIndex(env, byHash, head.value) else map[]
    {
      hide Path, IndexBlock;
      if head.None? || head.value !in byHash {
        txIndex := map[];
        return;
      }
      PathShape(byHash, head.value);
      ghost var path := Path(byHash, head.value);
      var idx := map[];
      var top: nat := byHash[head.value].header.number;
      for n := 0 to top + 1
        invariant idx == IndexPath(env, byHash, path, n)
      {
        idx := AddTransactions(idx, byNumber[n], n, byHash[byNumber[n]].transactions);
      }
      txIndex := idx;
    }

    method AddTransactions(idx: map<H256, TxLocation>, hash: H256, n: nat, txs: seq<Transaction>)
      returns (idx': map<H256, TxLocation>)
      ensures idx' == idx + IndexBlock(env, hash, n, txs, |txs|)
    {
      idx' := idx;
      for i := 0 to |txs|
        invariant idx' == idx + IndexBlock(env, hash, n, txs, i)
      {
        idx' := idx'[env.txHash(txs[i]) := TxLocation(hash, n, i)];
      }
    }

    /** Deepest block on both parent walks. */
    method CommonAncestor(a: H256, b: H256) returns (r: Option<H256>)
      requires Linked(byHash)
      ensures r == LastShared(Walk(byHash, a), Walk(byHash, b))
    {
      var pa := ChainFrom(a);
      var pb := ChainFrom(b);
      var i := |pb|;
      assert pb[..i] == pb;
      while i > 0
        invariant 0 <= i <= |pb|
        invariant LastShared(pa, pb) == LastShared(pa, pb[..i])
      {
        i := i - 1;
        if pb[i] in pa {
          return Some(pb[i]);
        }
        assert pb[..i + 1][..i] == pb[..i];
      }
      return None;
    }

    method MaybeUpdateCanonical(hash: H256)
      requires Linked(byHash) && hash in byHash && (head.Some? ==> head.value in byHash)
      modifies this`head, this`byNumber
      ensures var take := old(head).None? || Beats(byHash, hash, old(head).value);
              && head == (if take then Some(hash) else old(head))
              && byNumber == (if take then HeightIndex(Path(byHash, hash)) else old(byNumber))
    {
      var number := byHash[hash].header.number;
      var take := true;
      if head.Some? {
        var headNumber := byHash[head.value].header.number;
        take := number > headNumber || (number == headNumber && hash < head.value);
      }
      if !take {
        return;
      }
      head := Some(hash);
      RebuildCanonical(hash);
    }

    method InsertValidated(b: Block) returns (r: Result<InsertOutcome, ChainError>)
      requires Valid()
      requires env.Hash(b) !in byHash ==> Fits(env, byHash, b)
      modifies this`byHash, this`byNumber, this`head, this`txIndex
      ensures Valid()
      ensures r.Err? ==> r.error == DuplicateBlock && env.Hash(b) in old(byHash) && V() == old(V())
      ensures r.Ok? ==> Fits(env, old(byHash), b)
                        && V() == Inserted(env, old(V()), b) && r.value == OutcomeOf(env, old(V()), b)
    {
      hide Path, FullIndex, IndexSound, IndexComplete, HeightIndex;
      var hash := env.Hash(b);
      if hash in byHash {
        return Err(DuplicateBlock);
      }
      ghost var v := V();
      ExtendedLinked(env, v.byHash, b);
      InsertedInv(env, v, b);
      var oldHead := head;
      byHash := byHash[hash := b];
      MaybeUpdateCanonical(hash);
      var newHead := head.value;
      var headChanged := oldHead != Some(newHead);
      var ancestor := hash;
      if oldHead.Some? {
        if headChanged {
          var shared := CommonAncestor(oldHead.value, newHead);
          ancestor := if shared.Some? then shared.value else hash;
        } else {
          ancestor := oldHead.value;
        }
      }
      if headChanged {
        RebuildTxIndex();
      }
      r := Ok(InsertOutcome(hash, oldHead, newHead, ancestor, headChanged));
    }

    method InsertGenesis(b: Block) returns (r: Result<InsertOutcome, ChainError>)
      requires Valid()
      modifies this`byHash, this`byNumber, this`head, this`txIndex
      ensures Valid()
      ensures GenesisError(env, old(byHash), b) == if r.Err? then Some(r.error) else None
      ensures r.Err? ==> V() == old(V())
      ensures r.Ok? ==> Fits(env, old(byHash), b)
                        && V() == Inserted(env, old(V()), b) && r.value == OutcomeOf(env, old(V()), b)
    {
      hide Inv, Inserted, OutcomeOf;
      if b.header.number != 0 || b.header.parentHash != ZERO_HASH {
        return Err(InvalidGenesis);
      }
      var c := env.ValidateHeader(b.header, None);
      if c.Some? {
        return Err(Consensus(c.value));
      }
      var e := env.ValidateBlock(b);
      if e.Some? {
        return Err(BlockInvalid(e.value));
      }
      r := InsertValidated(b);
    }

    /** Inserts a block below a known parent, or refuses it and changes nothing. */
    method InsertBlock(b: Block) returns (r: Result<InsertOutcome, ChainError>)
      requires Valid()
      requires b.header.parentHash in byHash ==> byHash[b.header.parentHash].header.number < U64_MAX
      modifies this`byHash, this`byNumber, this`head, this`txIndex
      ensures Valid()
      ensures InsertError(env, old(byHash), b) == if r.Err? then Some(r.error) else None
      ensures b.header.number > 0 ==> (r.Ok? <==> Acceptable(env, old(byHash), b))
      ensures r.Err? ==> V() == old(V())
      ensures r.Ok? ==> Fits(env, old(byHash), b)
                        && V() == Inserted(env, old(V()), b) && r.value == OutcomeOf(env, old(V()), b)
    {
      hide Inv, Inserted, OutcomeOf, Acceptable, Env.ValidateBlock;
      if b.header.number == 0 {
        r := InsertGenesis(b);
        return;
      }
      AcceptedIff(env, byHash, b);
      var e := CheckHeader(b.header);
      if e.Some? {
        return Err(e.value);
      }
      var invalid := env.ValidateBlock(b);
      if invalid.Some? {
        return Err(BlockInvalid(invalid.value));
      }
      r := InsertValidated(b);
    }

    method CheckHeader(header: Header) returns (e: Option<ChainError>)
      ensures e == HeaderError(env, byHash, header)
    {
      if header.parentHash !in byHash {
        return Some(UnknownParent);
      }
      var parent := byHash[header.parentHash].header;
      var expected := SaturatingAdd64(parent.number, 1);
      if header.number != expected {
        return Some(InvalidBlockNumber(expected, header.number));
      }
      var c := env.ValidateHeader(header, Some(parent));
      return if c.Some? then Some(Consensus(c.value)) else None;
    }

    /** Indexes a header without a body. */
    method InsertHeader(header: Header) returns (r: Result<InsertOutcome, ChainError>)
      requires Valid()
      requires header.parentHash in byHash ==> byHash[header.parentHash].header.number < U64_MAX
      modifies this`byHash, this`byNumber, this`head, this`txIndex
      ensures Valid()
      ensures r.Err? ==> V() == old(V())
      ensures BareHeaderError(env, old(byHash), header) == if r.Err? then Some(r.error) else None
      ensures r.Ok? ==> var b := Block(header, [], []);
                        Fits(env, old(byHash), b)
                        && V() == Inserted(env, old(V()), b) && r.value == OutcomeOf(env, old(V()), b)
    {
      hide Inv, Inserted, OutcomeOf;
      if header.number == 0 {
        return Err(InvalidGenesis);
      }
      var e := CheckHeader(header);
      if e.Some? {
        return Err(e.value);
      }
      r := InsertValidated(Block(header, [], []));
    }

    // ----- Queries

    /** A transaction by hash: only ever one with that hash, at its stated place on the head's walk. */
    method GetTransaction(h: H256) returns (r: Option<(Transaction, TxLocation)>)
      requires Valid()
      ensures r.Some? ==>
                var (tx, loc) := r.value;
                && env.txHash(tx) == h
                && Get(byNumber, loc.blockNumber) == Some(loc.blockHash) && loc.blockHash in byHash
                && loc.index < |byHash[loc.blockHash].transactions|
                  && byHash[loc.blockHash].transactions[loc.index] == tx
      ensures forall n, tx :: n in byNumber && byNumber[n] in byHash && tx in byHash[byNumber[n]].transactions ==>
                env.txHash(tx) == h ==> r.Some?
    {
      hide Path;
      if h !in txIndex {
        return None;
      }
      var loc := txIndex[h];
      assert PointsRight(env, byHash, Path(byHash, head.value), h, loc);
      if loc.blockHash !in byHash {
        return None;
      }
      var b := byHash[loc.blockHash];
      if loc.index >= |b.transactions| {
        return None;
      }
      return Some((b.transactions[loc.index], loc));
    }

    /** A fresh handle on the snapshot recorded for `h`. */
    method StateAt(h: H256) returns (r: StateDB?)
      ensures r == null <==> h !in snapshots
      ensures r != null ==> fresh(r) && r.env == env && r.View() == snapshots[h]
    {
      if h !in snapshots {
        return null;
      }
      r := new StateDB(env);
      r.accounts, r.storage, r.code := snapshots[h].accounts, snapshots[h].storage, snapshots[h].code;
    }

    method RecordState(h: H256, state: StateDB)
      modifies this`snapshots
      ensures V() == old(V()).(snapshots := old(snapshots)[h := state.View()])
    {
      snapshots := snapshots[h := World(state.accounts, state.storage, state.code)];
    }

    // ----- Pruning

    method DropBodiesBelow(keepFrom: nat, archive: bool)
      requires Valid()
      modifies this`byHash
      ensures Valid()
      ensures byHash == if archive then old(byHash) else Dropped(old(byHash), keepFrom)
    {
      hide Inv, Dropped;
      if archive {
        return;
      }
      DroppedInv(env, V(), keepFrom);
      ClearBodies(keepFrom);
    }

    method ClearBodies(keepFrom: nat)
      modifies this`byHash
      ensures byHash == Dropped(old(byHash), keepFrom)
    {
      ghost var before := byHash;
      var left := byHash.Keys;
      while left != {}
        invariant byHash.Keys == before.Keys && left <= before.Keys
        invariant forall h :: h in before ==> byHash[h] == if h in left then before[h] else Dropped(before, keepFrom)[h]
      {
        var h :| h in left;
        if byHash[h].header.number < keepFrom {
          byHash := byHash[h := Block(byHash[h].header, [], [])];
        }
        left := left - {h};
      }
    }

    /** Keeps only snapshots on the head's walk. */
    method PruneSnapshots()
      requires Valid()
      modifies this`snapshots
      ensures Valid()
      ensures snapshots == if head.None? then old(snapshots) else OnPath(old(snapshots), byHash, head.value)
    {
      hide Path, Inv;
      InvLinked(env, V());
      if head.None? {
        return;
      }
      var keep := ChainFrom(head.value);
      ghost var v := V();
      snapshots := map h | h in snapshots && h in keep :: snapshots[h];
      InvIgnoresSnapshots(env, v, snapshots);
    }

    /** Keeps bodies and snapshots of the last `keep` heights, and snapshots only on the head's walk. */
    method PruneSnapshotsKeep(keep: nat)
      requires Valid()
      modifies this`snapshots, this`byHash
      ensures Valid()
      ensures head.None? ==> V() == old(V())
      ensures head.Some? ==> byHash == Dropped(old(byHash), Cutoff(old(byHash), head.value, keep))
      ensures head.Some? ==> snapshots == InWindow(old(snapshots), old(byHash), head.value, keep)
    {
      hide Path, Inv, Dropped, OnPath, InWindow;
      InvLinked(env, V());
      PruneSnapshots();
      if head.None? {
        return;
      }
      ghost var blocks, tip := byHash, head.value;
      var cutoff := SaturatingSub(byHash[head.value].header.number, SaturatingSub(keep, 1));
      DropBodiesBelow(cutoff, false);
      InvLinked(env, V());
      RetainFrom(cutoff);
      WindowOfPath(old(snapshots), blocks, byHash, tip, keep);
    }

    /** Drops snapshots off the head's walk or below `cutoff`. */
    method RetainFrom(cutoff: nat)
      requires Valid() && head.Some?
      modifies this`snapshots
      ensures Valid()
      ensures Linked(byHash) && head.value in byHash && snapshots == AtLeast(old(snapshots), byHash, head.value, cutoff)
    {
      hide Path, Inv;
      InvLinked(env, V());
      var path := ChainFrom(head.value);
      ghost var v := V();
      snapshots := map h | h in snapshots && h in path && h in byHash
        && byHash[h].header.number >= cutoff :: snapshots[h];
      InvIgnoresSnapshots(env, v, snapshots);
    }
  }

  lemma InvLinked(env: Env, v: View)
    requires Inv(env, v)
    ensures Linked(v.byHash) && Keyed(env, v.byHash) && (v.head.Some? ==> v.head.value in v.byHash)
  {
  }

  lemma InvIgnoresSnapshots(env: Env, v: View, snapshots: map<H256, World>)
    ensures Inv(env, v) <==> Inv(env, v.(snapshots := snapshots))
  {
    hide Path, IndexSound, IndexComplete, HeightIndex, Best, Keyed;
  }

  lemma WindowOfPath(snapshots: map<H256, World>, blocks: Blocks, blocks': Blocks, head: H256, keep: nat)
    requires Linked(blocks) && head in blocks && Linked(blocks') && head in blocks'
    requires blocks' == Dropped(blocks, Cutoff(blocks, head, keep))
    ensures InWindow(snapshots, blocks, head, keep) ==
            AtLeast(OnPath(snapshots, blocks, head), blocks', head, Cutoff(blocks, head, keep))
  {
    hide Path;
    PathFrame(blocks, blocks', head);
  }

  function Cutoff(blocks: Blocks, head: H256, keep: nat): nat
    requires head in blocks
  {
    SaturatingSub(blocks[head].header.number, SaturatingSub(keep, 1))
  }

  ghost function OnPath(snapshots: map<H256, World>, blocks: Blocks, head: H256): map<H256, World>
    requires Linked(blocks) && head in blocks
  {
    map h | h in snapshots && h in Path(blocks, head) :: snapshots[h]
  }

  ghost function AtLeast(snapshots: map<H256, World>, blocks: Blocks, head: H256, cutoff: nat): map<H256, World>
    requires Linked(blocks) && head in blocks
  {
    map h | h in snapshots && h in Path(blocks, head) && h in blocks
      && blocks[h].header.number >= cutoff :: snapshots[h]
  }

  ghost function InWindow(snapshots: map<H256, World>, blocks: Blocks, head: H256, keep: nat): map<H256, World>
    requires Linked(blocks) && head in blocks
  {
    AtLeast(snapshots, blocks, head, Cutoff(blocks, head, keep))
  }

  /**
   The prune rules in plain numbers: a snapshot stays iff its block is the one the height index
   names, and in the window form iff it is also among the last `keep` heights, at least one;
   exactly the bodies below those heights are cleared.
   */
  lemma PruneRule(env: Env, v: View, keep: nat, h: H256)
    requires Inv(env, v) && v.head.Some?
    ensures Linked(v.byHash) && v.head.value in v.byHash
    ensures var top, canonical := v.byHash[v.head.value].header.number,
                                  h in v.byHash && Get(v.byNumber, v.byHash[h].header.number) == Some(h);
            && Get(OnPath(v.snapshots, v.byHash, v.head.value), h) == (if canonical then Get(v.snapshots, h) else None)
            && Get(InWindow(v.snapshots, v.byHash, v.head.value, keep), h)
               == (if canonical && top < v.byHash[h].header.number + AtLeastOne(keep)
                   then Get(v.snapshots, h) else None)
    ensures h in v.byHash ==>
              var top, b := v.byHash[v.head.value].header.number, v.byHash[h];
              Get(Dropped(v.byHash, Cutoff(v.byHash, v.head.value, keep)), h)
              == Some(if top < b.header.number + AtLeastOne(keep) then b else Block(b.header, [], []))
  {
    hide IndexSound, IndexComplete, Path;
    PathShape(v.byHash, v.head.value);
    var path := Path(v.byHash, v.head.value);
    assert h in path ==> exists i :: 0 <= i < |path| && path[i] == h;
  }

  function AtLeastOne(keep: nat): (r: nat) {
    if keep == 0 then 1 else keep
  }
}
