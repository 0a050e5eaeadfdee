/**
 Importing a sealed block: crates/ivory-chain/src/apply.rs.

 Snapshots cache the replay of block bodies from genesis. `ImportInv` says so for every
 stored block, also after snapshots and bodies have been pruned; `bodies` is the history of
 blocks as they were imported, kept only for the specification.
 */
module Import {
  import opened Primitives
  import opened Ledger
  import opened State
  import opened Execution
  import opened Store
  import opened Pool

  // ----- Replay

  /** The state after executing every body on the walk to `h`, starting from the genesis state. */
  ghost function Replay(env: Env, genesis: World, bodies: Blocks, h: H256): (r: Result<World, ExecutionError>)
    requires Linked(bodies) && h in bodies
    decreases bodies[h].header.number
  {
    assert ParentStored(bodies, h);
    if bodies[h].header.number == 0 then Ok(genesis)
    else
      match Replay(env, genesis, bodies, bodies[h].header.parentHash)
      case Err(e) => Err(e)
      case Ok(w) => ExecuteBlock(env, w, bodies[h])
  }

  lemma {:induction false} ReplayFrame(env: Env, genesis: World, bodies: Blocks, bodies': Blocks, h: H256)
    requires Linked(bodies) && Linked(bodies') && h in bodies
    requires forall k :: k in bodies ==> k in bodies' && bodies'[k] == bodies[k]
    ensures Replay(env, genesis, bodies', h) == Replay(env, genesis, bodies, h)
    decreases bodies[h].header.number
  {
    hide ExecuteBlock;
    assert ParentStored(bodies, h) && ParentStored(bodies', h);
    if bodies[h].header.number > 0 {
      ReplayFrame(env, genesis, bodies, bodies', bodies[h].header.parentHash);
    }
  }

  /** The blocks above genesis on the walk to `h`. */
  ghost function BlocksAbove(bodies: Blocks, h: H256): seq<Block>
    requires Linked(bodies) && h in bodies
    decreases bodies[h].header.number
  {
    assert ParentStored(bodies, h);
    if bodies[h].header.number == 0 then [] else BlocksAbove(bodies, bodies[h].header.parentHash) + [bodies[h]]
  }

  lemma {:induction false} ExecuteChainAppend(env: Env, w: World, blocks: seq<Block>, b: Block)
    ensures ExecuteChain(env, w, blocks + [b]) ==
            match ExecuteChain(env, w, blocks)
            case Err(e) => Err(e)
            case Ok(v) => ExecuteBlock(env, v, b)
    decreases |blocks|
  {
    hide ExecuteBlock;
    if blocks == [] {
      assert [b][1..] == [];
    } else {
      assert (blocks + [b])[1..] == blocks[1..] + [b];
      match ExecuteBlock(env, w, blocks[0])
      case Err(_) =>
      case Ok(v) => ExecuteChainAppend(env, v, blocks[1..], b);
    }
  }

  /** Replay is the execution of the chain of blocks above genesis. */
  lemma {:induction false} ReplayIsChain(env: Env, genesis: World, bodies: Blocks, h: H256)
    requires Linked(bodies) && h in bodies
    ensures Replay(env, genesis, bodies, h) == ExecuteChain(env, genesis, BlocksAbove(bodies, h))
    decreases bodies[h].header.number
  {
    hide ExecuteBlock, ExecuteChain;
    assert ParentStored(bodies, h);
    if bodies[h].header.number == 0 {
      ExecuteChainNone(env, genesis);
    } else {
      var parent := bodies[h].header.parentHash;
      ReplayIsChain(env, genesis, bodies, parent);
      ExecuteChainAppend(env, genesis, BlocksAbove(bodies, parent), bodies[h]);
    }
  }

  lemma ExecuteChainNone(env: Env, w: World)
    ensures ExecuteChain(env, w, []) == Ok(w)
  {
  }

  // ----- The invariant

  ghost predicate Replayed(env: Env, genesis: World, bodies: Blocks, h: H256)
    requires Linked(bodies) && h in bodies
  {
    && Replay(env, genesis, bodies, h).Ok?
    && Synced(env.codec, Replay(env, genesis, bodies, h).value)
    && RootHash(env, Replay(env, genesis, bodies, h).value) == bodies[h].header.stateRoot
  }

  /** One genesis at the bottom, no block hashing to zero, heights below the saturation point. */
  ghost predicate Rooted(bodies: Blocks, root: H256) {
    && root in bodies && ZERO_HASH !in bodies
    && (forall h :: h in bodies && bodies[h].header.number == 0 ==> h == root)
    && (forall h :: h in bodies ==> bodies[h].header.number < U64_MAX)
  }

  /** The history and the store agree on headers; bodies in the store may have been dropped. */
  ghost predicate Tracks(bodies: Blocks, byHash: Blocks) {
    SameHeaders(bodies, byHash) && SameHeaders(byHash, bodies)
  }

  /** Every imported body executes, and leads to the state root its header claims. */
  ghost predicate HistoryOk(env: Env, genesis: World, root: H256, bodies: Blocks) {
    && Linked(bodies) && Rooted(bodies, root)
    && (forall h :: h in bodies ==> Replayed(env, genesis, bodies, h))
  }

  /** Snapshots are replays, and the live state is the head's snapshot. */
  ghost predicate CacheOk(env: Env, genesis: World, bodies: Blocks, v: View, live: World)
    requires Linked(bodies)
  {
    && (forall h :: h in v.snapshots ==> h in bodies && Replay(env, genesis, bodies, h) == Ok(v.snapshots[h]))
    && v.head.Some? && v.head.value in v.snapshots && live == v.snapshots[v.head.value]
  }

  ghost predicate ImportInv(env: Env, genesis: World, root: H256, bodies: Blocks, v: View, live: World) {
    && Inv(env, v)
    && HistoryOk(env, genesis, root, bodies)
    && Tracks(bodies, v.byHash)
    && CacheOk(env, genesis, bodies, v, live)
  }

  // ----- One import

  /** Why an import is refused, if it is. */
  ghost function ImportError(env: Env, v: View, b: Block): (r: Option<ChainError>) {
    if b.header.parentHash !in v.snapshots then Some(UnknownParentState)
    else
      match ExecuteBlock(env, v.snapshots[b.header.parentHash], b)
      case Err(e) => Some(ExecutionFailed(e))
      case Ok(w) =>
        if RootHash(env, w) != b.header.stateRoot then Some(InvalidStateRoot)
        else InsertError(env, v.byHash, b)
  }

  /** The state a block leads to. */
  ghost function PostState(env: Env, v: View, b: Block): World
    requires ImportError(env, v, b).None?
  {
    ExecuteBlock(env, v.snapshots[b.header.parentHash], b).value
  }

  ghost function Imported(env: Env, v: View, b: Block): View
    requires Inv(env, v) && Fits(env, v.byHash, b) && ImportError(env, v, b).None?
  {
    Inserted(env, v, b).(snapshots := v.snapshots[env.Hash(b) := PostState(env, v, b)])
  }

  ghost function LiveAfter(env: Env, v: View, live: World, b: Block): World
    requires Inv(env, v) && Fits(env, v.byHash, b) && ImportError(env, v, b).None?
  {
    if OutcomeOf(env, v, b).headChanged then PostState(env, v, b) else live
  }

  lemma InsertErrorFits(env: Env, blocks: Blocks, b: Block)
    requires InsertError(env, blocks, b).None?
    requires b.header.parentHash in blocks ==> blocks[b.header.parentHash].header.number < U64_MAX
    ensures Fits(env, blocks, b) && (b.header.number == 0 ==> b.header.parentHash == ZERO_HASH)
  {
  }

  lemma ImportFits(env: Env, genesis: World, root: H256, bodies: Blocks, v: View, live: World, b: Block)
    requires ImportInv(env, genesis, root, bodies, v, live) && ImportError(env, v, b).None?
    ensures Fits(env, v.byHash, b) && b.header.number > 0 && b.header.parentHash in bodies
    ensures Linked(bodies[env.Hash(b) := b]) && env.Hash(b) !in bodies
  {
    hide Inv, RootHash, ExecuteBlock, Replayed, Replay, InsertError, Env.ValidateBlock;
    InsertErrorFits(env, v.byHash, b);
    LinkedGrows(bodies, env.Hash(b), b);
  }

  /** The snapshot recorded by an import is the replay of the new block, and its root is the header's. */
  lemma ImportReplayed(env: Env, genesis: World, root: H256, bodies: Blocks, v: View, live: World, b: Block)
    requires ImportInv(env, genesis, root, bodies, v, live) && ImportError(env, v, b).None?
    ensures var bodies' := bodies[env.Hash(b) := b];
            && Linked(bodies')
            && Replay(env, genesis, bodies', env.Hash(b)) == Ok(PostState(env, v, b))
            && Replayed(env, genesis, bodies', env.Hash(b))
  {
    hide Inv, RootHash, Synced, ExecuteAll, InsertError;
    ImportFits(env, genesis, root, bodies, v, live, b);
    var bodies', p := bodies[env.Hash(b) := b], b.header.parentHash;
    ReplayFrame(env, genesis, bodies, bodies', p);
    assert Replayed(env, genesis, bodies, p);
    ExecuteAllSynced(env, v.snapshots[p], 0, b.header.number, b.transactions);
  }

  lemma ImportHistory(env: Env, genesis: World, root: H256, bodies: Blocks, v: View, live: World, b: Block)
    requires ImportInv(env, genesis, root, bodies, v, live) && ImportError(env, v, b).None?
    requires env.Hash(b) != ZERO_HASH && b.header.number < U64_MAX
    ensures HistoryOk(env, genesis, root, bodies[env.Hash(b) := b])
  {
    hide Inv, Replayed, Replay, CacheOk, ImportError, Linked, Tracks;
    ImportFits(env, genesis, root, bodies, v, live, b);
    ImportReplayed(env, genesis, root, bodies, v, live, b);
    var bodies' := bodies[env.Hash(b) := b];
    assert Rooted(bodies', root);
    forall k | k in bodies
      ensures Replayed(env, genesis, bodies', k)
    {
      ReplayFrame(env, genesis, bodies, bodies', k);
      ReplayedFrame(env, genesis, bodies, bodies', k);
    }
  }

  lemma ImportCache(env: Env, genesis: World, root: H256, bodies: Blocks, v: View, live: World, b: Block)
    requires ImportInv(env, genesis, root, bodies, v, live) && ImportError(env, v, b).None?
    ensures Fits(env, v.byHash, b) && Linked(bodies[env.Hash(b) := b])
    ensures CacheOk(env, genesis, bodies[env.Hash(b) := b], Imported(env, v, b), LiveAfter(env, v, live, b))
  {
    hide Inv, Replayed, Replay, Inserted, OutcomeOf, HistoryOk, ImportError, PostState;
    ImportFits(env, genesis, root, bodies, v, live, b);
    ImportReplayed(env, genesis, root, bodies, v, live, b);
    InsertedHead(env, v, b);
    var bodies' := bodies[env.Hash(b) := b];
    HistoryLinked(env, genesis, root, bodies);
    forall k | k in v.snapshots
      ensures Replay(env, genesis, bodies', k) == Ok(v.snapshots[k])
    {
      ReplayFrame(env, genesis, bodies, bodies', k);
    }
  }

  lemma HistoryLinked(env: Env, genesis: World, root: H256, bodies: Blocks)
    requires HistoryOk(env, genesis, root, bodies)
    ensures Linked(bodies)
  {
  }

  /** Every import keeps the invariant. */
  lemma ImportedInv(env: Env, genesis: World, root: H256, bodies: Blocks, v: View, live: World, b: Block)
    requires ImportInv(env, genesis, root, bodies, v, live) && ImportError(env, v, b).None?
    requires env.Hash(b) != ZERO_HASH && b.header.number < U64_MAX
    ensures Fits(env, v.byHash, b)
    ensures ImportInv(env, genesis, root, bodies[env.Hash(b) := b], Imported(env, v, b), LiveAfter(env, v, live, b))
  {
    hide Inv, HistoryOk, CacheOk, ImportError, Inserted, LiveAfter, PostState;
    ImportHistory(env, genesis, root, bodies, v, live, b);
    ImportCache(env, genesis, root, bodies, v, live, b);
    InsertedInv(env, v, b);
    InsertedBlocks(env, v, b);
    InvIgnoresSnapshots(env, Inserted(env, v, b), Imported(env, v, b).snapshots);
  }

  lemma ReplayedFrame(env: Env, genesis: World, bodies: Blocks, bodies': Blocks, h: H256)
    requires Linked(bodies) && Linked(bodies') && h in bodies && h in bodies' && bodies'[h] == bodies[h]
    requires Replay(env, genesis, bodies', h) == Replay(env, genesis, bodies, h)
    requires Replayed(env, genesis, bodies, h)
    ensures Replayed(env, genesis, bodies', h)
  {
    hide Replay, RootHash, Synced;
  }

  lemma InsertedHead(env: Env, v: View, b: Block)
    requires Inv(env, v) && Fits(env, v.byHash, b)
    ensures var o := OutcomeOf(env, v, b);
            && o.hash == env.Hash(b)
            && Inserted(env, v, b).head == Some(o.newHead)
            && (o.headChanged ==> o.newHead == o.hash)
            && (!o.headChanged ==> Inserted(env, v, b).head == v.head)
  {
    hide Path, FullIndex, Ancestor;
  }

  // ----- Runs of imports and prunes

  ghost function Pruned(v: View): View
    requires Linked(v.byHash) && v.head.Some? && v.head.value in v.byHash
  {
    v.(snapshots := OnPath(v.snapshots, v.byHash, v.head.value))
  }

  ghost function PrunedKeep(v: View, keep: nat): View
    requires Linked(v.byHash) && v.head.Some? && v.head.value in v.byHash
  {
    v.(byHash := Dropped(v.byHash, Cutoff(v.byHash, v.head.value, keep)),
       snapshots := InWindow(v.snapshots, v.byHash, v.head.value, keep))
  }

  lemma PrunedInv(env: Env, genesis: World, root: H256, bodies: Blocks, v: View, live: World)
    requires ImportInv(env, genesis, root, bodies, v, live)
    ensures Linked(v.byHash) && v.head.value in v.byHash
    ensures ImportInv(env, genesis, root, bodies, Pruned(v), live)
  {
    hide HistoryOk, Replay, Inv, Path, Tracks;
    HistoryLinked(env, genesis, root, bodies);
    InvLinked(env, v);
    PathShape(v.byHash, v.head.value);
    InvIgnoresSnapshots(env, v, Pruned(v).snapshots);
  }

  lemma PrunedKeepInv(env: Env, genesis: World, root: H256, bodies: Blocks, v: View, live: World, keep: nat)
    requires ImportInv(env, genesis, root, bodies, v, live)
    ensures Linked(v.byHash) && v.head.value in v.byHash
    ensures ImportInv(env, genesis, root, bodies, PrunedKeep(v, keep), live)
  {
    hide HistoryOk, Inv, CacheOk, Tracks, InWindow, Dropped;
    HistoryLinked(env, genesis, root, bodies);
    CacheHead(env, genesis, bodies, v, live);
    InvLinked(env, v);
    var cutoff := Cutoff(v.byHash, v.head.value, keep);
    DroppedInv(env, v, cutoff);
    InvIgnoresSnapshots(env, v.(byHash := Dropped(v.byHash, cutoff)), PrunedKeep(v, keep).snapshots);
    TracksDropped(bodies, v.byHash, cutoff);
    CachePruned(env, genesis, bodies, v, live, keep);
  }

  lemma CacheHead(env: Env, genesis: World, bodies: Blocks, v: View, live: World)
    requires Linked(bodies) && CacheOk(env, genesis, bodies, v, live)
    ensures v.head.Some?
  {
  }

  lemma TracksDropped(bodies: Blocks, blocks: Blocks, cutoff: nat)
    requires Tracks(bodies, blocks)
    ensures Tracks(bodies, Dropped(blocks, cutoff))
  {
  }

  lemma CachePruned(env: Env, genesis: World, bodies: Blocks, v: View, live: World, keep: nat)
    requires Linked(bodies) && CacheOk(env, genesis, bodies, v, live)
    requires Linked(v.byHash) && v.head.value in v.byHash
    ensures CacheOk(env, genesis, bodies, PrunedKeep(v, keep), live)
  {
    hide Replay, Path, Dropped;
    PathShape(v.byHash, v.head.value);
  }

  datatype ChainState = ChainState(v: View, live: World, bodies: Blocks)

  datatype ChainOp = ImportBlock(b: Block) | Prune | PruneKeep(keep: nat)

  ghost predicate StateOk(env: Env, genesis: World, root: H256, s: ChainState) {
    ImportInv(env, genesis, root, s.bodies, s.v, s.live)
  }

  /** One import or prune; a refused import changes nothing. */
  ghost function Next(env: Env, s: ChainState, op: ChainOp): ChainState
    requires Inv(env, s.v) && s.v.head.Some?
  {
    InvLinked(env, s.v);
    match op
    case ImportBlock(b) =>
      if ImportError(env, s.v, b).None? && Fits(env, s.v.byHash, b)
      then ChainState(Imported(env, s.v, b), LiveAfter(env, s.v, s.live, b), s.bodies[env.Hash(b) := b])
      else s
    case Prune => s.(v := Pruned(s.v))
    case PruneKeep(keep) => s.(v := PrunedKeep(s.v, keep))
  }

  /** Blocks offered for import neither hash to zero nor sit at the height where numbers saturate. */
  ghost predicate Offered(env: Env, op: ChainOp) {
    op.ImportBlock? ==> env.Hash(op.b) != ZERO_HASH && op.b.header.number < U64_MAX
  }

  lemma NextOk(env: Env, genesis: World, root: H256, s: ChainState, op: ChainOp)
    requires StateOk(env, genesis, root, s) && Offered(env, op)
    ensures StateOk(env, genesis, root, Next(env, s, op))
  {
    hide Inv, HistoryOk, Imported, LiveAfter, ImportError, Pruned, PrunedKeep, Tracks;
    InvLinked(env, s.v);
    match op
    case ImportBlock(b) =>
      if ImportError(env, s.v, b).None? && Fits(env, s.v.byHash, b) {
        ImportedInv(env, genesis, root, s.bodies, s.v, s.live, b);
      }
    case Prune => PrunedInv(env, genesis, root, s.bodies, s.v, s.live);
    case PruneKeep(keep) => PrunedKeepInv(env, genesis, root, s.bodies, s.v, s.live, keep);
  }

  ghost function RunChain(env: Env, genesis: World, root: H256, s: ChainState, ops: seq<ChainOp>): (r: ChainState)
    requires StateOk(env, genesis, root, s) && forall op :: op in ops ==> Offered(env, op)
    ensures StateOk(env, genesis, root, r)
    decreases |ops|
  {
    if ops == [] then s
    else
      NextOk(env, genesis, root, s, ops[0]);
      RunChain(env, genesis, root, Next(env, s, ops[0]), ops[1..])
  }

  /** A fresh node: genesis inserted and its state recorded. */
  ghost function Start(env: Env, genesis: World, b: Block): ChainState
    requires b.header.number == 0
  {
    EmptyInv(env);
    ChainState(Inserted(env, EMPTY_VIEW, b).(snapshots := map[env.Hash(b) := genesis]), genesis, map[env.Hash(b) := b])
  }

  lemma EmptyInv(env: Env)
    ensures Inv(env, EMPTY_VIEW)
  {
  }

  lemma StartOk(env: Env, genesis: World, b: Block)
    requires b.header.number == 0 && env.Hash(b) != ZERO_HASH
    requires Synced(env.codec, genesis) && RootHash(env, genesis) == b.header.stateRoot
    ensures StateOk(env, genesis, env.Hash(b), Start(env, genesis, b))
  {
    hide RootHash, Synced, Inv, FullIndex;
    var s, h := Start(env, genesis, b), env.Hash(b);
    EmptyInv(env);
    InsertedInv(env, EMPTY_VIEW, b);
    InvIgnoresSnapshots(env, Inserted(env, EMPTY_VIEW, b), s.v.snapshots);
    assert Linked(s.bodies);
    assert Replayed(env, genesis, s.bodies, h);
  }

  /**
   Snapshots refine replay. After any run of imports and prunes from genesis: every recorded
   snapshot is the replay of the bodies on its walk with the root its header claims, and the
   live state is the replay of the head.
   */
  lemma SnapshotsRefineReplay(env: Env, genesis: World, b: Block, ops: seq<ChainOp>)
    requires b.header.number == 0 && env.Hash(b) != ZERO_HASH
    requires Synced(env.codec, genesis) && RootHash(env, genesis) == b.header.stateRoot
    requires forall op :: op in ops ==> Offered(env, op)
    ensures StateOk(env, genesis, env.Hash(b), Start(env, genesis, b))
    ensures var s := RunChain(env, genesis, env.Hash(b), Start(env, genesis, b), ops);
            && Linked(s.bodies)
            && (forall h :: h in s.v.snapshots ==>
                  && h in s.bodies && h in s.v.byHash
                  && Replay(env, genesis, s.bodies, h) == Ok(s.v.snapshots[h])
                  && RootHash(env, s.v.snapshots[h]) == s.v.byHash[h].header.stateRoot)
            && s.v.head.Some? && s.v.head.value in s.bodies
            && Replay(env, genesis, s.bodies, s.v.head.value) == Ok(s.live)
  {
    hide Start, RunChain, RootHash, Synced, Replay, Inv;
    StartOk(env, genesis, b);
    var s := RunChain(env, genesis, env.Hash(b), Start(env, genesis, b), ops);
    forall h | h in s.v.snapshots
      ensures RootHash(env, s.v.snapshots[h]) == s.v.byHash[h].header.stateRoot
    {
      assert Replayed(env, genesis, s.bodies, h);
    }
  }

  /** Supply, fees and nonces along every imported chain. */
  lemma ImportedChainAccounts(env: Env, genesis: World, root: H256, s: ChainState, h: H256)
    requires StateOk(env, genesis, root, s) && h in s.bodies
    ensures Linked(s.bodies) && Replay(env, genesis, s.bodies, h).Ok?
    ensures var w, blocks := Replay(env, genesis, s.bodies, h).value, BlocksAbove(s.bodies, h);
            && Total(w.accounts) + ChainFees(env, genesis, blocks) == Total(genesis.accounts)
            && NoncesFrom(genesis, AllTransactions(blocks))
            && NoncesAfter(genesis, w, AllTransactions(blocks))
  {
    hide Inv, Total, ChainFees, NoncesFrom, NoncesAfter, Replay, ExecuteChain, BlocksAbove, AllTransactions;
    assert Replayed(env, genesis, s.bodies, h);
    var blocks := BlocksAbove(s.bodies, h);
    ReplayIsChain(env, genesis, s.bodies, h);
    ChainConserves(env, genesis, blocks);
    ChainNonces(env, genesis, blocks);
  }

  /**
   With a genesis supply below 2^256, every transaction of a list executed on top of any
   imported block, after whatever part of the list ran through before it, fails exactly when a
   check before its first write refuses it or its recipient's code traps. So no overflow exit
   after the first write is ever taken, at any position in a block.
   */
  lemma NoLateOverflow(env: Env, genesis: World, root: H256, s: ChainState, h: H256, number: U64,
                       txs: seq<Transaction>, i: nat)
    requires StateOk(env, genesis, root, s) && h in s.bodies && Total(genesis.accounts) < TWO_256 && i < |txs|
    ensures Linked(s.bodies) && Replay(env, genesis, s.bodies, h).Ok?
    ensures var (w, gas, e) := ExecuteAll(env, Replay(env, genesis, s.bodies, h).value, 0, number, txs[..i]);
            e.None? ==>
              var r := Execute(env, DEFAULT_GAS, w, gas, number, txs[i]);
              && (r.result.Err? <==> Debit(DEFAULT_GAS, w, gas, txs[i]).Err? || Traps(env, DEFAULT_GAS, w, gas, txs[i]))
              && (r.result.Err? && r.world != w <==> Traps(env, DEFAULT_GAS, w, gas, txs[i]))
              && (Debit(DEFAULT_GAS, w, gas, txs[i]).Ok? ==> r.result != Err(Overflow))
  {
    hide *;
    ImportedChainAccounts(env, genesis, root, s, h);
    var before := Replay(env, genesis, s.bodies, h).value;
    var (w, gas, e) := ExecuteAll(env, before, 0, number, txs[..i]);
    if e.None? {
      ExecuteAllEffect(env, before, 0, number, txs[..i]);
      FailureAtomicity(env, DEFAULT_GAS, w, gas, number, txs[i]);
      TrapsParts(env, DEFAULT_GAS, w, gas, txs[i]);
    }
  }

  // ----- The mempool at a head change

  ghost function TxsAlong(blocks: Blocks, path: seq<H256>): seq<Transaction>
    requires forall h :: h in path ==> h in blocks
  {
    if path == [] then [] else TxsAlong(blocks, path[..|path| - 1]) + blocks[path[|path| - 1]].transactions
  }

  ghost function TxsOn(blocks: Blocks, tip: H256): seq<Transaction>
    requires Linked(blocks) && tip in blocks
  {
    PathShape(blocks, tip);
    TxsAlong(blocks, Path(blocks, tip))
  }

  function HashesOf(env: Env, txs: seq<Transaction>): set<H256> {
    set tx | tx in txs :: env.txHash(tx)
  }

  function Readded(env: Env, cfg: PoolConfig, p: Mempool, txs: seq<Transaction>, onNewPath: set<H256>): Mempool {
    if txs == [] then p
    else
      var n := |txs| - 1;
      var q := Readded(env, cfg, p, txs[..n], onNewPath);
      if env.txHash(txs[n]) in onNewPath then q else Added(env, cfg, q, txs[n], Local, 0)
  }

  function RemovedAll(env: Env, p: Mempool, txs: seq<Transaction>): Mempool {
    if txs == [] then p else Removed(RemovedAll(env, p, txs[..|txs| - 1]), env.txHash(txs[|txs| - 1]))
  }

  /** Old-path transactions are offered again, then everything on the new path is taken out. */
  ghost function PoolAfter(env: Env, cfg: PoolConfig, p: Mempool, blocks: Blocks, oldHead: Option<H256>,
                           newHead: H256): Mempool
    requires Linked(blocks) && newHead in blocks && (oldHead.Some? ==> oldHead.value in blocks)
  {
    var onNew := TxsOn(blocks, newHead);
    var stale := if oldHead.Some? then TxsOn(blocks, oldHead.value) else [];
    RemovedAll(env, Readded(env, cfg, p, stale, HashesOf(env, onNew)), onNew)
  }

  lemma {:induction false} RemovedAllGone(env: Env, p: Mempool, txs: seq<Transaction>)
    ensures forall tx :: tx in txs ==> env.txHash(tx) !in RemovedAll(env, p, txs).pending
    ensures RemovedAll(env, p, txs).pending.Keys <= p.pending.Keys
  {
    if txs != [] {
      var n := |txs| - 1;
      RemovedAllGone(env, p, txs[..n]);
      assert txs == txs[..n] + [txs[n]];
    }
  }

  /** After a head change nothing that is on the new path is still pending. */
  lemma NothingOnPathPending(env: Env, cfg: PoolConfig, p: Mempool, blocks: Blocks, oldHead: Option<H256>,
                             newHead: H256)
    requires Linked(blocks) && newHead in blocks && (oldHead.Some? ==> oldHead.value in blocks)
    ensures forall tx :: tx in TxsOn(blocks, newHead) ==>
              env.txHash(tx) !in PoolAfter(env, cfg, p, blocks, oldHead, newHead).pending
  {
    hide TxsOn, Readded, RemovedAll;
    var onNew := TxsOn(blocks, newHead);
    var stale := if oldHead.Some? then TxsOn(blocks, oldHead.value) else [];
    RemovedAllGone(env, Readded(env, cfg, p, stale, HashesOf(env, onNew)), onNew);
  }

  method TxsOnPath(store: BlockStore, tip: H256) returns (out: seq<Transaction>)
    requires Linked(store.byHash)
    ensures out == if tip in store.byHash then TxsOn(store.byHash, tip) else []
  {
    hide Path;
    if tip in store.byHash {
      PathShape(store.byHash, tip);
    }
    var path := store.ChainFrom(tip);
    out := [];
    for i := 0 to |path|
      invariant out == TxsAlong(store.byHash, path[..i])
    {
      if path[i] in store.byHash {
        out := out + store.byHash[path[i]].transactions;
      }
      assert path[..i + 1][..i] == path[..i];
    }
    assert path[..|path|] == path;
  }

  method ApplyHeadChange(store: BlockStore, live: StateDB, pool: TransactionPool, outcome: InsertOutcome)
    requires Linked(store.byHash) && outcome.newHead in store.byHash
    requires outcome.oldHead.Some? ==> outcome.oldHead.value in store.byHash
    requires pool.Valid() && pool.env == store.env
    modifies live, pool
    ensures pool.Valid()
    ensures live.View() == GetOr(store.snapshots, outcome.newHead, old(live.View()))
    ensures pool.P() == PoolAfter(store.env, pool.config, old(pool.P()), store.byHash, outcome.oldHead, outcome.newHead)
  {
    hide TxsOn;
    var post := store.StateAt(outcome.newHead);
    if post != null {
      live.ResetFrom(post);
    }
    var stale := [];
    if outcome.oldHead.Some? {
      stale := TxsOnPath(store, outcome.oldHead.value);
    }
    var onNew := TxsOnPath(store, outcome.newHead);
    UpdatePool(pool, stale, onNew);
  }

  method UpdatePool(pool: TransactionPool, stale: seq<Transaction>, onNew: seq<Transaction>)
    requires pool.Valid()
    modifies pool
    ensures pool.Valid()
    ensures pool.P() ==
            RemovedAll(pool.env, Readded(pool.env, pool.config, old(pool.P()), stale, HashesOf(pool.env, onNew)), onNew)
  {
    hide Added, Removed, PoolInv;
    var newHashes := HashesOf(pool.env, onNew);
    for i := 0 to |stale|
      invariant pool.Valid()
      invariant pool.P() == Readded(pool.env, pool.config, old(pool.P()), stale[..i], newHashes)
    {
      if pool.env.txHash(stale[i]) !in newHashes {
        var _ := pool.AddTransaction(stale[i], Local, 0);
      }
      assert stale[..i + 1][..i] == stale[..i];
    }
    assert stale[..|stale|] == stale;
    ghost var p := pool.P();
    for i := 0 to |onNew|
      invariant pool.Valid()
      invariant pool.P() == RemovedAll(pool.env, p, onNew[..i])
    {
      var _ := pool.RemovePending(pool.env.txHash(onNew[i]));
      assert onNew[..i + 1][..i] == onNew[..i];
    }
    assert onNew[..|onNew|] == onNew;
  }

  // ----- The import procedure

  method ExecuteBody(trial: StateDB, b: Block) returns (e: Option<ExecutionError>)
    modifies trial
    ensures var (w, _, err) := ExecuteAll(trial.env, old(trial.View()), 0, b.header.number, b.transactions);
            trial.View() == w && e == err
  {
    hide Execute;
    var exec := new Executor(trial, DEFAULT_GAS);
    var ctx := new ExecutionContext(b.header.number, b.header.timestamp);
    ghost var goal := ExecuteAll(trial.env, trial.View(), 0, b.header.number, b.transactions);
    for i := 0 to |b.transactions|
      invariant goal == ExecuteAll(trial.env, trial.View(), ctx.gasUsed, b.header.number, b.transactions[i..])
    {
      var r := exec.ExecuteTransaction(b.transactions[i], ctx);
      assert b.transactions[i..][1..] == b.transactions[i + 1..];
      if r.Err? {
        return Some(r.error);
      }
    }
    return None;
  }

  /**
   Executes the block on a copy of the parent snapshot, checks the state root, inserts, and
   follows a moved head. A refused block changes neither store, live state nor pool.
   */
  method ImportAndApply(store: BlockStore, live: StateDB, pool: TransactionPool, b: Block)
    returns (r: Result<InsertOutcome, ChainError>)
    requires store.Valid() && pool.Valid() && live.env == pool.env == store.env
    requires forall h :: h in store.snapshots ==> Synced(store.env.codec, store.snapshots[h])
    requires b.header.parentHash in store.byHash ==> store.byHash[b.header.parentHash].header.number < U64_MAX
    modifies store, live, pool
    ensures store.Valid() && pool.Valid()
    ensures ImportError(store.env, old(store.V()), b) == if r.Err? then Some(r.error) else None
    ensures r.Err? ==> store.V() == old(store.V()) && live.View() == old(live.View()) && pool.P() == old(pool.P())
    ensures r.Ok? ==>
              var env, v := store.env, old(store.V());
              && Fits(env, v.byHash, b) && r.value == OutcomeOf(env, v, b)
              && store.V() == Imported(env, v, b) && live.View() == LiveAfter(env, v, old(live.View()), b)
              && (r.value.headChanged ==>
                    && Linked(store.byHash) && r.value.newHead in store.byHash
                    && (r.value.oldHead.Some? ==> r.value.oldHead.value in store.byHash)
                    && pool.P() == PoolAfter(env, pool.config, old(pool.P()), store.byHash, r.value.oldHead,
                      r.value.newHead)
                    && forall tx :: tx in TxsOn(store.byHash, r.value.newHead) ==> env.txHash(tx) !in pool.pending)
              && (!r.value.headChanged ==> pool.P() == old(pool.P()))
  {
    hide Inv, ExecuteAll, RootHash, Synced, SyncAll, TxsOn, PoolAfter, PoolInv, Inserted, InsertError, OutcomeOf;
    var trial := store.StateAt(b.header.parentHash);
    if trial == null {
      return Err(UnknownParentState);
    }
    ghost var env, v := store.env, store.V();
    ghost var parent := trial.View();
    var failed := ExecuteBody(trial, b);
    if failed.Some? {
      return Err(ExecutionFailed(failed.value));
    }
    ExecuteAllSynced(env, parent, 0, b.header.number, b.transactions);
    var h := trial.ComputeRootHash();
    if h != b.header.stateRoot {
      return Err(InvalidStateRoot);
    }
    r := store.InsertBlock(b);
    if r.Err? {
      return;
    }
    var outcome := r.value;
    ghost var inserted := store.V();
    store.RecordState(outcome.hash, trial);
    InvIgnoresSnapshots(env, inserted, store.snapshots);
    InsertedHead(env, v, b);
    InsertedBlocks(env, v, b);
    if outcome.headChanged {
      InvLinked(env, store.V());
      InvLinked(env, v);
      OutcomeHeads(env, v, b);
      ApplyHeadChange(store, live, pool, outcome);
      NothingOnPathPending(env, pool.config, old(pool.P()), store.byHash, outcome.oldHead, outcome.newHead);
    }
  }

  lemma OutcomeHeads(env: Env, v: View, b: Block)
    requires Inv(env, v) && Fits(env, v.byHash, b)
    ensures OutcomeOf(env, v, b).oldHead == v.head
  {
    hide Path, Ancestor;
  }
}
