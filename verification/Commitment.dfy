/**
 What the checks of an import amount to over whole runs: every block the store holds was sealed
 by a validator on its parent, and every body it still holds is the one its header commits to.
 */
module Commitment {
  import opened Primitives
  import opened Ledger
  import opened State
  import opened Execution
  import opened Store
  import opened Import

  /** What a block must satisfy to be imported: an executable body leading to the claimed root, and the field checks. */
  lemma ImportedIff(env: Env, v: View, b: Block)
    requires b.header.number > 0
    ensures ImportError(env, v, b).None? <==>
              && Acceptable(env, v.byHash, b)
              && b.header.parentHash in v.snapshots
              && var r := ExecuteAll(env, v.snapshots[b.header.parentHash], 0, b.header.number, b.transactions);
                 r.2.None? && RootHash(env, r.0) == b.header.stateRoot
  {
    hide ExecuteAll, RootHash, InsertError, Acceptable;
    AcceptedIff(env, v.byHash, b);
    if b.header.parentHash in v.snapshots {
      var (w, gas, e) := ExecuteAll(env, v.snapshots[b.header.parentHash], 0, b.header.number, b.transactions);
    }
  }

  // ----- Stored bodies

  /** Stored blocks are the imported ones, perhaps with their bodies dropped. */
  ghost predicate Retains(bodies: Blocks, blocks: Blocks) {
    forall h :: h in blocks ==> h in bodies && blocks[h] in {bodies[h], Block(bodies[h].header, [], [])}
  }

  lemma NextRetains(env: Env, s: ChainState, op: ChainOp)
    requires Inv(env, s.v) && s.v.head.Some? && Retains(s.bodies, s.v.byHash) && Tracks(s.bodies, s.v.byHash)
    ensures Retains(Next(env, s, op).bodies, Next(env, s, op).v.byHash)
  {
    hide Inv, Inserted, ImportError, PostState, LiveAfter, OnPath, InWindow;
    InvLinked(env, s.v);
    match op
    case ImportBlock(b) =>
      if ImportError(env, s.v, b).None? && Fits(env, s.v.byHash, b) {
        InsertedBlocks(env, s.v, b);
      }
    case Prune =>
    case PruneKeep(keep) =>
  }

  lemma {:induction false} RunRetains(env: Env, genesis: World, root: H256, s: ChainState, ops: seq<ChainOp>)
    requires StateOk(env, genesis, root, s) && forall op :: op in ops ==> Offered(env, op)
    requires Retains(s.bodies, s.v.byHash)
    ensures var r := RunChain(env, genesis, root, s, ops); Retains(r.bodies, r.v.byHash)
    decreases |ops|
  {
    hide Inv, HistoryOk, Next, Retains, Tracks;
    if ops != [] {
      NextRetains(env, s, ops[0]);
      NextOk(env, genesis, root, s, ops[0]);
      RunRetains(env, genesis, root, Next(env, s, ops[0]), ops[1..]);
    }
  }

  lemma StartRetains(env: Env, genesis: World, b: Block)
    requires b.header.number == 0
    ensures var s := Start(env, genesis, b); Retains(s.bodies, s.v.byHash)
  {
    hide Inv, Inserted;
    EmptyInv(env);
    InsertedBlocks(env, EMPTY_VIEW, b);
  }

  lemma {:induction false} RunGenesis(env: Env, genesis: World, root: H256, s: ChainState, ops: seq<ChainOp>)
    requires StateOk(env, genesis, root, s) && forall op :: op in ops ==> Offered(env, op)
    ensures root in s.bodies
    ensures var r := RunChain(env, genesis, root, s, ops);
            root in r.bodies && r.bodies[root].transactions == s.bodies[root].transactions
    decreases |ops|
  {
    hide Inv, Next, Replayed, CacheOk;
    CacheHeadOf(env, genesis, root, s);
    if ops != [] {
      NextGenesis(env, genesis, root, s, ops[0]);
      NextOk(env, genesis, root, s, ops[0]);
      RunGenesis(env, genesis, root, Next(env, s, ops[0]), ops[1..]);
    }
  }

  lemma NextGenesis(env: Env, genesis: World, root: H256, s: ChainState, op: ChainOp)
    requires StateOk(env, genesis, root, s)
    ensures root in s.bodies && root in Next(env, s, op).bodies && Next(env, s, op).bodies[root] == s.bodies[root]
  {
    hide Inv, Inserted, ImportError, Replayed, CacheOk, Pruned, PrunedKeep, Imported, LiveAfter;
    CacheHeadOf(env, genesis, root, s);
    if op.ImportBlock? && ImportError(env, s.v, op.b).None? && Fits(env, s.v.byHash, op.b) {
      ImportFits(env, genesis, root, s.bodies, s.v, s.live, op.b);
    }
  }

  lemma CacheHeadOf(env: Env, genesis: World, root: H256, s: ChainState)
    requires StateOk(env, genesis, root, s)
    ensures s.v.head.Some?
  {
    hide Inv, HistoryOk, Replay;
  }

  // ----- Checks that hold for every imported block

  ghost predicate Vouched(env: Env, bodies: Blocks, h: H256)
    requires h in bodies
  {
    var b := bodies[h];
    && env.Hash(b) == h && Committed(env, b) && b.header.gasUsed <= b.header.gasLimit
    && (b.header.number > 0 ==> b.header.parentHash in bodies)
    && Authorised(env, b.header, if b.header.number == 0 then None else Some(bodies[b.header.parentHash].header))
  }

  ghost predicate AllVouched(env: Env, bodies: Blocks) {
    forall h :: h in bodies ==> Vouched(env, bodies, h)
  }

  lemma VouchedMore(env: Env, bodies: Blocks, b: Block)
    requires AllVouched(env, bodies) && env.Hash(b) !in bodies && b.header.number > 0
    requires b.header.parentHash in bodies && Authorised(env, b.header, Some(bodies[b.header.parentHash].header))
    requires Committed(env, b) && b.header.gasUsed <= b.header.gasLimit
    ensures AllVouched(env, bodies[env.Hash(b) := b])
  {
    hide Committed, Authorised;
    var bodies' := bodies[env.Hash(b) := b];
    forall h | h in bodies'
      ensures Vouched(env, bodies', h)
    {
      assert h in bodies ==> Vouched(env, bodies, h);
    }
  }

  lemma NextVouched(env: Env, genesis: World, root: H256, s: ChainState, op: ChainOp)
    requires StateOk(env, genesis, root, s) && AllVouched(env, s.bodies)
    ensures AllVouched(env, Next(env, s, op).bodies)
  {
    hide Inv, HistoryOk, CacheOk, AllVouched, Committed, Authorised, Imported, LiveAfter, Pruned, PrunedKeep;
    hide InsertError, ExecuteBlock, RootHash;
    CacheHeadOf(env, genesis, root, s);
    if op.ImportBlock? && ImportError(env, s.v, op.b).None? && Fits(env, s.v.byHash, op.b) {
      var b := op.b;
      ImportFits(env, genesis, root, s.bodies, s.v, s.live, b);
      AcceptedIff(env, s.v.byHash, b);
      VouchedMore(env, s.bodies, b);
    }
  }

  lemma {:induction false} RunVouched(env: Env, genesis: World, root: H256, s: ChainState, ops: seq<ChainOp>)
    requires StateOk(env, genesis, root, s) && AllVouched(env, s.bodies) && forall op :: op in ops ==> Offered(env, op)
    ensures AllVouched(env, RunChain(env, genesis, root, s, ops).bodies)
    decreases |ops|
  {
    hide Inv, HistoryOk, CacheOk, AllVouched, Next;
    CacheHeadOf(env, genesis, root, s);
    if ops != [] {
      NextVouched(env, genesis, root, s, ops[0]);
      NextOk(env, genesis, root, s, ops[0]);
      RunVouched(env, genesis, root, Next(env, s, ops[0]), ops[1..]);
    }
  }

  /** A stored block passed every check when it came in, and its body is still the one checked, or gone altogether. */
  ghost predicate Attested(env: Env, blocks: Blocks, h: H256)
    requires h in blocks
  {
    var x := blocks[h];
    && env.Hash(x) == h && x.header.gasUsed <= x.header.gasLimit
    && (x.header.number > 0 ==> x.header.parentHash in blocks)
    && Authorised(env, x.header, if x.header.number == 0 then None else Some(blocks[x.header.parentHash].header))
    && (Committed(env, x) || x == Block(x.header, [], []))
  }

  /**
   Over every run of imports and prunes from an accepted genesis: each stored block was sealed by
   a validator, is not older than its parent and stays within its gas limit; its body is the one
   that was imported, whose lists have the roots in the header, or was dropped altogether.
   */
  lemma StoredBodiesCommitted(env: Env, genesis: World, b: Block, ops: seq<ChainOp>, h: H256)
    requires env.Hash(b) != ZERO_HASH && GenesisError(env, map[], b).None?
    requires Synced(env.codec, genesis) && RootHash(env, genesis) == b.header.stateRoot
    requires forall op :: op in ops ==> Offered(env, op)
    ensures StateOk(env, genesis, env.Hash(b), Start(env, genesis, b))
    ensures var blocks := RunChain(env, genesis, env.Hash(b), Start(env, genesis, b), ops).v.byHash;
            h in blocks ==> Attested(env, blocks, h)
  {
    hide Inv, HistoryOk, CacheOk, RootHash, Synced, Inserted, RunChain, Attested, Retains, AllVouched;
    hide Committed, Authorised, Env.ValidateHeader, Env.ValidateBlock;
    var root, start := env.Hash(b), Start(env, genesis, b);
    StartOk(env, genesis, b);
    GenesisIff(env, map[], b);
    StartVouched(env, b);
    StartRetains(env, genesis, b);
    RunVouched(env, genesis, root, start, ops);
    RunRetains(env, genesis, root, start, ops);
    var s := RunChain(env, genesis, root, start, ops);
    if h in s.v.byHash {
      StoredVouched(env, s.bodies, s.v.byHash, h);
    }
  }

  lemma StartVouched(env: Env, b: Block)
    requires b.header.number == 0 && Committed(env, b) && b.header.gasUsed <= b.header.gasLimit
    requires Authorised(env, b.header, None)
    ensures AllVouched(env, map[env.Hash(b) := b])
  {
    hide Committed, Authorised;
  }

  lemma StoredVouched(env: Env, bodies: Blocks, blocks: Blocks, h: H256)
    requires AllVouched(env, bodies) && Retains(bodies, blocks) && Tracks(bodies, blocks) && h in blocks
    ensures Attested(env, blocks, h)
  {
    hide Committed, Authorised;
    assert Vouched(env, bodies, h);
  }
}
