/**
 Block import with an orphan buffer and pruning: `import_block` and `prune_store` in
 bin/ivory/src/node.rs. Network requests, metrics and events have no effect on the modelled state.
 */
module Sync {
  import opened Primitives
  import opened Ledger
  import opened State
  import opened Execution
  import opened Store
  import opened Pool
  import opened Import

  // ----- A valid linear chain

  /** `chain` hangs together from genesis, passes every check, and executes through `worlds`. */
  ghost predicate ValidChain(env: Env, chain: seq<Block>, worlds: seq<World>) {
    && 0 < |chain| == |worlds| <= U64_MAX
    && (forall i :: 0 <= i < |chain| ==> env.Hash(chain[i]) != ZERO_HASH && chain[i].header.number == i)
    && (forall i, j :: 0 <= i < j < |chain| ==> env.Hash(chain[i]) != env.Hash(chain[j]))
    && (forall i {:trigger ValidStep(env, chain, worlds, i)} :: 0 < i < |chain| ==> ValidStep(env, chain, worlds, i))
  }

  ghost predicate ValidStep(env: Env, chain: seq<Block>, worlds: seq<World>, i: nat)
    requires 0 < i < |chain| == |worlds|
  {
    ValidLink(env, chain[i - 1], chain[i], worlds[i - 1], worlds[i])
  }

  ghost predicate ValidLink(env: Env, parent: Block, b: Block, before: World, after: World) {
    && b.header.parentHash == env.Hash(parent)
    && env.ValidateHeader(b.header, Some(parent.header)).None? && env.ValidateBlock(b).None?
    && ExecuteBlock(env, before, b) == Ok(after) && RootHash(env, after) == b.header.stateRoot
  }

  /** Exactly the states of blocks `low` to `k` are recorded. */
  ghost predicate RecordsStates(env: Env, chain: seq<Block>, worlds: seq<World>, low: nat, k: nat,
                                snapshots: map<H256, World>)
    requires k < |chain| == |worlds|
  {
    && (forall i :: low <= i <= k ==> env.Hash(chain[i]) in snapshots && snapshots[env.Hash(chain[i])] == worlds[i])
    && (forall h :: h in snapshots ==> exists i :: low <= i <= k && h == env.Hash(chain[i]))
  }

  /**
   The store holds exactly the first `k + 1` blocks, bodies aside, with the states from `low`
   on, and the head is the last of them.
   */
  ghost predicate SyncedTo(env: Env, chain: seq<Block>, worlds: seq<World>, v: View, live: World, low: nat, k: nat)
    requires ValidChain(env, chain, worlds) && k < |chain|
  {
    && low <= k
    && HoldsHeaders(env, chain, k, v.byHash)
    && RecordsStates(env, chain, worlds, low, k, v.snapshots)
    && v.head == Some(env.Hash(chain[k]))
    && live == worlds[k]
  }

  /** The lowest height whose state the node keeps at head height `k`. */
  function Floor(archive: bool, keep: nat, k: nat): (low: nat)
    ensures low <= k && (archive ==> low == 0)
    ensures !archive && keep > 0 ==> (k < keep ==> low == 0) && (k >= keep ==> low == k + 1 - keep)
    ensures !archive && keep == 0 ==> low == k
  {
    if archive then 0 else SaturatingSub(k, SaturatingSub(keep, 1))
  }

  lemma FloorRises(archive: bool, keep: nat, k: nat)
    ensures Floor(archive, keep, k) <= Floor(archive, keep, k + 1)
  {
  }

  /** The orphan buffer holds exactly the blocks with index in `waiting`. */
  ghost predicate Buffers(env: Env, chain: seq<Block>, orphans: map<H256, Block>, waiting: set<nat>)
    requires forall i :: i in waiting ==> i < |chain|
  {
    && (forall i :: i in waiting ==> env.Hash(chain[i]) in orphans)
    && (forall h :: h in orphans ==> exists i :: i in waiting && h == env.Hash(chain[i]) && orphans[h] == chain[i])
  }

  /** No buffered block could be executed now: outside `open`, the state after its parent is not recorded. */
  ghost predicate Settled(orphans: map<H256, Block>, snapshots: map<H256, World>, open: set<H256>) {
    forall h :: h in orphans && orphans[h].header.parentHash in snapshots ==> orphans[h].header.parentHash in open
  }

  /** The buffered blocks on top of `hash`, unless its state is gone, are among `rest`. */
  ghost predicate Remaining(orphans: map<H256, Block>, snapshots: map<H256, World>, hash: H256, rest: seq<Block>) {
    forall h :: h in orphans && orphans[h].header.parentHash == hash && hash in snapshots ==> orphans[h] in rest
  }

  ghost predicate Submap(some: map<H256, Block>, all: map<H256, Block>) {
    forall h :: h in some ==> h in all && some[h] == all[h]
  }

  /** Nothing is buffered in `after` that was not before, but `b` may be if its parent's state is missing. */
  ghost predicate PutBack(before: map<H256, Block>, after: map<H256, Block>, snapshots: map<H256, World>, b: Block) {
    forall h :: h in after ==>
      (h in before && after[h] == before[h]) || (after[h] == b && b.header.parentHash !in snapshots)
  }

  /** States appear only for blocks that are new to the store. */
  ghost predicate OnlyNew(before: View, after: View) {
    forall h :: h in after.snapshots && h in before.byHash ==> h in before.snapshots
  }

  /** A block is buffered only when the state after its parent is missing. */
  lemma BufferedParent(env: Env, genesis: World, root: H256, bodies: Blocks, v: View, live: World, b: Block)
    requires ImportInv(env, genesis, root, bodies, v, live)
    requires ImportError(env, v, b) in {Some(UnknownParent), Some(UnknownParentState)}
    ensures b.header.parentHash !in v.snapshots
  {
    hide Inv, HistoryOk, ExecuteBlock, RootHash, Env.ValidateBlock, Env.ValidateHeader;
    assert forall h :: h in v.snapshots ==> h in v.byHash;
  }

  lemma SettledOpens(orphans: map<H256, Block>, before: map<H256, World>, after: map<H256, World>, open: set<H256>,
                     hash: H256)
    requires Settled(orphans, before, open) && after.Keys <= before.Keys + {hash}
    ensures Settled(orphans, after, open + {hash})
  {
  }

  lemma SettledCloses(orphans: map<H256, Block>, snapshots: map<H256, World>, open: set<H256>, hash: H256)
    requires Settled(orphans, snapshots, open + {hash}) && Remaining(orphans, snapshots, hash, [])
    ensures Settled(orphans, snapshots, open)
  {
  }

  lemma SettledAdds(orphans: map<H256, Block>, snapshots: map<H256, World>, open: set<H256>, hash: H256, b: Block)
    requires Settled(orphans, snapshots, open) && b.header.parentHash !in snapshots
    ensures Settled(orphans[hash := b], snapshots, open)
  {
  }

  lemma SettledFewer(some: map<H256, Block>, all: map<H256, Block>, snapshots: map<H256, World>, open: set<H256>)
    requires Settled(all, snapshots, open) && Submap(some, all)
    ensures Settled(some, snapshots, open)
  {
  }

  lemma SubmapSelf(orphans: map<H256, Block>, hash: H256)
    ensures Submap(orphans, orphans) && Submap(orphans - {hash}, orphans)
  {
  }

  /** A block put back into the buffer was in it at the start. */
  lemma SubmapNext(env: Env, all: map<H256, Block>, before: map<H256, Block>, after: map<H256, Block>,
                   snapshots: map<H256, World>, child: Block)
    requires Submap(before, all) && PutBack(before - {env.Hash(child)}, after, snapshots, child)
    requires env.Hash(child) in all && all[env.Hash(child)] == child
    requires forall h :: h in after ==> env.Hash(after[h]) == h
    ensures Submap(after, all)
  {
  }

  lemma PutBackFewer(before: map<H256, Block>, after: map<H256, Block>, snapshots: map<H256, World>, b: Block)
    requires Submap(after, before)
    ensures PutBack(before, after, snapshots, b)
  {
  }

  lemma PutBackAdds(before: map<H256, Block>, snapshots: map<H256, World>, b: Block, hash: H256)
    requires b.header.parentHash !in snapshots
    ensures PutBack(before, before[hash := b], snapshots, b)
  {
  }

  lemma OnlyNewSame(v: View)
    ensures OnlyNew(v, v)
  {
  }

  lemma OnlyNewOne(before: View, after: View, hash: H256)
    requires hash !in before.byHash && after.snapshots.Keys <= before.snapshots.Keys + {hash}
    ensures OnlyNew(before, after)
  {
  }

  lemma OnlyNewBoth(first: View, second: View, third: View)
    requires OnlyNew(first, second) && OnlyNew(second, third) && first.byHash.Keys <= second.byHash.Keys
    ensures OnlyNew(first, third)
  {
  }

  lemma AllChildren(env: Env, orphans: map<H256, Block>, snapshots: map<H256, World>, hash: H256, children: seq<Block>)
    requires forall h :: h in orphans ==> env.Hash(orphans[h]) == h
    requires forall c :: c in children <==>
               env.Hash(c) in orphans && orphans[env.Hash(c)] == c && c.header.parentHash == hash
    ensures Remaining(orphans, snapshots, hash, children)
  {
  }

  /** One waiting block was taken out, offered, and at most put back because its parent's state is gone. */
  lemma RemainingNext(env: Env, before: map<H256, Block>, v: View, after: map<H256, Block>, v': View, hash: H256,
                      children: seq<Block>, n: nat)
    requires n < |children| && hash in v.byHash && OnlyNew(v, v')
    requires children[n].header.parentHash == hash
    requires forall h :: h in before ==> env.Hash(before[h]) == h
    requires Remaining(before, v.snapshots, hash, children[n..])
    requires PutBack(before - {env.Hash(children[n])}, after, v'.snapshots, children[n])
    ensures Remaining(after, v'.snapshots, hash, children[n + 1..])
  {
    assert children[n..] == [children[n]] + children[n + 1..];
  }

  /** A block already stored is refused as a duplicate. */
  lemma StoredRefused(env: Env, chain: seq<Block>, worlds: seq<World>, v: View, live: World, low: nat, k: nat, j: nat)
    requires ValidChain(env, chain, worlds) && k < |chain| && SyncedTo(env, chain, worlds, v, live, low, k)
    requires low < j <= k
    ensures ImportError(env, v, chain[j]) == Some(DuplicateBlock)
  {
    hide RootHash, ExecuteBlock, Env.ValidateBlock, Env.ValidateHeader;
    assert ValidStep(env, chain, worlds, j);
  }

  /** The next block is accepted. */
  lemma NextAccepted(env: Env, chain: seq<Block>, worlds: seq<World>, v: View, live: World, low: nat, k: nat)
    requires ValidChain(env, chain, worlds) && k + 1 < |chain| && SyncedTo(env, chain, worlds, v, live, low, k)
    ensures ImportError(env, v, chain[k + 1]).None? && PostState(env, v, chain[k + 1]) == worlds[k + 1]
    ensures Fits(env, v.byHash, chain[k + 1])
  {
    hide RootHash, ExecuteBlock, Env.ValidateBlock, Env.ValidateHeader, ValidChain, HoldsHeaders;
    StepParts(env, chain, worlds, k + 1);
    NextHashNew(env, chain, worlds, k);
    HashesHeld(env, chain, v.byHash, k, chain[k + 1]);
    NumberOf(env, chain, worlds, v.byHash, k, k);
  }

  lemma StepParts(env: Env, chain: seq<Block>, worlds: seq<World>, i: nat)
    requires ValidChain(env, chain, worlds) && 0 < i < |chain|
    ensures |chain| == |worlds| <= U64_MAX && chain[i].header.number == i
    ensures ValidLink(env, chain[i - 1], chain[i], worlds[i - 1], worlds[i])
  {
    hide ValidLink;
    assert ValidStep(env, chain, worlds, i);
  }

  lemma HashesHeld(env: Env, chain: seq<Block>, blocks: Blocks, k: nat, b: Block)
    requires k < |chain| && HoldsHeaders(env, chain, k, blocks)
    requires forall i :: 0 <= i <= k ==> env.Hash(chain[i]) != env.Hash(b)
    ensures env.Hash(b) !in blocks
    ensures env.Hash(chain[k]) in blocks && blocks[env.Hash(chain[k])].header == chain[k].header
  {
  }

  /** A block further up has no parent state yet, one far below no parent state any more. */
  lemma OutsideOrphaned(env: Env, chain: seq<Block>, worlds: seq<World>, v: View, live: World, low: nat, k: nat, j: nat)
    requires ValidChain(env, chain, worlds) && k < |chain| && SyncedTo(env, chain, worlds, v, live, low, k)
    requires 1 <= j <= low || k + 1 < j < |chain|
    ensures ImportError(env, v, chain[j]) == Some(UnknownParentState)
  {
    hide RootHash, ExecuteBlock, Env.ValidateBlock, Env.ValidateHeader;
    assert ValidStep(env, chain, worlds, j);
    assert env.Hash(chain[j - 1]) !in v.snapshots;
  }

  lemma NextSynced(env: Env, chain: seq<Block>, worlds: seq<World>, v: View, live: World, low: nat, k: nat)
    requires ValidChain(env, chain, worlds) && k + 1 < |chain| && SyncedTo(env, chain, worlds, v, live, low, k)
    requires Inv(env, v)
    ensures ImportError(env, v, chain[k + 1]).None? && Fits(env, v.byHash, chain[k + 1])
    ensures SyncedTo(env, chain, worlds, Imported(env, v, chain[k + 1]), LiveAfter(env, v, live, chain[k + 1]),
            low, k + 1)
  {
    hide Inv, ImportError, PostState, Inserted, OutcomeOf, ValidLink, Fits, SyncedTo, HoldsHeaders;
    var b := chain[k + 1];
    NextAccepted(env, chain, worlds, v, live, low, k);
    InsertedBlocks(env, v, b);
    InsertedHead(env, v, b);
    SyncedHead(env, chain, worlds, v, live, low, k);
    TallerTakes(env, v, b);
    SyncedGrows(env, chain, worlds, v, live, Imported(env, v, b), low, k);
  }

  lemma SyncedHead(env: Env, chain: seq<Block>, worlds: seq<World>, v: View, live: World, low: nat, k: nat)
    requires ValidChain(env, chain, worlds) && k < |chain| && SyncedTo(env, chain, worlds, v, live, low, k)
    ensures v.head.Some? && v.head.value in v.byHash && v.byHash[v.head.value].header.number == k
  {
    hide ValidLink;
  }

  lemma SyncedGrows(env: Env, chain: seq<Block>, worlds: seq<World>, v: View, live: World, v': View, low: nat, k: nat)
    requires ValidChain(env, chain, worlds) && k + 1 < |chain| && SyncedTo(env, chain, worlds, v, live, low, k)
    requires var h := env.Hash(chain[k + 1]);
             && v'.byHash == v.byHash[h := chain[k + 1]] && v'.snapshots == v.snapshots[h := worlds[k + 1]]
             && v'.head == Some(h)
    ensures SyncedTo(env, chain, worlds, v', worlds[k + 1], low, k + 1)
  {
    hide HoldsHeaders, RecordsStates, ValidChain;
    NextHashNew(env, chain, worlds, k);
    HeadersGrow(env, chain, v.byHash, k);
    RecordsGrows(env, chain, worlds, v.snapshots, low, k);
  }

  lemma NextHashNew(env: Env, chain: seq<Block>, worlds: seq<World>, k: nat)
    requires ValidChain(env, chain, worlds) && k + 1 < |chain|
    ensures |chain| == |worlds|
    ensures forall i :: 0 <= i <= k ==> env.Hash(chain[i]) != env.Hash(chain[k + 1])
  {
  }

  lemma HeadersGrow(env: Env, chain: seq<Block>, blocks: Blocks, k: nat)
    requires k + 1 < |chain| && HoldsHeaders(env, chain, k, blocks)
    requires forall i :: 0 <= i <= k ==> env.Hash(chain[i]) != env.Hash(chain[k + 1])
    ensures HoldsHeaders(env, chain, k + 1, blocks[env.Hash(chain[k + 1]) := chain[k + 1]])
  {
  }

  lemma RecordsGrows(env: Env, chain: seq<Block>, worlds: seq<World>, snapshots: map<H256, World>, low: nat, k: nat)
    requires low <= k && k + 1 < |chain| == |worlds| && RecordsStates(env, chain, worlds, low, k, snapshots)
    requires forall i :: 0 <= i <= k ==> env.Hash(chain[i]) != env.Hash(chain[k + 1])
    ensures RecordsStates(env, chain, worlds, low, k + 1, snapshots[env.Hash(chain[k + 1]) := worlds[k + 1]])
  {
  }

  lemma ChainFollows(env: Env, chain: seq<Block>, worlds: seq<World>, i: nat)
    requires ValidChain(env, chain, worlds) && 0 < i < |chain|
    ensures Follows(env, chain, i)
  {
    hide ExecuteBlock, RootHash, Env.ValidateBlock, Env.ValidateHeader;
    assert ValidStep(env, chain, worlds, i);
  }

  /** On a linear chain the walk to the head lists the stored blocks. */
  lemma ChainOnWalk(env: Env, chain: seq<Block>, worlds: seq<World>, v: View, live: World, low: nat, k: nat)
    requires ValidChain(env, chain, worlds) && k < |chain| && SyncedTo(env, chain, worlds, v, live, low, k)
    requires Linked(v.byHash)
    ensures v.head.Some? && v.head.value in v.byHash && v.byHash[v.head.value].header.number == k
    ensures forall h :: h in v.byHash ==> h in Path(v.byHash, v.head.value)
  {
    hide Path, ValidLink, RecordsStates;
    forall i | 0 < i <= k
      ensures Follows(env, chain, i)
    {
      ChainFollows(env, chain, worlds, i);
    }
    PrefixOnPath(env, chain, v.byHash, k, k);
    var path := Path(v.byHash, env.Hash(chain[k]));
    forall h | h in v.byHash
      ensures h in path
    {
      var i :| 0 <= i <= k && h == env.Hash(chain[i]);
      assert path[i] == h;
    }
  }

  /** Recorded states belong to stored blocks. */
  lemma RecordsStored(env: Env, chain: seq<Block>, worlds: seq<World>, v: View, live: World, low: nat, k: nat)
    requires ValidChain(env, chain, worlds) && k < |chain| && SyncedTo(env, chain, worlds, v, live, low, k)
    ensures forall h :: h in v.snapshots ==> h in v.byHash
  {
    hide ValidChain;
    forall h | h in v.snapshots
      ensures h in v.byHash
    {
      var i :| low <= i <= k && h == env.Hash(chain[i]);
    }
  }

  /** So in archive mode pruning removes nothing. */
  lemma PruneKeepsChain(env: Env, chain: seq<Block>, worlds: seq<World>, v: View, live: World, low: nat, k: nat)
    requires ValidChain(env, chain, worlds) && k < |chain| && SyncedTo(env, chain, worlds, v, live, low, k)
    requires Linked(v.byHash)
    ensures v.head.Some? && v.head.value in v.byHash && Pruned(v) == v
  {
    hide Path, ValidChain, HoldsHeaders, RecordsStates;
    ChainOnWalk(env, chain, worlds, v, live, low, k);
    RecordsStored(env, chain, worlds, v, live, low, k);
  }

  /** Otherwise it drops exactly the states, and bodies, below the window. */
  lemma PruneKeepsWindow(env: Env, chain: seq<Block>, worlds: seq<World>, v: View, live: World, low: nat, k: nat,
                         keep: nat)
    requires ValidChain(env, chain, worlds) && k < |chain| && SyncedTo(env, chain, worlds, v, live, low, k)
    requires Linked(v.byHash) && low <= Floor(false, keep, k)
    ensures v.head.Some? && v.head.value in v.byHash
    ensures SyncedTo(env, chain, worlds, PrunedKeep(v, keep), live, Floor(false, keep, k), k)
  {
    hide Path, ValidLink, HoldsHeaders, RecordsStates;
    ChainOnWalk(env, chain, worlds, v, live, low, k);
    RecordsStored(env, chain, worlds, v, live, low, k);
    HeadersDropped(env, chain, k, v.byHash, Floor(false, keep, k));
    WindowStates(env, chain, worlds, v, live, low, k, Floor(false, keep, k));
  }

  lemma HeadersDropped(env: Env, chain: seq<Block>, k: nat, blocks: Blocks, cutoff: nat)
    requires k < |chain| && HoldsHeaders(env, chain, k, blocks)
    ensures HoldsHeaders(env, chain, k, Dropped(blocks, cutoff))
  {
  }

  lemma WindowStates(env: Env, chain: seq<Block>, worlds: seq<World>, v: View, live: World, low: nat, k: nat,
                     cutoff: nat)
    requires ValidChain(env, chain, worlds) && k < |chain| && SyncedTo(env, chain, worlds, v, live, low, k)
    requires Linked(v.byHash) && v.head.Some? && v.head.value in v.byHash && low <= cutoff <= k
    requires forall h :: h in v.byHash ==> h in Path(v.byHash, v.head.value)
    ensures RecordsStates(env, chain, worlds, cutoff, k, AtLeast(v.snapshots, v.byHash, v.head.value, cutoff))
  {
    hide Path, ValidLink, AtLeast, HoldsHeaders;
    var kept := AtLeast(v.snapshots, v.byHash, v.head.value, cutoff);
    forall h | h in kept
      ensures exists i :: cutoff <= i <= k && h == env.Hash(chain[i])
    {
      AtLeastParts(v.snapshots, v.byHash, v.head.value, cutoff, h);
      var i :| low <= i <= k && h == env.Hash(chain[i]);
      NumberOf(env, chain, worlds, v.byHash, k, i);
    }
    forall i | cutoff <= i <= k
      ensures env.Hash(chain[i]) in kept && kept[env.Hash(chain[i])] == worlds[i]
    {
      NumberOf(env, chain, worlds, v.byHash, k, i);
      AtLeastParts(v.snapshots, v.byHash, v.head.value, cutoff, env.Hash(chain[i]));
    }
  }

  lemma AtLeastParts(snapshots: map<H256, World>, blocks: Blocks, head: H256, cutoff: nat, h: H256)
    requires Linked(blocks) && head in blocks && forall x :: x in blocks ==> x in Path(blocks, head)
    ensures var kept := AtLeast(snapshots, blocks, head, cutoff);
            && (h in kept <==> h in snapshots && h in blocks && blocks[h].header.number >= cutoff)
            && (h in kept ==> kept[h] == snapshots[h])
  {
    hide Path;
  }

  lemma NumberOf(env: Env, chain: seq<Block>, worlds: seq<World>, blocks: Blocks, k: nat, i: nat)
    requires ValidChain(env, chain, worlds) && i <= k < |chain| && HoldsHeaders(env, chain, k, blocks)
    ensures env.Hash(chain[i]) in blocks && blocks[env.Hash(chain[i])].header.number == i
  {
    hide ValidLink;
  }

  // ----- The node

  /** A block the node may be handed: not hashing to zero, below the saturation height. */
  ghost predicate Sane(env: Env, b: Block) {
    env.Hash(b) != ZERO_HASH && b.header.number < U64_MAX
  }

  /** A store holding genesis and its state. */
  method OpenStore(env: Env, b: Block, state: StateDB) returns (store: BlockStore)
    requires state.env == env && b.header.number == 0 && env.Hash(b) != ZERO_HASH
    requires GenesisError(env, map[], b).None?
    requires Synced(env.codec, state.View()) && RootHash(env, state.View()) == b.header.stateRoot
    ensures fresh(store) && store.env == env && store.Valid()
    ensures ChainState(store.V(), state.View(), map[env.Hash(b) := b]) == Start(env, state.View(), b)
    ensures StateOk(env, state.View(), env.Hash(b), Start(env, state.View(), b))
  {
    hide Inserted, RootHash, Synced, Inv;
    EmptyInv(env);
    store := new BlockStore(env);
    var r := store.InsertGenesis(b);
    store.RecordState(env.Hash(b), state);
    StartOk(env, state.View(), b);
  }

  /** What stays buffered when the node has come to `k`: later blocks, and old ones up to `low`. */
  ghost function Left(indices: set<nat>, low: nat, k: nat): set<nat> {
    set i | i in indices && (i <= low || i > k)
  }

  lemma LeftAdvanced(waiting: set<nat>, low: nat, low': nat, k: nat, k': nat)
    requires low <= k && low <= low' <= k + 1 <= k' && forall i :: i in waiting ==> i <= low || k + 1 < i
    ensures Left(waiting + {k + 1}, low, k') == Left(waiting, low', k')
  {
  }

  lemma NoneLeft(waiting: set<nat>, low: nat, k: nat)
    requires forall i :: i in waiting ==> i <= low || k < i
    ensures Left(waiting, low, k) == waiting
  {
  }

  lemma LeftStays(waiting: set<nat>, low: nat, k: nat, j: nat)
    requires (forall i :: i in waiting ==> i <= low || k + 1 < i) && (j <= low || j > k)
    ensures Left(waiting + {j}, low, k) == waiting + {j}
  {
  }

  lemma LeftKnown(waiting: set<nat>, low: nat, k: nat, j: nat)
    requires (forall i :: i in waiting ==> i <= low || k + 1 < i) && low < j <= k
    ensures Left(waiting + {j}, low, k) == waiting
  {
  }

  class Node {
    const env: Env
    const store: BlockStore
    const live: StateDB
    const pool: TransactionPool
    const archive: bool
    const archiveKeep: nat
    var orphans: map<H256, Block>

    // Specification only: the genesis state and hash, and every imported block with its body
    ghost const genesis: World
    ghost const root: H256
    ghost var bodies: Blocks

    ghost predicate Valid()
      reads this, store, live, pool
    {
      && store.env == live.env == pool.env == env
      && store.Valid() && pool.Valid()
      && ImportInv(env, genesis, root, bodies, store.V(), live.View())
      && forall h :: h in orphans ==> env.Hash(orphans[h]) == h && Sane(env, orphans[h])
    }

    /** A fresh node holding only genesis. */
    constructor (env: Env, b: Block, state: StateDB, config: PoolConfig, archive: bool, archiveKeep: nat)
      requires state.env == env && b.header.number == 0 && env.Hash(b) != ZERO_HASH
      requires GenesisError(env, map[], b).None?
      requires Synced(env.codec, state.View()) && RootHash(env, state.View()) == b.header.stateRoot
      ensures Valid() && orphans == map[] && this.env == env
      ensures this.archive == archive && this.archiveKeep == archiveKeep
      ensures ChainState(store.V(), live.View(), bodies) == Start(env, state.View(), b)
      ensures genesis == state.View() && root == env.Hash(b)
      ensures fresh(store) && fresh(pool) && live == state
    {
      hide Start, ImportInv, RootHash, Synced, Inv, PoolInv;
      this.env, this.archive, this.archiveKeep, this.live := env, archive, archiveKeep, state;
      var st := OpenStore(env, b, state);
      this.store := st;
      this.pool := new TransactionPool(env, config);
      orphans := map[];
      genesis, root, bodies := state.View(), env.Hash(b), map[env.Hash(b) := b];
    }

    method PruneStore()
      requires Valid()
      modifies store
      ensures Valid()
      ensures Linked(old(store.byHash)) && old(store.head).Some? && old(store.head).value in old(store.byHash)
      ensures store.V() == if archive then Pruned(old(store.V())) else PrunedKeep(old(store.V()), archiveKeep)
    {
      hide Inv, ImportInv, OnPath, InWindow, Dropped, PoolInv;
      ghost var v := store.V();
      InvLinked(env, v);
      ImportHead(env, genesis, root, bodies, v, live.View());
      if archive {
        PrunedInv(env, genesis, root, bodies, v, live.View());
        store.PruneSnapshots();
      } else {
        PrunedKeepInv(env, genesis, root, bodies, v, live.View(), archiveKeep);
        store.PruneSnapshotsKeep(archiveKeep);
      }
    }

    /**
     On the way along `chain`: synced to `k`, with the blocks in `waiting` buffered. Those lie
     above `next`, or so far below that their parent's state is gone.
     */
    ghost predicate Along(chain: seq<Block>, worlds: seq<World>, k: nat, waiting: set<nat>, next: nat)
      reads this, store, live, pool
    {
      && ValidChain(env, chain, worlds) && k < |chain|
      && (forall i :: i in waiting ==> 1 <= i < |chain| && (i <= Floor(archive, archiveKeep, k) || next < i))
      && SyncedTo(env, chain, worlds, store.V(), live.View(), Floor(archive, archiveKeep, k), k)
      && Buffers(env, chain, orphans, waiting)
    }

    /** Between deliveries the next block of the chain is never among the buffered ones. */
    ghost predicate At(chain: seq<Block>, worlds: seq<World>, k: nat, waiting: set<nat>)
      reads this, store, live, pool
    {
      Along(chain, worlds, k, waiting, k + 1)
    }

    method ImportOne(b: Block) returns (r: Result<InsertOutcome, ChainError>)
      requires Valid() && Sane(env, b)
      modifies this`bodies, store, live, pool
      ensures Valid()
      ensures ImportError(env, old(store.V()), b) == if r.Err? then Some(r.error) else None
      ensures r.Err? ==> store.V() == old(store.V()) && live.View() == old(live.View())
      ensures r.Ok? ==> Fits(env, old(store.byHash), b)
                        && store.V() == Imported(env, old(store.V()), b)
                        && live.View() == LiveAfter(env, old(store.V()), old(live.View()), b)
    {
      hide Inv, ImportInv, Imported, LiveAfter, ImportError, PoolInv, Synced, TxsOn, PoolAfter;
      ghost var v, before := store.V(), live.View();
      ImportReady(env, genesis, root, bodies, v, before);
      r := ImportAndApply(store, live, pool, b);
      if r.Ok? {
        ImportedInv(env, genesis, root, bodies, v, before, b);
        bodies := bodies[env.Hash(b) := b];
      }
    }

    /** Buffered blocks whose parent is `parent`. */
    method ChildrenOf(parent: H256) returns (children: seq<Block>)
      requires forall h :: h in orphans ==> env.Hash(orphans[h]) == h
      ensures forall c :: c in children <==>
              env.Hash(c) in orphans && orphans[env.Hash(c)] == c && c.header.parentHash == parent
      ensures forall i, j :: 0 <= i < |children| && 0 <= j < |children| && children[i] == children[j] ==> i == j
    {
      children := [];
      var left := orphans.Keys;
      while left != {}
        invariant left <= orphans.Keys
        invariant forall c :: c in children <==>
          env.Hash(c) in orphans.Keys - left && orphans[env.Hash(c)] == c && c.header.parentHash == parent
        invariant forall i, j :: 0 <= i < j < |children| ==> children[i] != children[j]
      {
        var h :| h in left;
        if orphans[h].header.parentHash == parent {
          children := children + [orphans[h]];
        }
        left := left - {h};
      }
    }

    /** Imports one block and prunes; on a linear chain this is one step forward, or none. */
    method ImportAndPrune(b: Block, ghost chain: seq<Block>, ghost worlds: seq<World>,
                          ghost k: nat, ghost waiting: set<nat>, ghost j: nat)
      returns (r: Result<InsertOutcome, ChainError>)
      requires Valid() && Sane(env, b)
      requires chain != [] ==> At(chain, worlds, k, waiting) && 1 <= j < |chain| && b == chain[j]
      modifies this`bodies, store, live, pool
      ensures Valid()
      ensures ImportError(env, old(store.V()), b) == if r.Err? then Some(r.error) else None
      ensures r.Err? ==> store.V() == old(store.V()) && live.View() == old(live.View())
      ensures r.Ok? ==> env.Hash(b) !in old(store.byHash) && store.byHash.Keys == old(store.byHash).Keys + {env.Hash(b)}
      ensures r.Ok? ==> store.snapshots.Keys <= old(store.snapshots).Keys + {env.Hash(b)}
      ensures r.Err? && r.error in {UnknownParent, UnknownParentState} ==> b.header.parentHash !in store.snapshots
      ensures chain != [] ==>
                && (r.Ok? <==> j == k + 1)
                && (j <= Floor(archive, archiveKeep, k) || j > k + 1 ==> r == Err(UnknownParentState))
                && (Floor(archive, archiveKeep, k) < j <= k ==> r == Err(DuplicateBlock))
      ensures chain != [] && r.Ok? ==> Along(chain, worlds, k + 1, waiting, k + 1)
    {
      hide Inv, ImportInv, Imported, LiveAfter, ImportError, PoolInv, Pruned, PrunedKeep, SyncedTo, Buffers, ValidChain;
      ghost var v, before, low := store.V(), live.View(), Floor(archive, archiveKeep, k);
      r := ImportOne(b);
      if chain != [] {
        Outcomes(env, chain, worlds, v, before, low, k, j);
      }
      if r.Ok? {
        ImportedKeys(env, v, b);
        ghost var v1 := store.V();
        PruneStore();
        PrunedKeys(v1, archiveKeep);
        PrunedFewer(v1, archiveKeep);
        if chain != [] {
          NextSynced(env, chain, worlds, v, before, low, k);
          FloorRises(archive, archiveKeep, k);
          if archive {
            PruneKeepsChain(env, chain, worlds, v1, live.View(), low, k + 1);
          } else {
            PruneKeepsWindow(env, chain, worlds, v1, live.View(), low, k + 1, archiveKeep);
          }
        }
      } else if r.error in {UnknownParent, UnknownParentState} {
        BufferedParent(env, genesis, root, old(bodies), v, before, b);
      }
    }

    /**
     Imports a block, then every buffered block that was waiting for it; a block whose parent
     or parent state is missing is buffered. Terminates in any state. For the blocks of a
     valid linear chain the ghost arguments track how far the node has come.
     */
    method ImportBlock(b: Block, ghost chain: seq<Block>, ghost worlds: seq<World>,
                       ghost k: nat, ghost waiting: set<nat>, ghost j: nat, ghost open: set<H256>)
      returns (ghost k': nat)
      requires Valid() && Sane(env, b) && Settled(orphans, store.snapshots, open)
      requires chain != [] ==> At(chain, worlds, k, waiting) && 1 <= j < |chain| && b == chain[j]
      modifies this, store, live, pool
      ensures Valid()
      ensures Settled(orphans, store.snapshots, open)
      ensures PutBack(old(orphans), orphans, store.snapshots, b) && OnlyNew(old(store.V()), store.V())
      ensures old(store.byHash).Keys <= store.byHash.Keys && orphans.Keys <= old(orphans).Keys + {env.Hash(b)}
      ensures chain != [] ==>
                k <= k' && At(chain, worlds, k', Left(waiting + {j}, Floor(archive, archiveKeep, k), k'))
      ensures chain != [] ==> forall i :: k < i <= k' ==> i in waiting + {j}
      decreases orphans.Keys + {env.Hash(b)} - store.byHash.Keys, 0
    {
      hide Inv, ImportInv, ImportError, PoolInv, SyncedTo, Buffers, ValidChain, Left, Floor;
      hide Settled, Remaining, Submap, PutBack, OnlyNew;
      SubmapSelf(orphans, env.Hash(b));
      OnlyNewSame(store.V());
      ghost var low := Floor(archive, archiveKeep, k);
      k' := k;
      var r := ImportAndPrune(b, chain, worlds, k, waiting, j);
      if r.Ok? {
        OnlyNewOne(old(store.V()), store.V(), env.Hash(b));
        ghost var v := store.V();
        SettledOpens(orphans, old(store.snapshots), store.snapshots, open, env.Hash(b));
        k' := Resolve(env.Hash(b), chain, worlds, k + 1, waiting, open);
        PutBackFewer(old(orphans), orphans, store.snapshots, b);
        OnlyNewBoth(old(store.V()), v, store.V());
        if chain != [] {
          FloorRises(archive, archiveKeep, k);
          LeftAdvanced(waiting, low, Floor(archive, archiveKeep, k + 1), k, k');
        }
      } else if r.error in {UnknownParent, UnknownParentState} {
        Buffer(b, chain, worlds, k, waiting, j, open);
      } else {
        PutBackFewer(orphans, orphans, store.snapshots, b);
        if chain != [] {
          LeftKnown(waiting, low, k, j);
        }
      }
    }

    /** Offers every buffered block that was waiting for the one just imported. */
    method Resolve(hash: H256, ghost chain: seq<Block>, ghost worlds: seq<World>,
                   ghost k: nat, ghost waiting: set<nat>, ghost open: set<H256>)
      returns (ghost k': nat)
      requires Valid() && hash in store.byHash && Settled(orphans, store.snapshots, open + {hash})
      requires chain != [] ==> Along(chain, worlds, k, waiting, k) && hash == env.Hash(chain[k])
      modifies this, store, live, pool
      ensures Valid()
      ensures Settled(orphans, store.snapshots, open)
      ensures Submap(orphans, old(orphans)) && OnlyNew(old(store.V()), store.V())
      ensures old(store.byHash).Keys <= store.byHash.Keys && orphans.Keys <= old(orphans).Keys
      ensures chain != [] ==> k <= k' && At(chain, worlds, k', Left(waiting, Floor(archive, archiveKeep, k), k'))
      ensures chain != [] ==> forall i :: k < i <= k' ==> i in waiting
      decreases orphans.Keys - store.byHash.Keys, 2
    {
      hide Inv, ImportInv, PoolInv, SyncedTo, Buffers, ValidChain, Left, Floor;
      hide Settled, Remaining, Submap, OnlyNew;
      var children := ChildrenOf(hash);
      if chain != [] {
        OnlyChild(env, chain, worlds, k, orphans, waiting, children);
      }
      AllChildren(env, orphans, store.snapshots, hash, children);
      k' := ImportChildren(hash, children, chain, worlds, k, waiting, open);
    }

    /** Buffers a block whose parent's state is missing. */
    method Buffer(b: Block, ghost chain: seq<Block>, ghost worlds: seq<World>,
                  ghost k: nat, ghost waiting: set<nat>, ghost j: nat, ghost open: set<H256>)
      requires Valid() && Sane(env, b) && Settled(orphans, store.snapshots, open)
      requires b.header.parentHash !in store.snapshots
      requires chain != [] ==> At(chain, worlds, k, waiting) && 1 <= j < |chain| && b == chain[j]
      requires chain != [] ==> j <= Floor(archive, archiveKeep, k) || j > k + 1
      modifies this`orphans
      ensures Valid() && orphans == old(orphans)[env.Hash(b) := b]
      ensures Settled(orphans, store.snapshots, open) && PutBack(old(orphans), orphans, store.snapshots, b)
      ensures chain != [] ==> At(chain, worlds, k, Left(waiting + {j}, Floor(archive, archiveKeep, k), k))
    {
      hide Inv, ImportInv, PoolInv, SyncedTo, Buffers, ValidChain, Left, Floor, Settled, PutBack;
      SettledAdds(orphans, store.snapshots, open, env.Hash(b), b);
      PutBackAdds(orphans, store.snapshots, b, env.Hash(b));
      orphans := orphans[env.Hash(b) := b];
      if chain != [] {
        BuffersAdd(env, chain, old(orphans), waiting, j);
        LeftStays(waiting, Floor(archive, archiveKeep, k), k, j);
      }
    }

    /** Takes a block out of the buffer to offer it again. */
    method TakeOut(child: Block, ghost chain: seq<Block>, ghost worlds: seq<World>,
                   ghost k: nat, ghost waiting: set<nat>, ghost open: set<H256>)
      requires Valid() && Settled(orphans, store.snapshots, open)
      requires chain != [] ==> Along(chain, worlds, k, waiting, k) && k + 1 in waiting && child == chain[k + 1]
      modifies this`orphans
      ensures Valid() && orphans == old(orphans) - {env.Hash(child)}
      ensures Settled(orphans, store.snapshots, open)
      ensures chain != [] ==> At(chain, worlds, k, waiting - {k + 1})
    {
      hide Inv, ImportInv, PoolInv, SyncedTo, Buffers, ValidChain, Floor, Settled, Submap;
      SubmapSelf(orphans, env.Hash(child));
      SettledFewer(orphans - {env.Hash(child)}, orphans, store.snapshots, open);
      if chain != [] {
        BuffersRemove(env, chain, worlds, orphans, waiting, k + 1);
      }
      orphans := orphans - {env.Hash(child)};
    }

    method ImportChildren(hash: H256, children: seq<Block>, ghost chain: seq<Block>, ghost worlds: seq<World>,
                          ghost k: nat, ghost waiting: set<nat>, ghost open: set<H256>)
      returns (ghost k': nat)
      requires Valid() && hash in store.byHash && Settled(orphans, store.snapshots, open + {hash})
      requires forall c :: c in children ==>
                 env.Hash(c) in orphans && orphans[env.Hash(c)] == c && c.header.parentHash == hash
      requires Remaining(orphans, store.snapshots, hash, children)
      requires chain != [] ==> Along(chain, worlds, k, waiting, k)
      requires chain != [] ==> if k + 1 in waiting then children == [chain[k + 1]] else children == []
      modifies this, store, live, pool
      ensures Valid()
      ensures Settled(orphans, store.snapshots, open)
      ensures Submap(orphans, old(orphans)) && OnlyNew(old(store.V()), store.V())
      ensures old(store.byHash).Keys <= store.byHash.Keys && orphans.Keys <= old(orphans).Keys
      ensures chain != [] ==> k <= k' && At(chain, worlds, k', Left(waiting, Floor(archive, archiveKeep, k), k'))
      ensures chain != [] ==> forall i :: k < i <= k' ==> i in waiting
      decreases orphans.Keys - store.byHash.Keys, 1
    {
      hide Inv, ImportInv, PoolInv, SyncedTo, Buffers, ValidChain, Left, Floor;
      hide Settled, Remaining, Submap, PutBack, OnlyNew;
      k' := k;
      ghost var first := orphans;
      SubmapSelf(orphans, hash);
      OnlyNewSame(store.V());
      assert children[0..] == children;
      for n := 0 to |children|
        invariant Valid()
        invariant old(store.byHash).Keys <= store.byHash.Keys && orphans.Keys <= old(orphans).Keys
        invariant Settled(orphans, store.snapshots, open + {hash}) && OnlyNew(old(store.V()), store.V())
        invariant Submap(orphans, old(orphans)) && Remaining(orphans, store.snapshots, hash, children[n..])
        invariant chain != [] && n == 0 ==> k' == k && orphans == first && Along(chain, worlds, k, waiting, k)
        invariant chain != [] && n > 0 ==>
                  k <= k' && At(chain, worlds, k', Left(waiting, Floor(archive, archiveKeep, k), k'))
        invariant chain != [] && n > 0 ==> forall i :: k < i <= k' ==> i in waiting
      {
        var child := children[n];
        assert child in children;
        ghost var before, v := orphans, store.V();
        TakeOut(child, chain, worlds, k, waiting, open + {hash});
        assert k + 1 in waiting ==> waiting - {k + 1} + {k + 1} == waiting;
        k' := ImportBlock(child, chain, worlds, k, waiting - {k + 1}, k + 1, open + {hash});
        SubmapNext(env, first, before, orphans, store.snapshots, child);
        OnlyNewBoth(old(store.V()), v, store.V());
        RemainingNext(env, before, v, orphans, store.V(), hash, children, n);
      }
      assert children[|children|..] == [];
      SettledCloses(orphans, store.snapshots, open, hash);
      if chain != [] && children == [] {
        NoneLeft(waiting, Floor(archive, archiveKeep, k), k);
      }
    }

    /**
     Blocks of any kind in any order, forks included: no block is left waiting in the buffer
     whose parent's state is there to execute it on.
     */
    method DeliverAny(blocks: seq<Block>)
      requires Valid() && Settled(orphans, store.snapshots, {})
      requires forall i :: 0 <= i < |blocks| ==> Sane(env, blocks[i])
      modifies this, store, live, pool
      ensures Valid() && old(store.byHash).Keys <= store.byHash.Keys
      ensures forall h :: h in orphans ==> orphans[h].header.parentHash !in store.snapshots
    {
      hide Inv, ImportInv, PoolInv, PutBack, OnlyNew, Sane;
      for n := 0 to |blocks|
        invariant Valid() && Settled(orphans, store.snapshots, {})
        invariant old(store.byHash).Keys <= store.byHash.Keys
      {
        ghost var _ := ImportBlock(blocks[n], [], [], 0, {}, 0, {});
      }
    }

    /**
     Out-of-order sync: the non-genesis blocks of a valid chain, delivered in any order and
     with repetitions, leave the node at the tip with the fully replayed state once each of
     them has been delivered. An archive node then has no buffered blocks. A pruning node
     buffers at most blocks that came again after their parent's state was pruned.
     */
    method Deliver(order: seq<nat>, blocks: seq<Block>, ghost chain: seq<Block>, ghost worlds: seq<World>)
      requires Valid() && At(chain, worlds, 0, {}) && Settled(orphans, store.snapshots, {})
      requires |blocks| == |order|
      requires forall n :: 0 <= n < |order| ==> 1 <= order[n] < |chain| && blocks[n] == chain[order[n]]
      requires forall i :: 1 <= i < |chain| ==> i in order
      modifies this, store, live, pool
      ensures Valid()
      ensures store.head == Some(env.Hash(chain[|chain| - 1])) && live.View() == worlds[|chain| - 1]
      ensures archive ==> orphans == map[]
      ensures forall h :: h in orphans ==>
                exists i :: 1 <= i <= Floor(archive, archiveKeep, |chain| - 1) && h == env.Hash(chain[i])
                  && Twice(order, i)
    {
      hide Inv, ImportInv, PoolInv, SyncedTo, Buffers, ValidChain, Twice;
      ghost var k: nat := 0;
      ghost var waiting: set<nat> := {};
      for n := 0 to |order|
        invariant Valid() && At(chain, worlds, k, waiting) && Settled(orphans, store.snapshots, {})
        invariant Reached(order[..n], k)
        invariant forall i :: i in waiting ==> i in order[..n]
        invariant forall i :: i in waiting && i <= k ==> Twice(order[..n], i)
        invariant forall i :: 0 <= i < n ==> order[i] <= k || order[i] in waiting
      {
        ghost var j := order[n];
        SaneOnChain(env, chain, worlds, j);
        ghost var k' := ImportBlock(blocks[n], chain, worlds, k, waiting, j, {});
        DeliveredMore(order, n, k, k', waiting, Floor(archive, archiveKeep, k));
        waiting, k := Left(waiting + {j}, Floor(archive, archiveKeep, k), k'), k';
      }
      assert order[..|order|] == order;
      AllDelivered(|chain|, order, k, waiting);
      SyncedEnd(env, chain, worlds, store.V(), live.View(), Floor(archive, archiveKeep, k), k, orphans, waiting);
    }
  }

  /** Every block up to the `k`-th has been delivered. */
  ghost predicate Reached(order: seq<nat>, k: nat) {
    forall i :: 1 <= i <= k ==> i in order
  }

  /** `i` was delivered at least twice. */
  ghost predicate Twice(order: seq<nat>, i: nat) {
    exists m, n :: 0 <= m < n < |order| && order[m] == order[n] == i
  }

  lemma TwiceMore(order: seq<nat>, n: nat, i: nat)
    requires n < |order| && (Twice(order[..n], i) || (i in order[..n] && order[n] == i))
    ensures Twice(order[..n + 1], i)
  {
    var front, more := order[..n], order[..n + 1];
    if Twice(front, i) {
      var a, b :| 0 <= a < b < |front| && front[a] == front[b] == i;
      assert more[a] == more[b] == i;
    } else {
      var a :| 0 <= a < |front| && front[a] == i;
      assert more[a] == more[n] == i;
    }
  }

  /** The bookkeeping of one delivery, from `k` to `k'`. */
  lemma DeliveredMore(order: seq<nat>, n: nat, k: nat, k': nat, waiting: set<nat>, low: nat)
    requires n < |order| && low <= k <= k'
    requires Reached(order[..n], k)
    requires forall i :: i in waiting ==> i in order[..n]
    requires forall i :: i in waiting && i <= k ==> Twice(order[..n], i)
    requires forall i :: 0 <= i < n ==> order[i] <= k || order[i] in waiting
    requires forall i :: k < i <= k' ==> i in waiting + {order[n]}
    requires order[n] >= 1
    ensures Reached(order[..n + 1], k')
    ensures var left := Left(waiting + {order[n]}, low, k');
            && (forall i :: i in left ==> i in order[..n + 1])
            && (forall i :: i in left && i <= k' ==> Twice(order[..n + 1], i))
            && (forall i :: 0 <= i < n + 1 ==> order[i] <= k' || order[i] in left)
  {
    hide Twice;
    var front, more, left := order[..n], order[..n + 1], Left(waiting + {order[n]}, low, k');
    assert more == front + [order[n]];
    forall i | 1 <= i <= k'
      ensures i in more
    {
      assert if i <= k then i in front else i in waiting + {order[n]};
    }
    forall i | i in left && i <= k'
      ensures Twice(order[..n + 1], i)
    {
      TwiceMore(order, n, i);
    }
  }

  lemma ImportReady(env: Env, genesis: World, root: H256, bodies: Blocks, v: View, live: World)
    requires ImportInv(env, genesis, root, bodies, v, live)
    ensures forall h :: h in v.snapshots ==> Synced(env.codec, v.snapshots[h])
    ensures forall h :: h in v.byHash ==> v.byHash[h].header.number < U64_MAX
  {
    hide Inv, Synced, Replay, RootHash;
    forall h | h in v.snapshots
      ensures Synced(env.codec, v.snapshots[h])
    {
      assert Replayed(env, genesis, bodies, h);
    }
  }

  lemma ImportedKeys(env: Env, v: View, b: Block)
    requires Inv(env, v) && Fits(env, v.byHash, b) && ImportError(env, v, b).None?
    ensures Imported(env, v, b).byHash.Keys == v.byHash.Keys + {env.Hash(b)}
    ensures Imported(env, v, b).snapshots.Keys == v.snapshots.Keys + {env.Hash(b)}
  {
    hide Inv, Inserted, ImportError, PostState;
    InsertedBlocks(env, v, b);
  }

  lemma PrunedFewer(v: View, keep: nat)
    requires Linked(v.byHash) && v.head.Some? && v.head.value in v.byHash
    ensures Pruned(v).snapshots.Keys <= v.snapshots.Keys
    ensures PrunedKeep(v, keep).snapshots.Keys <= v.snapshots.Keys
  {
  }

  lemma PrunedKeys(v: View, keep: nat)
    requires Linked(v.byHash) && v.head.Some? && v.head.value in v.byHash
    ensures Pruned(v).byHash.Keys == v.byHash.Keys == PrunedKeep(v, keep).byHash.Keys
  {
    hide OnPath, InWindow;
  }

  /** What importing the `j`-th block of the chain returns when the node is synced to `k`. */
  lemma Outcomes(env: Env, chain: seq<Block>, worlds: seq<World>, v: View, live: World, low: nat, k: nat, j: nat)
    requires ValidChain(env, chain, worlds) && k < |chain| && SyncedTo(env, chain, worlds, v, live, low, k)
    requires 1 <= j < |chain| && low <= k
    ensures ImportError(env, v, chain[j]) ==
            if j <= low then Some(UnknownParentState)
            else if j <= k then Some(DuplicateBlock)
            else if j == k + 1 then None
            else Some(UnknownParentState)
  {
    hide ImportError, SyncedTo, ValidChain, PostState, Fits;
    if low < j <= k {
      StoredRefused(env, chain, worlds, v, live, low, k, j);
    } else if j == k + 1 {
      NextAccepted(env, chain, worlds, v, live, low, k);
    } else {
      OutsideOrphaned(env, chain, worlds, v, live, low, k, j);
    }
  }

  /** On a linear chain at most the next block waits for the one just imported. */
  lemma OnlyChild(env: Env, chain: seq<Block>, worlds: seq<World>, k: nat,
                  orphans: map<H256, Block>, waiting: set<nat>, children: seq<Block>)
    requires ValidChain(env, chain, worlds) && k < |chain|
    requires forall i :: i in waiting ==> 1 <= i < |chain|
    requires Buffers(env, chain, orphans, waiting)
    requires forall c :: c in children <==>
               env.Hash(c) in orphans && orphans[env.Hash(c)] == c && c.header.parentHash == env.Hash(chain[k])
    requires forall i, j :: 0 <= i < |children| && 0 <= j < |children| && children[i] == children[j] ==> i == j
    ensures if k + 1 in waiting then children == [chain[k + 1]] else children == []
  {
    hide Env.ValidateBlock, Env.ValidateHeader, ExecuteBlock, RootHash;
    assert children != [] ==> children[0] in children && children[|children| - 1] in children;
    forall c | c in children
      ensures k + 1 in waiting && c == chain[k + 1]
    {
      var i :| i in waiting && env.Hash(c) == env.Hash(chain[i]) && orphans[env.Hash(c)] == chain[i];
      assert ValidStep(env, chain, worlds, i);
      assert i - 1 == k;
    }
    if k + 1 in waiting {
      assert ValidStep(env, chain, worlds, k + 1);
      var i :| i in waiting && env.Hash(chain[k + 1]) == env.Hash(chain[i])
        && orphans[env.Hash(chain[k + 1])] == chain[i];
      assert i == k + 1;
      assert chain[k + 1] in children;
    }
  }

  lemma BuffersAdd(env: Env, chain: seq<Block>, orphans: map<H256, Block>, waiting: set<nat>, j: nat)
    requires j < |chain| && (forall i :: i in waiting ==> i < |chain|)
    requires Buffers(env, chain, orphans, waiting)
    ensures Buffers(env, chain, orphans[env.Hash(chain[j]) := chain[j]], waiting + {j})
  {
  }

  lemma BuffersRemove(env: Env, chain: seq<Block>, worlds: seq<World>, orphans: map<H256, Block>, waiting: set<nat>,
                      j: nat)
    requires ValidChain(env, chain, worlds)
    requires j in waiting && (forall i :: i in waiting ==> i < |chain|)
    requires Buffers(env, chain, orphans, waiting)
    ensures Buffers(env, chain, orphans - {env.Hash(chain[j])}, waiting - {j})
  {
    hide ValidLink;
    assert forall i :: i in waiting && i != j ==> env.Hash(chain[i]) != env.Hash(chain[j]);
  }

  lemma ImportHead(env: Env, genesis: World, root: H256, bodies: Blocks, v: View, live: World)
    requires ImportInv(env, genesis, root, bodies, v, live)
    ensures v.head.Some?
  {
  }

  lemma SaneOnChain(env: Env, chain: seq<Block>, worlds: seq<World>, j: nat)
    requires ValidChain(env, chain, worlds) && j < |chain|
    ensures Sane(env, chain[j])
  {
  }

  /** With everything delivered there is no gap left to wait at. */
  lemma AllDelivered(length: nat, order: seq<nat>, k: nat, waiting: set<nat>)
    requires k < length
    requires forall i :: 1 <= i < length ==> i in order
    requires forall i :: 0 <= i < |order| ==> order[i] <= k || order[i] in waiting
    requires forall i :: i in waiting ==> i < length && (i <= k || k + 1 < i)
    ensures k == length - 1 && forall i :: i in waiting ==> i <= k
  {
    assert k + 1 < length ==> k + 1 in order;
  }

  lemma SyncedEnd(env: Env, chain: seq<Block>, worlds: seq<World>, v: View, live: World, low: nat, k: nat,
                  orphans: map<H256, Block>, waiting: set<nat>)
    requires ValidChain(env, chain, worlds) && k < |chain| && SyncedTo(env, chain, worlds, v, live, low, k)
    requires (forall i :: i in waiting ==> i < |chain|) && Buffers(env, chain, orphans, waiting)
    ensures v.head == Some(env.Hash(chain[k])) && live == worlds[k]
    ensures forall h :: h in orphans ==> exists i :: i in waiting && h == env.Hash(chain[i])
  {
    hide ValidChain;
  }

  lemma StartSynced(env: Env, chain: seq<Block>, worlds: seq<World>)
    requires ValidChain(env, chain, worlds)
    ensures var s := Start(env, worlds[0], chain[0]);
            SyncedTo(env, chain, worlds, s.v, s.live, 0, 0)
  {
    hide FullIndex, ValidLink;
    EmptyInv(env);
  }

  /** A new node that is handed the blocks of a valid chain in any order ends at its tip. */
  method SyncFromGenesis(env: Env, state: StateDB, config: PoolConfig, archive: bool, archiveKeep: nat, genesis: Block,
                         order: seq<nat>, blocks: seq<Block>, ghost chain: seq<Block>, ghost worlds: seq<World>)
    returns (node: Node)
    requires ValidChain(env, chain, worlds) && genesis == chain[0] && state.View() == worlds[0] && state.env == env
    requires GenesisError(env, map[], genesis).None?
    requires Synced(env.codec, state.View()) && RootHash(env, state.View()) == genesis.header.stateRoot
    requires |blocks| == |order|
    requires forall n :: 0 <= n < |order| ==> 1 <= order[n] < |chain| && blocks[n] == chain[order[n]]
    requires forall i :: 1 <= i < |chain| ==> i in order
    modifies state
    ensures node.Valid()
    ensures node.store.head == Some(env.Hash(chain[|chain| - 1])) && node.live.View() == worlds[|chain| - 1]
    ensures archive ==> node.orphans == map[]
    ensures forall h :: h in node.orphans ==>
              exists i :: 1 <= i <= Floor(archive, archiveKeep, |chain| - 1) && h == env.Hash(chain[i])
                && Twice(order, i)
  {
    hide Inv, ImportInv, PoolInv, SyncedTo, Buffers, Start, RootHash, Synced, Twice;
    StartSynced(env, chain, worlds);
    node := new Node(env, genesis, state, config, archive, archiveKeep);
    NoneBuffered(env, chain);
    node.Deliver(order, blocks, chain, worlds);
  }

  lemma NoneBuffered(env: Env, chain: seq<Block>)
    ensures Buffers(env, chain, map[], {})
  {
  }
}
