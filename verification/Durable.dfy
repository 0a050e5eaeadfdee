/**
 A node that survives restarts: import, persist and prune as in `import_block`, and the start-up
 of bin/ivory/src/node.rs that rebuilds memory from disk.

 `known` is the history of every block the node ever accepted, also those a restart forgot.
 */
module Durable {
  import opened Primitives
  import opened Ledger
  import opened State
  import opened Execution
  import opened Store
  import opened Pool
  import opened Import
  import opened Persist
  import Sync

  // ----- What every accepted block satisfies

  /** The block passed its checks when it was accepted. */
  ghost predicate Checked(env: Env, known: Blocks, h: H256)
    requires Linked(known) && h in known
  {
    assert ParentStored(known, h);
    var b := known[h];
    && env.Hash(b) == h && env.ValidateBlock(b).None?
    && var parent := if b.header.number == 0 then None else Some(known[b.header.parentHash].header);
       env.ValidateHeader(b.header, parent).None?
  }

  /** Every accepted block was checked, executes, and leads to the root it claims; genesis has no body. */
  ghost predicate History(env: Env, genesis: World, root: H256, known: Blocks) {
    && HistoryOk(env, genesis, root, known)
    && (forall h :: h in known ==> Checked(env, known, h))
    && known[root].header.number == 0 && known[root].header.parentHash == ZERO_HASH
    && known[root] == Block(known[root].header, [], [])
  }

  /** What is in memory is part of the history. */
  ghost predicate Within(bodies: Blocks, known: Blocks) {
    forall h :: h in bodies ==> h in known && known[h] == bodies[h]
  }

  /** Bodies inside the keep window have not been dropped. */
  ghost predicate Intact(archive: bool, keep: nat, bodies: Blocks, v: View)
    requires v.head.Some? && v.head.value in v.byHash
  {
    var top := v.byHash[v.head.value].header.number;
    forall h :: h in v.byHash && Kept(archive, keep, top, v.byHash[h].header.number) ==>
      h in bodies && v.byHash[h] == bodies[h]
  }

  /** A stored state is the replay of a known block. */
  ghost predicate StatesRight(env: Env, genesis: World, known: Blocks, c: DiskCodec, db: Db)
    requires Linked(known)
  {
    forall h :: ReadState(c, db, h) == Ok(None) || StateRight(env, genesis, known, c, db, h)
  }

  ghost predicate StateRight(env: Env, genesis: World, known: Blocks, c: DiskCodec, db: Db, h: H256)
    requires Linked(known)
  {
    && h in known && Replay(env, genesis, known, h).Ok?
    && ReadState(c, db, h) == Ok(Some(Replay(env, genesis, known, h).value))
  }

  /** The disk holds the walk to `head` as it is in the history, right states, and the head's state. */
  ghost predicate DiskOk(env: Env, genesis: World, known: Blocks, c: DiskCodec, db: Db, archive: bool, keep: nat,
                         head: H256)
    requires Linked(known)
  {
    && head in known
    && var path := Path(known, head);
    && (forall h :: h in path ==> h in known)
    && OnDisk(c, db, path, ImageOf(known, path), archive, keep)
    && StatesRight(env, genesis, known, c, db)
    && StateRight(env, genesis, known, c, db, head)
  }

  // ----- Growing the history

  lemma HistoryGrows(env: Env, genesis: World, root: H256, known: Blocks, b: Block)
    requires History(env, genesis, root, known)
    requires env.Hash(b) !in known && env.Hash(b) != ZERO_HASH && 0 < b.header.number < U64_MAX
    requires b.header.parentHash in known && known[b.header.parentHash].header.number + 1 == b.header.number
    requires env.ValidateBlock(b).None? && env.ValidateHeader(b.header, Some(known[b.header.parentHash].header)).None?
    requires Linked(known[env.Hash(b) := b]) && Replayed(env, genesis, known[env.Hash(b) := b], env.Hash(b))
    ensures History(env, genesis, root, known[env.Hash(b) := b])
  {
    hide Replayed, Replay, Env.ValidateBlock, Env.ValidateHeader;
    var known' := known[env.Hash(b) := b];
    forall k | k in known
      ensures Replayed(env, genesis, known', k) && Checked(env, known', k)
    {
      ReplayFrame(env, genesis, known, known', k);
      ReplayedFrame(env, genesis, known, known', k);
      assert Checked(env, known, k) && ParentStored(known, k);
    }
  }

  /** An accepted block may be added to the history, unless another block with its hash is there. */
  lemma AcceptedHistory(env: Env, genesis: World, root: H256, bodies: Blocks, known: Blocks, v: View, live: World,
                        b: Block)
    requires ImportInv(env, genesis, root, bodies, v, live) && ImportError(env, v, b).None?
    requires History(env, genesis, root, known) && Within(bodies, known)
    requires env.Hash(b) != ZERO_HASH && b.header.number < U64_MAX
    requires env.Hash(b) in known ==> known[env.Hash(b)] == b
    ensures History(env, genesis, root, known[env.Hash(b) := b])
    ensures Within(bodies[env.Hash(b) := b], known[env.Hash(b) := b])
  {
    hide Inv, Replayed, Replay, Checked, RootHash, ExecuteBlock, Env.ValidateBlock, Env.ValidateHeader;
    var h := env.Hash(b);
    var known' := known[h := b];
    if h in known {
      assert known' == known;
      return;
    }
    ImportFits(env, genesis, root, bodies, v, live, b);
    ImportReplayed(env, genesis, root, bodies, v, live, b);
    LinkedGrows(known, h, b);
    ReplayFrame(env, genesis, bodies[h := b], known', h);
    ReplayedFrame(env, genesis, bodies[h := b], known', h);
    HistoryGrows(env, genesis, root, known, b);
  }

  // ----- Bodies inside the window

  lemma HeadNeverSinks(env: Env, v: View, b: Block)
    requires Inv(env, v) && Fits(env, v.byHash, b) && v.head.Some?
    ensures v.head.value in v.byHash
    ensures var v' := Inserted(env, v, b);
            && v'.head.Some? && v'.head.value in v'.byHash
            && v'.byHash[v'.head.value].header.number >= v.byHash[v.head.value].header.number
  {
    hide Path, FullIndex, IndexSound, IndexComplete;
  }

  lemma IntactImported(env: Env, archive: bool, keep: nat, bodies: Blocks, v: View, b: Block)
    requires Inv(env, v) && v.head.Some? && v.head.value in v.byHash && Intact(archive, keep, bodies, v)
    requires Fits(env, v.byHash, b) && ImportError(env, v, b).None?
    ensures var v' := Imported(env, v, b);
            && v'.head.Some? && v'.head.value in v'.byHash
            && Intact(archive, keep, bodies[env.Hash(b) := b], v')
  {
    hide Inv, Inserted, ImportError, PostState;
    HeadNeverSinks(env, v, b);
    InsertedBlocks(env, v, b);
  }

  lemma IntactPruned(archive: bool, keep: nat, bodies: Blocks, v: View)
    requires Linked(v.byHash) && v.head.Some? && v.head.value in v.byHash && Intact(archive, keep, bodies, v)
    requires keep > 0
    requires forall h :: h in bodies && bodies[h].header.number == 0 ==> bodies[h] == Block(bodies[h].header, [], [])
    ensures var v' := if archive then Pruned(v) else PrunedKeep(v, keep);
            && v'.head == v.head && v'.head.value in v'.byHash && SameHeaders(v.byHash, v'.byHash)
            && Intact(archive, keep, bodies, v')
            && (forall h :: h in v'.snapshots ==> h in v.snapshots && v'.snapshots[h] == v.snapshots[h])
  {
    hide Path;
  }

  // ----- The disk after a persist

  /** The walk in memory is the walk in the history. */
  lemma WalkInHistory(bodies: Blocks, known: Blocks, byHash: Blocks, h: H256)
    requires Linked(byHash) && Linked(known) && Tracks(bodies, byHash) && Within(bodies, known) && h in byHash
    ensures h in known && Path(known, h) == Path(byHash, h)
    ensures forall k :: k in Path(known, h) ==> k in known && k in byHash
  {
    PathFrame(byHash, known, h);
    PathShape(byHash, h);
  }

  /** What was written from memory is what the history holds: kept bodies are intact, and headers agree. */
  lemma WrittenFromHistory(c: DiskCodec, db: Db, archive: bool, keep: nat, bodies: Blocks, known: Blocks, v: View)
    requires Linked(v.byHash) && Linked(known) && Tracks(bodies, v.byHash) && Within(bodies, known)
    requires v.head.Some? && v.head.value in v.byHash && Intact(archive, keep, bodies, v)
    requires forall h :: h in Path(v.byHash, v.head.value) ==> h in v.byHash
    requires var path := Path(v.byHash, v.head.value); OnDisk(c, db, path, ImageOf(v.byHash, path), archive, keep)
    ensures v.head.value in known
    ensures var path := Path(known, v.head.value);
            && (forall h :: h in path ==> h in known)
            && OnDisk(c, db, path, ImageOf(known, path), archive, keep)
  {
    hide Path, At, Kept;
    WalkInHistory(bodies, known, v.byHash, v.head.value);
    PathShape(v.byHash, v.head.value);
    var path := Path(known, v.head.value);
    var written, wanted := ImageOf(v.byHash, path), ImageOf(known, path);
    forall n | 0 <= n < |path|
      ensures Stored(c, db, n, path[n], wanted[n], Kept(archive, keep, |path| - 1, n))
    {
      assert Stored(c, db, n, path[n], written[n], Kept(archive, keep, |path| - 1, n));
    }
  }

  lemma StatesWritten(env: Env, genesis: World, bodies: Blocks, known: Blocks, known': Blocks,
                      c: DiskCodec, db: Db, db': Db, path: seq<H256>, snapshots: map<H256, World>)
    requires Linked(bodies) && Linked(known) && Linked(known')
    requires Within(bodies, known') && Within(known, known')
    requires forall h :: h in snapshots ==> h in bodies && Replay(env, genesis, bodies, h) == Ok(snapshots[h])
    requires StatesRight(env, genesis, known, c, db)
    requires Rewritten(c, db, db', path, snapshots)
    ensures StatesRight(env, genesis, known', c, db')
    ensures forall h :: h in path && h in snapshots ==> StateRight(env, genesis, known', c, db', h)
  {
    hide Replay, ReadState;
    forall h
      ensures ReadState(c, db', h) == Ok(None) || StateRight(env, genesis, known', c, db', h)
      ensures h in path && h in snapshots ==> StateRight(env, genesis, known', c, db', h)
    {
      if h in path && h in snapshots {
        ReplayFrame(env, genesis, bodies, known', h);
      } else if ReadState(c, db, h) != Ok(None) {
        assert StateRight(env, genesis, known, c, db, h);
        ReplayFrame(env, genesis, known, known', h);
      }
    }
  }

  // ----- The invariant between memory, disk and history

  /** Every state in memory along the walk is also on disk. */
  ghost predicate Saved(c: DiskCodec, db: Db, path: seq<H256>, snapshots: map<H256, World>) {
    forall h :: h in path && h in snapshots ==> ReadState(c, db, h) == Ok(Some(snapshots[h]))
  }

  ghost predicate NodeOk(env: Env, genesis: World, root: H256, bodies: Blocks, known: Blocks, v: View, live: World,
                         c: DiskCodec, db: Db, archive: bool, keep: nat) {
    && ImportInv(env, genesis, root, bodies, v, live)
    && History(env, genesis, root, known) && Within(bodies, known)
    && v.head.value in v.byHash && Intact(archive, keep, bodies, v)
    && DiskOk(env, genesis, known, c, db, archive, keep, v.head.value)
    && Saved(c, db, Path(known, v.head.value), v.snapshots)
  }

  /** Memory and history agreeing, a persist makes the disk agree as well. */
  lemma PersistedOk(env: Env, genesis: World, root: H256, bodies: Blocks, known: Blocks, known': Blocks,
                    v: View, live: World, c: DiskCodec, db: Db, db': Db, archive: bool, keep: nat)
    requires ImportInv(env, genesis, root, bodies, v, live)
    requires History(env, genesis, root, known') && Within(bodies, known')
    requires v.head.value in v.byHash && Intact(archive, keep, bodies, v)
    requires Linked(known) && Within(known, known') && StatesRight(env, genesis, known, c, db)
    requires Linked(v.byHash) && Persisted(c, db, db', v, archive, keep)
    ensures NodeOk(env, genesis, root, bodies, known', v, live, c, db', archive, keep)
  {
    hide Inv, Replay, Replayed, Checked, Path, OnDisk, ReadState, StatesRight, StateRight, Tracks, Intact, Rooted;
    WrittenFromHistory(c, db', archive, keep, bodies, known', v);
    WalkInHistory(bodies, known', v.byHash, v.head.value);
    StatesWritten(env, genesis, bodies, known, known', c, db, db', Path(v.byHash, v.head.value), v.snapshots);
    PathShape(v.byHash, v.head.value);
  }

  /** Pruning touches memory only, and nothing the disk depends on. */
  lemma PrunedOk(env: Env, genesis: World, root: H256, bodies: Blocks, known: Blocks, v: View, live: World,
                 c: DiskCodec, db: Db, archive: bool, keep: nat)
    requires NodeOk(env, genesis, root, bodies, known, v, live, c, db, archive, keep) && keep > 0
    ensures Linked(v.byHash)
    ensures var v' := if archive then Pruned(v) else PrunedKeep(v, keep);
            NodeOk(env, genesis, root, bodies, known, v', live, c, db, archive, keep)
  {
    hide Inv, Replay, Replayed, Checked, DiskOk, Tracks, Pruned, PrunedKeep, Intact, CacheOk;
    InvLinked(env, v);
    if archive {
      PrunedInv(env, genesis, root, bodies, v, live);
    } else {
      PrunedKeepInv(env, genesis, root, bodies, v, live, keep);
    }
    HistoryLinked(env, genesis, root, bodies);
    CacheHead(env, genesis, bodies, v, live);
    GenesisBare(env, genesis, root, bodies, known);
    IntactPruned(archive, keep, bodies, v);
  }

  lemma GenesisBare(env: Env, genesis: World, root: H256, bodies: Blocks, known: Blocks)
    requires History(env, genesis, root, known) && Within(bodies, known)
    ensures forall h :: h in bodies && bodies[h].header.number == 0 ==> bodies[h] == Block(bodies[h].header, [], [])
  {
    hide Replayed, Checked;
  }

  // ----- Restarting

  /** The chain as the disk keeps it: whole blocks inside the window, bare headers below. */
  ghost function Retained(image: seq<Block>, archive: bool, keep: nat): (chain: seq<Block>)
    ensures |chain| == |image|
  {
    seq(|image|, n requires 0 <= n < |image| =>
      if Kept(archive, keep, |image| - 1, n) then image[n] else Block(image[n].header, [], []))
  }

  lemma RetainedReads(c: DiskCodec, db: Db, path: seq<H256>, image: seq<Block>, archive: bool, keep: nat, n: nat)
    requires c.Faithful() && OnDisk(c, db, path, image, archive, keep) && n < |path|
    ensures ReadHeight(db, n) == Ok(Some(path[n]))
    ensures Kept(archive, keep, |path| - 1, n) ==> ReadBlock(c, db, path[n]) == Ok(Some(image[n]))
    ensures !Kept(archive, keep, |path| - 1, n) ==>
              ReadBlock(c, db, path[n]) == Ok(None) && ReadHeader(c, db, path[n]) == Ok(Some(image[n].header))
  {
    hide At, HashOf, HashBytes, Kept;
    HashInvert(path[n]);
    assert Stored(c, db, n, path[n], image[n], Kept(archive, keep, |path| - 1, n));
  }

  /** Block `n` of `image` carries its hash and height, passed its checks, and sits on block `n - 1`. */
  ghost predicate Placed(env: Env, path: seq<H256>, image: seq<Block>, n: nat)
    requires n < |path| == |image|
  {
    && env.Hash(image[n]) == path[n] && image[n].header.number == n && env.ValidateBlock(image[n]).None?
    && (n > 0 ==> image[n].header.parentHash == path[n - 1])
    && env.ValidateHeader(image[n].header, if n == 0 then None else Some(image[n - 1].header)).None?
  }

  /** The walk to `head` as accepted: one block per height, all checked, no hash twice, genesis without a body. */
  ghost predicate Lined(env: Env, path: seq<H256>, image: seq<Block>) {
    && 0 < |path| == |image| <= U64_MAX
    && (forall n {:trigger Placed(env, path, image, n)} :: 0 <= n < |path| ==> Placed(env, path, image, n))
    && (forall m, n :: 0 <= m < n < |path| ==> path[m] != path[n])
    && image[0].header.parentHash == ZERO_HASH
  }

  lemma HistoryParts(env: Env, genesis: World, root: H256, known: Blocks)
    requires History(env, genesis, root, known)
    ensures Linked(known)
  {
  }

  lemma HistoryLined(env: Env, genesis: World, root: H256, known: Blocks, head: H256)
    requires History(env, genesis, root, known) && head in known
    ensures var path := Path(known, head);
            && (forall h :: h in path ==> h in known)
            && Lined(env, path, ImageOf(known, path)) && path[0] == root
  {
    hide Path, History, Checked, Placed, Linked;
    HistoryParts(env, genesis, root, known);
    WalkNumbers(known, head);
    WalkStart(env, genesis, root, known, head);
    var path := Path(known, head);
    forall n | 0 <= n < |path|
      ensures Placed(env, path, ImageOf(known, path), n)
    {
      WalkChecked(env, genesis, root, known, head, n);
      CheckedPlaced(env, known, path, n);
    }
  }

  lemma WalkNumbers(blocks: Blocks, head: H256)
    requires Linked(blocks) && head in blocks
    ensures var path := Path(blocks, head);
            && |path| == blocks[head].header.number + 1 && path[|path| - 1] == head
            && (forall h :: h in path ==> h in blocks)
            && (forall n :: 0 <= n < |path| ==> blocks[path[n]].header.number == n)
            && (forall m, n :: 0 <= m < n < |path| ==> path[m] != path[n])
  {
    PathShape(blocks, head);
  }

  lemma WalkStart(env: Env, genesis: World, root: H256, known: Blocks, head: H256)
    requires History(env, genesis, root, known) && head in known
    ensures Path(known, head)[0] == root && known[head].header.number < U64_MAX
            && known[root].header.parentHash == ZERO_HASH
  {
    hide Path, Replayed, Checked, Linked;
    WalkNumbers(known, head);
  }

  lemma WalkChecked(env: Env, genesis: World, root: H256, known: Blocks, head: H256, n: nat)
    requires History(env, genesis, root, known) && head in known && n < |Path(known, head)|
    ensures var path := Path(known, head);
            && path[n] in known && Checked(env, known, path[n])
            && (n > 0 ==> known[path[n]].header.parentHash == path[n - 1])
  {
    hide Path, Replayed, Checked, Linked;
    PathShape(known, head);
  }

  lemma CheckedPlaced(env: Env, known: Blocks, path: seq<H256>, n: nat)
    requires Linked(known) && n < |path| && (forall h :: h in path ==> h in known) && Checked(env, known, path[n])
    requires known[path[n]].header.number == n && (n > 0 ==> known[path[n]].header.parentHash == path[n - 1])
    ensures Placed(env, path, ImageOf(known, path), n)
  {
    hide Env.ValidateBlock, Env.ValidateHeader;
  }

  /** Every height above genesis can be loaded again. */
  lemma RetainedOffered(env: Env, path: seq<H256>, image: seq<Block>, c: DiskCodec, db: Db, archive: bool, keep: nat,
                        n: nat)
    requires c.Faithful() && Lined(env, path, image) && OnDisk(c, db, path, image, archive, keep) && 0 < n < |path|
    ensures Offers(env, c, db, Retained(image, archive, keep), n)
  {
    hide OnDisk, ReadBlock, ReadHeader, ReadHeight, Env.ValidateBlock, Env.ValidateHeader, Kept;
    RetainedReads(c, db, path, image, archive, keep, n);
    RetainedHashes(env, path, image, archive, keep);
    assert Placed(env, path, image, n) && Placed(env, path, image, n - 1);
  }

  lemma RetainedHashes(env: Env, path: seq<H256>, image: seq<Block>, archive: bool, keep: nat)
    requires Lined(env, path, image)
    ensures Hashes(env, Retained(image, archive, keep)) == path
    ensures forall n :: 0 <= n < |path| ==> env.Hash(Retained(image, archive, keep)[n]) == path[n]
  {
    hide Env.ValidateBlock, Env.ValidateHeader, Kept;
    var chain := Retained(image, archive, keep);
    forall n | 0 <= n < |path|
      ensures env.Hash(chain[n]) == path[n]
    {
      assert Placed(env, path, image, n);
    }
  }

  /** Head and genesis are always kept whole. */
  lemma RetainedEnds(env: Env, path: seq<H256>, image: seq<Block>, c: DiskCodec, db: Db, archive: bool, keep: nat)
    requires c.Faithful() && Lined(env, path, image) && OnDisk(c, db, path, image, archive, keep) && keep > 0
    ensures var chain, last := Retained(image, archive, keep), |path| - 1;
            && ReadBlock(c, db, path[last]) == Ok(Some(chain[last])) && chain[last].header.number == last
            && ReadBlockAt(c, db, 0) == Ok(Some(chain[0])) && GenesisError(env, map[], chain[0]).None?
  {
    hide OnDisk, ReadBlock, ReadHeader, ReadHeight, Env.ValidateBlock, Env.ValidateHeader;
    RetainedReads(c, db, path, image, archive, keep, 0);
    RetainedReads(c, db, path, image, archive, keep, |path| - 1);
    assert Placed(env, path, image, 0) && Placed(env, path, image, |path| - 1);
  }

  /** A persisted chain reloads, whatever was pruned. */
  lemma RetainedReloadable(env: Env, path: seq<H256>, image: seq<Block>, c: DiskCodec, db: Db, archive: bool, keep: nat)
    requires c.Faithful() && Lined(env, path, image) && OnDisk(c, db, path, image, archive, keep) && keep > 0
    requires forall h :: h in path ==> ReadState(c, db, h).Ok?
    ensures Reloadable(env, c, db, Retained(image, archive, keep))
  {
    hide Offers, ReadBlock, ReadHeader, ReadHeight, ReadBlockAt, ReadState;
    hide Stored, At, Placed, GenesisError, Retained, Env.Hash;
    var chain := Retained(image, archive, keep);
    RetainedHashes(env, path, image, archive, keep);
    forall n | 0 < n < |path|
      ensures Offers(env, c, db, chain, n)
    {
      RetainedOffered(env, path, image, c, db, archive, keep, n);
    }
    RetainedEnds(env, path, image, c, db, archive, keep);
  }

  // ----- The node after a restart

  /** The part of the history that lies on one walk. */
  ghost function OnWalk(known: Blocks, path: seq<H256>): Blocks {
    map h | h in path && h in known :: known[h]
  }

  lemma OnWalkLinked(known: Blocks, head: H256)
    requires Linked(known) && head in known
    ensures Linked(OnWalk(known, Path(known, head))) && Within(OnWalk(known, Path(known, head)), known)
  {
    hide Path;
    WalkNumbers(known, head);
    var path := Path(known, head);
    var part := OnWalk(known, path);
    forall h
      ensures ParentStored(part, h)
    {
      if h in part && part[h].header.number > 0 {
        var n := part[h].header.number;
        assert path[n] == h by {
          var i :| 0 <= i < |path| && path[i] == h;
        }
        WalkLink(known, head, n);
        assert path[n - 1] in path;
      }
    }
  }

  lemma WalkLink(blocks: Blocks, head: H256, n: nat)
    requires Linked(blocks) && head in blocks && n < |Path(blocks, head)|
    ensures var path := Path(blocks, head);
            && path[n] in blocks && (n > 0 ==> blocks[path[n]].header.parentHash == path[n - 1])
  {
    PathShape(blocks, head);
  }

  lemma OnWalkRooted(env: Env, genesis: World, root: H256, known: Blocks, head: H256)
    requires History(env, genesis, root, known) && head in known
    ensures Rooted(OnWalk(known, Path(known, head)), root)
  {
    hide Path, Replayed, Checked, Linked;
    WalkStart(env, genesis, root, known, head);
    WalkNumbers(known, head);
    assert root in Path(known, head);
  }

  lemma OnWalkHistory(env: Env, genesis: World, root: H256, known: Blocks, head: H256)
    requires History(env, genesis, root, known) && head in known
    ensures HistoryOk(env, genesis, root, OnWalk(known, Path(known, head)))
  {
    hide Path, Replay, Replayed, Checked, Linked, Rooted;
    OnWalkLinked(known, head);
    OnWalkRooted(env, genesis, root, known, head);
    var part := OnWalk(known, Path(known, head));
    forall h | h in part
      ensures Replayed(env, genesis, part, h)
    {
      ReplayFrame(env, genesis, part, known, h);
      ReplayedFrame(env, genesis, known, part, h);
    }
  }

  /** The reloaded blocks are the walk's: same headers, and bodies inside the window. */
  lemma ReloadedBlocks(env: Env, known: Blocks, path: seq<H256>, archive: bool, keep: nat, blocks: Blocks)
    requires (forall h :: h in path ==> h in known) && Lined(env, path, ImageOf(known, path))
    requires HoldsPrefix(env, Retained(ImageOf(known, path), archive, keep), |path| - 1, blocks)
    ensures Tracks(OnWalk(known, path), blocks)
    ensures forall h :: h in blocks && Kept(archive, keep, |path| - 1, blocks[h].header.number) ==>
              h in path && blocks[h] == known[h]
  {
    hide Kept, Placed;
    RetainedHashes(env, path, ImageOf(known, path), archive, keep);
    var chain := Retained(ImageOf(known, path), archive, keep);
    forall h | h in blocks
      ensures h in path && h in known && blocks[h].header == known[h].header
      ensures Kept(archive, keep, |path| - 1, blocks[h].header.number) ==> blocks[h] == known[h]
    {
      var n :| 0 <= n <= |path| - 1 && h == env.Hash(chain[n]);
      ReloadedBlock(env, known, path, archive, keep, n);
    }
    forall h | h in path
      ensures h in blocks
    {
      var n :| 0 <= n < |path| && path[n] == h;
      assert env.Hash(chain[n]) == h;
    }
  }

  lemma ReloadedBlock(env: Env, known: Blocks, path: seq<H256>, archive: bool, keep: nat, n: nat)
    requires (forall h :: h in path ==> h in known) && Lined(env, path, ImageOf(known, path)) && n < |path|
    ensures var b := Retained(ImageOf(known, path), archive, keep)[n];
            && b.header == known[path[n]].header && b.header.number == n
            && (Kept(archive, keep, |path| - 1, n) ==> b == known[path[n]])
  {
    hide Kept, Env.ValidateBlock, Env.ValidateHeader;
    assert Placed(env, path, ImageOf(known, path), n);
  }

  /** Reloaded states are replays, and the head's is among them. */
  lemma ReloadedStates(env: Env, genesis: World, root: H256, known: Blocks, c: DiskCodec, db: Db,
                       head: H256, snapshots: map<H256, World>)
    requires Linked(known) && head in known && Linked(OnWalk(known, Path(known, head)))
    requires Within(OnWalk(known, Path(known, head)), known)
    requires StatesRight(env, genesis, known, c, db) && StateRight(env, genesis, known, c, db, head)
    requires forall h :: Get(snapshots, h) ==
                         if h in Path(known, head) && ReadState(c, db, h).Ok? then ReadState(c, db, h).value else None
    ensures var part := OnWalk(known, Path(known, head));
            && (forall h :: h in snapshots ==> h in part && Replay(env, genesis, part, h) == Ok(snapshots[h]))
    ensures head in snapshots && Replay(env, genesis, known, head) == Ok(snapshots[head])
  {
    hide Path, Replay, ReadState;
    WalkNumbers(known, head);
    PathShape(known, head);
    var part := OnWalk(known, Path(known, head));
    assert Get(snapshots, head).Some?;
    forall h | h in snapshots
      ensures h in part && Replay(env, genesis, part, h) == Ok(snapshots[h])
    {
      assert Get(snapshots, h) == Some(snapshots[h]);
      assert StateRight(env, genesis, known, c, db, h);
      ReplayFrame(env, genesis, part, known, h);
    }
  }

  /** The chain a restart is expected to load. */
  ghost function OnDiskChain(known: Blocks, head: H256, archive: bool, keep: nat): seq<Block>
    requires Linked(known) && head in known
  {
    WalkNumbers(known, head);
    Retained(ImageOf(known, Path(known, head)), archive, keep)
  }

  lemma DiskReloads(env: Env, genesis: World, root: H256, known: Blocks,
                    c: DiskCodec, db: Db, archive: bool, keep: nat, head: H256)
    requires History(env, genesis, root, known) && DiskOk(env, genesis, known, c, db, archive, keep, head)
    requires c.Faithful() && keep > 0
    ensures var chain := OnDiskChain(known, head, archive, keep);
            && Reloadable(env, c, db, chain) && env.Hash(chain[0]) == root && Hashes(env, chain) == Path(known, head)
  {
    hide Path, History, OnDisk, Reloadable, Retained, ReadState, Replay, Lined, Hashes;
    HistoryParts(env, genesis, root, known);
    WalkNumbers(known, head);
    HistoryLined(env, genesis, root, known, head);
    var path := Path(known, head);
    RetainedHashes(env, path, ImageOf(known, path), archive, keep);
    forall h | h in path
      ensures ReadState(c, db, h).Ok?
    {
      assert ReadState(c, db, h) == Ok(None) || StateRight(env, genesis, known, c, db, h);
    }
    RetainedReloadable(env, path, ImageOf(known, path), c, db, archive, keep);
  }

  lemma RestartedMemory(env: Env, genesis: World, root: H256, known: Blocks,
                        c: DiskCodec, db: Db, archive: bool, keep: nat, v: View, head: H256)
    requires History(env, genesis, root, known) && DiskOk(env, genesis, known, c, db, archive, keep, head)
    requires Inv(env, v) && Reloaded(env, c, db, OnDiskChain(known, head, archive, keep), v)
    ensures var bodies := OnWalk(known, Path(known, head));
            && v.head == Some(head) && head in v.snapshots
            && Replay(env, genesis, known, head) == Ok(v.snapshots[head])
            && ImportInv(env, genesis, root, bodies, v, v.snapshots[head]) && Within(bodies, known)
            && head in v.byHash && Intact(archive, keep, bodies, v)
            && v.byNumber == HeightIndex(Path(known, head))
    ensures forall h :: Get(v.snapshots, h) ==
                        if h in Path(known, head) && ReadState(c, db, h).Ok? then ReadState(c, db, h).value else None
  {
    hide Path, History, Inv, OnDisk, Retained, ReadState, Replay;
    hide Lined, Tracks, StatesRight, StateRight, OnWalk, HistoryOk, Kept, HoldsPrefix;
    HistoryParts(env, genesis, root, known);
    WalkNumbers(known, head);
    HistoryLined(env, genesis, root, known, head);
    var path := Path(known, head);
    RetainedHashes(env, path, ImageOf(known, path), archive, keep);
    OnWalkLinked(known, head);
    OnWalkHistory(env, genesis, root, known, head);
    ReloadedBlocks(env, known, path, archive, keep, v.byHash);
    ReloadedStates(env, genesis, root, known, c, db, head, v.snapshots);
    RestartedHead(known, head, v.byHash);
  }

  lemma RestartedHead(known: Blocks, head: H256, blocks: Blocks)
    requires Linked(known) && head in known && Tracks(OnWalk(known, Path(known, head)), blocks)
    ensures head in blocks && blocks[head].header.number == |Path(known, head)| - 1
    ensures var walk := OnWalk(known, Path(known, head));
            forall h :: h in Path(known, head) ==> h in walk && walk[h] == known[h]
  {
    WalkNumbers(known, head);
    PathShape(known, head);
  }

  // ----- Start-up

  lemma {:induction false} PrefixExecutes(env: Env, w: World, blocks: seq<Block>, n: nat)
    requires n <= |blocks| && ExecuteChain(env, w, blocks).Ok?
    ensures ExecuteChain(env, w, blocks[..n]).Ok?
    decreases |blocks|
  {
    hide ExecuteBlock;
    if n < |blocks| {
      var m := |blocks| - 1;
      assert blocks == blocks[..m] + [blocks[m]];
      ExecuteChainAppend(env, w, blocks[..m], blocks[m]);
      PrefixExecutes(env, w, blocks[..m], n);
      assert blocks[..m][..n] == blocks[..n];
    } else {
      assert blocks[..n] == blocks;
    }
  }

  /** The store lists `chain` by height and holds its blocks. */
  ghost predicate Lists(env: Env, chain: seq<Block>, v: View) {
    && chain != []
    && v.byNumber == HeightIndex(Hashes(env, chain))
    && (forall n :: 0 <= n < |chain| ==> Get(v.byHash, env.Hash(chain[n])) == Some(chain[n]))
    && (forall m, n :: 0 <= m < n < |chain| ==> env.Hash(chain[m]) != env.Hash(chain[n]))
  }

  datatype StartError = LoadFailed(load: LoadError) | MissingBlock | ReplayFailed(execution: ExecutionError)

  /** Without a head snapshot: executes the stored bodies from genesis, recording every state. */
  method ReplayStored(store: BlockStore, state: StateDB, top: U64, ghost chain: seq<Block>)
    returns (e: Option<StartError>)
    requires store.Valid() && state.env == store.env
    modifies store`snapshots, state
    ensures store.Valid() && store.V() == old(store.V()).(snapshots := store.snapshots)
    ensures var env, w := store.env, old(state.View());
            Lists(env, chain, old(store.V())) && |chain| == top + 1 && ExecuteChain(env, w, chain[1..]).Ok? ==>
              && e.None?
              && ExecuteChain(env, w, chain[1..]) == Ok(state.View())
              && (forall n :: 0 < n <= top ==>
                    && env.Hash(chain[n]) in store.snapshots
                    && ExecuteChain(env, w, chain[1..n + 1]) == Ok(store.snapshots[env.Hash(chain[n])]))
  {
    hide Inv, ExecuteAll, ExecuteChain, HeightIndex, Hashes, ReplayedTo, Lists;
    ghost var env, v, w := store.env, store.V(), state.View();
    ghost var wanted := Lists(env, chain, v) && |chain| == top + 1 && ExecuteChain(env, w, chain[1..]).Ok?;
    if wanted {
      ReplayStart(env, w, chain, store.snapshots);
    }
    for n := 1 to top as int + 1
      invariant store.V() == v.(snapshots := store.snapshots)
      invariant wanted ==> ReplayedTo(env, w, chain, n, state.View(), store.snapshots)
    {
      if wanted {
        ListedAt(env, chain, v, n);
        ReplayStep(env, w, chain, n, state.View(), store.snapshots);
      }
      if n !in store.byNumber || store.byNumber[n] !in store.byHash {
        InvIgnoresSnapshots(env, v, store.snapshots);
        return Some(MissingBlock);
      }
      var b := store.byHash[store.byNumber[n]];
      var failed := ExecuteBody(state, b);
      if failed.Some? {
        InvIgnoresSnapshots(env, v, store.snapshots);
        return Some(ReplayFailed(failed.value));
      }
      ghost var before := store.snapshots;
      store.RecordState(store.env.Hash(b), state);
      if wanted {
        ReplayedMore(env, w, chain, v, n, state.View(), before);
      }
    }
    if wanted {
      ReplayEnd(env, w, chain, state.View(), store.snapshots);
    }
    InvIgnoresSnapshots(env, v, store.snapshots);
    return None;
  }

  /** Blocks below `n` have been executed and their states recorded. */
  ghost predicate ReplayedTo(env: Env, w: World, chain: seq<Block>, n: nat, state: World, snapshots: map<H256, World>) {
    && 1 <= n <= |chain|
    && ExecuteChain(env, w, chain[1..n]) == Ok(state)
    && (forall m :: 0 < m < n ==>
          env.Hash(chain[m]) in snapshots && ExecuteChain(env, w, chain[1..m + 1]) == Ok(snapshots[env.Hash(chain[m])]))
  }

  lemma ListedAt(env: Env, chain: seq<Block>, v: View, n: nat)
    requires Lists(env, chain, v) && n < |chain|
    ensures n in v.byNumber && v.byNumber[n] == env.Hash(chain[n])
    ensures v.byNumber[n] in v.byHash && v.byHash[v.byNumber[n]] == chain[n]
  {
    assert Get(v.byHash, env.Hash(chain[n])) == Some(chain[n]);
  }

  lemma ReplayStart(env: Env, w: World, chain: seq<Block>, snapshots: map<H256, World>)
    requires |chain| > 0
    ensures ReplayedTo(env, w, chain, 1, w, snapshots)
  {
    hide ExecuteBlock;
    ExecuteChainNone(env, w);
    assert chain[1..1] == [];
  }

  lemma ReplayedMore(env: Env, w: World, chain: seq<Block>, v: View, n: nat, state: World, snapshots: map<H256, World>)
    requires Lists(env, chain, v) && 1 <= n < |chain| && ExecuteChain(env, w, chain[1..n + 1]) == Ok(state)
    requires exists before :: ReplayedTo(env, w, chain, n, before, snapshots)
    ensures ReplayedTo(env, w, chain, n + 1, state, snapshots[env.Hash(chain[n]) := state])
  {
    hide ExecuteChain, ExecuteBlock;
  }

  lemma ReplayEnd(env: Env, w: World, chain: seq<Block>, state: World, snapshots: map<H256, World>)
    requires ReplayedTo(env, w, chain, |chain|, state, snapshots)
    ensures ExecuteChain(env, w, chain[1..]) == Ok(state)
    ensures forall n :: 0 < n < |chain| ==>
              && env.Hash(chain[n]) in snapshots
              && ExecuteChain(env, w, chain[1..n + 1]) == Ok(snapshots[env.Hash(chain[n])])
  {
    hide ExecuteChain, ExecuteBlock;
    assert chain[1..|chain|] == chain[1..];
  }

  lemma ReplayStep(env: Env, w: World, chain: seq<Block>, n: nat, state: World, snapshots: map<H256, World>)
    requires 1 <= n < |chain| && ExecuteChain(env, w, chain[1..]).Ok?
    requires ReplayedTo(env, w, chain, n, state, snapshots)
    ensures ExecuteBlock(env, state, chain[n]).Ok?
    ensures ExecuteChain(env, w, chain[1..n + 1]) == ExecuteBlock(env, state, chain[n])
  {
    hide ExecuteBlock, ExecuteChain;
    assert chain[1..n + 1] == chain[1..n] + [chain[n]];
    ExecuteChainAppend(env, w, chain[1..n], chain[n]);
    PrefixExecutes(env, w, chain[1..], n);
    assert chain[1..][..n] == chain[1..n + 1];
  }

  lemma {:induction false} WalkBlocks(known: Blocks, head: H256)
    requires Linked(known) && head in known
    ensures forall h :: h in Path(known, head) ==> h in known
    ensures BlocksAbove(known, head) == ImageOf(known, Path(known, head))[1..]
    decreases known[head].header.number
  {
    WalkNumbers(known, head);
    assert ParentStored(known, head);
    if known[head].header.number > 0 {
      var parent := known[head].header.parentHash;
      WalkBlocks(known, parent);
      assert ImageOf(known, Path(known, head)) == ImageOf(known, Path(known, parent)) + [known[head]];
    }
  }

  /** With every body on disk, executing the stored chain gives the very state a stored snapshot would give. */
  lemma BothStartsAgree(env: Env, genesis: World, root: H256, known: Blocks, c: DiskCodec, db: Db, keep: nat,
                        head: H256)
    requires History(env, genesis, root, known) && Linked(known) && head in known
    requires StateRight(env, genesis, known, c, db, head)
    ensures OnDiskChain(known, head, true, keep) != []
    ensures match ExecuteChain(env, genesis, OnDiskChain(known, head, true, keep)[1..])
            case Ok(w) => ReadState(c, db, head) == Ok(Some(w))
            case Err(_) => false
  {
    hide History, Path, BlocksAbove, ExecuteChain, Replay, ReadState;
    WalkNumbers(known, head);
    WalkBlocks(known, head);
    ReplayIsChain(env, genesis, known, head);
    assert OnDiskChain(known, head, true, keep) == ImageOf(known, Path(known, head));
  }

  /** First start: genesis goes into memory and onto disk. */
  method FirstStart(store: BlockStore, b: Block, state: StateDB, disk: ChainPersist)
    requires store.Valid() && store.V() == EMPTY_VIEW && state.env == store.env && disk.codec.Faithful()
    requires b.header.number == 0 && store.env.Hash(b) != ZERO_HASH && GenesisError(store.env, map[], b).None?
    requires Synced(store.env.codec, state.View()) && RootHash(store.env, state.View()) == b.header.stateRoot
    modifies store, disk
    ensures store.Valid()
    ensures store.V() == Start(store.env, state.View(), b).v && Linked(store.byHash)
    ensures store.head == Some(store.env.Hash(b)) && store.head.value in store.byHash
    ensures Persisted(disk.codec, old(disk.db), disk.db, store.V(), disk.archive, disk.archiveKeep)
  {
    hide Inv, RootHash, Synced, Persisted, Path, HistoryOk, Inserted;
    var r := store.InsertGenesis(b);
    store.RecordState(store.env.Hash(b), state);
    StartOk(store.env, state.View(), b);
    GenesisLoaded(store.env, b);
    disk.PersistCanonical(store, b);
  }

  /** What start-up makes of a loaded chain: the head's stored state, or the chain executed from genesis. */
  ghost predicate Resumed(env: Env, c: DiskCodec, db: Db, chain: seq<Block>, genesis: World, v: View, state: World) {
    && chain != []
    && var stored := ReadState(c, db, env.Hash(chain[|chain| - 1]));
    && stored.Ok?
    && (stored.value.Some? ==> state == stored.value.value && Reloaded(env, c, db, chain, v))
    && (stored.value.None? ==>
          && ExecuteChain(env, genesis, chain[1..]) == Ok(state)
          && LoadedTo(env, chain, |chain| - 1, v) && RecordsReplay(env, genesis, chain, v.snapshots))
  }

  method Resume(store: BlockStore, b: Block, state: StateDB, top: U64, ghost c: DiskCodec, ghost db: Db,
                ghost chain: seq<Block>)
    returns (e: Option<StartError>)
    requires store.Valid() && store.head.Some? && state.env == store.env
    modifies store`snapshots, state
    ensures store.Valid()
    ensures Reloadable(store.env, c, db, chain) && Reloaded(store.env, c, db, chain, old(store.V()))
            && top == |chain| - 1 ==>
              (|| ReadState(c, db, store.env.Hash(chain[top])).value.Some?
               || ExecuteChain(store.env, old(state.View()), chain[1..]).Ok? ==>
                 e.None? && Resumed(store.env, c, db, chain, old(state.View()), store.V(), state.View()))
  {
    hide Inv, ReadState, Reloadable, Reloaded, ExecuteChain, LoadedTo, Lists;
    ghost var env, v := store.env, store.V();
    ReloadableHead(env, c, db, chain);
    if Reloadable(env, c, db, chain) && Reloaded(env, c, db, chain, v) {
      ReloadedLists(env, c, db, chain, v);
    }
    var post := store.StateAt(store.head.value);
    if post != null {
      state.ResetFrom(post);
      return None;
    }
    store.RecordState(store.env.Hash(b), state);
    InvIgnoresSnapshots(env, v, store.snapshots);
    ListsIgnoresSnapshots(env, chain, v, store.snapshots);
    e := ReplayStored(store, state, top, chain);
    ListsIgnoresSnapshots(env, chain, v, store.snapshots);
  }

  lemma ListsIgnoresSnapshots(env: Env, chain: seq<Block>, v: View, snapshots: map<H256, World>)
    ensures Lists(env, chain, v) <==> Lists(env, chain, v.(snapshots := snapshots))
    ensures chain != [] && LoadedTo(env, chain, |chain| - 1, v) ==>
            LoadedTo(env, chain, |chain| - 1, v.(snapshots := snapshots))
  {
  }

  /**
   Start-up: load the chain from disk, or begin with genesis; then take the head's stored
   state, or execute the stored bodies when the head has none.
   */
  method StartUp(b: Block, state: StateDB, disk: ChainPersist, ghost chain: seq<Block>)
    returns (store: BlockStore, e: Option<StartError>)
    requires b.header.number == 0 && state.env.Hash(b) != ZERO_HASH && GenesisError(state.env, map[], b).None?
    requires Synced(state.env.codec, state.View()) && RootHash(state.env, state.View()) == b.header.stateRoot
    requires disk.codec.Faithful()
    modifies state, disk
    ensures fresh(store) && store.env == state.env && store.Valid()
    ensures At(old(disk.db), HeadKey).Some? ==> disk.db == old(disk.db)
    ensures At(old(disk.db), HeadKey).None? ==>
              && e.None? && state.View() == old(state.View()) && store.V() == Start(store.env, state.View(), b).v
              && Linked(store.byHash) && store.head.Some? && store.head.value in store.byHash
              && Persisted(disk.codec, old(disk.db), disk.db, store.V(), disk.archive, disk.archiveKeep)
    ensures Reloadable(store.env, disk.codec, old(disk.db), chain) && store.env.Hash(b) == store.env.Hash(chain[0]) ==>
              var env, c, db := store.env, disk.codec, old(disk.db);
              (|| ReadState(c, db, env.Hash(chain[|chain| - 1])).value.Some?
               || ExecuteChain(env, old(state.View()), chain[1..]).Ok?) ==>
                e.None? && Resumed(env, c, db, chain, old(state.View()), store.V(), state.View())
  {
    hide Inv, RootHash, Synced, Persisted, At, ReadState, Reloadable, Reloaded, Resumed, ExecuteChain, Start;
    store := new BlockStore(state.env);
    EmptyInv(store.env);
    ReloadableHead(store.env, disk.codec, disk.db, chain);
    var loaded := disk.LoadInto(store, b, chain);
    if loaded.Err? {
      return store, Some(LoadFailed(loaded.error));
    }
    if loaded.value.None? {
      FirstStart(store, b, state, disk);
      return store, None;
    }
    e := Resume(store, b, state, loaded.value.value, disk.codec, disk.db, chain);
  }

  lemma ReloadableHead(env: Env, c: DiskCodec, db: Db, chain: seq<Block>)
    ensures Reloadable(env, c, db, chain) ==>
              && chain != [] && At(db, HeadKey).Some?
              && ReadState(c, db, env.Hash(chain[|chain| - 1])).Ok?
  {
    hide At, Offers, ReadState, ReadBlock, ReadHeight;
  }

  /** Every block of `chain` has the state that executing the chain up to it gives. */
  ghost predicate RecordsReplay(env: Env, w: World, chain: seq<Block>, snapshots: map<H256, World>) {
    forall n :: 0 < n < |chain| ==>
      env.Hash(chain[n]) in snapshots && ExecuteChain(env, w, chain[1..n + 1]) == Ok(snapshots[env.Hash(chain[n])])
  }

  lemma ReloadableDistinct(env: Env, c: DiskCodec, db: Db, chain: seq<Block>)
    requires Reloadable(env, c, db, chain)
    ensures forall m, n :: 0 <= m < n < |chain| ==> env.Hash(chain[m]) != env.Hash(chain[n])
  {
    hide At, ReadBlock, ReadHeader, ReadHeight, ReadState, Follows, Env.ValidateBlock, Env.ValidateHeader;
    forall m, n | 0 <= m < n < |chain|
      ensures env.Hash(chain[m]) != env.Hash(chain[n])
    {
      assert Offers(env, c, db, chain, n);
    }
  }

  lemma ReloadedLists(env: Env, c: DiskCodec, db: Db, chain: seq<Block>, v: View)
    requires Reloadable(env, c, db, chain) && Reloaded(env, c, db, chain, v)
    ensures v.head == Some(env.Hash(chain[|chain| - 1])) && LoadedTo(env, chain, |chain| - 1, v)
    ensures Lists(env, chain, v)
    ensures Get(v.snapshots, v.head.value) == ReadState(c, db, v.head.value).value
  {
    hide Reloadable, ReadState, Env.Hash, HeightIndex;
    ReloadableDistinct(env, c, db, chain);
    ReloadableHead(env, c, db, chain);
    assert Hashes(env, chain)[|chain| - 1] == v.head.value;
  }

  lemma FirstStartOk(env: Env, genesis: World, b: Block, c: DiskCodec, db: Db, archive: bool, keep: nat)
    requires b == Block(b.header, [], []) && env.Hash(b) != ZERO_HASH && GenesisError(env, map[], b).None?
    requires Synced(env.codec, genesis) && RootHash(env, genesis) == b.header.stateRoot
    requires var v := Start(env, genesis, b).v;
             && Linked(v.byHash) && v.head.Some? && v.head.value in v.byHash
               && Persisted(c, map[], db, v, archive, keep)
    ensures var s := Start(env, genesis, b);
            NodeOk(env, genesis, env.Hash(b), s.bodies, s.bodies, s.v, genesis, c, db, archive, keep)
  {
    hide Inv, RootHash, Synced, Persisted, Path, FullIndex, Env.ValidateBlock, Env.ValidateHeader, StateRight;
    hide HistoryOk;
    StartOk(env, genesis, b);
    var s := Start(env, genesis, b);
    HistoryLinked(env, genesis, env.Hash(b), s.bodies);
    FirstHistory(env, genesis, b);
    GenesisLoaded(env, b);
    PersistedOk(env, genesis, env.Hash(b), s.bodies, s.bodies, s.bodies, s.v, genesis, c, map[], db, archive, keep);
  }

  lemma FirstHistory(env: Env, genesis: World, b: Block)
    requires b == Block(b.header, [], []) && env.Hash(b) != ZERO_HASH && GenesisError(env, map[], b).None?
    requires HistoryOk(env, genesis, env.Hash(b), map[env.Hash(b) := b])
    ensures History(env, genesis, env.Hash(b), map[env.Hash(b) := b])
  {
    hide Replayed, Env.ValidateBlock, Env.ValidateHeader;
  }

  // ----- The node

  class DurableNode {
    const env: Env
    const genesisBlock: Block
    const config: PoolConfig
    const disk: ChainPersist
    var store: BlockStore
    var live: StateDB
    var pool: TransactionPool

    // Specification only: the genesis state, the blocks in memory with their bodies, and all accepted blocks
    ghost const genesis: World
    ghost var bodies: Blocks
    ghost var known: Blocks

    ghost predicate Valid()
      reads this, store, live, pool, disk
    {
      && store.env == live.env == pool.env == env
      && store.Valid() && pool.Valid()
      && disk.codec.Faithful() && disk.archiveKeep > 0
      && env.Hash(genesisBlock) in known && known[env.Hash(genesisBlock)] == genesisBlock
      && NodeOk(env, genesis, env.Hash(genesisBlock), bodies, known, store.V(), live.View(),
                disk.codec, disk.db, disk.archive, disk.archiveKeep)
    }

    /** A node on an empty disk. */
    constructor (env: Env, b: Block, state: StateDB, config: PoolConfig, disk: ChainPersist)
      requires state.env == env && b == Block(b.header, [], []) && env.Hash(b) != ZERO_HASH
               && GenesisError(env, map[], b).None?
      requires Synced(env.codec, state.View()) && RootHash(env, state.View()) == b.header.stateRoot
      requires disk.codec.Faithful() && disk.archiveKeep > 0 && disk.db == map[]
      modifies state, disk
      ensures Valid() && fresh(store) && fresh(pool) && live == state && this.disk == disk
      ensures known == map[env.Hash(b) := b] && genesis == state.View() == old(state.View())
    {
      hide Inv, RootHash, Synced, Persisted, NodeOk, PoolInv, Inserted, Reloadable, ReadState, ExecuteChain, KeyBytes;
      this.env, this.genesisBlock, this.config, this.live, this.disk := env, b, config, state, disk;
      genesis, bodies, known := state.View(), map[env.Hash(b) := b], map[env.Hash(b) := b];
      var st, e := StartUp(b, state, disk, []);
      this.store := st;
      this.pool := new TransactionPool(env, config);
      FirstStartOk(env, state.View(), b, disk.codec, disk.db, disk.archive, disk.archiveKeep);
    }

    /**
     Imports a block, writes the canonical chain to disk and prunes memory. A refused block
     changes nothing. A block that is accepted must not share its hash with a different block accepted earlier.
     */
    method Import(b: Block) returns (r: Result<InsertOutcome, ChainError>)
      requires Valid() && Sync.Sane(env, b)
      requires ImportError(env, store.V(), b).None? && env.Hash(b) in known ==> known[env.Hash(b)] == b
      modifies this`bodies, this`known, store, live, pool, disk
      ensures Valid()
      ensures r.Err? ==> store.V() == old(store.V()) && live.View() == old(live.View())
      ensures r.Err? ==> disk.db == old(disk.db) && known == old(known)
      ensures r.Ok? ==> known == old(known)[env.Hash(b) := b]
      ensures ImportError(env, old(store.V()), b) == if r.Err? then Some(r.error) else None
    {
      hide Inv, NodeOk, PoolInv, ImportError;
      r := ImportAndPersist(store, live, pool, disk, b, genesis, env.Hash(genesisBlock), bodies, known);
      if r.Ok? {
        bodies, known := bodies[env.Hash(b) := b], known[env.Hash(b) := b];
        PruneStore();
      }
    }

    method PruneStore()
      requires Valid()
      modifies store
      ensures Valid() && known == old(known)
    {
      hide Inv, ImportInv, History, PoolInv, DiskOk, Intact, OnPath, InWindow, Dropped;
      ghost var v, root := store.V(), env.Hash(genesisBlock);
      PrunedOk(env, genesis, root, bodies, known, v, live.View(), disk.codec, disk.db, disk.archive, disk.archiveKeep);
      Sync.ImportHead(env, genesis, root, bodies, v, live.View());
      if disk.archive {
        store.PruneSnapshots();
      } else {
        store.PruneSnapshotsKeep(disk.archiveKeep);
      }
    }

    /**
     Rebuilds the node from disk, forgetting everything in memory. It comes back with the same
     head, height index and live state, every snapshot it had along the canonical chain, the
     same headers, and the same bodies inside the keep window. Transactions that were pending are gone.
     */
    method Restart(state: StateDB)
      requires Valid() && state.env == env && state.View() == genesis
      modifies this, state, disk
      ensures Valid() && live == state && fresh(store) && fresh(pool) && known == old(known) && disk.db == old(disk.db)
      ensures store.head == old(store.head) && store.byNumber == old(store.byNumber)
      ensures live.View() == old(live.View())
      ensures forall n :: n in store.byNumber ==>
                SameAt(disk.archive, disk.archiveKeep, old(store.V()), store.V(), store.byNumber[n])
    {
      hide Inv, NodeOk, PoolInv, Path, SameAt;
      ghost var head := RestartHead(env, genesis, env.Hash(genesisBlock), bodies, known, store.V(), live.View(),
                                    disk.codec, disk.db, disk.archive, disk.archiveKeep);
      store := Reopen(genesisBlock, state, disk, genesis, bodies, known, store.V(), live.View());
      live := state;
      pool := new TransactionPool(env, config);
      bodies := OnWalk(known, Path(known, head));
    }
  }

  lemma RestartHead(env: Env, genesis: World, root: H256, bodies: Blocks, known: Blocks, v: View, live: World,
                    c: DiskCodec, db: Db, archive: bool, keep: nat)
    returns (head: H256)
    requires NodeOk(env, genesis, root, bodies, known, v, live, c, db, archive, keep)
    ensures v.head == Some(head) && Linked(known) && head in known
  {
    hide History, Inv, Path, ReadState, Replay, Intact, HistoryOk, Saved;
    HistoryParts(env, genesis, root, known);
    head := v.head.value;
  }

  method ImportAndPersist(store: BlockStore, live: StateDB, pool: TransactionPool, disk: ChainPersist, b: Block,
                          ghost genesis: World, ghost root: H256, ghost bodies: Blocks, ghost known: Blocks)
    returns (r: Result<InsertOutcome, ChainError>)
    requires store.Valid() && pool.Valid() && live.env == pool.env == store.env && disk.codec.Faithful()
    requires NodeOk(store.env, genesis, root, bodies, known, store.V(), live.View(),
                    disk.codec, disk.db, disk.archive, disk.archiveKeep)
    requires Sync.Sane(store.env, b)
    requires ImportError(store.env, store.V(), b).None? && store.env.Hash(b) in known ==> known[store.env.Hash(b)] == b
    modifies store, live, pool, disk
    ensures store.Valid() && pool.Valid()
    ensures r.Err? ==> store.V() == old(store.V()) && live.View() == old(live.View()) && disk.db == old(disk.db)
    ensures ImportError(store.env, old(store.V()), b) == if r.Err? then Some(r.error) else None
    ensures r.Ok? ==>
              var h := store.env.Hash(b);
              NodeOk(store.env, genesis, root, bodies[h := b], known[h := b], store.V(), live.View(),
                     disk.codec, disk.db, disk.archive, disk.archiveKeep)
  {
    hide Inv, ImportInv, History, Imported, LiveAfter, ImportError, PoolInv, Synced, SyncAll;
    hide TxsOn, PoolAfter, NodeOk, Intact, Persisted, StatesRight, Path, Within, At, AccountMap;
    ghost var env, h, v, w, db := store.env, store.env.Hash(b), store.V(), live.View(), disk.db;
    NodeParts(env, genesis, root, bodies, known, v, w, disk.codec, db, disk.archive, disk.archiveKeep);
    Sync.ImportReady(env, genesis, root, bodies, v, w);
    r := ImportAndApply(store, live, pool, b);
    if r.Err? {
      return;
    }
    ImportedOk(env, genesis, root, bodies, known, v, w, disk.codec, db, disk.archive, disk.archiveKeep, b);
    WriteOut(store, live, disk, b, genesis, root, bodies[h := b]);
    PersistedOk(env, genesis, root, bodies[h := b], known, known[h := b], store.V(), live.View(),
                disk.codec, db, disk.db, disk.archive, disk.archiveKeep);
  }

  /**
   Writes the chain and then the live state's trie nodes; neither memory nor what the chain on disk
   says changes by the latter.
   */
  method WriteOut(store: BlockStore, live: StateDB, disk: ChainPersist, b: Block,
                  ghost genesis: World, ghost root: H256, ghost bodies: Blocks)
    requires store.Valid() && live.env == store.env && disk.codec.Faithful()
    requires ImportInv(store.env, genesis, root, bodies, store.V(), live.View())
    requires store.head.Some? && store.head.value in store.byHash && Linked(store.byHash)
    modifies live, disk
    ensures live.View() == old(live.View())
    ensures Persisted(disk.codec, old(disk.db), disk.db, store.V(), disk.archive, disk.archiveKeep)
  {
    hide Inv, ImportInv, Synced, SyncAll, Persisted, Path, At, AccountMap, MapOf, Trie.NodeSet, Trie.NodeList;
    hide Trie.Entitled;
    ghost var env, db := store.env, disk.db;
    Sync.ImportReady(env, genesis, root, bodies, store.V(), live.View());
    disk.PersistCanonical(store, b);
    ghost var written := disk.db;
    LiveSynced(env, genesis, root, bodies, store.V(), live.View());
    var nodes := live.TrieNodes();
    disk.PersistTrieNodes(nodes);
    PersistedFrame(disk.codec, db, written, disk.db, store.V(), disk.archive, disk.archiveKeep);
  }

  lemma LiveSynced(env: Env, genesis: World, root: H256, bodies: Blocks, v: View, live: World)
    requires ImportInv(env, genesis, root, bodies, v, live)
    ensures SyncAll(env.codec, live) == live
  {
    hide Inv, Synced, SyncAll, Replay, RootHash;
    assert Replayed(env, genesis, bodies, v.head.value);
    SyncAllNoop(env.codec, live);
  }

  /** Trie nodes written afterwards do not disturb a persisted chain. */
  lemma PersistedFrame(c: DiskCodec, db: Db, db': Db, db'': Db, v: View, archive: bool, keep: nat)
    requires Linked(v.byHash) && v.head.Some? && v.head.value in v.byHash && Persisted(c, db, db', v, archive, keep)
    requires forall j: Key :: !j.TrieKey? ==> At(db'', j) == At(db', j)
    ensures Persisted(c, db, db'', v, archive, keep)
  {
    hide At, Path, OnDisk;
    var path := Path(v.byHash, v.head.value);
    OnDiskFrame(c, db', db'', path, ImageOf(v.byHash, path), archive, keep);
    StatesFrame(c, db', db'');
  }

  lemma NodeParts(env: Env, genesis: World, root: H256, bodies: Blocks, known: Blocks, v: View, live: World,
                  c: DiskCodec, db: Db, archive: bool, keep: nat)
    requires NodeOk(env, genesis, root, bodies, known, v, live, c, db, archive, keep)
    ensures ImportInv(env, genesis, root, bodies, v, live)
  {
    hide ImportInv, History, DiskOk, Path, Intact, Saved;
  }

  /** Start-up on the disk a running node left behind. */
  method Reopen(b: Block, state: StateDB, disk: ChainPersist,
                ghost genesis: World, ghost bodies: Blocks, ghost known: Blocks, ghost v: View, ghost live: World)
    returns (store: BlockStore)
    requires disk.codec.Faithful() && disk.archiveKeep > 0 && state.View() == genesis
    requires state.env.Hash(b) in known && known[state.env.Hash(b)] == b
    requires NodeOk(state.env, genesis, state.env.Hash(b), bodies, known, v, live,
                    disk.codec, disk.db, disk.archive, disk.archiveKeep)
    modifies state, disk
    ensures fresh(store) && store.env == state.env && store.Valid() && disk.db == old(disk.db) && state.View() == live
    ensures v.head.Some? && Linked(known) && v.head.value in known
    ensures NodeOk(state.env, genesis, state.env.Hash(b), OnWalk(known, Path(known, v.head.value)), known,
                   store.V(), live,
                   disk.codec, disk.db, disk.archive, disk.archiveKeep)
    ensures store.head == v.head && store.byNumber == v.byNumber
    ensures forall n :: n in store.byNumber ==> SameAt(disk.archive, disk.archiveKeep, v, store.V(), store.byNumber[n])
  {
    hide Inv, RootHash, Synced, Persisted, NodeOk, Start, At, Reloadable;
    hide Reloaded, Resumed, ReadState, ExecuteChain, OnDiskChain, Path, SameAt, OnWalk;
    ghost var env, root, c, db := state.env, state.env.Hash(b), disk.codec, disk.db;
    RestartReady(env, genesis, root, bodies, known, v, live, c, db, disk.archive, disk.archiveKeep);
    ghost var chain := OnDiskChain(known, v.head.value, disk.archive, disk.archiveKeep);
    var e;
    store, e := StartUp(b, state, disk, chain);
    ResumedFromState(env, c, db, chain, genesis, store.V(), state.View(), live);
    RestartedOk(env, genesis, root, bodies, known, v, live, c, db, disk.archive, disk.archiveKeep, store.V());
  }

  lemma ResumedFromState(env: Env, c: DiskCodec, db: Db, chain: seq<Block>, genesis: World, v: View, state: World,
                         stored: World)
    requires Resumed(env, c, db, chain, genesis, v, state) && chain != []
    requires ReadState(c, db, env.Hash(chain[|chain| - 1])) == Ok(Some(stored))
    ensures state == stored && Reloaded(env, c, db, chain, v)
  {
    hide ReadState, ExecuteChain, Reloaded, LoadedTo, RecordsReplay;
  }

  lemma RestartReady(env: Env, genesis: World, root: H256, bodies: Blocks, known: Blocks, v: View, live: World,
                     c: DiskCodec, db: Db, archive: bool, keep: nat)
    requires NodeOk(env, genesis, root, bodies, known, v, live, c, db, archive, keep) && c.Faithful() && keep > 0
    ensures Linked(known) && v.head.Some? && v.head.value in known
    ensures At(db, HeadKey).Some?
    ensures GenesisError(env, map[], known[root]).None? && root != ZERO_HASH && env.Hash(known[root]) == root
    ensures Synced(env.codec, genesis) && RootHash(env, genesis) == known[root].header.stateRoot
    ensures var chain := OnDiskChain(known, v.head.value, archive, keep);
            && chain != [] && Reloadable(env, c, db, chain) && env.Hash(chain[0]) == root
            && ReadState(c, db, env.Hash(chain[|chain| - 1])) == Ok(Some(live))
  {
    hide RootHash, Synced, GenesisError, Inv, Path, ReadState, HistoryOk;
    hide Tracks, Checked, Intact, Stored, Replay, Reloadable, Retained;
    HistoryParts(env, genesis, root, known);
    GenesisAccepted(env, genesis, root, known);
    DiskReloads(env, genesis, root, known, c, db, archive, keep, v.head.value);
    WalkNumbers(known, v.head.value);
    var chain := OnDiskChain(known, v.head.value, archive, keep);
    assert Hashes(env, chain)[|chain| - 1] == v.head.value;
  }

  /** What is kept of block `h` across a restart. */
  ghost predicate SameAt(archive: bool, keep: nat, v: View, v': View, h: H256) {
    && v.head.Some? && v.head.value in v.byHash && h in v.byHash && h in v'.byHash
    && v'.byHash[h].header == v.byHash[h].header
    && (Kept(archive, keep, v.byHash[v.head.value].header.number, v.byHash[h].header.number) ==>
      v'.byHash[h] == v.byHash[h])
    && (h in v.snapshots ==> h in v'.snapshots && v'.snapshots[h] == v.snapshots[h])
  }

  lemma GenesisAccepted(env: Env, genesis: World, root: H256, known: Blocks)
    requires History(env, genesis, root, known)
    ensures GenesisError(env, map[], known[root]).None? && root != ZERO_HASH && env.Hash(known[root]) == root
    ensures Synced(env.codec, genesis) && RootHash(env, genesis) == known[root].header.stateRoot
  {
    hide RootHash, Synced, Env.ValidateBlock, Env.ValidateHeader;
    assert Checked(env, known, root) && Replayed(env, genesis, known, root);
  }

  /** A stored block has its header from the history, and its body inside the window. */
  lemma MemoryAt(bodies: Blocks, known: Blocks, v: View, archive: bool, keep: nat, h: H256)
    requires Tracks(bodies, v.byHash) && Within(bodies, known)
    requires v.head.Some? && v.head.value in v.byHash && Intact(archive, keep, bodies, v) && h in v.byHash
    ensures h in known && v.byHash[h].header == known[h].header
    ensures Kept(archive, keep, v.byHash[v.head.value].header.number, v.byHash[h].header.number) ==>
            v.byHash[h] == known[h]
  {
  }

  /** The canonical walk in memory is the walk in the history. */
  lemma CanonicalWalk(env: Env, genesis: World, root: H256, bodies: Blocks, known: Blocks, v: View, live: World)
    requires ImportInv(env, genesis, root, bodies, v, live) && Within(bodies, known) && Linked(known)
    ensures v.head.Some? && v.head.value in known && v.head.value in bodies && Linked(bodies)
    ensures v.byNumber == HeightIndex(Path(known, v.head.value))
    ensures forall h :: h in Path(known, v.head.value) ==> h in v.byHash
    ensures Replay(env, genesis, bodies, v.head.value) == Replay(env, genesis, known, v.head.value) == Ok(live)
  {
    hide Path, Replay, IndexSound, IndexComplete, HeightIndex, Replayed;
    WalkInHistory(bodies, known, v.byHash, v.head.value);
    ReplayFrame(env, genesis, bodies, known, v.head.value);
  }

  lemma SameAcross(c: DiskCodec, db: Db, path: seq<H256>, bodies: Blocks, bodies': Blocks, known: Blocks,
                   v: View, v': View, archive: bool, keep: nat, h: H256)
    requires Tracks(bodies, v.byHash) && Within(bodies, known) && Tracks(bodies', v'.byHash) && Within(bodies', known)
    requires v.head.Some? && v.head.value in v.byHash && Intact(archive, keep, bodies, v)
    requires v'.head == v.head && v'.head.value in v'.byHash && Intact(archive, keep, bodies', v')
    requires h in path && h in v.byHash && h in v'.byHash
    requires Saved(c, db, path, v.snapshots)
    requires Get(v'.snapshots, h) == if h in path && ReadState(c, db, h).Ok? then ReadState(c, db, h).value else None
    ensures SameAt(archive, keep, v, v', h)
  {
    hide ReadState, Tracks, Intact, Kept, Within;
    MemoryAt(bodies, known, v, archive, keep, h);
    MemoryAt(bodies', known, v', archive, keep, h);
    MemoryAt(bodies, known, v, archive, keep, v.head.value);
    MemoryAt(bodies', known, v', archive, keep, v.head.value);
  }

  /** The round trip: the reloaded node satisfies the invariant again, and agrees with the node before. */
  lemma RestartedOk(env: Env, genesis: World, root: H256, bodies: Blocks, known: Blocks, v: View, live: World,
                    c: DiskCodec, db: Db, archive: bool, keep: nat, v': View)
    requires NodeOk(env, genesis, root, bodies, known, v, live, c, db, archive, keep)
    requires Inv(env, v') && Linked(known) && v.head.value in known
    requires Reloaded(env, c, db, OnDiskChain(known, v.head.value, archive, keep), v')
    ensures var walk := OnWalk(known, Path(known, v.head.value));
            && NodeOk(env, genesis, root, walk, known, v', live, c, db, archive, keep)
            && v'.head == v.head && v'.byNumber == v.byNumber
            && forall n :: n in v'.byNumber ==> SameAt(archive, keep, v, v', v'.byNumber[n])
  {
    hide Path, ReadState, History, HistoryOk, Inv, DiskOk, Replay;
    hide OnDiskChain, OnWalk, Intact, Tracks, SameAt, Reloaded, Within;
    var head := v.head.value;
    var path := Path(known, head);
    var walk := OnWalk(known, path);
    RestartedMemory(env, genesis, root, known, c, db, archive, keep, v', head);
    CanonicalWalk(env, genesis, root, bodies, known, v, live);
    CanonicalWalk(env, genesis, root, walk, known, v', v'.snapshots[head]);
    forall n | n in v'.byNumber
      ensures SameAt(archive, keep, v, v', v'.byNumber[n])
    {
      assert v'.byNumber[n] == path[n];
      SameAcross(c, db, path, bodies, walk, known, v, v', archive, keep, path[n]);
    }
  }

  /** After an accepted import, memory and history agree again; the disk is still the old one. */
  lemma ImportedOk(env: Env, genesis: World, root: H256, bodies: Blocks, known: Blocks, v: View, live: World,
                   c: DiskCodec, db: Db, archive: bool, keep: nat, b: Block)
    requires NodeOk(env, genesis, root, bodies, known, v, live, c, db, archive, keep)
    requires ImportError(env, v, b).None? && Sync.Sane(env, b) && (env.Hash(b) in known ==> known[env.Hash(b)] == b)
    ensures Fits(env, v.byHash, b)
    ensures var v', bodies', known' := Imported(env, v, b), bodies[env.Hash(b) := b], known[env.Hash(b) := b];
            && ImportInv(env, genesis, root, bodies', v', LiveAfter(env, v, live, b))
            && History(env, genesis, root, known') && Within(bodies', known') && Within(known, known')
            && v'.head.Some? && v'.head.value in v'.byHash && Intact(archive, keep, bodies', v')
            && Linked(v'.byHash) && Linked(known) && StatesRight(env, genesis, known, c, db)
  {
    hide Inv, ImportInv, History, Imported, LiveAfter, ImportError, StatesRight, StateRight, Intact, OnDisk, Path;
    ImportedInv(env, genesis, root, bodies, v, live, b);
    AcceptedHistory(env, genesis, root, bodies, known, v, live, b);
    HistoryParts(env, genesis, root, known);
    ImportParts(env, genesis, root, bodies, v, live);
    IntactImported(env, archive, keep, bodies, v, b);
    ImportParts(env, genesis, root, bodies[env.Hash(b) := b], Imported(env, v, b), LiveAfter(env, v, live, b));
  }

  lemma ImportParts(env: Env, genesis: World, root: H256, bodies: Blocks, v: View, live: World)
    requires ImportInv(env, genesis, root, bodies, v, live)
    ensures Inv(env, v) && Linked(v.byHash) && v.head.Some? && v.head.value in v.byHash
  {
    hide Path, IndexSound, IndexComplete, HistoryOk;
  }
}
