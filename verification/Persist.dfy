/**
 The on-disk chain of bin/ivory/src/persist.rs over a key-value map.

 Keys are real byte strings, so that the key families are shown not to overlap. Block, header
 and snapshot encodings are parameters that decoding inverts.
 */
module Persist {
  import opened Primitives
  import opened Ledger
  import opened State
  import opened Execution
  import opened Store
  import opened Import
  import Trie

  // ----- Keys

  datatype Key =
    | HeadKey
    | HeightKey(number: U64)
    | BlockKey(block: H256)
    | HeaderKey(header: H256)
    | SnapshotKey(state: H256)
    | TrieKey(node: H256)

  /** "head", or a one-letter family tag followed by a fixed-width number. */
  function KeyBytes(k: Key): (r: Bytes) {
    match k
    case HeadKey => [104, 101, 97, 100]
    case HeightKey(n) => [104] + BigEndian(n, 8)
    case BlockKey(h) => [98] + BigEndian(h, 32)
    case HeaderKey(h) => [72] + BigEndian(h, 32)
    case SnapshotKey(h) => [115] + BigEndian(h, 32)
    case TrieKey(h) => [116] + BigEndian(h, 32)
  }

  lemma HeightBytesInvert(n: U64)
    ensures FromBigEndian(BigEndian(n, 8)) == n
  {
    assert Pow256(4) == 0x1_0000_0000;
    assert Pow256(8) == TWO_64;
    BigEndianInvert(n, 8);
  }

  /** No two keys share their bytes, within a family or across families. */
  lemma KeysDisjoint(a: Key, b: Key)
    requires KeyBytes(a) == KeyBytes(b)
    ensures a == b
  {
    hide BigEndian;
    var x, y := KeyBytes(a), KeyBytes(b);
    assert x[0] == y[0] && |x| == |y|;
    if a.HeightKey? {
      assert x[1..] == BigEndian(a.number, 8) && y[1..] == BigEndian(b.number, 8);
      HeightBytesInvert(a.number);
      HeightBytesInvert(b.number);
    } else if !a.HeadKey? {
      KeyPayload(a);
      KeyPayload(b);
    }
  }

  function HashIn(k: Key): H256 {
    match k
    case BlockKey(h) => h
    case HeaderKey(h) => h
    case SnapshotKey(h) => h
    case TrieKey(h) => h
    case _ => 0
  }

  lemma KeyPayload(k: Key)
    requires !k.HeadKey? && !k.HeightKey?
    ensures FromBigEndian(KeyBytes(k)[1..]) == HashIn(k)
  {
    hide BigEndian;
    assert KeyBytes(k)[1..] == BigEndian(HashIn(k), 32);
    WordBytesInvert(HashIn(k));
  }

  type Db = map<Bytes, Bytes>

  function At(db: Db, k: Key): Option<Bytes> {
    Get(db, KeyBytes(k))
  }

  lemma PutAt(db: Db, k: Key, v: Bytes)
    ensures forall j :: At(db[KeyBytes(k) := v], j) == if j == k then Some(v) else At(db, j)
  {
    hide KeyBytes;
    forall j
      ensures At(db[KeyBytes(k) := v], j) == if j == k then Some(v) else At(db, j)
    {
      if KeyBytes(j) == KeyBytes(k) {
        KeysDisjoint(j, k);
      }
    }
  }

  lemma DeleteAt(db: Db, k: Key)
    ensures forall j :: At(db - {KeyBytes(k)}, j) == if j == k then None else At(db, j)
  {
    hide KeyBytes;
    forall j
      ensures At(db - {KeyBytes(k)}, j) == if j == k then None else At(db, j)
    {
      if KeyBytes(j) == KeyBytes(k) {
        KeysDisjoint(j, k);
      }
    }
  }

  // ----- Encodings

  datatype DiskCodec = DiskCodec(
    blockBytes: Block -> Bytes,
    blockOf: Bytes -> Option<Block>,
    headerBytes: Header -> Bytes,
    headerOf: Bytes -> Option<Header>,
    snapshotBytes: StateSnapshot -> Bytes,
    snapshotOf: Bytes -> Option<StateSnapshot>) {

    ghost predicate Faithful() {
      && (forall b: Block :: blockOf(blockBytes(b)) == Some(b))
      && (forall h: Header :: headerOf(headerBytes(h)) == Some(h))
      && (forall s: StateSnapshot :: snapshotOf(snapshotBytes(s)) == Some(s))
    }
  }

  function HashBytes(h: H256): Bytes {
    BigEndian(h, 32)
  }

  /** A stored hash: anything but 32 bytes is an error. */
  function HashOf(bytes: Bytes): (r: Option<H256>) {
    if |bytes| != 32 || FromBigEndian(bytes) >= TWO_256 then None else Some(FromBigEndian(bytes))
  }

  lemma HashInvert(h: H256)
    ensures HashOf(HashBytes(h)) == Some(h)
  {
    WordBytesInvert(h);
  }

  // ----- Reading back

  datatype LoadError =
    | Corrupt
    | HeadMissing
    | GenesisMissing
    | GenesisMismatch
    | HeightMissing
    | HeaderMissing
    | Refused(cause: ChainError)

  function ReadBlock(c: DiskCodec, db: Db, h: H256): Result<Option<Block>, LoadError> {
    match At(db, BlockKey(h))
    case None => Ok(None)
    case Some(raw) => if c.blockOf(raw).None? then Err(Corrupt) else Ok(c.blockOf(raw))
  }

  function ReadHeader(c: DiskCodec, db: Db, h: H256): Result<Option<Header>, LoadError> {
    match At(db, HeaderKey(h))
    case None => Ok(None)
    case Some(raw) => if c.headerOf(raw).None? then Err(Corrupt) else Ok(c.headerOf(raw))
  }

  function ReadHeight(db: Db, n: U64): Result<Option<H256>, LoadError> {
    match At(db, HeightKey(n))
    case None => Ok(None)
    case Some(raw) => if HashOf(raw).None? then Err(Corrupt) else Ok(HashOf(raw))
  }

  function ReadBlockAt(c: DiskCodec, db: Db, n: U64): Result<Option<Block>, LoadError> {
    match ReadHeight(db, n)
    case Err(e) => Err(e)
    case Ok(None) => Ok(None)
    case Ok(Some(h)) => ReadBlock(c, db, h)
  }

  function ReadState(c: DiskCodec, db: Db, h: H256): Result<Option<World>, LoadError> {
    match At(db, SnapshotKey(h))
    case None => Ok(None)
    case Some(raw) =>
      match c.snapshotOf(raw)
      case None => Err(Corrupt)
      case Some(snap) => Ok(Some(FromSnapshot(snap)))
  }

  // ----- What the disk holds after a persist

  /** Which bodies go to disk: all of them, or genesis and the last `keep` heights. */
  predicate Kept(archive: bool, keep: nat, top: nat, n: nat): (r: bool)
    ensures n <= top ==> (r <==> archive || n == 0 || top < n + keep)
  {
    archive || n == 0 || SaturatingSub(top, n) < keep
  }

  /** Height `n` points to `h`, and the block is there in full, or its header only. */
  ghost predicate Stored(c: DiskCodec, db: Db, n: nat, h: H256, b: Block, full: bool)
    requires n < TWO_64
  {
    && At(db, HeightKey(n)) == Some(HashBytes(h))
    && At(db, BlockKey(h)) == (if full then Some(c.blockBytes(b)) else None)
    && (!full ==> At(db, HeaderKey(h)) == Some(c.headerBytes(b.header)))
  }

  /** The walk `path` with blocks `image` is on disk, with bodies inside the keep window. */
  ghost predicate OnDisk(c: DiskCodec, db: Db, path: seq<H256>, image: seq<Block>, archive: bool, keep: nat) {
    && 0 < |path| == |image| < TWO_64
    && At(db, HeadKey) == Some(HashBytes(path[|path| - 1]))
    && (forall n :: 0 <= n < |path| ==> Stored(c, db, n, path[n], image[n], Kept(archive, keep, |path| - 1, n)))
  }

  ghost function ImageOf(blocks: Blocks, path: seq<H256>): (image: seq<Block>)
    requires forall h :: h in path ==> h in blocks
    ensures |image| == |path|
  {
    seq(|path|, n requires 0 <= n < |path| => blocks[path[n]])
  }

  /** Writing blocks, headers and heights leaves every stored state and trie node alone. */
  ghost predicate SameStates(db: Db, db': Db) {
    forall h :: At(db', SnapshotKey(h)) == At(db, SnapshotKey(h)) && At(db', TrieKey(h)) == At(db, TrieKey(h))
  }

  /** No key changed but those of one height. */
  ghost predicate OneHeight(db: Db, db': Db, n: U64, hash: H256) {
    forall j :: j !in {HeightKey(n), BlockKey(hash), HeaderKey(hash)} ==> At(db', j) == At(db, j)
  }

  lemma HeightFrame(first: Db, db: Db, db': Db, n: U64, hash: H256)
    requires OneHeight(db, db', n, hash) && SameStates(first, db)
    ensures SameStates(first, db') && At(db', HeadKey) == At(db, HeadKey)
    ensures forall h :: h != hash ==> At(db', BlockKey(h)) == At(db, BlockKey(h))
  {
    hide At;
  }

  lemma HeadFrame(db: Db, db': Db)
    requires forall j :: j != HeadKey ==> At(db', j) == At(db, j)
    ensures SameStates(db, db')
  {
    hide At;
  }

  /** What a persist of the store `v` does to the disk. */
  ghost predicate Persisted(c: DiskCodec, db: Db, db': Db, v: View, archive: bool, keep: nat)
    requires Linked(v.byHash) && v.head.Some? && v.head.value in v.byHash
  {
    var path := Path(v.byHash, v.head.value);
    && (forall h :: h in path ==> h in v.byHash)
    && OnDisk(c, db', path, ImageOf(v.byHash, path), archive, keep)
    && Rewritten(c, db, db', path, v.snapshots)
  }

  // ----- What a load makes of any disk

  /** Every stored block is below height `n`. */
  ghost predicate Below(blocks: Blocks, n: nat) {
    forall h :: h in blocks ==> blocks[h].header.number < n
  }

  /** The entry at height `n`: a whole block, or a bare header, or why there is neither. */
  function EntryAt(c: DiskCodec, db: Db, n: U64): (r: Result<(Block, bool), LoadError>) {
    match ReadBlockAt(c, db, n)
    case Err(e) => Err(e)
    case Ok(Some(b)) => Ok((b, true))
    case Ok(None) =>
      match ReadHeight(db, n)
      case Err(e) => Err(e)
      case Ok(None) => Err(HeightMissing)
      case Ok(Some(h)) =>
        match ReadHeader(c, db, h)
        case Err(e) => Err(e)
        case Ok(None) => Err(HeaderMissing)
        case Ok(Some(header)) => Ok((Block(header, [], []), false))
  }

  function EntryError(env: Env, blocks: Blocks, b: Block, whole: bool): (r: Option<ChainError>) {
    if whole then InsertError(env, blocks, b) else BareHeaderError(env, blocks, b.header)
  }

  lemma EntryFits(env: Env, blocks: Blocks, b: Block, whole: bool, n: U64)
    requires EntryError(env, blocks, b, whole).None? && Below(blocks, n) && n > 0
    ensures Fits(env, blocks, b) && b.header.number <= n
  {
    hide Env.ValidateBlock, Env.ValidateHeader;
  }

  /** The store after loading height `n`, or the error that stops the load there. */
  ghost function LoadOne(env: Env, c: DiskCodec, db: Db, v: View, n: U64): (r: Result<View, LoadError>)
    requires Inv(env, v) && n > 0 && Below(v.byHash, n)
    ensures r.Ok? ==> Inv(env, r.value) && Below(r.value.byHash, n + 1)
  {
    match EntryAt(c, db, n)
    case Err(e) => Err(e)
    case Ok((b, whole)) =>
      match EntryError(env, v.byHash, b, whole)
      case Some(e) => Err(Refused(e))
      case None =>
        EntryFits(env, v.byHash, b, whole, n);
        InsertedInv(env, v, b);
        InsertedBlocks(env, v, b);
        Ok(Inserted(env, v, b))
  }

  ghost function LoadFrom(env: Env, c: DiskCodec, db: Db, v: View, n: nat, top: U64): (r: Result<View, LoadError>)
    requires Inv(env, v) && n > 0 && Below(v.byHash, n)
    decreases top + 1 - n
  {
    if n > top then Ok(v)
    else
      match LoadOne(env, c, db, v, n)
      case Err(e) => Err(e)
      case Ok(v') => LoadFrom(env, c, db, v', n + 1, top)
  }

  ghost function LoadChain(env: Env, c: DiskCodec, db: Db, genesis: Block, top: U64): (r: Result<View, LoadError>) {
    match GenesisError(env, map[], genesis)
    case Some(e) => Err(Refused(e))
    case None =>
      EmptyInv(env);
      GenesisLoaded(env, genesis);
      InsertedInv(env, EMPTY_VIEW, genesis);
      LoadFrom(env, c, db, Inserted(env, EMPTY_VIEW, genesis), 1, top)
  }

  /** Some state up to height `top` does not decode. */
  ghost predicate StateDamaged(c: DiskCodec, db: Db, path: seq<H256>, top: nat) {
    exists n :: 0 <= n <= top && n < |path| && ReadState(c, db, path[n]).Err?
  }

  /** `now` is `before` with the stored states of the listed blocks. */
  ghost predicate Recorded(c: DiskCodec, db: Db, list: seq<H256>, before: map<H256, World>, now: map<H256, World>) {
    forall h :: Get(now, h) ==
      if h in list && ReadState(c, db, h).Ok? && ReadState(c, db, h).value.Some?
      then ReadState(c, db, h).value else Get(before, h)
  }

  lemma NoneRecorded(c: DiskCodec, db: Db, path: seq<H256>, before: map<H256, World>)
    ensures Recorded(c, db, path[..0], before, before)
  {
    hide ReadState;
  }

  lemma RecordedMore(c: DiskCodec, db: Db, path: seq<H256>, n: nat, before: map<H256, World>, now: map<H256, World>)
    requires n < |path| && ReadState(c, db, path[n]).Ok? && Recorded(c, db, path[..n], before, now)
    ensures match ReadState(c, db, path[n]).value
            case None => Recorded(c, db, path[..n + 1], before, now)
            case Some(w) => Recorded(c, db, path[..n + 1], before, now[path[n] := w])
  {
    hide ReadState;
    assert path[..n + 1] == path[..n] + [path[n]];
  }

  /** What loading returns, for every disk. */
  ghost function LoadResult(env: Env, c: DiskCodec, db: Db, expected: Block): (r: Result<Option<U64>, LoadError>) {
    match At(db, HeadKey)
    case None => Ok(None)
    case Some(raw) =>
      match HashOf(raw)
      case None => Err(Corrupt)
      case Some(h) =>
        match ReadBlock(c, db, h)
        case Err(e) => Err(e)
        case Ok(None) => Err(HeadMissing)
        case Ok(Some(head)) =>
          match ReadBlockAt(c, db, 0)
          case Err(e) => Err(e)
          case Ok(None) => Err(GenesisMissing)
          case Ok(Some(genesis)) =>
            if env.Hash(genesis) != env.Hash(expected) then Err(GenesisMismatch)
            else
              match LoadChain(env, c, db, genesis, head.header.number)
              case Err(e) => Err(e)
              case Ok(v) =>
                if ChainDamaged(c, db, v, head.header.number) then Err(Corrupt) else Ok(Some(head.header.number))
  }

  ghost predicate ChainDamaged(c: DiskCodec, db: Db, v: View, top: nat) {
    && Linked(v.byHash) && v.head.Some? && v.head.value in v.byHash
    && StateDamaged(c, db, Path(v.byHash, v.head.value), top)
  }

  /** The stored states are those of `db`, except that listed blocks with a snapshot have theirs. */
  ghost predicate Rewritten(c: DiskCodec, db: Db, db': Db, list: seq<H256>, snapshots: map<H256, World>) {
    forall h :: ReadState(c, db', h) ==
      if h in list && h in snapshots then Ok(Some(snapshots[h])) else ReadState(c, db, h)
  }

  lemma NoneRewritten(c: DiskCodec, db: Db, path: seq<H256>, snapshots: map<H256, World>)
    ensures Rewritten(c, db, db, path[..0], snapshots)
  {
    hide ReadState;
  }

  lemma RewrittenMore(c: DiskCodec, db: Db, db': Db, db'': Db, path: seq<H256>, n: nat, snapshots: map<H256, World>)
    requires n < |path| && Rewritten(c, db, db', path[..n], snapshots)
    requires forall h :: ReadState(c, db'', h) ==
                         if h == path[n] && h in snapshots then Ok(Some(snapshots[h])) else ReadState(c, db', h)
    ensures Rewritten(c, db, db'', path[..n + 1], snapshots)
  {
    hide ReadState;
    assert path[..n + 1] == path[..n] + [path[n]];
  }

  // ----- Trie nodes

  /** The entry of `h`, if it is the digest of what is stored there. */
  ghost predicate HoldsNode(c: Trie.Codec, db: Db, h: H256) {
    At(db, TrieKey(h)).Some? && c.keccak(At(db, TrieKey(h)).value) == h
  }

  /** Every one of the nodes is found under its digest: itself, or a string with the same digest. */
  ghost predicate NodesOnDisk(c: Trie.Codec, db: Db, nodes: set<Bytes>) {
    forall x :: x in nodes ==> HoldsNode(c, db, c.keccak(x))
  }

  /** No node is lost. */
  ghost predicate NodesKept(c: Trie.Codec, db: Db, db': Db) {
    forall h :: HoldsNode(c, db, h) ==> HoldsNode(c, db', h)
  }

  /** The nodes of the account trie of `w`. */
  ghost function AccountNodes(env: Env, w: World): set<Bytes> {
    Trie.NodeSet(env.codec, Trie.NibbleMap(AccountMap(env, w.accounts)))
  }

  /** The whole account trie of every listed block with a state is on disk. */
  ghost predicate TriesOnDisk(env: Env, db: Db, list: seq<H256>, snapshots: map<H256, World>) {
    forall h :: h in list && h in snapshots ==> NodesOnDisk(env.codec, db, AccountNodes(env, snapshots[h]))
  }

  lemma {:induction false} HashedLookup(c: Trie.Codec, nodes: seq<(H256, Bytes)>)
    requires Trie.Hashed(c, nodes)
    ensures forall h :: h in MapOf(nodes) ==> c.keccak(MapOf(nodes)[h]) == h
    ensures forall i :: 0 <= i < |nodes| ==> nodes[i].0 in MapOf(nodes)
  {
    if nodes != [] {
      HashedLookup(c, nodes[..|nodes| - 1]);
    }
  }

  lemma NodesWritten(c: Trie.Codec, db: Db, db': Db, nodes: seq<(H256, Bytes)>)
    requires Trie.Hashed(c, nodes)
    requires forall h :: At(db', TrieKey(h)) ==
                         if h in MapOf(nodes) then Get(MapOf(nodes), h) else At(db, TrieKey(h))
    ensures NodesKept(c, db, db') && NodesOnDisk(c, db', Trie.EncodingsOf(nodes))
  {
    hide At, MapOf;
    HashedLookup(c, nodes);
  }

  lemma TriesMore(env: Env, db: Db, db': Db, path: seq<H256>, n: nat, snapshots: map<H256, World>)
    requires n < |path| && TriesOnDisk(env, db, path[..n], snapshots) && NodesKept(env.codec, db, db')
    requires path[n] in snapshots ==> NodesOnDisk(env.codec, db', AccountNodes(env, snapshots[path[n]]))
    ensures TriesOnDisk(env, db', path[..n + 1], snapshots)
  {
    hide HoldsNode, AccountNodes;
    assert path[..n + 1] == path[..n] + [path[n]];
  }

  lemma NodesKeptSame(c: Trie.Codec, db: Db, db': Db)
    requires forall h :: At(db', TrieKey(h)) == At(db, TrieKey(h))
    ensures NodesKept(c, db, db')
  {
  }

  lemma NoTries(env: Env, db: Db, path: seq<H256>, snapshots: map<H256, World>)
    ensures TriesOnDisk(env, db, path[..0], snapshots) && NodesKept(env.codec, db, db)
  {
  }

  lemma KeptBoth(c: Trie.Codec, first: Db, second: Db, third: Db)
    requires NodesKept(c, first, second) && NodesKept(c, second, third)
    ensures NodesKept(c, first, third)
  {
    hide HoldsNode;
  }

  lemma NodesStay(c: Trie.Codec, db: Db, db': Db, nodes: set<Bytes>)
    requires NodesKept(c, db, db') && NodesOnDisk(c, db, nodes)
    ensures NodesOnDisk(c, db', nodes)
  {
    hide HoldsNode;
  }

  class ChainPersist {
    const codec: DiskCodec
    const archive: bool
    const archiveKeep: nat
    var db: Db

    constructor (codec: DiskCodec, archive: bool, archiveKeep: nat, db: Db)
      ensures this.codec == codec && this.archive == archive && this.db == db
      ensures this.archiveKeep == if archiveKeep == 0 then 1 else archiveKeep
    {
      this.codec, this.archive, this.db := codec, archive, db;
      this.archiveKeep := if archiveKeep == 0 then 1 else archiveKeep;
    }

    method Put(k: Key, v: Bytes)
      modifies this
      ensures forall j :: At(db, j) == if j == k then Some(v) else old(At(db, j))
    {
      PutAt(db, k, v);
      db := db[KeyBytes(k) := v];
    }

    method Delete(k: Key)
      modifies this
      ensures forall j :: At(db, j) == if j == k then None else old(At(db, j))
    {
      DeleteAt(db, k);
      db := db - {KeyBytes(k)};
    }

    /** Writes the height entry of one canonical block, with its body or with its header only. */
    method PersistHeight(n: nat, hash: H256, b: Block, keep: bool)
      requires n < TWO_64
      modifies this
      ensures Stored(codec, db, n, hash, b, keep) && OneHeight(old(db), db, n, hash)
    {
      hide At;
      if keep {
        Put(BlockKey(hash), codec.blockBytes(b));
      } else {
        Put(HeaderKey(hash), codec.headerBytes(b.header));
        Delete(BlockKey(hash));
      }
      Put(HeightKey(n), HashBytes(hash));
    }

    method PersistTrieNodes(nodes: seq<(H256, Bytes)>)
      modifies this
      ensures forall j: Key :: !j.TrieKey? ==> At(db, j) == old(At(db, j))
      ensures forall h :: At(db, TrieKey(h)) ==
                          if h in MapOf(nodes) then Get(MapOf(nodes), h) else old(At(db, TrieKey(h)))
    {
      hide At;
      for i := 0 to |nodes|
        invariant forall j: Key :: !j.TrieKey? ==> At(db, j) == old(At(db, j))
        invariant forall h :: At(db, TrieKey(h)) ==
                              if h in MapOf(nodes[..i]) then Get(MapOf(nodes[..i]), h) else old(At(db, TrieKey(h)))
      {
        assert nodes[..i + 1][..i] == nodes[..i];
        Put(TrieKey(nodes[i].0), nodes[i].1);
      }
      assert nodes[..|nodes|] == nodes;
    }

    method PersistSnapshot(hash: H256, state: StateDB)
      requires codec.Faithful()
      modifies this
      ensures ReadState(codec, db, hash) == Ok(Some(state.View()))
      ensures forall j :: j != SnapshotKey(hash) ==> At(db, j) == old(At(db, j))
    {
      hide At, FromSnapshot;
      var snap := state.ToSnapshot();
      Put(SnapshotKey(hash), codec.snapshotBytes(snap));
    }

    /** The first loop: heights, bodies or headers, and the head entry. */
    method PersistBlocks(store: BlockStore)
      requires store.Valid() && store.head.Some? && store.head.value in store.byHash
      requires store.byHash[store.head.value].header.number < U64_MAX
      modifies this
      ensures SameStates(old(db), db)
      ensures Linked(store.byHash)
      ensures var path := Path(store.byHash, store.head.value);
              && (forall h :: h in path ==> h in store.byHash)
              && OnDisk(codec, db, path, ImageOf(store.byHash, path), archive, archiveKeep)
              && (forall h :: h !in path ==> At(db, BlockKey(h)) == old(At(db, BlockKey(h))))
    {
      hide Path, At, Inv, Stored, SameStates, OneHeight;
      HeadWalk(store.env, store.V());
      ghost var path := Path(store.byHash, store.head.value);
      ghost var image := ImageOf(store.byHash, path);
      Put(HeadKey, HashBytes(store.head.value));
      HeadFrame(old(db), db);
      var top: nat := store.byHash[store.head.value].header.number;
      for n := 0 to top + 1
        invariant SameStates(old(db), db)
        invariant At(db, HeadKey) == Some(HashBytes(store.head.value))
        invariant forall h :: h !in path ==> At(db, BlockKey(h)) == old(At(db, BlockKey(h)))
        invariant forall m :: 0 <= m < n ==> Stored(codec, db, m, path[m], image[m], Kept(archive, archiveKeep, top, m))
      {
        var hash := store.byNumber[n];
        var b := store.byHash[hash];
        var keep := archive || n == 0 || SaturatingSub(top, n) < archiveKeep;
        ghost var before := db;
        PersistHeight(n, hash, b, keep);
        HeightFrame(old(db), before, db, n, hash);
        forall m | 0 <= m < n
          ensures Stored(codec, db, m, path[m], image[m], Kept(archive, archiveKeep, top, m))
        {
          StoredFrame(codec, before, db, m, path[m], image[m], Kept(archive, archiveKeep, top, m), n, hash);
        }
      }
    }

    /** The second loop: the state of every canonical block that has one. */
    method PersistStates(store: BlockStore)
      requires codec.Faithful()
      requires store.Valid() && store.head.Some? && store.head.value in store.byHash
      requires forall h :: h in store.snapshots ==> Synced(store.env.codec, store.snapshots[h])
      modifies this
      ensures forall j: Key :: !j.SnapshotKey? && !j.TrieKey? ==> At(db, j) == old(At(db, j))
      ensures Linked(store.byHash)
      ensures Rewritten(codec, old(db), db, Path(store.byHash, store.head.value), store.snapshots)
      ensures TriesOnDisk(store.env, db, Path(store.byHash, store.head.value), store.snapshots)
      ensures NodesKept(store.env.codec, old(db), db)
    {
      hide Path, At, Inv, Synced, SyncAll, ReadState, Rewritten, TriesOnDisk, NodesOnDisk, NodesKept, AccountNodes;
      HeadWalk(store.env, store.V());
      ghost var path := Path(store.byHash, store.head.value);
      ghost var before := db;
      var top: nat := store.byHash[store.head.value].header.number;
      NoneRewritten(codec, db, path, store.snapshots);
      NoTries(store.env, db, path, store.snapshots);
      for n := 0 to top + 1
        invariant forall j: Key :: !j.SnapshotKey? && !j.TrieKey? ==> At(db, j) == At(before, j)
        invariant Rewritten(codec, before, db, path[..n], store.snapshots)
        invariant TriesOnDisk(store.env, db, path[..n], store.snapshots) && NodesKept(store.env.codec, before, db)
      {
        var hash := store.byNumber[n];
        var state := store.StateAt(hash);
        ghost var mid := db;
        if state != null {
          SyncAllNoop(store.env.codec, state.View());
          PersistState(hash, state);
        } else {
          NodesKeptSame(store.env.codec, mid, db);
        }
        KeptBoth(store.env.codec, before, mid, db);
        TriesMore(store.env, mid, db, path, n, store.snapshots);
        RewrittenMore(codec, before, mid, db, path, n, store.snapshots);
      }
      assert path[..top + 1] == path;
    }

    method PersistState(hash: H256, state: StateDB)
      requires codec.Faithful() && SyncAll(state.env.codec, state.View()) == state.View()
      modifies this, state
      ensures forall j: Key :: !j.SnapshotKey? && !j.TrieKey? ==> At(db, j) == old(At(db, j))
      ensures forall h :: ReadState(codec, db, h) ==
                          if h == hash then Ok(Some(old(state.View()))) else old(ReadState(codec, db, h))
      ensures NodesKept(state.env.codec, old(db), db)
      ensures NodesOnDisk(state.env.codec, db, old(AccountNodes(state.env, state.View())))
    {
      hide At, SyncAll, Trie.NodeSet, Trie.NibbleMap, AccountMap, NodesKept, NodesOnDisk, Trie.Hashed;
      hide Trie.EncodingsOf, Trie.Entitled, Trie.NodeList;
      ghost var c := state.env.codec;
      var nodes := state.TrieNodes();
      PersistTrieNodes(nodes);
      NodesWritten(c, old(db), db, nodes);
      ghost var mid := db;
      PersistSnapshot(hash, state);
      NodesKeptSame(c, mid, db);
      NodesStay(c, mid, db, Trie.EncodingsOf(nodes));
      KeptBoth(c, old(db), mid, db);
    }

    /** Writes `b` and refreshes the canonical chain on disk from the store. */
    method PersistCanonical(store: BlockStore, b: Block)
      requires codec.Faithful() && store.Valid()
      requires store.head.Some? ==>
               store.head.value in store.byHash && store.byHash[store.head.value].header.number < U64_MAX
      requires forall h :: h in store.snapshots ==> Synced(store.env.codec, store.snapshots[h])
      modifies this
      ensures store.head.None? ==> SameStates(old(db), db)
      ensures NodesKept(store.env.codec, old(db), db)
      ensures store.head.Some? ==>
              && Linked(store.byHash) && Persisted(codec, old(db), db, store.V(), archive, archiveKeep)
              && TriesOnDisk(store.env, db, Path(store.byHash, store.head.value), store.snapshots)
      ensures store.head.None? || store.env.Hash(b) !in Path(store.byHash, store.head.value) ==>
                ReadBlock(codec, db, store.env.Hash(b)) == Ok(Some(b))
    {
      hide Path, At, Inv, Synced, Stored, TriesOnDisk, NodesKept;
      Put(BlockKey(store.env.Hash(b)), codec.blockBytes(b));
      NodesKeptSame(store.env.codec, old(db), db);
      if store.head.None? {
        return;
      }
      PersistBlocks(store);
      NodesKeptSame(store.env.codec, old(db), db);
      ghost var mid := db;
      StatesFrame(codec, old(db), mid);
      PersistStates(store);
      KeptBoth(store.env.codec, old(db), mid, db);
      ghost var path := Path(store.byHash, store.head.value);
      OnDiskFrame(codec, mid, db, path, ImageOf(store.byHash, path), archive, archiveKeep);
    }

    // ----- Loading

    /** Inserts the block stored at height `n`, or its bare header when the body was dropped. */
    method LoadHeight(store: BlockStore, n: U64, ghost chain: seq<Block>) returns (e: Option<LoadError>)
      requires store.Valid() && 0 < n && Below(store.byHash, n)
      modifies store
      ensures store.Valid() && store.snapshots == old(store.snapshots) && Below(store.byHash, n + 1)
      ensures old(store.head).Some? ==> store.head.Some?
      ensures match LoadOne(store.env, codec, db, old(store.V()), n)
              case Ok(v) => e.None? && store.V() == v
              case Err(x) => e == Some(x)
      ensures LoadedTo(store.env, chain, n - 1, old(store.V())) && Offers(store.env, codec, db, chain, n) ==>
                e.None? && LoadedTo(store.env, chain, n, store.V())
    {
      hide Inv, Inserted, OutcomeOf, At, HashOf, Env.ValidateBlock, Env.ValidateHeader, LoadedTo;
      hide InsertError, BareHeaderError;
      ghost var v := store.V();
      ghost var offered := LoadedTo(store.env, chain, n - 1, v) && Offers(store.env, codec, db, chain, n);
      if offered {
        OfferAccepted(store.env, codec, db, chain, n, v);
      }
      var stored := ReadBlockAt(codec, db, n);
      if stored.Err? {
        return Some(stored.error);
      }
      var r;
      ghost var b;
      if stored.value.Some? {
        b := stored.value.value;
        r := store.InsertBlock(stored.value.value);
      } else {
        var hash := ReadHeight(db, n);
        if hash == Ok(None) {
          return Some(HeightMissing);
        }
        var header := ReadHeader(codec, db, hash.value.value);
        if header.Err? || header.value.None? {
          return Some(if header.Err? then header.error else HeaderMissing);
        }
        b := Block(header.value.value, [], []);
        r := store.InsertHeader(header.value.value);
      }
      if r.Err? {
        return Some(Refused(r.error));
      }
      InsertedBlocks(store.env, v, b);
      InsertedHead(store.env, v, b);
      if offered {
        LoadedGrows(store.env, codec, db, chain, n, v);
      }
      return None;
    }

    /** Records the stored state of every block on the loaded chain. */
    method LoadStates(store: BlockStore, top: U64) returns (e: Option<LoadError>)
      requires store.Valid() && store.head.Some?
      modifies store`snapshots
      ensures store.Valid() && Linked(store.byHash) && store.head.value in store.byHash
      ensures var path := Path(store.byHash, store.head.value);
              && (e == if StateDamaged(codec, db, path, top) then Some(Corrupt) else None)
              && (e.None? && |path| == top + 1 ==> Recorded(codec, db, path, old(store.snapshots), store.snapshots))
    {
      hide Inv, Path, ReadState, Recorded;
      HeadWalk(store.env, store.V());
      InvLinked(store.env, store.V());
      ghost var path := Path(store.byHash, store.head.value);
      ghost var v := store.V();
      NoneRecorded(codec, db, path, v.snapshots);
      for n := 0 to top as int + 1
        invariant store.V() == v.(snapshots := store.snapshots)
        invariant forall m :: 0 <= m < n && m < |path| ==> ReadState(codec, db, path[m]).Ok?
        invariant n <= |path| ==> Recorded(codec, db, path[..n], v.snapshots, store.snapshots)
      {
        if n in store.byNumber && store.byNumber[n] in store.byHash {
          var hash := store.env.Hash(store.byHash[store.byNumber[n]]);
          assert path[n] == hash;
          var found := LoadState(store.env, hash);
          if found.Err? {
            InvIgnoresSnapshots(store.env, v, store.snapshots);
            return Some(found.error);
          }
          RecordedMore(codec, db, path, n, v.snapshots, store.snapshots);
          if found.value != null {
            store.RecordState(hash, found.value);
          }
        }
      }
      if |path| == top + 1 {
        assert path[..top + 1] == path;
      }
      InvIgnoresSnapshots(store.env, v, store.snapshots);
      return None;
    }

    method LoadState(env: Env, h: H256) returns (r: Result<StateDB?, LoadError>)
      ensures r.Err? ==> r.error == Corrupt && ReadState(codec, db, h) == Err(Corrupt)
      ensures r.Ok? && r.value == null ==> ReadState(codec, db, h) == Ok(None)
      ensures r.Ok? && r.value != null ==> fresh(r.value) && ReadState(codec, db, h) == Ok(Some(r.value.View()))
    {
      hide KeyBytes;
      var raw := Get(db, KeyBytes(SnapshotKey(h)));
      if raw.None? {
        return Ok(null);
      }
      var snap := codec.snapshotOf(raw.value);
      if snap.None? {
        return Err(Corrupt);
      }
      var state := new StateDB.Restore(env, snap.value);
      return Ok(state);
    }

    /** Blocks first, from genesis up. */
    method LoadBlocks(store: BlockStore, genesis: Block, top: U64, ghost chain: seq<Block>)
      returns (e: Option<LoadError>)
      requires store.Valid() && store.V() == EMPTY_VIEW
      modifies store
      ensures store.Valid() && store.snapshots == map[]
      ensures e.None? ==> store.head.Some?
      ensures match LoadChain(store.env, codec, db, genesis, top)
              case Ok(v) => e.None? && store.V() == v
              case Err(x) => e == Some(x)
      ensures Reloadable(store.env, codec, db, chain) && genesis == chain[0] && top == |chain| - 1 ==>
                e.None? && LoadedTo(store.env, chain, top, store.V())
    {
      hide Inv, Inserted, OutcomeOf, At, HashOf, Env.ValidateBlock;
      hide Env.ValidateHeader, ReadState, ReadBlock, ReadHeight, LoadedTo, Offers, LoadOne;
      ghost var goal := LoadChain(store.env, codec, db, genesis, top);
      var r := store.InsertGenesis(genesis);
      if r.Err? {
        return Some(Refused(r.error));
      }
      GenesisLoaded(store.env, genesis);
      ghost var offered := Reloadable(store.env, codec, db, chain) && genesis == chain[0] && top == |chain| - 1;
      if offered {
        LoadedGenesis(store.env, chain, store.V());
      }
      for n := 1 to top as int + 1
        invariant store.Valid() && store.snapshots == map[] && store.head.Some? && Below(store.byHash, n)
        invariant goal == LoadFrom(store.env, codec, db, store.V(), n, top)
        invariant offered ==> LoadedTo(store.env, chain, n - 1, store.V())
      {
        e := LoadHeight(store, n, chain);
        if e.Some? {
          return;
        }
      }
      return None;
    }

    /**
     Rebuilds the in-memory chain from disk. `chain` is what the disk ought to yield: whenever
     it does, the store ends up with exactly these blocks, the last one as head, and the stored
     states of all of them.
     */
    method LoadInto(store: BlockStore, expectedGenesis: Block, ghost chain: seq<Block>)
      returns (r: Result<Option<U64>, LoadError>)
      requires store.Valid() && store.V() == EMPTY_VIEW
      modifies store
      ensures store.Valid()
      ensures At(db, HeadKey).None? ==> r == Ok(None) && store.V() == EMPTY_VIEW
      ensures r == Ok(None) ==> At(db, HeadKey).None?
      ensures r.Ok? && r.value.Some? ==> store.head.Some?
      ensures r == LoadResult(store.env, codec, db, expectedGenesis)
      ensures Reloadable(store.env, codec, db, chain) && store.env.Hash(expectedGenesis) == store.env.Hash(chain[0]) ==>
                r == Ok(Some(|chain| - 1)) && Reloaded(store.env, codec, db, chain, store.V())
    {
      hide Inv, At, HashOf, Env.ValidateBlock, Env.ValidateHeader, ReadState, LoadedTo, Offers, Reloaded;
      hide LoadChain, Path;
      ghost var env := store.env;
      ghost var offered := Reloadable(env, codec, db, chain) && env.Hash(expectedGenesis) == env.Hash(chain[0]);
      if offered {
        HashInvert(env.Hash(chain[|chain| - 1]));
      }
      var headRaw := At(db, HeadKey);
      if headRaw.None? {
        return Ok(None);
      }
      var headHash := HashOf(headRaw.value);
      if headHash.None? {
        return Err(Corrupt);
      }
      var head := ReadBlock(codec, db, headHash.value);
      if head.Err? || head.value.None? {
        return Err(if head.Err? then head.error else HeadMissing);
      }
      var top := head.value.value.header.number;
      var genesis := ReadBlockAt(codec, db, 0);
      if genesis.Err? || genesis.value.None? {
        return Err(if genesis.Err? then genesis.error else GenesisMissing);
      }
      if store.env.Hash(genesis.value.value) != store.env.Hash(expectedGenesis) {
        return Err(GenesisMismatch);
      }
      var e := LoadBlocks(store, genesis.value.value, top, chain);
      if e.Some? {
        return Err(e.value);
      }
      ghost var v := store.V();
      if offered {
        LoadedPath(env, codec, db, chain, v);
      }
      e := LoadStates(store, top);
      if e.Some? {
        return Err(e.value);
      }
      if offered {
        LoadedIsReloaded(env, codec, db, chain, v, store.V());
      }
      return Ok(Some(top));
    }
  }

  /** The store holds exactly the first `k + 1` blocks of `chain`, and the last of them is the head. */
  ghost predicate LoadedTo(env: Env, chain: seq<Block>, k: nat, v: View) {
    && k < |chain|
    && HoldsPrefix(env, chain, k, v.byHash)
    && v.head == Some(env.Hash(chain[k]))
  }

  /** Height `n` on disk yields block `n` of `chain`, whole or as a bare header, and it fits on its predecessor. */
  ghost predicate Offers(env: Env, c: DiskCodec, db: Db, chain: seq<Block>, n: U64) {
    && 0 < n < |chain| && n < U64_MAX
    && var b := chain[n];
    && Follows(env, chain, n) && chain[n - 1].header.number == n - 1
    && env.ValidateHeader(b.header, Some(chain[n - 1].header)).None?
    && (forall i :: 0 <= i < n ==> env.Hash(chain[i]) != env.Hash(b))
    && ReadHeight(db, n) == Ok(Some(env.Hash(b)))
    && (|| (ReadBlock(c, db, env.Hash(b)) == Ok(Some(b)) && env.ValidateBlock(b).None?)
        || (&& ReadBlock(c, db, env.Hash(b)) == Ok(None)
            && ReadHeader(c, db, env.Hash(b)) == Ok(Some(b.header)) && b == Block(b.header, [], [])))
  }

  /** Everything on disk that a reload of `chain` needs. */
  ghost predicate Reloadable(env: Env, c: DiskCodec, db: Db, chain: seq<Block>) {
    && 0 < |chain| <= U64_MAX
    && var last := |chain| - 1;
    && At(db, HeadKey) == Some(HashBytes(env.Hash(chain[last])))
    && ReadBlock(c, db, env.Hash(chain[last])) == Ok(Some(chain[last])) && chain[last].header.number == last
    && ReadBlockAt(c, db, 0) == Ok(Some(chain[0])) && GenesisError(env, map[], chain[0]).None?
    && (forall n {:trigger Offers(env, c, db, chain, n)} :: 0 < n < |chain| ==> Offers(env, c, db, chain, n))
    && (forall n :: 0 <= n < |chain| ==> ReadState(c, db, env.Hash(chain[n])).Ok?)
  }

  ghost function Hashes(env: Env, chain: seq<Block>): seq<H256> {
    seq(|chain|, n requires 0 <= n < |chain| => env.Hash(chain[n]))
  }

  /** The store holds exactly `chain`, indexed by height, and exactly its states that are on disk. */
  ghost predicate Reloaded(env: Env, c: DiskCodec, db: Db, chain: seq<Block>, v: View) {
    && chain != [] && HoldsPrefix(env, chain, |chain| - 1, v.byHash)
    && v.head == Some(env.Hash(chain[|chain| - 1]))
    && v.byNumber == HeightIndex(Hashes(env, chain))
    && (forall h :: Get(v.snapshots, h) ==
                    if h in Hashes(env, chain) && ReadState(c, db, h).Ok? then ReadState(c, db, h).value else None)
  }

  lemma GenesisLoaded(env: Env, b: Block)
    requires b.header.number == 0
    ensures Inv(env, EMPTY_VIEW) && Fits(env, map[], b)
    ensures var v := Inserted(env, EMPTY_VIEW, b);
            v.byHash == map[env.Hash(b) := b] && v.head == Some(env.Hash(b)) && v.snapshots == map[]
  {
    hide FullIndex;
    EmptyInv(env);
  }

  lemma LoadedGenesis(env: Env, chain: seq<Block>, v: View)
    requires chain != [] && v.byHash == map[env.Hash(chain[0]) := chain[0]] && v.head == Some(env.Hash(chain[0]))
    ensures LoadedTo(env, chain, 0, v)
  {
  }

  lemma LoadedPath(env: Env, c: DiskCodec, db: Db, chain: seq<Block>, v: View)
    requires Inv(env, v) && Reloadable(env, c, db, chain) && LoadedTo(env, chain, |chain| - 1, v)
    ensures Linked(v.byHash) && v.head.value in v.byHash && Path(v.byHash, v.head.value) == Hashes(env, chain)
    ensures forall h :: h in Hashes(env, chain) ==> ReadState(c, db, h).Ok?
  {
    hide Path, IndexSound, IndexComplete, At, HashOf;
    hide ReadState, ReadBlock, ReadHeight, Env.ValidateBlock, Env.ValidateHeader;
    forall n | 0 < n < |chain|
      ensures Follows(env, chain, n)
    {
      assert Offers(env, c, db, chain, n);
    }
    assert HoldsHeaders(env, chain, |chain| - 1, v.byHash);
    PrefixOnPath(env, chain, v.byHash, |chain| - 1, |chain| - 1);
  }

  lemma LoadedIsReloaded(env: Env, c: DiskCodec, db: Db, chain: seq<Block>, v: View, v': View)
    requires Inv(env, v) && Reloadable(env, c, db, chain) && LoadedTo(env, chain, |chain| - 1, v)
    requires v' == v.(snapshots := v'.snapshots)
    requires Linked(v.byHash) && v.head.value in v.byHash
    requires var path := Path(v.byHash, v.head.value);
             forall h :: Get(v'.snapshots, h) ==
                         if h in path && ReadState(c, db, h).Ok? then ReadState(c, db, h).value else None
    ensures Reloaded(env, c, db, chain, v')
  {
    hide Path, IndexSound, IndexComplete, ReadState, Reloadable;
    LoadedPath(env, c, db, chain, v);
  }

  lemma OfferAccepted(env: Env, c: DiskCodec, db: Db, chain: seq<Block>, n: U64, v: View)
    requires Offers(env, c, db, chain, n) && LoadedTo(env, chain, n - 1, v)
    ensures HeaderError(env, v.byHash, chain[n].header).None? && env.Hash(chain[n]) !in v.byHash
    ensures BareHeaderError(env, v.byHash, chain[n].header).None?
    ensures env.ValidateBlock(chain[n]).None? ==> InsertError(env, v.byHash, chain[n]).None?
  {
    hide At, HashOf, Env.ValidateBlock, Env.ValidateHeader;
  }

  lemma LoadedGrows(env: Env, c: DiskCodec, db: Db, chain: seq<Block>, n: U64, v: View)
    requires Inv(env, v) && Offers(env, c, db, chain, n) && LoadedTo(env, chain, n - 1, v)
             && Fits(env, v.byHash, chain[n])
    ensures LoadedTo(env, chain, n, Inserted(env, v, chain[n]))
  {
    hide Inv, Path, FullIndex, At, HashOf, Env.ValidateBlock, Env.ValidateHeader;
    HoldsGrows(env, chain, v.byHash, n - 1);
  }

  lemma StatesFrame(c: DiskCodec, db: Db, db': Db)
    requires forall h :: At(db', SnapshotKey(h)) == At(db, SnapshotKey(h))
    ensures forall h :: ReadState(c, db', h) == ReadState(c, db, h)
  {
    hide At, FromSnapshot;
  }

  lemma OnDiskFrame(c: DiskCodec, db: Db, db': Db, path: seq<H256>, image: seq<Block>, archive: bool, keep: nat)
    requires OnDisk(c, db, path, image, archive, keep)
    requires forall j: Key :: !j.SnapshotKey? && !j.TrieKey? ==> At(db', j) == At(db, j)
    ensures OnDisk(c, db', path, image, archive, keep)
  {
    hide At;
  }

  lemma StoredFrame(c: DiskCodec, db: Db, db': Db, n: nat, h: H256, b: Block, full: bool, m: U64, hash: H256)
    requires n < TWO_64 && Stored(c, db, n, h, b, full) && OneHeight(db, db', m, hash) && n != m && h != hash
    ensures Stored(c, db', n, h, b, full)
  {
    hide At;
  }

  /** The height index lists the head's walk, and its entries are distinct stored blocks. */
  lemma HeadWalk(env: Env, v: View)
    requires Inv(env, v) && v.head.Some?
    ensures Linked(v.byHash) && v.head.value in v.byHash
    ensures var path := Path(v.byHash, v.head.value);
            && |path| == v.byHash[v.head.value].header.number + 1 && path[|path| - 1] == v.head.value
            && (forall h :: h in path ==> h in v.byHash)
            && (forall n :: 0 <= n < |path| ==> n in v.byNumber && v.byNumber[n] == path[n])
            && (forall n :: n in v.byNumber ==> n < |path|)
            && (forall n :: 0 <= n < |path| ==> v.byHash[path[n]].header.number == n)
            && (forall m, n :: 0 <= m < n < |path| ==> path[m] != path[n])
  {
    hide Path, IndexSound, IndexComplete;
    PathShape(v.byHash, v.head.value);
  }
}
