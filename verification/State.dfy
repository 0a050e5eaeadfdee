/**
 The account, storage and code maps of crates/ivory-state/src/state.rs.

 `World` is the value of a state handle; `StateDB` is the handle, updated in place. Storage
 roots are kept up to date by every write, so recomputing them all before hashing is a no-op.
 */
module State {
  import opened Primitives
  import opened Ledger
  import Trie

  datatype World = World(
    accounts: map<Address, Account>,
    storage: map<(Address, H256), Word>,
    code: map<Address, Bytes>)

  const EMPTY_WORLD := World(map[], map[], map[])

  // ----- Specification

  ghost function SlotKeys(storage: map<(Address, H256), Word>, a: Address): set<Bytes> {
    set p | p in storage && p.0 == a && storage[p] != 0 :: BigEndian(p.1, 32)
  }

  /** The non-zero slots of `a` as the byte map its storage trie is built from. */
  ghost function SlotMap(storage: map<(Address, H256), Word>, a: Address): (m: map<Bytes, Bytes>)
    ensures forall s: H256 :: BigEndian(s, 32) in m <==> (a, s) in storage && storage[(a, s)] != 0
    ensures forall s: H256 :: BigEndian(s, 32) in m ==> m[BigEndian(s, 32)] == BigEndian(storage[(a, s)], 32)
    ensures forall k :: k in m ==> exists s: H256 :: k == BigEndian(s, 32)
  {
    assert forall s: H256 :: FromBigEndian(BigEndian(s, 32)) == s by {
      forall s: H256 { WordBytesInvert(s); }
    }
    map k | k in SlotKeys(storage, a) :: BigEndian(storage[(a, FromBigEndian(k))], 32)
  }

  /** From-scratch storage root: the zero hash stands for no storage. */
  ghost function StorageRoot(c: Trie.Codec, storage: map<(Address, H256), Word>, a: Address): H256 {
    if SlotMap(storage, a) == map[] then ZERO_HASH else Trie.MapRoot(c, SlotMap(storage, a))
  }

  ghost function WithAccount(c: Trie.Codec, w: World, a: Address, acc: Account): World {
    w.(accounts := w.accounts[a := acc.(storageRoot := StorageRoot(c, w.storage, a))])
  }

  ghost function Refreshed(c: Trie.Codec, w: World, a: Address): World {
    if a in w.accounts || StorageRoot(c, w.storage, a) != ZERO_HASH
    then WithAccount(c, w, a, GetOr(w.accounts, a, EMPTY_ACCOUNT))
    else w
  }

  ghost function WithStorage(c: Trie.Codec, w: World, a: Address, slot: H256, v: Word): World {
    Refreshed(c, w.(storage := if v == 0 then w.storage - {(a, slot)} else w.storage[(a, slot) := v]), a)
  }

  function WithCode(w: World, a: Address, code: Bytes): World {
    w.(code := w.code[a := code])
  }

  /** Every account's storage root is current, and an address whose storage hashes to a root has an account. */
  ghost predicate Synced(c: Trie.Codec, w: World) {
    && (forall p :: p in w.storage ==> w.storage[p] != 0)
    && (forall a :: a in w.accounts ==> w.accounts[a].storageRoot == StorageRoot(c, w.storage, a))
    && (forall a :: StorageRoot(c, w.storage, a) != ZERO_HASH ==> a in w.accounts)
  }

  lemma SlotMapFrame(s: map<(Address, H256), Word>, t: map<(Address, H256), Word>, a: Address)
    requires forall slot: H256 :: Get(s, (a, slot)) == Get(t, (a, slot))
    ensures SlotMap(s, a) == SlotMap(t, a)
  {
    hide BigEndian, FromBigEndian, SlotMap;
    var m, n := SlotMap(s, a), SlotMap(t, a);
    forall k
      ensures Get(m, k) == Get(n, k)
    {
      if k in m || k in n {
        var slot: H256 :| k == BigEndian(slot, 32);
        assert Get(s, (a, slot)) == Get(t, (a, slot));
      }
    }
    SameLookups(m, n);
  }

  lemma StorageRootFrame(c: Trie.Codec, s: map<(Address, H256), Word>, t: map<(Address, H256), Word>, a: Address)
    requires forall slot: H256 :: Get(s, (a, slot)) == Get(t, (a, slot))
    ensures StorageRoot(c, s, a) == StorageRoot(c, t, a)
  {
    hide SlotMap, Trie.MapRoot;
    SlotMapFrame(s, t, a);
  }

  lemma WithAccountSynced(c: Trie.Codec, w: World, a: Address, acc: Account)
    requires Synced(c, w)
    ensures Synced(c, WithAccount(c, w, a, acc))
  {
    hide StorageRoot;
  }

  lemma WithStorageSynced(c: Trie.Codec, w: World, a: Address, slot: H256, v: Word)
    requires Synced(c, w)
    ensures Synced(c, WithStorage(c, w, a, slot, v))
  {
    hide StorageRoot;
    var w' := WithStorage(c, w, a, slot, v);
    forall b | b != a
      ensures StorageRoot(c, w'.storage, b) == StorageRoot(c, w.storage, b)
    {
      StorageRootFrame(c, w.storage, w'.storage, b);
    }
  }

  // ----- What a write leaves behind, slot by slot and account by account

  /** Balance, nonce and code hash of every account are the same; a missing account counts as an empty one. */
  ghost predicate SameFields(v: World, w: World) {
    forall a :: var x, y := GetOr(v.accounts, a, EMPTY_ACCOUNT), GetOr(w.accounts, a, EMPTY_ACCOUNT);
      x.balance == y.balance && x.nonce == y.nonce && x.codeHash == y.codeHash
  }

  /** A written slot reads as the written value, no other slot changes, and neither do code and account fields. */
  lemma StorageWritten(c: Trie.Codec, w: World, a: Address, slot: H256, v: Word)
    ensures var w' := WithStorage(c, w, a, slot, v);
            && GetOr(w'.storage, (a, slot), 0) == v && (v == 0 ==> (a, slot) !in w'.storage)
            && (forall p :: p != (a, slot) ==> Get(w'.storage, p) == Get(w.storage, p))
            && w'.code == w.code && SameFields(w', w)
            && (forall b :: b != a ==> Get(w'.accounts, b) == Get(w.accounts, b))
  {
    hide StorageRoot;
  }

  /** A stored account has the given fields and its own storage root; nothing else changes. */
  lemma AccountWritten(c: Trie.Codec, w: World, a: Address, acc: Account)
    ensures var w' := WithAccount(c, w, a, acc);
            && a in w'.accounts
            && w'.accounts[a].balance == acc.balance && w'.accounts[a].nonce == acc.nonce
            && w'.accounts[a].codeHash == acc.codeHash && w'.accounts[a].storageRoot == StorageRoot(c, w.storage, a)
            && (forall b :: b != a ==> Get(w'.accounts, b) == Get(w.accounts, b))
            && w'.storage == w.storage && w'.code == w.code
  {
    hide StorageRoot;
  }

  /** An address without a non-zero slot has the zero root. */
  lemma NoStorageRoot(c: Trie.Codec, storage: map<(Address, H256), Word>, a: Address)
    requires forall s: H256 :: GetOr(storage, (a, s), 0) == 0
    ensures StorageRoot(c, storage, a) == ZERO_HASH
  {
    hide BigEndian, Trie.MapRoot, SlotMap;
    assert SlotMap(storage, a) == map[];
  }

  ghost function Owners(w: World): set<Address> {
    w.accounts.Keys + set p | p in w.storage :: p.0
  }

  /** All storage roots recomputed from scratch. */
  ghost function SyncAll(c: Trie.Codec, w: World): World {
    w.(accounts := map a | a in Owners(w) && (a in w.accounts || StorageRoot(c, w.storage, a) != ZERO_HASH)
                   :: GetOr(w.accounts, a, EMPTY_ACCOUNT).(storageRoot := StorageRoot(c, w.storage, a)))
  }

  /** Every owner outside `left` has been refreshed. */
  ghost predicate PartSynced(c: Trie.Codec, w: World, left: set<Address>, accounts: map<Address, Account>) {
    forall a :: Get(accounts, a) == if a in Owners(w) - left then Get(SyncAll(c, w).accounts, a) else Get(w.accounts, a)
  }

  lemma NoneSynced(c: Trie.Codec, w: World)
    ensures PartSynced(c, w, Owners(w), w.accounts)
  {
    hide SyncAll, Owners;
  }

  lemma PartSyncedMore(c: Trie.Codec, w: World, left: set<Address>, accounts: map<Address, Account>, a: Address)
    requires PartSynced(c, w, left, accounts) && a in left && left <= Owners(w)
    ensures PartSynced(c, w, left - {a}, Refreshed(c, w.(accounts := accounts), a).accounts)
    ensures var w' := Refreshed(c, w.(accounts := accounts), a); w'.storage == w.storage && w'.code == w.code
  {
    hide StorageRoot, Owners;
    assert Get(accounts, a) == Get(w.accounts, a);
  }

  lemma AllSynced(c: Trie.Codec, w: World, accounts: map<Address, Account>)
    requires PartSynced(c, w, {}, accounts)
    ensures accounts == SyncAll(c, w).accounts && SyncAll(c, w) == w.(accounts := accounts)
  {
    hide StorageRoot;
    SameLookups(accounts, SyncAll(c, w).accounts);
  }

  /** Recomputing all roots makes any state without stored zeros synced, and touches only storage roots. */
  lemma SyncAllSynced(c: Trie.Codec, w: World)
    requires forall p :: p in w.storage ==> w.storage[p] != 0
    ensures Synced(c, SyncAll(c, w)) && SameFields(SyncAll(c, w), w)
    ensures SyncAll(c, w).storage == w.storage && SyncAll(c, w).code == w.code
  {
    hide StorageRoot;
    forall a | a !in Owners(w)
      ensures StorageRoot(c, w.storage, a) == ZERO_HASH
    {
      forall s: H256
        ensures GetOr(w.storage, (a, s), 0) == 0
      {
        assert (a, s) in w.storage ==> (a, s).0 in Owners(w);
      }
      NoStorageRoot(c, w.storage, a);
    }
  }

  /** The recomputation before hashing never finds anything to do. */
  lemma SyncAllNoop(c: Trie.Codec, w: World)
    requires Synced(c, w)
    ensures SyncAll(c, w) == w
  {
    hide StorageRoot;
    var w' := SyncAll(c, w);
    forall a
      ensures Get(w'.accounts, a) == Get(w.accounts, a)
    {
    }
    SameLookups(w'.accounts, w.accounts);
  }

  ghost function AccountKeys(accounts: map<Address, Account>): set<Bytes> {
    set a | a in accounts && !accounts[a].IsEmpty() :: BigEndian(a, 20)
  }

  /** The non-empty accounts as the byte map the account trie is built from. */
  ghost function AccountMap(env: Env, accounts: map<Address, Account>): (m: map<Bytes, Bytes>)
    ensures forall a: Address :: BigEndian(a, 20) in m <==> a in accounts && !accounts[a].IsEmpty()
    ensures forall a: Address :: BigEndian(a, 20) in m ==> m[BigEndian(a, 20)] == env.accountBytes(accounts[a])
    ensures forall k :: k in m ==> exists a: Address :: k == BigEndian(a, 20)
  {
    assert forall a: Address :: FromBigEndian(BigEndian(a, 20)) == a by {
      forall a: Address { AddressBytesInvert(a); }
    }
    map k | k in AccountKeys(accounts) :: env.accountBytes(accounts[FromBigEndian(k)])
  }

  ghost function RootHash(env: Env, w: World): H256 {
    Trie.MapRoot(env.codec, AccountMap(env, SyncAll(env.codec, w).accounts))
  }

  /** What a proof about an account should report: its encoding, or absence for an empty or unknown one. */
  ghost function AccountAnswer(env: Env, w: World, a: Address): Option<Bytes> {
    if a in w.accounts && w.accounts[a] != EMPTY_ACCOUNT then Some(env.accountBytes(w.accounts[a])) else None
  }

  /** The same for a slot: 32 big-endian bytes, or absence for zero. */
  ghost function SlotAnswer(w: World, a: Address, slot: H256): Option<Bytes> {
    if GetOr(w.storage, (a, slot), 0) != 0 then Some(BigEndian(w.storage[(a, slot)], 32)) else None
  }

  lemma AccountListed(env: Env, w: World, a: Address)
    ensures Get(AccountMap(env, w.accounts), BigEndian(a, 20)) == AccountAnswer(env, w, a)
  {
    hide AccountMap, BigEndian;
  }

  lemma SlotListed(w: World, a: Address, slot: H256)
    ensures Get(SlotMap(w.storage, a), BigEndian(slot, 32)) == SlotAnswer(w, a, slot)
  {
    hide SlotMap, BigEndian;
  }

  // ----- What the state root commits to

  ghost predicate AccountBytesInjective(env: Env) {
    forall a, b :: env.accountBytes(a) == env.accountBytes(b) ==> a == b
  }

  ghost function NonEmpty(w: World): map<Address, Account> {
    map a | a in w.accounts && w.accounts[a] != EMPTY_ACCOUNT :: w.accounts[a]
  }

  /** `x` encodes a node of the account trie or of some storage trie of `w`. */
  ghost predicate StateNode(env: Env, w: World, x: Bytes) {
    || x in Trie.NodeSet(env.codec, Trie.NibbleMap(AccountMap(env, w.accounts)))
    || exists a :: x in Trie.NodeSet(env.codec, Trie.NibbleMap(SlotMap(w.storage, a)))
  }

  /** Two trie nodes of `v` and `w` collide, or a storage trie of one of them hashes to zero. */
  ghost predicate HashFailure(env: Env, v: World, w: World, x: Bytes, y: Bytes) {
    || (env.codec.Collision(x, y) && StateNode(env, v, x) && StateNode(env, w, y))
    || (env.codec.keccak(x) == ZERO_HASH && (StateNode(env, v, x) || StateNode(env, w, x)))
  }

  lemma AccountMapBinding(env: Env, v: map<Address, Account>, w: map<Address, Account>, a: Address)
    requires AccountBytesInjective(env)
    requires AccountMap(env, v) == AccountMap(env, w)
    ensures (a in v && !v[a].IsEmpty()) <==> (a in w && !w[a].IsEmpty())
    ensures a in v && !v[a].IsEmpty() ==> v[a] == w[a]
  {
    hide AccountMap, BigEndian;
    assert BigEndian(a, 20) in AccountMap(env, v) <==> BigEndian(a, 20) in AccountMap(env, w);
  }

  lemma SlotMapBinding(s: map<(Address, H256), Word>, t: map<(Address, H256), Word>, a: Address, slot: H256)
    requires SlotMap(s, a) == SlotMap(t, a)
    requires forall p :: p in s ==> s[p] != 0
    requires forall p :: p in t ==> t[p] != 0
    ensures Get(s, (a, slot)) == Get(t, (a, slot))
  {
    hide SlotMap, BigEndian;
    assert BigEndian(slot, 32) in SlotMap(s, a) <==> BigEndian(slot, 32) in SlotMap(t, a);
    if (a, slot) in s {
      WordBytesInvert(s[(a, slot)]);
      WordBytesInvert(t[(a, slot)]);
    }
  }

  lemma StorageRootsAgree(c: Trie.Codec, v: World, w: World, a: Address)
    requires Synced(c, v) && Synced(c, w) && NonEmpty(v) == NonEmpty(w)
    ensures StorageRoot(c, v.storage, a) == StorageRoot(c, w.storage, a)
  {
    hide StorageRoot;
    assert a in NonEmpty(v) <==> a in NonEmpty(w);
    if a in NonEmpty(v) {
      assert NonEmpty(v)[a] == NonEmpty(w)[a];
    }
  }

  /** Slot maps that differ under equal storage roots exhibit a collision or a zero digest. */
  lemma StorageRootBinding(env: Env, v: World, w: World, a: Address) returns (x: Bytes, y: Bytes)
    requires env.codec.Faithful()
    requires SlotMap(v.storage, a) != SlotMap(w.storage, a)
    requires StorageRoot(env.codec, v.storage, a) == StorageRoot(env.codec, w.storage, a)
    ensures HashFailure(env, v, w, x, y)
  {
    hide SlotMap, HashFailure, Trie.NodeSet, Trie.MapRoot, Trie.NibbleMap;
    var m, n := SlotMap(v.storage, a), SlotMap(w.storage, a);
    if m != map[] && n != map[] {
      x, y := Trie.PatriciaRootBinding(env.codec, m, n);
      SlotCollision(env, v, w, a, x, y);
    } else {
      x := RootEncoding(env.codec, if m != map[] then m else n);
      y := [];
      ZeroRoot(env, v, w, a, x);
    }
  }

  lemma SlotCollision(env: Env, v: World, w: World, a: Address, x: Bytes, y: Bytes)
    requires env.codec.Collision(x, y)
    requires SlotMap(v.storage, a) != map[] && SlotMap(w.storage, a) != map[]
    requires x in Trie.NodeSet(env.codec, Trie.NibbleMap(SlotMap(v.storage, a)))
    requires y in Trie.NodeSet(env.codec, Trie.NibbleMap(SlotMap(w.storage, a)))
    ensures HashFailure(env, v, w, x, y)
  {
    hide SlotMap, AccountMap, Trie.NodeSet, Trie.NibbleMap;
  }

  lemma ZeroRoot(env: Env, v: World, w: World, a: Address, x: Bytes)
    requires env.codec.keccak(x) == ZERO_HASH
    requires x in Trie.NodeSet(env.codec, Trie.NibbleMap(SlotMap(v.storage, a))) ||
             x in Trie.NodeSet(env.codec, Trie.NibbleMap(SlotMap(w.storage, a)))
    ensures HashFailure(env, v, w, x, [])
  {
    hide SlotMap, AccountMap, Trie.NodeSet, Trie.NibbleMap;
  }

  lemma RootEncoding(c: Trie.Codec, m: map<Bytes, Bytes>) returns (x: Bytes)
    ensures c.keccak(x) == Trie.MapRoot(c, m) && x in Trie.NodeSet(c, Trie.NibbleMap(m))
  {
    hide Trie.NibbleMap, Trie.BuildNode;
    x := c.encode(Trie.BuildNode(c, Trie.NibbleMap(m)));
    Trie.RootInNodeSet(c, Trie.NibbleMap(m));
  }

  /**
   The state root commits to exactly the non-empty accounts and all of storage: equal
   contents give equal roots, and equal roots give equal contents or a named hash failure.
   */
  lemma RootHashBinding(env: Env, v: World, w: World) returns (x: Bytes, y: Bytes)
    requires env.codec.Faithful() && AccountBytesInjective(env)
    requires Synced(env.codec, v) && Synced(env.codec, w)
    ensures NonEmpty(v) == NonEmpty(w) ==> RootHash(env, v) == RootHash(env, w)
    ensures RootHash(env, v) == RootHash(env, w) ==>
              (NonEmpty(v) == NonEmpty(w) && v.storage == w.storage) || HashFailure(env, v, w, x, y)
  {
    hide StorageRoot, SlotMap, AccountMap, SyncAll, NonEmpty, Trie.MapRoot, Trie.NodeSet, Trie.NibbleMap;
    SyncAllNoop(env.codec, v);
    SyncAllNoop(env.codec, w);
    var m, n := AccountMap(env, v.accounts), AccountMap(env, w.accounts);
    if NonEmpty(v) == NonEmpty(w) {
      AccountMapOfNonEmpty(env, v, w);
    }
    x, y := Trie.PatriciaRootBinding(env.codec, m, n);
    if m == n {
      AccountsBound(env, v, w);
      x, y := StorageBound(env, v, w);
    }
  }

  lemma AccountsBound(env: Env, v: World, w: World)
    requires AccountBytesInjective(env)
    requires AccountMap(env, v.accounts) == AccountMap(env, w.accounts)
    ensures NonEmpty(v) == NonEmpty(w)
  {
    hide AccountMap;
    forall a
      ensures Get(NonEmpty(v), a) == Get(NonEmpty(w), a)
    {
      AccountMapBinding(env, v.accounts, w.accounts, a);
    }
    SameLookups(NonEmpty(v), NonEmpty(w));
  }

  lemma StorageBound(env: Env, v: World, w: World) returns (x: Bytes, y: Bytes)
    requires env.codec.Faithful()
    requires Synced(env.codec, v) && Synced(env.codec, w) && NonEmpty(v) == NonEmpty(w)
    ensures v.storage == w.storage || HashFailure(env, v, w, x, y)
  {
    hide StorageRoot, SlotMap, HashFailure;
    x, y := [], [];
    if a, slot :| Get(v.storage, (a, slot)) != Get(w.storage, (a, slot)) {
      if SlotMap(v.storage, a) == SlotMap(w.storage, a) {
        SlotMapBinding(v.storage, w.storage, a, slot);
      }
      StorageRootsAgree(env.codec, v, w, a);
      x, y := StorageRootBinding(env, v, w, a);
    } else {
      assert forall p: (Address, H256) :: p == (p.0, p.1) && Get(v.storage, p) == Get(w.storage, p);
      SameLookups(v.storage, w.storage);
    }
  }

  lemma AccountMapOfNonEmpty(env: Env, v: World, w: World)
    requires NonEmpty(v) == NonEmpty(w)
    ensures AccountMap(env, v.accounts) == AccountMap(env, w.accounts)
  {
    hide AccountMap, BigEndian;
    var m, n := AccountMap(env, v.accounts), AccountMap(env, w.accounts);
    forall k
      ensures Get(m, k) == Get(n, k)
    {
      if k in m || k in n {
        var a: Address :| k == BigEndian(a, 20);
        assert a in NonEmpty(v) <==> a in NonEmpty(w);
        assert a in NonEmpty(v) ==> NonEmpty(v)[a] == NonEmpty(w)[a];
      }
    }
    SameLookups(m, n);
  }

  // ----- The shared handle

  /** The three maps as lists, the form in which a state is written to disk. */
  datatype StateSnapshot = StateSnapshot(
    accounts: seq<(Address, Account)>,
    storage: seq<((Address, H256), Word)>,
    code: seq<(Address, Bytes)>)

  function FromSnapshot(snap: StateSnapshot): World {
    World(MapOf(snap.accounts), MapOf(snap.storage), MapOf(snap.code))
  }

  class StateDB {
    const env: Env
    var accounts: map<Address, Account>
    var storage: map<(Address, H256), Word>
    var code: map<Address, Bytes>

    ghost function View(): World
      reads this
    {
      World(accounts, storage, code)
    }

    constructor (env: Env)
      ensures this.env == env && View() == EMPTY_WORLD
    {
      this.env := env;
      accounts, storage, code := map[], map[], map[];
    }

    constructor Restore(env: Env, snap: StateSnapshot)
      ensures this.env == env && View() == FromSnapshot(snap)
    {
      this.env := env;
      accounts, storage, code := MapOf(snap.accounts), MapOf(snap.storage), MapOf(snap.code);
    }

    /** An isolated copy: later writes to either handle do not show in the other. */
    method Fork() returns (copy: StateDB)
      ensures fresh(copy) && copy.env == env && copy.View() == View()
    {
      copy := new StateDB(env);
      copy.accounts, copy.storage, copy.code := accounts, storage, code;
    }

    method ResetFrom(snapshot: StateDB)
      modifies this
      ensures View() == old(snapshot.View())
    {
      accounts, storage, code := snapshot.accounts, snapshot.storage, snapshot.code;
    }

    /** Lists the maps, in whatever order they iterate; reading the lists back gives the same state. */
    method ToSnapshot() returns (snap: StateSnapshot)
      ensures FromSnapshot(snap) == View()
    {
      hide MapOf;
      var accountList := ListOf(accounts);
      var storageList := ListOf(storage);
      var codeList := ListOf(code);
      snap := StateSnapshot(accountList, storageList, codeList);
    }

    method StoragePairs(a: Address) returns (pairs: seq<(Bytes, Bytes)>)
      ensures MapOf(pairs) == SlotMap(storage, a) && (pairs == [] <==> MapOf(pairs) == map[])
    {
      hide SlotMap, BigEndian;
      pairs := [];
      var left := storage.Keys;
      assert SlotMap(storage - left, a) == map[] by { SlotMapEmpty(storage - left, a); }
      while left != {}
        invariant left <= storage.Keys
        invariant MapOf(pairs) == SlotMap(storage - left, a)
        invariant pairs == [] <==> MapOf(pairs) == map[]
      {
        var p :| p in left;
        SlotMapInsert(storage - left, p, storage[p], a);
        assert (storage - left)[p := storage[p]] == storage - (left - {p});
        if p.0 == a && storage[p] != 0 {
          MapOfAppend(pairs, BigEndian(p.1, 32), BigEndian(storage[p], 32));
          pairs := pairs + [(BigEndian(p.1, 32), BigEndian(storage[p], 32))];
        }
        left := left - {p};
      }
      assert storage - left == storage;
    }

    method ComputeStorageRoot(a: Address) returns (root: H256)
      ensures root == StorageRoot(env.codec, storage, a)
    {
      hide SlotMap, BigEndian, Trie.Root, Trie.NodeSet, Trie.NibbleMap;
      var pairs := StoragePairs(a);
      if pairs == [] {
        return ZERO_HASH;
      }
      var nodes;
      root, nodes := Trie.PatriciaNodes(env.codec, pairs);
    }

    method SetAccount(a: Address, acc: Account)
      modifies this
      ensures View() == WithAccount(env.codec, old(View()), a, acc)
    {
      hide StorageRoot;
      var root := ComputeStorageRoot(a);
      accounts := accounts[a := acc.(storageRoot := root)];
    }

    method RefreshStorageRoot(a: Address)
      modifies this
      ensures View() == Refreshed(env.codec, old(View()), a)
    {
      hide StorageRoot;
      var root := ComputeStorageRoot(a);
      if a in accounts {
        accounts := accounts[a := accounts[a].(storageRoot := root)];
      } else if root != ZERO_HASH {
        accounts := accounts[a := EMPTY_ACCOUNT.(storageRoot := root)];
      }
    }

    method SetStorage(a: Address, slot: H256, v: Word)
      modifies this
      ensures View() == WithStorage(env.codec, old(View()), a, slot, v)
      ensures GetOr(storage, (a, slot), 0) == v
      ensures forall p :: p != (a, slot) ==> Get(storage, p) == Get(old(storage), p)
      ensures code == old(code) && SameFields(View(), old(View()))
    {
      StorageWritten(env.codec, View(), a, slot, v);
      hide SameFields, Refreshed;
      if v == 0 {
        storage := storage - {(a, slot)};
      } else {
        storage := storage[(a, slot) := v];
      }
      RefreshStorageRoot(a);
    }

    method SetCode(a: Address, bytes: Bytes)
      modifies this
      ensures View() == WithCode(old(View()), a, bytes)
    {
      code := code[a := bytes];
    }

    method SyncAllStorageRoots()
      modifies this
      ensures View() == SyncAll(env.codec, old(View()))
    {
      hide StorageRoot, SyncAll, PartSynced, Refreshed;
      ghost var w := View();
      var left := accounts.Keys + set p | p in storage :: p.0;
      NoneSynced(env.codec, w);
      while left != {}
        invariant left <= Owners(w)
        invariant storage == w.storage && code == w.code
        invariant PartSynced(env.codec, w, left, accounts)
      {
        var a :| a in left;
        PartSyncedMore(env.codec, w, left, accounts, a);
        RefreshStorageRoot(a);
        left := left - {a};
      }
      AllSynced(env.codec, w, accounts);
    }

    method AccountPairs() returns (pairs: seq<(Bytes, Bytes)>)
      ensures MapOf(pairs) == AccountMap(env, accounts)
    {
      hide AccountMap, BigEndian;
      pairs := [];
      var left := accounts.Keys;
      AccountMapEmpty(env, accounts - left);
      while left != {}
        invariant left <= accounts.Keys
        invariant MapOf(pairs) == AccountMap(env, accounts - left)
      {
        var a :| a in left;
        AccountMapInsert(env, accounts - left, a, accounts[a]);
        assert (accounts - left)[a := accounts[a]] == accounts - (left - {a});
        if !accounts[a].IsEmpty() {
          MapOfAppend(pairs, BigEndian(a, 20), env.accountBytes(accounts[a]));
          pairs := pairs + [(BigEndian(a, 20), env.accountBytes(accounts[a]))];
        }
        left := left - {a};
      }
      assert accounts - left == accounts;
    }

    /** The account-trie root. On a synced state it changes nothing. */
    method ComputeRootHash() returns (h: H256)
      modifies this
      ensures h == RootHash(env, old(View()))
      ensures View() == SyncAll(env.codec, old(View()))
      ensures Synced(env.codec, old(View())) ==> View() == old(View())
    {
      hide SyncAll, StorageRoot, AccountMap, Trie.Root, Trie.NodeSet, Trie.NibbleMap;
      SyncAllStorageRoots();
      if Synced(env.codec, old(View())) {
        SyncAllNoop(env.codec, old(View()));
      }
      var pairs := AccountPairs();
      var nodes;
      h, nodes := Trie.PatriciaNodes(env.codec, pairs);
    }

    /** Encoded nodes of the account trie. */
    method TrieNodes() returns (nodes: seq<(H256, Bytes)>)
      modifies this
      ensures View() == SyncAll(env.codec, old(View()))
      ensures nodes == Trie.Entitled(env.codec, Trie.NodeList(env.codec, Trie.NibbleMap(AccountMap(env, accounts))))
      ensures Trie.Hashed(env.codec, nodes)
      ensures Trie.EncodingsOf(nodes) == Trie.NodeSet(env.codec, Trie.NibbleMap(AccountMap(env, accounts)))
    {
      hide SyncAll, AccountMap, Trie.Root, Trie.NodeSet, Trie.NodeList, Trie.Entitled, Trie.NibbleMap;
      SyncAllStorageRoots();
      var pairs := AccountPairs();
      var root;
      root, nodes := Trie.PatriciaNodes(env.codec, pairs);
    }

    /** A proof for an account that verifies against the state root with the account's bytes, or absence. */
    method AccountProof(a: Address) returns (p: Trie.TrieProof)
      requires env.codec.Faithful()
      modifies this
      ensures View() == SyncAll(env.codec, old(View())) && p.root == RootHash(env, old(View()))
      ensures Trie.VerifyFrom(env.codec, p.root, Trie.NibblesOf(BigEndian(a, 20)), p.nodes) == Ok(p.value)
      ensures env.codec.CollisionFree(Trie.NodeSet(env.codec, Trie.NibbleMap(AccountMap(env, accounts)))) ==>
                p.value == AccountAnswer(env, View(), a)
    {
      hide SyncAll, AccountMap, BigEndian, Trie.Root, Trie.NodeSet, Trie.NibbleMap, Trie.NibblesOf, Trie.VerifyFrom;
      SyncAllStorageRoots();
      var pairs := AccountPairs();
      p := Trie.Prove(env.codec, pairs, BigEndian(a, 20));
      AccountListed(env, View(), a);
    }

    /** The same for a slot; without storage the root is that of the empty trie, not the zero the account records. */
    method StorageProof(a: Address, slot: H256) returns (p: Trie.TrieProof)
      requires env.codec.Faithful()
      ensures p.root == Trie.MapRoot(env.codec, SlotMap(storage, a))
      ensures StorageRoot(env.codec, storage, a) in {ZERO_HASH, p.root}
      ensures Trie.VerifyFrom(env.codec, p.root, Trie.NibblesOf(BigEndian(slot, 32)), p.nodes) == Ok(p.value)
      ensures env.codec.CollisionFree(Trie.NodeSet(env.codec, Trie.NibbleMap(SlotMap(storage, a)))) ==>
                p.value == SlotAnswer(View(), a, slot)
    {
      hide SlotMap, BigEndian, Trie.Root, Trie.NodeSet, Trie.NibbleMap, Trie.NibblesOf, Trie.VerifyFrom;
      var pairs := StoragePairs(a);
      p := Trie.Prove(env.codec, pairs, BigEndian(slot, 32));
      SlotListed(View(), a, slot);
    }
  }

  lemma SlotMapEmpty(s: map<(Address, H256), Word>, a: Address)
    requires s == map[]
    ensures SlotMap(s, a) == map[]
  {
    hide SlotMap, BigEndian;
  }

  lemma SlotMapInsert(s: map<(Address, H256), Word>, p: (Address, H256), v: Word, a: Address)
    requires p !in s
    ensures SlotMap(s[p := v], a) ==
            if p.0 == a && v != 0 then SlotMap(s, a)[BigEndian(p.1, 32) := BigEndian(v, 32)] else SlotMap(s, a)
  {
    hide SlotMap, BigEndian;
    var m := SlotMap(s[p := v], a);
    var n := if p.0 == a && v != 0 then SlotMap(s, a)[BigEndian(p.1, 32) := BigEndian(v, 32)] else SlotMap(s, a);
    forall k
      ensures Get(m, k) == Get(n, k)
    {
      if k in m || k in n {
        var slot: H256 :| k == BigEndian(slot, 32);
        WordBytesInvert(slot);
        WordBytesInvert(p.1);
        assert (a, slot) == p || Get(s[p := v], (a, slot)) == Get(s, (a, slot));
      }
    }
    SameLookups(m, n);
  }

  lemma AccountMapEmpty(env: Env, accounts: map<Address, Account>)
    requires accounts == map[]
    ensures AccountMap(env, accounts) == map[]
  {
    hide AccountMap, BigEndian;
  }

  lemma AccountMapInsert(env: Env, accounts: map<Address, Account>, a: Address, acc: Account)
    requires a !in accounts
    ensures AccountMap(env, accounts[a := acc]) ==
            if acc.IsEmpty() then AccountMap(env, accounts)
            else AccountMap(env, accounts)[BigEndian(a, 20) := env.accountBytes(acc)]
  {
    hide AccountMap, BigEndian;
    var m := AccountMap(env, accounts[a := acc]);
    var n := if acc.IsEmpty() then AccountMap(env, accounts)
             else AccountMap(env, accounts)[BigEndian(a, 20) := env.accountBytes(acc)];
    forall k
      ensures Get(m, k) == Get(n, k)
    {
      if k in m || k in n {
        var b: Address :| k == BigEndian(b, 20);
        AddressBytesInvert(a);
        AddressBytesInvert(b);
      }
    }
    SameLookups(m, n);
  }
}
