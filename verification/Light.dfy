/**
 What a client can conclude from `eth_getProof` (crates/ivory-rpc/src/handler.rs) when it holds
 nothing but a state root: an account, and through the account's storage root a slot.
 */
module Light {
  import opened Primitives
  import opened Ledger
  import opened State
  import Trie

  ghost function AccountKey(a: Address): Trie.Nibbles {
    Trie.NibblesOf(BigEndian(a, 20))
  }

  ghost function SlotKey(slot: H256): Trie.Nibbles {
    Trie.NibblesOf(BigEndian(slot, 32))
  }

  /** Some offered node collides with a trie node of the state. */
  ghost predicate Forged(env: Env, w: World, proof: seq<Bytes>, x: Bytes, y: Bytes) {
    env.codec.Collision(x, y) && x in proof && StateNode(env, w, y)
  }

  /** Whatever nodes are offered, an accepted answer about an account is the truth, or a node collides. */
  lemma ProvedAccount(env: Env, w: World, a: Address, proof: seq<Bytes>) returns (x: Bytes, y: Bytes)
    requires env.codec.Faithful() && Synced(env.codec, w)
    requires Trie.VerifyFrom(env.codec, RootHash(env, w), AccountKey(a), proof).Ok?
    ensures Trie.VerifyFrom(env.codec, RootHash(env, w), AccountKey(a), proof).value == AccountAnswer(env, w, a)
            || Forged(env, w, proof, x, y)
  {
    hide AccountMap, SlotMap, SyncAll, Synced, BigEndian, Trie.MapRoot, Trie.NodeSet, Trie.NibbleMap, Trie.NibblesOf;
    hide Trie.VerifyFrom, AccountAnswer;
    SyncAllNoop(env.codec, w);
    AccountListed(env, w, a);
    x, y := Trie.MapSound(env.codec, AccountMap(env, w.accounts), BigEndian(a, 20), proof);
  }

  /** The same for a slot, against the storage root of an address with storage. */
  lemma ProvedSlot(env: Env, w: World, a: Address, slot: H256, proof: seq<Bytes>) returns (x: Bytes, y: Bytes)
    requires env.codec.Faithful() && StorageRoot(env.codec, w.storage, a) != ZERO_HASH
    requires Trie.VerifyFrom(env.codec, StorageRoot(env.codec, w.storage, a), SlotKey(slot), proof).Ok?
    ensures Trie.VerifyFrom(env.codec, StorageRoot(env.codec, w.storage, a), SlotKey(slot), proof).value
            == SlotAnswer(w, a, slot)
            || Forged(env, w, proof, x, y)
  {
    hide AccountMap, SlotMap, BigEndian, Trie.MapRoot, Trie.NodeSet, Trie.NibbleMap, Trie.NibblesOf;
    hide Trie.VerifyFrom, SlotAnswer;
    SlotListed(w, a, slot);
    x, y := Trie.MapSound(env.codec, SlotMap(w.storage, a), BigEndian(slot, 32), proof);
  }

  /**
   From the state root alone: an accepted account proof fixes the whole account, and an accepted
   proof against the storage root found in it fixes the slot.
   */
  lemma ProvedState(env: Env, w: World, a: Address, acc: Account, slot: H256,
                    accountProof: seq<Bytes>, slotProof: seq<Bytes>) returns (x: Bytes, y: Bytes)
    requires env.codec.Faithful() && AccountBytesInjective(env) && Synced(env.codec, w)
    requires Trie.VerifyFrom(env.codec, RootHash(env, w), AccountKey(a), accountProof)
             == Ok(Some(env.accountBytes(acc)))
    requires acc.storageRoot != ZERO_HASH
    requires Trie.VerifyFrom(env.codec, acc.storageRoot, SlotKey(slot), slotProof).Ok?
    ensures || (&& Get(w.accounts, a) == Some(acc)
                && Trie.VerifyFrom(env.codec, acc.storageRoot, SlotKey(slot), slotProof).value
                   == SlotAnswer(w, a, slot))
            || Forged(env, w, accountProof + slotProof, x, y)
  {
    hide Trie.VerifyFrom, AccountKey, SlotKey, RootHash, StorageRoot, SlotAnswer, StateNode;
    x, y := ProvedAccount(env, w, a, accountProof);
    if !Forged(env, w, accountProof, x, y) {
      assert w.accounts[a] == acc;
      x, y := ProvedSlot(env, w, a, slot, slotProof);
    }
  }

  /** An accepted proof of absence, or of an account that records no storage root, means that every slot is zero. */
  lemma ProvedNoStorage(env: Env, w: World, a: Address, answer: Option<Account>, slot: H256, proof: seq<Bytes>)
    returns (x: Bytes, y: Bytes)
    requires env.codec.Faithful() && AccountBytesInjective(env) && Synced(env.codec, w)
    requires answer.Some? ==> answer.value.storageRoot == ZERO_HASH
    requires Trie.VerifyFrom(env.codec, RootHash(env, w), AccountKey(a), proof)
             == Ok(if answer.Some? then Some(env.accountBytes(answer.value)) else None)
    ensures || GetOr(w.storage, (a, slot), 0) == 0
            || Forged(env, w, proof, x, y)
            || (env.codec.keccak(x) == ZERO_HASH && StateNode(env, w, x))
  {
    hide Trie.VerifyFrom, AccountKey, RootHash, StorageRoot, StateNode;
    x, y := ProvedAccount(env, w, a, proof);
    if !Forged(env, w, proof, x, y) {
      assert a in w.accounts ==> w.accounts[a].storageRoot == ZERO_HASH;
      x := ZeroStorage(env, w, a, slot);
    }
  }

  lemma ZeroStorage(env: Env, w: World, a: Address, slot: H256) returns (x: Bytes)
    requires StorageRoot(env.codec, w.storage, a) == ZERO_HASH
    ensures GetOr(w.storage, (a, slot), 0) == 0 || (env.codec.keccak(x) == ZERO_HASH && StateNode(env, w, x))
  {
    hide AccountMap, SlotMap, BigEndian, Trie.MapRoot, Trie.NodeSet, Trie.NibbleMap;
    SlotListed(w, a, slot);
    x := RootEncoding(env.codec, SlotMap(w.storage, a));
  }
}
