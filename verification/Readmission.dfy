/**
 Which transactions of a dropped fork return to the mempool at a head change: the first loop of
 `apply_head_change` in crates/ivory-chain/src/apply.rs against the admission rule of
 crates/ivory-txpool/src/pool.rs.
 */
module Readmission {
  import opened Primitives
  import opened Ledger
  import opened State
  import opened Execution
  import opened Store
  import opened Pool
  import opened Import
  import opened Commitment

  // ----- The transactions that are offered

  /** The transactions of the old path that are not on the new one. */
  ghost function OffPath(env: Env, txs: seq<Transaction>, onNew: set<H256>): (r: seq<Transaction>)
    ensures forall tx :: tx in r ==> tx in txs && env.txHash(tx) !in onNew
    ensures forall tx :: tx in txs && env.txHash(tx) !in onNew ==> tx in r
    decreases |txs|
  {
    if txs == [] then []
    else
      var n := |txs| - 1;
      assert txs == txs[..n] + [txs[n]];
      OffPath(env, txs[..n], onNew) + if env.txHash(txs[n]) in onNew then [] else [txs[n]]
  }

  /** Only those are offered. */
  lemma {:induction false} ReaddedOffPath(env: Env, cfg: PoolConfig, p: Mempool, txs: seq<Transaction>,
                                          onNew: set<H256>)
    ensures Readded(env, cfg, p, txs, onNew) == Readded(env, cfg, p, OffPath(env, txs, onNew), {})
    decreases |txs|
  {
    hide Added;
    if txs != [] {
      var n := |txs| - 1;
      ReaddedOffPath(env, cfg, p, txs[..n], onNew);
      var off := OffPath(env, txs[..n], onNew);
      if env.txHash(txs[n]) in onNew {
        assert off + [] == off;
      } else {
        assert (off + [txs[n]])[..|off|] == off;
      }
    }
  }

  // ----- What a chain and an uncrowded pool provide

  /** A sender's nonces rise along the list, as they do along every chain. */
  ghost predicate Rising(txs: seq<Transaction>) {
    forall i, j :: 0 <= i < j < |txs| && txs[i].from == txs[j].from ==> txs[i].nonce < txs[j].nonce
  }

  /** Passes the checks that do not depend on the pool, and its nonce is below the one that saturates. */
  ghost predicate WellFormed(env: Env, cfg: PoolConfig, tx: Transaction) {
    tx.gas >= cfg.minGas && env.signatureOk(tx) && tx.nonce < U64_MAX
  }

  /** No two of the transactions share a hash, with each other or with another one that is pending. */
  ghost predicate HashesApart(env: Env, p: Mempool, txs: seq<Transaction>) {
    && (forall i, j :: 0 <= i < j < |txs| ==> env.txHash(txs[i]) != env.txHash(txs[j]))
    && (forall tx :: tx in txs && env.txHash(tx) in p.pending ==> p.pending[env.txHash(tx)].tx == tx)
  }

  /** Both caps leave room for all of them. */
  ghost predicate Room(cfg: PoolConfig, p: Mempool, txs: seq<Transaction>) {
    && |p.pending| + |txs| <= cfg.maxPending
    && forall a :: GetOr(p.perSender, a, 0) + CountFrom(txs, a) <= cfg.maxPerSender
  }

  ghost predicate Offerable(env: Env, cfg: PoolConfig, p: Mempool, txs: seq<Transaction>) {
    && PoolInv(env, cfg, p) && Rising(txs) && HashesApart(env, p, txs) && Room(cfg, p, txs)
    && forall tx :: tx in txs ==> WellFormed(env, cfg, tx)
  }

  // ----- The exact condition

  ghost predicate Has(txs: seq<Transaction>, a: Address, nonce: nat) {
    exists i :: 0 <= i < |txs| && txs[i].from == a && txs[i].nonce == nonce
  }

  /** The list holds every nonce of the sender from the pool's next one up to this transaction's. */
  ghost predicate Bridged(p: Mempool, txs: seq<Transaction>, tx: Transaction) {
    && ExpectedNonce(p, tx.from) <= tx.nonce
    && forall m :: ExpectedNonce(p, tx.from) <= m <= tx.nonce ==> Has(txs, tx.from, m)
  }

  /**
   `q` is `p` after offering `txs`: trackers stop at the first nonce the list lacks, and what lies
   before it is pending.
   */
  ghost predicate Caught(env: Env, p: Mempool, txs: seq<Transaction>, q: Mempool) {
    && (forall a :: TrackerAt(p, txs, q, a))
    && (forall h :: h in p.pending ==> h in q.pending)
    && (forall h :: h in q.pending && h !in p.pending ==> exists i :: 0 <= i < |txs| && env.txHash(txs[i]) == h)
    && (forall i :: 0 <= i < |txs| ==>
          (env.txHash(txs[i]) in q.pending <==>
             env.txHash(txs[i]) in p.pending || Between(p, q, txs[i])))
    && |q.pending| <= |p.pending| + |txs|
    && (forall a :: GetOr(q.perSender, a, 0) <= GetOr(p.perSender, a, 0) + CountFrom(txs, a))
  }

  ghost predicate Between(p: Mempool, q: Mempool, tx: Transaction) {
    ExpectedNonce(p, tx.from) <= tx.nonce < ExpectedNonce(q, tx.from)
  }

  ghost predicate TrackerAt(p: Mempool, txs: seq<Transaction>, q: Mempool, a: Address) {
    && ExpectedNonce(p, a) <= ExpectedNonce(q, a)
    && (forall m :: ExpectedNonce(p, a) <= m < ExpectedNonce(q, a) ==> Has(txs, a, m))
    && !Has(txs, a, ExpectedNonce(q, a))
  }

  lemma HasMore(txs: seq<Transaction>, tx: Transaction)
    ensures forall a, m :: Has(txs + [tx], a, m) <==> Has(txs, a, m) || (tx.from == a && tx.nonce == m)
  {
    forall a, m
      ensures Has(txs + [tx], a, m) <==> Has(txs, a, m) || (tx.from == a && tx.nonce == m)
    {
      var all := txs + [tx];
      assert all[|txs|] == tx;
      if Has(txs, a, m) {
        var i :| 0 <= i < |txs| && txs[i].from == a && txs[i].nonce == m;
        assert all[i] == txs[i];
      }
    }
  }

  lemma RisingLast(txs: seq<Transaction>, tx: Transaction)
    requires Rising(txs + [tx])
    ensures Rising(txs) && forall m :: m >= tx.nonce ==> !Has(txs, tx.from, m)
  {
    var all := txs + [tx];
    forall i, j | 0 <= i < j < |txs| && txs[i].from == txs[j].from
      ensures txs[i].nonce < txs[j].nonce
    {
      assert all[i].from == all[j].from;
    }
    forall i | 0 <= i < |txs| && txs[i].from == tx.from
      ensures txs[i].nonce < tx.nonce
    {
      assert all[i].from == all[|txs|].from;
    }
  }

  lemma OfferableFront(env: Env, cfg: PoolConfig, p: Mempool, txs: seq<Transaction>, tx: Transaction)
    requires Offerable(env, cfg, p, txs + [tx])
    ensures Offerable(env, cfg, p, txs) && WellFormed(env, cfg, tx)
    ensures forall i :: 0 <= i < |txs| ==> env.txHash(txs[i]) != env.txHash(tx)
    ensures |p.pending| + |txs| < cfg.maxPending
    ensures GetOr(p.perSender, tx.from, 0) + CountFrom(txs, tx.from) < cfg.maxPerSender
    ensures env.txHash(tx) in p.pending ==> tx.nonce < ExpectedNonce(p, tx.from)
  {
    hide CountFrom, FromSender, CountsOk;
    var all := txs + [tx];
    assert all[|txs|] == tx && tx in all;
    RisingLast(txs, tx);
    forall a
      ensures CountFrom(all, a) == CountFrom(txs, a) + if tx.from == a then 1 else 0
    {
      CountLast(txs, tx, a);
    }
    forall i, j | 0 <= i < j < |txs|
      ensures env.txHash(txs[i]) != env.txHash(txs[j])
    {
      assert env.txHash(all[i]) != env.txHash(all[j]);
    }
    forall i | 0 <= i < |txs|
      ensures env.txHash(txs[i]) != env.txHash(tx)
    {
      assert env.txHash(all[i]) != env.txHash(all[|txs|]);
    }
    assert forall t :: t in txs ==> t in all;
  }

  lemma CountLast(txs: seq<Transaction>, tx: Transaction, a: Address)
    ensures CountFrom(txs + [tx], a) == CountFrom(txs, a) + if tx.from == a then 1 else 0
  {
    CountFromAppend(txs, [tx], a);
  }

  /** With room, a fresh admissible transaction is admitted exactly when it carries the tracked nonce. */
  lemma OfferOne(env: Env, cfg: PoolConfig, p: Mempool, txs: seq<Transaction>, q: Mempool, tx: Transaction)
    requires Offerable(env, cfg, p, txs + [tx]) && Caught(env, p, txs, q)
    ensures env.txHash(tx) in q.pending <==> env.txHash(tx) in p.pending
    ensures AddError(env, cfg, q, tx).None? <==> env.txHash(tx) !in p.pending && tx.nonce == ExpectedNonce(q, tx.from)
  {
    hide CountFrom, PoolInv, TrackerAt, Between, Offerable;
    OfferableFront(env, cfg, p, txs, tx);
  }

  lemma TrackersStep(env: Env, cfg: PoolConfig, p: Mempool, txs: seq<Transaction>, q: Mempool, tx: Transaction,
                     a: Address)
    requires Offerable(env, cfg, p, txs + [tx]) && Caught(env, p, txs, q)
    ensures TrackerAt(p, txs + [tx], Added(env, cfg, q, tx, Local, 0), a)
  {
    hide AddError, Offerable, Has;
    OfferableFront(env, cfg, p, txs, tx);
    OfferOne(env, cfg, p, txs, q, tx);
    OfferableRising(env, cfg, p, txs + [tx]);
    RisingLast(txs, tx);
    HasMore(txs, tx);
    assert TrackerAt(p, txs, q, a);
  }

  lemma OfferableRising(env: Env, cfg: PoolConfig, p: Mempool, txs: seq<Transaction>)
    requires Offerable(env, cfg, p, txs)
    ensures Rising(txs)
  {
  }

  /** The last transaction is pending exactly when its nonce lies below the new tracker. */
  lemma LastStep(env: Env, cfg: PoolConfig, p: Mempool, txs: seq<Transaction>, q: Mempool, tx: Transaction)
    requires Offerable(env, cfg, p, txs + [tx]) && Caught(env, p, txs, q)
    ensures var q' := Added(env, cfg, q, tx, Local, 0);
            env.txHash(tx) in q'.pending <==> env.txHash(tx) in p.pending || Between(p, q', tx)
  {
    hide AddError, Offerable, Has;
    OfferableFront(env, cfg, p, txs, tx);
    OfferOne(env, cfg, p, txs, q, tx);
    OfferableRising(env, cfg, p, txs + [tx]);
    RisingLast(txs, tx);
    assert TrackerAt(p, txs, q, tx.from);
    assert !Has(txs, tx.from, tx.nonce);
  }

  lemma EarlierStep(env: Env, cfg: PoolConfig, p: Mempool, txs: seq<Transaction>, q: Mempool, tx: Transaction, i: nat)
    requires Offerable(env, cfg, p, txs + [tx]) && Caught(env, p, txs, q) && i < |txs|
    ensures var q' := Added(env, cfg, q, tx, Local, 0);
            env.txHash(txs[i]) in q'.pending <==> env.txHash(txs[i]) in p.pending || Between(p, q', txs[i])
  {
    hide AddError, Offerable;
    OfferableFront(env, cfg, p, txs, tx);
    OfferOne(env, cfg, p, txs, q, tx);
    assert TrackerAt(p, txs, q, txs[i].from);
    assert Has(txs, txs[i].from, txs[i].nonce);
  }

  /** Offering adds at most the offered transaction. */
  lemma AddedGrows(env: Env, cfg: PoolConfig, q: Mempool, tx: Transaction)
    ensures var q' := Added(env, cfg, q, tx, Local, 0);
            && (forall h :: h in q.pending ==> h in q'.pending)
            && (forall h :: h in q'.pending ==> h in q.pending || h == env.txHash(tx))
            && |q'.pending| <= |q.pending| + 1
            && (forall a :: GetOr(q'.perSender, a, 0) <= GetOr(q.perSender, a, 0) + if tx.from == a then 1 else 0)
  {
    hide AddError;
    if AddError(env, cfg, q, tx).None? {
      OneMore(q.pending, env.txHash(tx), PendingTx(env.txHash(tx), tx, Local, 0));
    }
  }

  lemma OneMore(m: map<H256, PendingTx>, h: H256, entry: PendingTx)
    ensures |m[h := entry]| <= |m| + 1
  {
    assert m[h := entry].Keys == m.Keys + {h};
  }

  lemma NewcomersStep(env: Env, p: Mempool, txs: seq<Transaction>, q: Mempool, tx: Transaction, q': Mempool)
    requires Caught(env, p, txs, q)
    requires forall h :: h in q'.pending ==> h in q.pending || h == env.txHash(tx)
    ensures forall h :: h in q'.pending && h !in p.pending ==>
            exists i :: 0 <= i < |txs + [tx]| && env.txHash((txs + [tx])[i]) == h
  {
    hide TrackerAt, Between, CountFrom;
    var all := txs + [tx];
    forall h | h in q'.pending && h !in p.pending
      ensures exists i :: 0 <= i < |all| && env.txHash(all[i]) == h
    {
      if h in q.pending {
        var i :| 0 <= i < |txs| && env.txHash(txs[i]) == h;
        assert all[i] == txs[i];
      } else {
        assert all[|txs|] == tx;
      }
    }
  }

  lemma MembersStep(env: Env, cfg: PoolConfig, p: Mempool, txs: seq<Transaction>, q: Mempool, tx: Transaction, i: nat)
    requires Offerable(env, cfg, p, txs + [tx]) && Caught(env, p, txs, q) && i <= |txs|
    ensures var x, q' := (txs + [tx])[i], Added(env, cfg, q, tx, Local, 0);
            env.txHash(x) in q'.pending <==> env.txHash(x) in p.pending || Between(p, q', x)
  {
    hide *;
    if i < |txs| {
      EarlierStep(env, cfg, p, txs, q, tx, i);
    } else {
      LastStep(env, cfg, p, txs, q, tx);
    }
  }

  lemma CaughtStep(env: Env, cfg: PoolConfig, p: Mempool, txs: seq<Transaction>, q: Mempool, tx: Transaction)
    requires Offerable(env, cfg, p, txs + [tx]) && Caught(env, p, txs, q)
    ensures Caught(env, p, txs + [tx], Added(env, cfg, q, tx, Local, 0))
  {
    hide Added, Offerable, TrackerAt, Between, CountFrom;
    var all, q' := txs + [tx], Added(env, cfg, q, tx, Local, 0);
    AddedGrows(env, cfg, q, tx);
    NewcomersStep(env, p, txs, q, tx, q');
    forall a
      ensures TrackerAt(p, all, q', a)
      ensures GetOr(q'.perSender, a, 0) <= GetOr(p.perSender, a, 0) + CountFrom(all, a)
    {
      TrackersStep(env, cfg, p, txs, q, tx, a);
      CountLast(txs, tx, a);
      assert GetOr(q.perSender, a, 0) <= GetOr(p.perSender, a, 0) + CountFrom(txs, a);
      assert GetOr(q'.perSender, a, 0) <= GetOr(q.perSender, a, 0) + if tx.from == a then 1 else 0;
    }
    forall i | 0 <= i < |all|
      ensures env.txHash(all[i]) in q'.pending <==> env.txHash(all[i]) in p.pending || Between(p, q', all[i])
    {
      MembersStep(env, cfg, p, txs, q, tx, i);
    }
  }

  lemma {:induction false} ReaddedCaught(env: Env, cfg: PoolConfig, p: Mempool, txs: seq<Transaction>)
    requires Offerable(env, cfg, p, txs)
    ensures Caught(env, p, txs, Readded(env, cfg, p, txs, {}))
    decreases |txs|
  {
    hide Added, Offerable;
    if txs != [] {
      var n := |txs| - 1;
      assert txs == txs[..n] + [txs[n]];
      OfferableFront(env, cfg, p, txs[..n], txs[n]);
      ReaddedCaught(env, cfg, p, txs[..n]);
      CaughtStep(env, cfg, p, txs[..n], Readded(env, cfg, p, txs[..n], {}), txs[n]);
    }
  }

  /** The first missing nonce lies above this transaction's exactly when nothing up to it is missing. */
  lemma BetweenIsBridged(env: Env, p: Mempool, txs: seq<Transaction>, q: Mempool, i: nat)
    requires Caught(env, p, txs, q) && i < |txs|
    ensures Between(p, q, txs[i]) <==> Bridged(p, txs, txs[i])
  {
    hide Has, CountFrom;
    assert TrackerAt(p, txs, q, txs[i].from);
  }

  /**
   Which dropped transactions return. After the old path's transactions were offered again, one
   of them that is off the new path is pending exactly when it was pending before, or the
   off-path transactions of its sender hold every nonce from the pool's next one up to its own.
   It stays out when the tracker has passed it, because removal never rewinds the tracker, and
   also when the tracker is behind, because the pool never saw the nonces in between.
   */
  lemma DroppedReturns(env: Env, cfg: PoolConfig, p: Mempool, stale: seq<Transaction>, onNew: set<H256>,
                       tx: Transaction)
    requires Offerable(env, cfg, p, OffPath(env, stale, onNew)) && tx in stale && env.txHash(tx) !in onNew
    ensures env.txHash(tx) in Readded(env, cfg, p, stale, onNew).pending <==>
              env.txHash(tx) in p.pending || Bridged(p, OffPath(env, stale, onNew), tx)
  {
    hide Offerable, Readded, Bridged;
    var off := OffPath(env, stale, onNew);
    ReaddedOffPath(env, cfg, p, stale, onNew);
    ReaddedCaught(env, cfg, p, off);
    var i :| 0 <= i < |off| && off[i] == tx;
    BetweenIsBridged(env, p, off, Readded(env, cfg, p, off, {}), i);
  }

  /** A pool that never saw nonce 0 refuses nonce 1 of a dropped fork, although it has never admitted it. */
  lemma GapStaysOut(env: Env, cfg: PoolConfig, tx: Transaction)
    requires WellFormed(env, cfg, tx) && tx.nonce == 1 && cfg.maxPending > 0 && cfg.maxPerSender > 0
    ensures AddError(env, cfg, EMPTY_POOL, tx) == Some(NonceGap(0, 1))
    ensures Readded(env, cfg, EMPTY_POOL, [tx], {}) == EMPTY_POOL
  {
    assert [tx][..0] == [];
  }

  /** Where a sender's off-path nonces run without a gap from `base`, it comes down to one comparison on each side. */
  lemma BridgedRun(p: Mempool, txs: seq<Transaction>, tx: Transaction, base: nat)
    requires tx in txs
    requires forall m: nat :: Has(txs, tx.from, m) <==> base <= m < base + CountFrom(txs, tx.from)
    ensures Bridged(p, txs, tx) <==> base <= ExpectedNonce(p, tx.from) <= tx.nonce
  {
    var i :| 0 <= i < |txs| && txs[i] == tx;
    assert Has(txs, tx.from, tx.nonce);
    if Bridged(p, txs, tx) {
      assert Has(txs, tx.from, ExpectedNonce(p, tx.from));
    }
  }

  /** Nonces that run from `base`, one per transaction of the sender, leave no gap. */
  lemma {:induction false} RunHas(txs: seq<Transaction>, a: Address, base: nat, m: nat)
    requires forall i :: 0 <= i < |txs| && txs[i].from == a ==> txs[i].nonce == base + CountFrom(txs[..i], a)
    ensures Has(txs, a, m) <==> base <= m < base + CountFrom(txs, a)
    decreases |txs|
  {
    hide CountFrom;
    if txs == [] {
      NoCount(a);
    } else {
      var n := |txs| - 1;
      var front := txs[..n];
      assert txs == front + [txs[n]];
      forall i | 0 <= i < |front| && front[i].from == a
        ensures front[i].nonce == base + CountFrom(front[..i], a)
      {
        assert front[..i] == txs[..i] && front[i] == txs[i];
      }
      RunHas(front, a, base, m);
      CountLast(front, txs[n], a);
      HasMore(front, txs[n]);
    }
  }

  lemma NoCount(a: Address)
    ensures CountFrom([], a) == 0
  {
  }

  /**
   Where the off-path nonces of a sender run up from `base`, as on a fork that shares nothing
   with the new path above the fork point, a dropped transaction returns exactly when the
   tracker is neither behind the run nor past the transaction.
   */
  lemma DroppedRunReturns(env: Env, cfg: PoolConfig, p: Mempool, stale: seq<Transaction>, onNew: set<H256>,
                          tx: Transaction, base: nat)
    requires Offerable(env, cfg, p, OffPath(env, stale, onNew)) && tx in stale && env.txHash(tx) !in onNew
    requires env.txHash(tx) !in p.pending
    requires var off := OffPath(env, stale, onNew);
             forall i :: 0 <= i < |off| && off[i].from == tx.from ==>
               off[i].nonce == base + CountFrom(off[..i], tx.from)
    ensures env.txHash(tx) in Readded(env, cfg, p, stale, onNew).pending <==>
            base <= ExpectedNonce(p, tx.from) <= tx.nonce
  {
    hide Offerable, Readded, Bridged, Has, CountFrom;
    var off := OffPath(env, stale, onNew);
    forall m: nat
      ensures Has(off, tx.from, m) <==> base <= m < base + CountFrom(off, tx.from)
    {
      RunHas(off, tx.from, base, m);
    }
    BridgedRun(p, off, tx, base);
    DroppedReturns(env, cfg, p, stale, onNew, tx);
  }

  // ----- At a head change

  lemma {:induction false} RemovedAllKeeps(env: Env, p: Mempool, txs: seq<Transaction>, h: H256)
    requires h !in HashesOf(env, txs)
    ensures h in RemovedAll(env, p, txs).pending <==> h in p.pending
    decreases |txs|
  {
    if txs != [] {
      var n := |txs| - 1;
      assert txs[n] in txs;
      RemovedAllKeeps(env, p, txs[..n], h);
    }
  }

  lemma RisingMore(txs: seq<Transaction>, tx: Transaction)
    requires Rising(txs) && forall t :: t in txs && t.from == tx.from ==> t.nonce < tx.nonce
    ensures Rising(txs + [tx])
  {
    forall i | 0 <= i < |txs|
      ensures txs[i].from == tx.from ==> txs[i].nonce < tx.nonce
    {
      assert txs[i] in txs;
    }
  }

  lemma {:induction false} OffPathRising(env: Env, txs: seq<Transaction>, onNew: set<H256>)
    requires Rising(txs)
    ensures Rising(OffPath(env, txs, onNew))
    decreases |txs|
  {
    hide OffPath, Rising;
    if txs == [] {
      NoneRising(env, onNew);
    } else {
      var n := |txs| - 1;
      var front, last := txs[..n], txs[n];
      assert txs == front + [last];
      RisingLast(front, last);
      OffPathRising(env, front, onNew);
      var off := OffPath(env, front, onNew);
      forall t | t in off && t.from == last.from
        ensures t.nonce < last.nonce
      {
        assert t in front;
        assert Has(front, last.from, t.nonce);
      }
      RisingMore(off, last);
      OffPathStep(env, txs, onNew);
    }
  }

  lemma NoneRising(env: Env, onNew: set<H256>)
    ensures Rising(OffPath(env, [], onNew))
  {
  }

  lemma OffPathStep(env: Env, txs: seq<Transaction>, onNew: set<H256>)
    requires txs != []
    ensures var n := |txs| - 1;
            var off := OffPath(env, txs[..n], onNew);
            OffPath(env, txs, onNew) == if env.txHash(txs[n]) in onNew then off else off + [txs[n]]
  {
  }

  /** Nonces of the list lie below those of the state, and each sender's rise. */
  ghost predicate Used(w: World, txs: seq<Transaction>) {
    Rising(txs) && forall tx :: tx in txs ==> tx.nonce < AccountAt(w, tx.from).nonce
  }

  lemma UsedMore(w: World, w': World, txs: seq<Transaction>, more: seq<Transaction>)
    requires Used(w, txs) && NoncesFrom(w, more) && NoncesAfter(w, w', more)
    ensures Used(w', txs + more) && Used(w', txs)
  {
    hide CountFrom;
    var all := txs + more;
    forall i | 0 <= i < |more|
      ensures AccountAt(w, more[i].from).nonce <= more[i].nonce < AccountAt(w', more[i].from).nonce
    {
      CountInside(more, i);
    }
    forall i, j | 0 <= i < j < |all| && all[i].from == all[j].from
      ensures all[i].nonce < all[j].nonce
    {
      if |txs| <= i {
        CountBetween(more, i - |txs|, j - |txs|);
      } else if |txs| <= j {
        assert txs[i] in txs;
      }
    }
    forall tx | tx in all
      ensures tx.nonce < AccountAt(w', tx.from).nonce
    {
      if tx in txs {
        assert AccountAt(w', tx.from).nonce == AccountAt(w, tx.from).nonce + CountFrom(more, tx.from);
      } else {
        var i :| 0 <= i < |more| && more[i] == tx;
      }
    }
  }

  lemma CountInside(txs: seq<Transaction>, i: nat)
    requires i < |txs|
    ensures CountFrom(txs[..i], txs[i].from) < CountFrom(txs, txs[i].from)
  {
    assert txs == txs[..i] + txs[i..];
    CountFromAppend(txs[..i], txs[i..], txs[i].from);
  }

  lemma CountBetween(txs: seq<Transaction>, i: nat, j: nat)
    requires i < j < |txs| && txs[i].from == txs[j].from
    ensures CountFrom(txs[..i], txs[i].from) < CountFrom(txs[..j], txs[j].from)
  {
    assert txs[..j] == txs[..i] + txs[i..j];
    CountFromAppend(txs[..i], txs[i..j], txs[i].from);
    assert txs[i..j][0] == txs[i];
  }

  /** The transactions on a walk carry used nonces: the state at its end has counted every one of them. */
  lemma {:induction false} WalkUsed(env: Env, genesis: World, root: H256, bodies: Blocks, blocks: Blocks, h: H256)
    requires HistoryOk(env, genesis, root, bodies) && bodies[root].transactions == []
    requires Linked(blocks) && Tracks(bodies, blocks) && Retains(bodies, blocks) && h in blocks
    ensures Linked(bodies) && Replay(env, genesis, bodies, h).Ok?
    ensures Used(Replay(env, genesis, bodies, h).value, TxsOn(blocks, h))
    decreases blocks[h].header.number
  {
    hide Replayed, Used, ExecuteAll, NoncesFrom, NoncesAfter, TxsOn;
    HistoryStep(env, genesis, root, bodies, h);
    assert ParentStored(blocks, h) && ParentStored(bodies, h);
    TxsOnStep(blocks, h);
    var txs := blocks[h].transactions;
    if blocks[h].header.number == 0 {
      NoneUsed(genesis);
    } else {
      var parent := blocks[h].header.parentHash;
      WalkUsed(env, genesis, root, bodies, blocks, parent);
      var w := Replay(env, genesis, bodies, parent).value;
      ExecuteAllEffect(env, w, 0, bodies[h].header.number, bodies[h].transactions);
      UsedMore(w, Replay(env, genesis, bodies, h).value, TxsOn(blocks, parent), bodies[h].transactions);
      if txs == [] {
        assert TxsOn(blocks, parent) + txs == TxsOn(blocks, parent);
      }
    }
  }

  lemma NoneUsed(w: World)
    ensures Used(w, [])
  {
  }

  lemma HistoryStep(env: Env, genesis: World, root: H256, bodies: Blocks, h: H256)
    requires HistoryOk(env, genesis, root, bodies) && h in bodies
    ensures Linked(bodies) && Replay(env, genesis, bodies, h).Ok?
    ensures bodies[h].header.number == 0 ==> h == root
  {
    hide Replay, Synced, RootHash;
    assert Replayed(env, genesis, bodies, h);
  }

  lemma TxsOnStep(blocks: Blocks, h: H256)
    requires Linked(blocks) && h in blocks
    ensures ParentStored(blocks, h)
    ensures TxsOn(blocks, h) ==
            (if blocks[h].header.number == 0 then [] else TxsOn(blocks, blocks[h].header.parentHash)) +
            blocks[h].transactions
  {
    assert ParentStored(blocks, h);
    PathShape(blocks, h);
    var path := Path(blocks, h);
    if blocks[h].header.number == 0 {
      assert path == [h] && path[..0] == [];
      assert TxsAlong(blocks, path[..0]) == [];
    } else {
      PathShape(blocks, blocks[h].header.parentHash);
      assert path[..|path| - 1] == Path(blocks, blocks[h].header.parentHash);
    }
  }

  /** What is asked of the dropped transactions themselves and of the pool; that nonces rise is a fact of the chain. */
  ghost predicate Droppable(env: Env, cfg: PoolConfig, p: Mempool, txs: seq<Transaction>) {
    && PoolInv(env, cfg, p) && HashesApart(env, p, txs) && Room(cfg, p, txs)
    && forall tx :: tx in txs ==> WellFormed(env, cfg, tx)
  }

  /**
   The pool after a head change: a transaction on the old path and not on the new one is
   pending exactly when it was pending before or the dropped transactions bridge the nonces from
   the pool's tracker up to its own.
   */
  lemma ReorgReturns(env: Env, cfg: PoolConfig, p: Mempool, genesis: World, root: H256, bodies: Blocks, blocks: Blocks,
                     oldHead: H256, newHead: H256, tx: Transaction)
    requires HistoryOk(env, genesis, root, bodies) && bodies[root].transactions == []
    requires Linked(blocks) && Tracks(bodies, blocks) && Retains(bodies, blocks)
    requires oldHead in blocks && newHead in blocks
    requires var onNew := HashesOf(env, TxsOn(blocks, newHead));
             && Droppable(env, cfg, p, OffPath(env, TxsOn(blocks, oldHead), onNew))
             && tx in TxsOn(blocks, oldHead) && env.txHash(tx) !in onNew
    ensures var onNew := HashesOf(env, TxsOn(blocks, newHead));
            env.txHash(tx) in PoolAfter(env, cfg, p, blocks, Some(oldHead), newHead).pending <==>
              env.txHash(tx) in p.pending || Bridged(p, OffPath(env, TxsOn(blocks, oldHead), onNew), tx)
  {
    hide TxsOn, HistoryOk, Readded, RemovedAll, PoolInv, HashesApart, Room, WellFormed, Bridged, OffPath, HashesOf;
    hide Replay;
    WalkUsed(env, genesis, root, bodies, blocks, oldHead);
    var stale, fresh' := TxsOn(blocks, oldHead), TxsOn(blocks, newHead);
    var onNew := HashesOf(env, fresh');
    OffPathRising(env, stale, onNew);
    DroppedReturns(env, cfg, p, stale, onNew, tx);
    RemovedAllKeeps(env, Readded(env, cfg, p, stale, onNew), fresh', env.txHash(tx));
  }

  /** So in every run from a genesis without transactions the exact condition holds at every head change. */
  lemma ReorgReturnsOnRuns(env: Env, cfg: PoolConfig, p: Mempool, genesis: World, b: Block, ops: seq<ChainOp>,
                           oldHead: H256, newHead: H256, tx: Transaction)
    requires b.header.number == 0 && env.Hash(b) != ZERO_HASH && b.transactions == []
    requires Synced(env.codec, genesis) && RootHash(env, genesis) == b.header.stateRoot
    requires forall op :: op in ops ==> Offered(env, op)
    ensures StateOk(env, genesis, env.Hash(b), Start(env, genesis, b))
    ensures var blocks := RunChain(env, genesis, env.Hash(b), Start(env, genesis, b), ops).v.byHash;
            && Linked(blocks)
            && (oldHead in blocks && newHead in blocks ==>
                  var onNew := HashesOf(env, TxsOn(blocks, newHead));
                  var off := OffPath(env, TxsOn(blocks, oldHead), onNew);
                  Droppable(env, cfg, p, off) && tx in off ==>
                    (env.txHash(tx) in PoolAfter(env, cfg, p, blocks, Some(oldHead), newHead).pending <==>
                       env.txHash(tx) in p.pending || Bridged(p, off, tx)))
  {
    hide Inv, HistoryOk, TxsOn, PoolAfter, Bridged, Droppable, RootHash, Synced, Inserted, RunChain, Tracks, HashesOf;
    StartOk(env, genesis, b);
    var root, start := env.Hash(b), Start(env, genesis, b);
    StartRetains(env, genesis, b);
    RunRetains(env, genesis, root, start, ops);
    RunGenesis(env, genesis, root, start, ops);
    var s := RunChain(env, genesis, root, start, ops);
    InvLinked(env, s.v);
    if oldHead in s.v.byHash && newHead in s.v.byHash {
      var onNew := HashesOf(env, TxsOn(s.v.byHash, newHead));
      var off := OffPath(env, TxsOn(s.v.byHash, oldHead), onNew);
      if Droppable(env, cfg, p, off) && tx in off {
        ReorgReturns(env, cfg, p, genesis, root, s.bodies, s.v.byHash, oldHead, newHead, tx);
      }
    }
  }
}