/**
 The mempool of crates/ivory-txpool/src/pool.rs: admission, removal and clearing, with the
 per-sender counters and nonce trackers it keeps beside the pending transactions.
 */
module Pool {
  import opened Primitives
  import opened Ledger

  datatype PoolConfig = PoolConfig(maxPending: nat, maxPerSender: nat, minGas: U64)

  datatype TxOrigin = Local | Remote

  datatype PendingTx = PendingTx(hash: H256, tx: Transaction, origin: TxOrigin, addedAt: U64)

  datatype TxPoolError =
    | GasLimitTooLow(min: U64, gotGas: U64)
    | InvalidSignature
    | AlreadyKnown
    | PoolFull
    | SenderLimitReached
    | NonceTooLow(expected: U64, got: U64)
    | NonceGap(expected: U64, got: U64)

  datatype Mempool = Mempool(
    pending: map<H256, PendingTx>,
    nextNonce: map<Address, U64>,
    perSender: map<Address, nat>)

  const EMPTY_POOL := Mempool(map[], map[], map[])

  // ----- Specification

  function ExpectedNonce(p: Mempool, a: Address): U64 {
    GetOr(p.nextNonce, a, 0)
  }

  /** Why a transaction is refused, if it is. */
  function AddError(env: Env, cfg: PoolConfig, p: Mempool, tx: Transaction): (r: Option<TxPoolError>) {
    if tx.gas < cfg.minGas then Some(GasLimitTooLow(cfg.minGas, tx.gas))
    else if !env.signatureOk(tx) then Some(InvalidSignature)
    else if env.txHash(tx) in p.pending then Some(AlreadyKnown)
    else if |p.pending| >= cfg.maxPending then Some(PoolFull)
    else if GetOr(p.perSender, tx.from, 0) >= cfg.maxPerSender then Some(SenderLimitReached)
    else if tx.nonce < ExpectedNonce(p, tx.from) then Some(NonceTooLow(ExpectedNonce(p, tx.from), tx.nonce))
    else if tx.nonce > ExpectedNonce(p, tx.from) then Some(NonceGap(ExpectedNonce(p, tx.from), tx.nonce))
    else None
  }

  function Added(env: Env, cfg: PoolConfig, p: Mempool, tx: Transaction, origin: TxOrigin, at: U64): Mempool {
    if AddError(env, cfg, p, tx).Some? then p
    else
      Mempool(p.pending[env.txHash(tx) := PendingTx(env.txHash(tx), tx, origin, at)],
              p.nextNonce[tx.from := SaturatingAdd64(ExpectedNonce(p, tx.from), 1)],
              p.perSender[tx.from := GetOr(p.perSender, tx.from, 0) + 1])
  }

  function Removed(p: Mempool, h: H256): Mempool {
    if h !in p.pending then p
    else
      var a := p.pending[h].tx.from;
      p.(pending := p.pending - {h},
         perSender := if a !in p.perSender then p.perSender
                      else if p.perSender[a] <= 1 then p.perSender - {a}
                      else p.perSender[a := p.perSender[a] - 1])
  }

  datatype Op =
    | Add(tx: Transaction, origin: TxOrigin, at: U64)
    | Remove(hash: H256)
    | ClearPending
    | Clear

  function Applied(env: Env, cfg: PoolConfig, p: Mempool, op: Op): Mempool {
    match op
    case Add(tx, origin, at) => Added(env, cfg, p, tx, origin, at)
    case Remove(h) => Removed(p, h)
    case ClearPending => Mempool(map[], p.nextNonce, map[])
    case Clear => EMPTY_POOL
  }

  function RunOps(env: Env, cfg: PoolConfig, p: Mempool, ops: seq<Op>): Mempool {
    if ops == [] then p else Applied(env, cfg, RunOps(env, cfg, p, ops[..|ops| - 1]), ops[|ops| - 1])
  }

  // ----- Invariant over all runs

  ghost function FromSender(pending: map<H256, PendingTx>, a: Address): set<H256> {
    set h | h in pending && pending[h].tx.from == a
  }

  /** The counters count, and both caps hold. */
  ghost predicate CountsOk(cfg: PoolConfig, p: Mempool) {
    && (forall a :: GetOr(p.perSender, a, 0) == |FromSender(p.pending, a)| <= cfg.maxPerSender)
    && (forall a :: a in p.perSender ==> p.perSender[a] > 0)
    && |p.pending| <= cfg.maxPending
  }

  /**
   A sender's pending nonces are distinct and below the next one. The tracker saturates at
   the largest nonce, which alone may repeat.
   */
  ghost predicate NoncesOk(p: Mempool) {
    && (forall h :: h in p.pending ==>
          p.pending[h].tx.nonce < ExpectedNonce(p, p.pending[h].tx.from) || p.pending[h].tx.nonce == U64_MAX)
    && (forall h, k :: h in p.pending && k in p.pending && h != k && p.pending[h].tx.from == p.pending[k].tx.from ==>
          p.pending[h].tx.nonce != p.pending[k].tx.nonce || p.pending[h].tx.nonce == U64_MAX)
  }

  ghost predicate KeysOk(env: Env, p: Mempool) {
    forall h :: h in p.pending ==> p.pending[h].hash == h && env.txHash(p.pending[h].tx) == h
  }

  /** Every pending transaction carries an accepted signature and at least the minimum gas. */
  ghost predicate VettedOk(env: Env, cfg: PoolConfig, p: Mempool) {
    forall h :: h in p.pending ==> env.signatureOk(p.pending[h].tx) && p.pending[h].tx.gas >= cfg.minGas
  }

  ghost predicate PoolInv(env: Env, cfg: PoolConfig, p: Mempool) {
    KeysOk(env, p) && VettedOk(env, cfg, p) && CountsOk(cfg, p) && NoncesOk(p)
  }

  /** What a transaction must satisfy to be admitted, in terms of its fields and the pool's. */
  ghost predicate Admissible(env: Env, cfg: PoolConfig, p: Mempool, tx: Transaction) {
    && tx.gas >= cfg.minGas && env.signatureOk(tx)
    && env.txHash(tx) !in p.pending
    && |p.pending| < cfg.maxPending && GetOr(p.perSender, tx.from, 0) < cfg.maxPerSender
    && tx.nonce == GetOr(p.nextNonce, tx.from, 0)
  }

  lemma AdmissionIff(env: Env, cfg: PoolConfig, p: Mempool, tx: Transaction)
    ensures AddError(env, cfg, p, tx).None? <==> Admissible(env, cfg, p, tx)
  {
  }

  /** A refusal names the first condition that fails. */
  lemma RefusalReason(env: Env, cfg: PoolConfig, p: Mempool, tx: Transaction)
    requires !Admissible(env, cfg, p, tx)
    ensures var expected: U64 := GetOr(p.nextNonce, tx.from, 0);
            AddError(env, cfg, p, tx) == Some(
              if tx.gas < cfg.minGas then GasLimitTooLow(cfg.minGas, tx.gas)
              else if !env.signatureOk(tx) then InvalidSignature
              else if env.txHash(tx) in p.pending then AlreadyKnown
              else if |p.pending| >= cfg.maxPending then PoolFull
              else if GetOr(p.perSender, tx.from, 0) >= cfg.maxPerSender then SenderLimitReached
              else if tx.nonce < expected then NonceTooLow(expected, tx.nonce)
              else NonceGap(expected, tx.nonce))
  {
  }

  lemma AddedInv(env: Env, cfg: PoolConfig, p: Mempool, tx: Transaction, origin: TxOrigin, at: U64)
    requires PoolInv(env, cfg, p)
    ensures PoolInv(env, cfg, Added(env, cfg, p, tx, origin, at))
  {
    hide CountsOk, NoncesOk;
    if AddError(env, cfg, p, tx).None? {
      AddedCounts(env, cfg, p, tx, origin, at);
      AddedNonces(env, cfg, p, tx, origin, at);
    }
  }

  lemma AddedCounts(env: Env, cfg: PoolConfig, p: Mempool, tx: Transaction, origin: TxOrigin, at: U64)
    requires CountsOk(cfg, p) && AddError(env, cfg, p, tx).None?
    ensures CountsOk(cfg, Added(env, cfg, p, tx, origin, at))
  {
    hide FromSender;
    var h, p' := env.txHash(tx), Added(env, cfg, p, tx, origin, at);
    FromSenderAdd(p.pending, h, PendingTx(h, tx, origin, at));
    assert p'.pending == p.pending[h := PendingTx(h, tx, origin, at)];
    forall a
      ensures GetOr(p'.perSender, a, 0) == |FromSender(p'.pending, a)| <= cfg.maxPerSender
    {
      assert GetOr(p.perSender, a, 0) == |FromSender(p.pending, a)|;
    }
    assert |p'.pending.Keys| == |p.pending.Keys + {h}|;
  }

  lemma AddedNonces(env: Env, cfg: PoolConfig, p: Mempool, tx: Transaction, origin: TxOrigin, at: U64)
    requires NoncesOk(p) && AddError(env, cfg, p, tx).None?
    ensures NoncesOk(Added(env, cfg, p, tx, origin, at))
  {
    hide Added, AddError;
    var p' := Added(env, cfg, p, tx, origin, at);
    AddedShape(env, cfg, p, tx, origin, at);
    assert forall a :: ExpectedNonce(p, a) <= ExpectedNonce(p', a);
  }

  lemma AddedShape(env: Env, cfg: PoolConfig, p: Mempool, tx: Transaction, origin: TxOrigin, at: U64)
    requires AddError(env, cfg, p, tx).None?
    ensures var h, p' := env.txHash(tx), Added(env, cfg, p, tx, origin, at);
            && h !in p.pending && p'.pending == p.pending[h := PendingTx(h, tx, origin, at)]
            && tx.nonce == ExpectedNonce(p, tx.from)
            && p'.nextNonce == p.nextNonce[tx.from := SaturatingAdd64(ExpectedNonce(p, tx.from), 1)]
  {
  }

  lemma FromSenderAdd(pending: map<H256, PendingTx>, h: H256, entry: PendingTx)
    requires h !in pending
    ensures forall a :: |FromSender(pending[h := entry], a)| ==
                        |FromSender(pending, a)| + if a == entry.tx.from then 1 else 0
  {
    forall a
      ensures |FromSender(pending[h := entry], a)| == |FromSender(pending, a)| + if a == entry.tx.from then 1 else 0
    {
      assert FromSender(pending[h := entry], a) == FromSender(pending, a) + if a == entry.tx.from then {h} else {};
    }
  }

  lemma RemovedInv(env: Env, cfg: PoolConfig, p: Mempool, h: H256)
    requires PoolInv(env, cfg, p)
    ensures PoolInv(env, cfg, Removed(p, h))
  {
    hide CountsOk;
    if h in p.pending {
      RemovedCounts(cfg, p, h);
    }
  }

  lemma RemovedCounts(cfg: PoolConfig, p: Mempool, h: H256)
    requires CountsOk(cfg, p) && h in p.pending
    ensures CountsOk(cfg, Removed(p, h))
  {
    hide FromSender;
    var rest, entry := p.pending - {h}, p.pending[h];
    assert rest[h := entry] == p.pending;
    FromSenderAdd(rest, h, entry);
    assert |p.pending.Keys| == |rest.Keys + {h}|;
  }

  lemma ClearedInv(env: Env, cfg: PoolConfig, nextNonce: map<Address, U64>)
    ensures PoolInv(env, cfg, Mempool(map[], nextNonce, map[]))
  {
    assert forall a :: FromSender(map[], a) == {};
  }

  /** Accounting holds after every run of operations on a new pool. */
  lemma {:induction false} RunInv(env: Env, cfg: PoolConfig, ops: seq<Op>)
    ensures PoolInv(env, cfg, RunOps(env, cfg, EMPTY_POOL, ops))
  {
    hide PoolInv;
    if ops == [] {
      ClearedInv(env, cfg, map[]);
    } else {
      var n := |ops| - 1;
      RunInv(env, cfg, ops[..n]);
      var p := RunOps(env, cfg, EMPTY_POOL, ops[..n]);
      match ops[n]
      case Add(tx, origin, at) => AddedInv(env, cfg, p, tx, origin, at);
      case Remove(h) => RemovedInv(env, cfg, p, h);
      case ClearPending => ClearedInv(env, cfg, p.nextNonce);
      case Clear => ClearedInv(env, cfg, map[]);
    }
  }

  // ----- Readmission

  lemma {:induction false} NonceTrackerGrows(env: Env, cfg: PoolConfig, p: Mempool, ops: seq<Op>, a: Address)
    requires Clear !in ops
    ensures ExpectedNonce(p, a) <= ExpectedNonce(RunOps(env, cfg, p, ops), a)
  {
    if ops != [] {
      NonceTrackerGrows(env, cfg, p, ops[..|ops| - 1], a);
      assert ops[|ops| - 1] in ops;
    }
  }

  /**
   A transaction once admitted is never admitted again, whatever happens in between short of
   a full clear: in particular one whose block drops off the chain does not come back.
   */
  lemma NeverReadmitted(env: Env, cfg: PoolConfig, p: Mempool, tx: Transaction, origin: TxOrigin, at: U64, ops: seq<Op>)
    requires AddError(env, cfg, p, tx).None? && tx.nonce < U64_MAX && Clear !in ops
    ensures AddError(env, cfg, RunOps(env, cfg, Added(env, cfg, p, tx, origin, at), ops), tx).Some?
  {
    NonceTrackerGrows(env, cfg, Added(env, cfg, p, tx, origin, at), ops, tx.from);
  }

  /** Removal after inclusion followed by a reorganisation: the transaction is refused for its nonce. */
  lemma DroppedTransactionRefused(env: Env, cfg: PoolConfig, p: Mempool, tx: Transaction, origin: TxOrigin, at: U64)
    requires PoolInv(env, cfg, p) && AddError(env, cfg, p, tx).None? && tx.nonce < U64_MAX
    ensures var q := Removed(Added(env, cfg, p, tx, origin, at), env.txHash(tx));
            AddError(env, cfg, q, tx) == Some(NonceTooLow(tx.nonce + 1, tx.nonce))
  {
    hide PoolInv;
    var h, added := env.txHash(tx), Added(env, cfg, p, tx, origin, at);
    var q := Removed(added, h);
    assert q.pending == p.pending;
    assert GetOr(q.perSender, tx.from, 0) == GetOr(p.perSender, tx.from, 0);
    assert ExpectedNonce(q, tx.from) == tx.nonce + 1;
  }

  // ----- The pool object

  class TransactionPool {
    const env: Env
    const config: PoolConfig
    var pending: map<H256, PendingTx>
    var nextNonce: map<Address, U64>
    var perSender: map<Address, nat>

    ghost function P(): Mempool
      reads this
    {
      Mempool(pending, nextNonce, perSender)
    }

    ghost predicate Valid()
      reads this
    {
      PoolInv(env, config, P())
    }

    constructor (env: Env, config: PoolConfig)
      ensures this.env == env && this.config == config && P() == EMPTY_POOL && Valid()
    {
      this.env, this.config := env, config;
      pending, nextNonce, perSender := map[], map[], map[];
      ClearedInv(env, config, map[]);
    }

    /** Admits a transaction exactly when every check passes; a refusal changes nothing. */
    method AddTransaction(tx: Transaction, origin: TxOrigin, at: U64) returns (r: Result<H256, TxPoolError>)
      requires Valid()
      modifies this
      ensures Valid()
      ensures AddError(env, config, old(P()), tx) == if r.Err? then Some(r.error) else None
      ensures P() == Added(env, config, old(P()), tx, origin, at)
      ensures r.Ok? <==> Admissible(env, config, old(P()), tx)
      ensures r.Ok? ==>
                && r.value == env.txHash(tx)
                && pending == old(pending)[r.value := PendingTx(r.value, tx, origin, at)]
                && (tx.nonce < U64_MAX ==> nextNonce == old(nextNonce)[tx.from := tx.nonce + 1])
      ensures r.Err? ==> P() == old(P())
    {
      hide PoolInv;
      AddedInv(env, config, P(), tx, origin, at);
      if tx.gas < config.minGas {
        return Err(GasLimitTooLow(config.minGas, tx.gas));
      }
      if !env.signatureOk(tx) {
        return Err(InvalidSignature);
      }
      var hash := env.txHash(tx);
      if hash in pending {
        return Err(AlreadyKnown);
      }
      if |pending| >= config.maxPending {
        return Err(PoolFull);
      }
      var sender := tx.from;
      var senderCount := GetOr(perSender, sender, 0);
      if senderCount >= config.maxPerSender {
        return Err(SenderLimitReached);
      }
      var expected := GetOr(nextNonce, sender, 0);
      if tx.nonce < expected {
        return Err(NonceTooLow(expected, tx.nonce));
      }
      if tx.nonce > expected {
        return Err(NonceGap(expected, tx.nonce));
      }
      pending := pending[hash := PendingTx(hash, tx, origin, at)];
      nextNonce := nextNonce[sender := SaturatingAdd64(expected, 1)];
      perSender := perSender[sender := senderCount + 1];
      return Ok(hash);
    }

    /** Removes a pending transaction; the nonce tracker is left as it is. */
    method RemovePending(hash: H256) returns (r: Option<PendingTx>)
      requires Valid()
      modifies this
      ensures Valid()
      ensures P() == Removed(old(P()), hash)
      ensures r == Get(old(pending), hash)
      ensures pending == old(pending) - {hash} && nextNonce == old(nextNonce)
    {
      hide PoolInv;
      RemovedInv(env, config, P(), hash);
      if hash !in pending {
        return None;
      }
      var entry := pending[hash];
      pending := pending - {hash};
      var sender := entry.tx.from;
      if sender in perSender {
        var count := SaturatingSub(perSender[sender], 1);
        if count == 0 {
          perSender := perSender - {sender};
        } else {
          perSender := perSender[sender := count];
        }
      }
      return Some(entry);
    }

    method ClearAll(resetNonces: bool)
      modifies this
      ensures Valid()
      ensures P() == Applied(env, config, old(P()), if resetNonces then Clear else ClearPending)
      ensures pending == map[] && perSender == map[] && nextNonce == if resetNonces then map[] else old(nextNonce)
    {
      hide PoolInv;
      ClearedInv(env, config, if resetNonces then map[] else nextNonce);
      pending := map[];
      if resetNonces {
        nextNonce := map[];
      }
      perSender := map[];
    }

    /** At most `max` pending transactions, each once, in no particular order. */
    method GetPending(max: nat) returns (txs: seq<Transaction>)
      requires Valid()
      ensures |txs| <= max && |txs| <= |pending|
      ensures forall tx :: tx in txs ==> env.txHash(tx) in pending && pending[env.txHash(tx)].tx == tx
      ensures forall i, j :: 0 <= i < j < |txs| ==> txs[i] != txs[j]
      ensures |txs| == max || |txs| == |pending|
    {
      txs := [];
      var left := pending.Keys;
      while left != {} && |txs| < max
        invariant left <= pending.Keys && |txs| + |left| == |pending.Keys| && |txs| <= max
        invariant forall tx :: tx in txs ==> env.txHash(tx) in pending.Keys - left && pending[env.txHash(tx)].tx == tx
        invariant forall i, j :: 0 <= i < j < |txs| ==> txs[i] != txs[j]
      {
        var h :| h in left;
        txs := txs + [pending[h].tx];
        left := left - {h};
      }
    }
  }
}
