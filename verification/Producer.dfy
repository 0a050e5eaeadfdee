/**
 Block production: crates/ivory-chain/src/producer.rs.

 The producer skips transactions that fail. Re-executing only the included ones reaches the
 sealed state exactly when no skipped transaction was a contract trap, because a trap is the
 one failure that leaves its writes behind.
 */
module Producer {
  import opened Primitives
  import opened Ledger
  import opened State
  import opened Execution
  import opened Store
  import opened Pool
  import opened Import

  // ----- Order of execution

  predicate Before(a: Transaction, b: Transaction) {
    a.from < b.from || (a.from == b.from && a.nonce <= b.nonce)
  }

  predicate InOrder(txs: seq<Transaction>) {
    forall i, j :: 0 <= i < j < |txs| ==> Before(txs[i], txs[j])
  }

  /** `tx` placed after every entry that may precede it. */
  function Placed(tx: Transaction, txs: seq<Transaction>): (r: seq<Transaction>)
    requires InOrder(txs)
    ensures InOrder(r) && multiset(r) == multiset(txs) + multiset{tx}
  {
    if txs == [] then [tx]
    else
      var n := |txs| - 1;
      assert txs == txs[..n] + [txs[n]];
      if Before(txs[n], tx) then txs + [tx]
      else
        var r := Placed(tx, txs[..n]);
        PlacedBelow(r, txs[..n], tx, txs[n]);
        r + [txs[n]]
  }

  lemma PlacedBelow(r: seq<Transaction>, s: seq<Transaction>, tx: Transaction, last: Transaction)
    requires multiset(r) == multiset(s) + multiset{tx}
    requires (forall i :: 0 <= i < |s| ==> Before(s[i], last)) && Before(tx, last)
    ensures forall i :: 0 <= i < |r| ==> Before(r[i], last)
  {
    forall i | 0 <= i < |r|
      ensures Before(r[i], last)
    {
      assert r[i] in multiset(r);
      assert r[i] in multiset(s) || r[i] == tx;
    }
  }

  /** Pending transactions by sender, then nonce. */
  function Sorted(txs: seq<Transaction>): (r: seq<Transaction>)
    ensures InOrder(r) && multiset(r) == multiset(txs)
  {
    if txs == [] then []
    else
      var n := |txs| - 1;
      assert txs == txs[..n] + [txs[n]];
      Placed(txs[n], Sorted(txs[..n]))
  }

  // ----- The candidates

  ghost predicate Distinct(txs: seq<Transaction>) {
    forall i, j :: 0 <= i < j < |txs| ==> txs[i] != txs[j]
  }

  /**
   The candidates of a block: as many pending transactions as fit, each once, by sender and then
   by nonce. If they all fit, none is left behind.
   */
  ghost predicate Candidates(env: Env, pending: map<H256, PendingTx>, max: nat, txs: seq<Transaction>) {
    && |txs| == (if |pending| < max then |pending| else max)
    && Distinct(txs)
    && (forall tx :: tx in txs ==> env.txHash(tx) in pending && pending[env.txHash(tx)].tx == tx)
    && (forall i, j :: 0 <= i < j < |txs| ==>
          txs[i].from < txs[j].from || (txs[i].from == txs[j].from && txs[i].nonce <= txs[j].nonce))
    && (|pending| <= max ==> forall h :: h in pending ==> pending[h].tx in txs)
  }

  lemma {:induction false} DistinctCounts(txs: seq<Transaction>)
    ensures Distinct(txs) <==> forall x :: multiset(txs)[x] <= 1
    decreases |txs|
  {
    if txs != [] {
      var n := |txs| - 1;
      var front, last := txs[..n], txs[n];
      assert txs == front + [last];
      DistinctCounts(front);
      assert forall x :: multiset(txs)[x] == multiset(front)[x] + if x == last then 1 else 0;
      if Distinct(txs) {
        assert last !in multiset(front);
      } else if forall x :: multiset(txs)[x] <= 1 {
        assert forall x :: multiset(front)[x] <= multiset(txs)[x];
        assert multiset(txs)[last] == multiset(front)[last] + 1;
        assert last !in multiset(front);
        DistinctLast(front, last);
      }
    }
  }

  lemma DistinctLast(front: seq<Transaction>, last: Transaction)
    requires Distinct(front) && last !in front
    ensures Distinct(front + [last])
  {
  }

  /** Distinct pending transactions, as many as there are, are all of them. */
  lemma NoneLeft(env: Env, pending: map<H256, PendingTx>, txs: seq<Transaction>)
    requires forall h :: h in pending ==> env.txHash(pending[h].tx) == h
    requires Distinct(txs) && |txs| == |pending|
    requires forall tx :: tx in txs ==> env.txHash(tx) in pending && pending[env.txHash(tx)].tx == tx
    ensures forall h :: h in pending ==> pending[h].tx in txs
  {
    HashCount(env, pending, txs);
    var hashes := set tx | tx in txs :: env.txHash(tx);
    FullSubset(hashes, pending.Keys);
    forall h | h in pending
      ensures pending[h].tx in txs
    {
      assert h in hashes;
      var tx :| tx in txs && env.txHash(tx) == h;
    }
  }

  lemma FullSubset(a: set<H256>, b: set<H256>)
    requires a <= b && |a| == |b|
    ensures a == b
  {
    assert |b - a| == |b| - |a|;
  }

  lemma {:induction false} HashCount(env: Env, pending: map<H256, PendingTx>, txs: seq<Transaction>)
    requires Distinct(txs)
    requires forall tx :: tx in txs ==> env.txHash(tx) in pending && pending[env.txHash(tx)].tx == tx
    ensures |set tx | tx in txs :: env.txHash(tx)| == |txs|
    decreases |txs|
  {
    if txs != [] {
      var n := |txs| - 1;
      var front, last := txs[..n], txs[n];
      assert txs == front + [last];
      assert last !in front;
      HashCount(env, pending, front);
      var before := set tx | tx in front :: env.txHash(tx);
      assert (set tx | tx in txs :: env.txHash(tx)) == before + {env.txHash(last)};
    }
  }

  // ----- Execution with skipping

  datatype Batch = Batch(world: World, gas: U64, included: seq<Transaction>, receipts: seq<Receipt>)

  /** Executes each transaction in turn; a failed one is left out, its effects are not undone. */
  ghost function Produce(env: Env, cfg: GasConfig, number: U64, w: World, txs: seq<Transaction>): (r: Batch)
    ensures |r.included| == |r.receipts|
    decreases |txs|
  {
    if txs == [] then Batch(w, 0, [], [])
    else
      var n := |txs| - 1;
      var b := Produce(env, cfg, number, w, txs[..n]);
      var s := Execute(env, cfg, b.world, b.gas, number, txs[n]);
      match s.result
      case Ok(o) => Batch(s.world, s.blockGas, b.included + [txs[n]], b.receipts + [o.receipt])
      case Err(_) => Batch(s.world, s.blockGas, b.included, b.receipts)
  }

  /** The candidates that, at their turn, pass every check and whose recipient's code then traps. */
  ghost function Trapped(env: Env, number: U64, w: World, txs: seq<Transaction>): seq<Transaction>
    decreases |txs|
  {
    if txs == [] then []
    else
      var n := |txs| - 1;
      var b := Produce(env, DEFAULT_GAS, number, w, txs[..n]);
      Trapped(env, number, w, txs[..n]) +
      if Traps(env, DEFAULT_GAS, b.world, b.gas, txs[n]) then [txs[n]] else []
  }

  /** One step per candidate, each on the state and gas the one before it left, failed or not. */
  ghost predicate Trace(env: Env, cfg: GasConfig, number: U64, w: World, txs: seq<Transaction>, steps: seq<Step>) {
    && |steps| == |txs|
    && (forall i :: 0 <= i < |txs| ==> StepAt(env, cfg, number, w, txs, steps, i))
  }

  ghost predicate StepAt(env: Env, cfg: GasConfig, number: U64, w: World, txs: seq<Transaction>, steps: seq<Step>,
                         i: nat)
    requires i < |txs| == |steps|
  {
    if i == 0 then steps[i] == Execute(env, cfg, w, 0, number, txs[i])
    else steps[i] == Execute(env, cfg, steps[i - 1].world, steps[i - 1].blockGas, number, txs[i])
  }

  /** The candidates at `picked`, in order, are those whose step succeeded. */
  ghost predicate Picked(steps: seq<Step>, picked: seq<nat>) {
    && (forall m, n :: 0 <= m < n < |picked| ==> picked[m] < picked[n])
    && (forall i: nat :: i in picked <==> i < |steps| && steps[i].result.Ok?)
  }

  ghost predicate Yields(txs: seq<Transaction>, steps: seq<Step>, picked: seq<nat>, w: World, b: Batch)
    requires |steps| == |txs| && Picked(steps, picked)
  {
    && b.world == (if |steps| == 0 then w else steps[|steps| - 1].world)
    && b.gas == (if |steps| == 0 then 0 else steps[|steps| - 1].blockGas)
    && |b.included| == |b.receipts| == |picked|
    && (forall m :: 0 <= m < |picked| ==> PickedAt(txs, steps, picked, b, m))
  }

  ghost predicate PickedAt(txs: seq<Transaction>, steps: seq<Step>, picked: seq<nat>, b: Batch, m: nat)
    requires |steps| == |txs| && Picked(steps, picked) && m < |picked| == |b.included| == |b.receipts|
  {
    assert picked[m] in picked;
    b.included[m] == txs[picked[m]] && b.receipts[m] == steps[picked[m]].result.value.receipt
  }

  /**
   What goes into a block: running the candidates one after the other, each that succeeds is
   included with its receipt, in order, and no other; the state and gas are those after the last.
   */
  lemma {:induction false} ProduceTrace(env: Env, cfg: GasConfig, number: U64, w: World, txs: seq<Transaction>)
    returns (steps: seq<Step>, picked: seq<nat>)
    ensures Trace(env, cfg, number, w, txs, steps) && Picked(steps, picked)
    ensures Yields(txs, steps, picked, w, Produce(env, cfg, number, w, txs))
    decreases |txs|
  {
    hide Execute;
    if txs == [] {
      steps, picked := [], [];
    } else {
      var n := |txs| - 1;
      var before, chosen := ProduceTrace(env, cfg, number, w, txs[..n]);
      var b := Produce(env, cfg, number, w, txs[..n]);
      var s := Execute(env, cfg, b.world, b.gas, number, txs[n]);
      steps := before + [s];
      picked := if s.result.Ok? then chosen + [n] else chosen;
      TraceMore(env, cfg, number, w, txs, before, s);
      PickedMore(before, chosen, s);
      YieldsMore(txs, before, chosen, w, b, s, Produce(env, cfg, number, w, txs));
    }
  }

  lemma TraceMore(env: Env, cfg: GasConfig, number: U64, w: World, txs: seq<Transaction>, before: seq<Step>, s: Step)
    requires txs != [] && Trace(env, cfg, number, w, txs[..|txs| - 1], before)
    requires s == if |before| == 0 then Execute(env, cfg, w, 0, number, txs[0])
                  else Execute(env, cfg, before[|before| - 1].world, before[|before| - 1].blockGas, number,
                               txs[|txs| - 1])
    ensures Trace(env, cfg, number, w, txs, before + [s])
  {
    hide Execute;
    var front, steps := txs[..|txs| - 1], before + [s];
    forall i | 0 <= i < |txs|
      ensures StepAt(env, cfg, number, w, txs, steps, i)
    {
      if i < |front| {
        assert StepAt(env, cfg, number, w, front, before, i);
      }
    }
  }

  lemma PickedMore(before: seq<Step>, chosen: seq<nat>, s: Step)
    requires Picked(before, chosen)
    ensures Picked(before + [s], if s.result.Ok? then chosen + [|before|] else chosen)
  {
    var steps, picked := before + [s], if s.result.Ok? then chosen + [|before|] else chosen;
    assert forall i: nat :: i in picked <==> i in chosen || (s.result.Ok? && i == |before|);
    forall m | 0 <= m < |chosen|
      ensures chosen[m] < |before|
    {
      assert chosen[m] in chosen;
    }
  }

  lemma YieldsMore(txs: seq<Transaction>, before: seq<Step>, chosen: seq<nat>, w: World, b: Batch, s: Step, b': Batch)
    requires txs != [] && |before| == |txs| - 1 && Picked(before, chosen)
    requires Yields(txs[..|txs| - 1], before, chosen, w, b)
    requires b'.world == s.world && b'.gas == s.blockGas
    requires s.result.Ok? ==>
               b'.included == b.included + [txs[|txs| - 1]] && b'.receipts == b.receipts + [s.result.value.receipt]
    requires s.result.Err? ==> b'.included == b.included && b'.receipts == b.receipts
    ensures var picked := if s.result.Ok? then chosen + [|before|] else chosen;
            Picked(before + [s], picked) && Yields(txs, before + [s], picked, w, b')
  {
    PickedMore(before, chosen, s);
    var steps, picked := before + [s], if s.result.Ok? then chosen + [|before|] else chosen;
    hide Picked, Yields;
    YieldsParts(txs[..|txs| - 1], before, chosen, w, b);
    forall m | 0 <= m < |picked|
      ensures PickedAt(txs, steps, picked, b', m)
    {
      PickedRange(steps, picked, m);
      if m < |chosen| {
        PickedRange(before, chosen, m);
        assert PickedAt(txs[..|txs| - 1], before, chosen, b, m);
      }
    }
    YieldsWhole(txs, steps, picked, w, b');
  }

  lemma YieldsParts(txs: seq<Transaction>, steps: seq<Step>, picked: seq<nat>, w: World, b: Batch)
    requires |steps| == |txs| && Picked(steps, picked) && Yields(txs, steps, picked, w, b)
    ensures |b.included| == |b.receipts| == |picked|
    ensures forall m :: 0 <= m < |picked| ==> PickedAt(txs, steps, picked, b, m)
  {
    hide PickedAt, Picked;
  }

  lemma YieldsWhole(txs: seq<Transaction>, steps: seq<Step>, picked: seq<nat>, w: World, b: Batch)
    requires 0 < |steps| == |txs| && Picked(steps, picked) && |b.included| == |b.receipts| == |picked|
    requires b.world == steps[|steps| - 1].world && b.gas == steps[|steps| - 1].blockGas
    requires forall m :: 0 <= m < |picked| ==> PickedAt(txs, steps, picked, b, m)
    ensures Yields(txs, steps, picked, w, b)
  {
    hide PickedAt, Picked;
  }

  lemma PickedRange(steps: seq<Step>, picked: seq<nat>, m: nat)
    requires Picked(steps, picked) && m < |picked|
    ensures picked[m] < |steps| && steps[picked[m]].result.Ok?
  {
    assert picked[m] in picked;
  }

  /** Of distinct candidates exactly those are in the block that succeed at their turn. */
  lemma IncludedIff(env: Env, cfg: GasConfig, number: U64, w: World, txs: seq<Transaction>, i: nat)
    returns (steps: seq<Step>)
    requires Distinct(txs) && i < |txs|
    ensures Trace(env, cfg, number, w, txs, steps)
    ensures txs[i] in Produce(env, cfg, number, w, txs).included <==> steps[i].result.Ok?
  {
    hide Execute, Produce;
    var picked;
    steps, picked := ProduceTrace(env, cfg, number, w, txs);
    var b := Produce(env, cfg, number, w, txs);
    if steps[i].result.Ok? {
      assert i in picked;
      var m :| 0 <= m < |picked| && picked[m] == i;
      assert PickedAt(txs, steps, picked, b, m);
    } else if txs[i] in b.included {
      var m :| 0 <= m < |b.included| && b.included[m] == txs[i];
      assert PickedAt(txs, steps, picked, b, m);
      PickedRange(steps, picked, m);
    }
  }

  lemma {:induction false} ExecuteAllAppend(env: Env, w: World, gas: U64, number: U64, txs: seq<Transaction>,
                                            tx: Transaction)
    requires ExecuteAll(env, w, gas, number, txs).2.None?
    ensures var (w', gas', _) := ExecuteAll(env, w, gas, number, txs);
            var s := Execute(env, DEFAULT_GAS, w', gas', number, tx);
            ExecuteAll(env, w, gas, number, txs + [tx]) ==
            (s.world, s.blockGas, if s.result.Err? then Some(s.result.error) else None)
    decreases |txs|
  {
    hide Execute;
    if txs == [] {
      assert [tx][1..] == [];
      assert txs + [tx] == [tx];
    } else {
      assert (txs + [tx])[1..] == txs[1..] + [tx];
      var s := Execute(env, DEFAULT_GAS, w, gas, number, txs[0]);
      ExecuteAllAppend(env, s.world, s.blockGas, number, txs[1..], tx);
    }
  }

  /** Without traps the included transactions alone lead to the same state and gas. */
  lemma {:induction false} CleanBatch(env: Env, number: U64, w: World, txs: seq<Transaction>)
    requires Total(w.accounts) < TWO_256 && Trapped(env, number, w, txs) == []
    ensures var b := Produce(env, DEFAULT_GAS, number, w, txs);
            && ExecuteAll(env, w, 0, number, b.included) == (b.world, b.gas, None)
            && Total(b.world.accounts) < TWO_256
    decreases |txs|
  {
    hide Execute, Total, Traps;
    if txs != [] {
      var n := |txs| - 1;
      CleanBatch(env, number, w, txs[..n]);
      var b := Produce(env, DEFAULT_GAS, number, w, txs[..n]);
      var s := Execute(env, DEFAULT_GAS, b.world, b.gas, number, txs[n]);
      FailureAtomicity(env, DEFAULT_GAS, b.world, b.gas, number, txs[n]);
      if s.result.Ok? {
        ExecuteAllAppend(env, w, 0, number, b.included, txs[n]);
        ExecuteConserves(env, DEFAULT_GAS, b.world, b.gas, number, txs[n]);
      }
    }
  }

  /** Every included or trapped transaction moved its sender's nonce. */
  lemma {:induction false} BatchNonces(env: Env, number: U64, w: World, txs: seq<Transaction>)
    requires Total(w.accounts) < TWO_256
    ensures var b := Produce(env, DEFAULT_GAS, number, w, txs);
            && Total(b.world.accounts) < TWO_256
            && forall a :: AccountAt(b.world, a).nonce ==
                           AccountAt(w, a).nonce + CountFrom(b.included, a) + CountFrom(Trapped(env, number, w, txs), a)
    decreases |txs|
  {
    hide Execute, Total, Traps;
    if txs != [] {
      var n := |txs| - 1;
      BatchNonces(env, number, w, txs[..n]);
      var b := Produce(env, DEFAULT_GAS, number, w, txs[..n]);
      var s := Execute(env, DEFAULT_GAS, b.world, b.gas, number, txs[n]);
      StepNonces(env, number, b.world, b.gas, txs[n]);
      var trapped := Trapped(env, number, w, txs[..n]);
      CountFromOne(b.included, txs[n]);
      CountFromOne(trapped, txs[n]);
      assert trapped + [] == trapped;
    }
  }

  lemma CountFromOne(txs: seq<Transaction>, tx: Transaction)
    ensures forall a :: CountFrom(txs + [tx], a) == CountFrom(txs, a) + if tx.from == a then 1 else 0
  {
    forall a
      ensures CountFrom(txs + [tx], a) == CountFrom(txs, a) + if tx.from == a then 1 else 0
    {
      CountFromAppend(txs, [tx], a);
    }
  }

  lemma StepNonces(env: Env, number: U64, w: World, gas: U64, tx: Transaction)
    requires Total(w.accounts) < TWO_256
    ensures var s := Execute(env, DEFAULT_GAS, w, gas, number, tx);
            && Total(s.world.accounts) < TWO_256
            && (forall a :: AccountAt(s.world, a).nonce == AccountAt(w, a).nonce +
                            if a == tx.from && (s.result.Ok? || Traps(env, DEFAULT_GAS, w, gas, tx)) then 1 else 0)
            && (s.result.Ok? ==> !Traps(env, DEFAULT_GAS, w, gas, tx))
  {
    hide ExecuteDebited, WithAccount, Debit, IntrinsicGas, Total, Mul, CodeTraps;
    var s := Execute(env, DEFAULT_GAS, w, gas, number, tx);
    FailureAtomicity(env, DEFAULT_GAS, w, gas, number, tx);
    if s.result.Ok? {
      ExecuteNonceAndGas(env, DEFAULT_GAS, w, gas, number, tx);
      ExecuteConserves(env, DEFAULT_GAS, w, gas, number, tx);
    } else {
      if Traps(env, DEFAULT_GAS, w, gas, tx) {
        DebitEffect(env, DEFAULT_GAS, w, gas, tx);
        DebitSound(DEFAULT_GAS, w, gas, tx);
        var w1 := WithAccount(env.codec, w, tx.from, Debit(DEFAULT_GAS, w, gas, tx).value);
        DebitedEffect(env, DEFAULT_GAS, w1, gas, number, tx);
      }
    }
  }

  /**
   Producer and importer agree exactly when nothing trapped: re-executing the included
   transactions gives the producer's state and gas if and only if no skipped transaction
   was a contract trap.
   */
  lemma ProducerAgreement(env: Env, number: U64, w: World, txs: seq<Transaction>)
    requires Total(w.accounts) < TWO_256
    ensures var b := Produce(env, DEFAULT_GAS, number, w, txs);
            Trapped(env, number, w, txs) == [] <==> ExecuteAll(env, w, 0, number, b.included) == (b.world, b.gas, None)
  {
    hide Produce, Trapped, ExecuteAll, Total;
    var b, trapped := Produce(env, DEFAULT_GAS, number, w, txs), Trapped(env, number, w, txs);
    assert trapped != [] ==> CountFrom(trapped, trapped[0].from) > 0;
    BatchNonces(env, number, w, txs);
    if trapped == [] {
      CleanBatch(env, number, w, txs);
    } else if ExecuteAll(env, w, 0, number, b.included) == (b.world, b.gas, None) {
      ExecuteAllEffect(env, w, 0, number, b.included);
      assert false;
    }
  }

  // ----- The block

  /** A validator's sealing key: the address it belongs to and the seal it puts on a header. */
  datatype Sealer = Sealer(address: Address, seal: Header -> Bytes)

  function SealedHeader(env: Env, header: Header, miner: Address, key: Sealer): (r: Result<Header, ConsensusError>) {
    if !env.isValidator(miner) || key.address != miner then Err(NotValidator)
    else
      var unsealed := header.(miner := miner, extraData := []);
      Ok(unsealed.(extraData := key.seal(unsealed)))
  }

  ghost function DraftHeader(env: Env, gasLimit: U64, parent: Block, timestamp: U64, miner: Address, b: Batch): Header {
    Header(SaturatingAdd64(parent.header.number, 1), env.Hash(parent), timestamp, miner, gasLimit, b.gas,
           RootHash(env, b.world), env.transactionsRoot(b.included), env.receiptsRoot(b.receipts), 0, [])
  }

  /** Field by field, the block that `key` seals over a batch on `parent`; the seal covers everything but itself. */
  ghost predicate Assembled(env: Env, gasLimit: U64, parent: Block, timestamp: U64, miner: Address, key: Sealer,
                            batch: Batch, b: Block) {
    && b.transactions == batch.included && b.receipts == batch.receipts
    && b.header.number == (if parent.header.number == U64_MAX then U64_MAX else parent.header.number + 1)
    && b.header.parentHash == env.Hash(parent) && b.header.timestamp == timestamp && b.header.miner == miner
    && b.header.gasLimit == gasLimit && b.header.gasUsed == batch.gas && b.header.difficulty == 0
    && b.header.stateRoot == RootHash(env, batch.world)
    && b.header.transactionsRoot == env.transactionsRoot(b.transactions)
    && b.header.receiptsRoot == env.receiptsRoot(b.receipts)
    && b.header.extraData == key.seal(b.header.(extraData := []))
  }

  lemma SealedAssembles(env: Env, gasLimit: U64, parent: Block, timestamp: U64, miner: Address, key: Sealer,
                        batch: Batch)
    ensures var r := SealedHeader(env, DraftHeader(env, gasLimit, parent, timestamp, miner, batch), miner, key);
            && (r.Ok? <==> env.isValidator(miner) && key.address == miner)
            && (r.Err? ==> r.error == NotValidator)
            && (r.Ok? ==> Assembled(env, gasLimit, parent, timestamp, miner, key, batch,
                                    Block(r.value, batch.included, batch.receipts)))
  {
    hide RootHash;
  }

  lemma {:induction false} BatchGas(env: Env, number: U64, w: World, txs: seq<Transaction>)
    ensures Produce(env, DEFAULT_GAS, number, w, txs).gas <= DEFAULT_GAS.maxGasPerBlock
    decreases |txs|
  {
    hide Execute;
    if txs != [] {
      var n := |txs| - 1;
      BatchGas(env, number, w, txs[..n]);
      var b := Produce(env, DEFAULT_GAS, number, w, txs[..n]);
      StepGas(env, number, b.world, b.gas, txs[n]);
    }
  }

  lemma StepGas(env: Env, number: U64, w: World, gas: U64, tx: Transaction)
    requires gas <= DEFAULT_GAS.maxGasPerBlock
    ensures Execute(env, DEFAULT_GAS, w, gas, number, tx).blockGas <= DEFAULT_GAS.maxGasPerBlock
  {
    hide ExecuteDebited, WithAccount, Debit, IntrinsicGas;
    if Execute(env, DEFAULT_GAS, w, gas, number, tx).result.Ok? {
      ExecuteNonceAndGas(env, DEFAULT_GAS, w, gas, number, tx);
    } else if Debit(DEFAULT_GAS, w, gas, tx).Ok? {
      DebitSound(DEFAULT_GAS, w, gas, tx);
      DebitedEffect(env, DEFAULT_GAS, WithAccount(env.codec, w, tx.from, Debit(DEFAULT_GAS, w, gas, tx).value),
        gas, number, tx);
    }
  }

  /**
   A produced block imports: on the parent's snapshot, with no traps, a supply that fits, a
   header gas limit of at least the executor's cap, a timestamp not before the parent's and
   an accepted seal, none of the importer's checks fails.
   */
  lemma ProducedBlockImports(env: Env, v: View, parent: Block, gasLimit: U64, timestamp: U64, key: Sealer,
                             txs: seq<Transaction>)
    requires Inv(env, v) && env.Hash(parent) in v.snapshots
    requires Get(v.byHash, env.Hash(parent)) == Some(parent) && parent.header.number < U64_MAX
    requires var w, number := v.snapshots[env.Hash(parent)], parent.header.number + 1;
             Total(w.accounts) < TWO_256 && Trapped(env, number, w, txs) == []
    requires gasLimit >= DEFAULT_GAS.maxGasPerBlock && timestamp >= parent.header.timestamp
    requires env.isValidator(key.address)
    requires forall h :: SealedHeader(env, h, key.address, key).Ok? ==>
             env.sealOk(SealedHeader(env, h, key.address, key).value)
    ensures var batch := Produce(env, DEFAULT_GAS, parent.header.number + 1, v.snapshots[env.Hash(parent)], txs);
            var sealed := SealedHeader(env, DraftHeader(env, gasLimit, parent, timestamp, key.address, batch),
              key.address, key);
            && sealed.Ok?
            && var b := Block(sealed.value, batch.included, batch.receipts);
               && (env.Hash(b) !in v.byHash ==> ImportError(env, v, b).None? && PostState(env, v, b) == batch.world)
  {
    hide Inv, Produce, Trapped, ExecuteAll, RootHash, Total;
    var w, number := v.snapshots[env.Hash(parent)], parent.header.number + 1;
    var batch := Produce(env, DEFAULT_GAS, number, w, txs);
    CleanBatch(env, number, w, txs);
    BatchGas(env, number, w, txs);
    var draft := DraftHeader(env, gasLimit, parent, timestamp, key.address, batch);
    assert env.sealOk(SealedHeader(env, draft, key.address, key).value);
  }

  class BlockProducer {
    const gasLimit: U64

    constructor (gasLimit: U64)
      ensures this.gasLimit == gasLimit
    {
      this.gasLimit := gasLimit;
    }

    /** Executes pending transactions in order on the executor's state and seals the result. */
    method ProduceBlock(parent: Block, pool: TransactionPool, executor: Executor,
                        miner: Address, key: Sealer, timestamp: U64, maxTxs: nat)
      returns (r: Result<Block, ChainError>, ghost txs: seq<Transaction>)
      requires pool.Valid() && Synced(executor.state.env.codec, executor.state.View())
      modifies executor.state
      ensures Candidates(pool.env, pool.pending, maxTxs, txs)
      ensures r.Ok? <==> executor.state.env.isValidator(miner) && key.address == miner
      ensures r.Ok? ==>
                var batch := Produce(executor.state.env, executor.gasConfig, SaturatingAdd64(parent.header.number, 1),
                                     old(executor.state.View()), txs);
                Assembled(executor.state.env, gasLimit, parent, timestamp, miner, key, batch, r.value)
      ensures var env, w := executor.state.env, old(executor.state.View());
              var batch := Produce(env, executor.gasConfig, SaturatingAdd64(parent.header.number, 1), w, txs);
              && executor.state.View() == batch.world
              && match SealedHeader(env, DraftHeader(env, gasLimit, parent, timestamp, miner, batch), miner, key)
                 case Err(e) => r == Err(Consensus(e))
                 case Ok(header) => r == Ok(Block(header, batch.included, batch.receipts))
    {
      hide Execute, RootHash, SyncAll, Synced, Placed, PoolInv, Candidates, Assembled;
      var env := executor.state.env;
      ghost var w := executor.state.View();
      var pending := pool.GetPending(maxTxs);
      ghost var taken := pending;
      pending := Sorted(pending);
      txs := pending;
      CandidatesTaken(pool, maxTxs, taken, txs);
      var number := SaturatingAdd64(parent.header.number, 1);
      var ctx := new ExecutionContext(number, timestamp);
      var included: seq<Transaction> := [];
      var receipts: seq<Receipt> := [];
      for i := 0 to |pending|
        invariant Produce(env, executor.gasConfig, number, w, pending[..i]) ==
                  Batch(executor.state.View(), ctx.gasUsed, included, receipts)
        invariant Synced(env.codec, executor.state.View())
      {
        assert pending[..i + 1][..i] == pending[..i];
        ExecuteSynced(env, executor.gasConfig, executor.state.View(), ctx.gasUsed, number, pending[i]);
        var out := executor.ExecuteTransaction(pending[i], ctx);
        if out.Ok? {
          included := included + [pending[i]];
          receipts := receipts + [out.value.receipt];
        }
      }
      assert pending[..|pending|] == pending;
      SealedAssembles(env, gasLimit, parent, timestamp, miner, key, Produce(env, executor.gasConfig, number, w, txs));
      var stateRoot := executor.state.ComputeRootHash();
      var header := Header(number, env.Hash(parent), timestamp, miner, gasLimit, ctx.gasUsed, stateRoot,
                           env.transactionsRoot(included), env.receiptsRoot(receipts), 0, []);
      var sealed := SealedHeader(env, header, miner, key);
      match sealed
      case Err(e) => r := Err(Consensus(e));
      case Ok(h) => r := Ok(Block(h, included, receipts));
    }
  }

  /** What `GetPending` takes, once sorted, are the candidates. */
  lemma CandidatesTaken(pool: TransactionPool, max: nat, taken: seq<Transaction>, txs: seq<Transaction>)
    requires pool.Valid() && InOrder(txs) && multiset(txs) == multiset(taken) && Distinct(taken)
    requires |taken| == (if |pool.pending| < max then |pool.pending| else max)
    requires forall tx :: tx in taken ==>
               pool.env.txHash(tx) in pool.pending && pool.pending[pool.env.txHash(tx)].tx == tx
    ensures Candidates(pool.env, pool.pending, max, txs)
  {
    hide CountsOk, NoncesOk, VettedOk;
    SameMembers(taken, txs);
    DistinctCounts(taken);
    DistinctCounts(txs);
    if |pool.pending| <= max {
      NoneLeft(pool.env, pool.pending, txs);
    }
  }

  /** The conditions of `ProducedBlockImports` for a block on the head, with the timestamp that the node picks. */
  ghost predicate CleanTick(env: Env, v: View, gasLimit: U64, key: Sealer, txs: seq<Transaction>) {
    && v.head.Some? && v.head.value in v.byHash && v.head.value in v.snapshots
    && v.byHash[v.head.value].header.number < U64_MAX
    && var w := v.snapshots[v.head.value];
    && Total(w.accounts) < TWO_256
    && Trapped(env, v.byHash[v.head.value].header.number + 1, w, txs) == []
    && gasLimit >= DEFAULT_GAS.maxGasPerBlock && env.isValidator(key.address)
    && forall h :: SealedHeader(env, h, key.address, key).Ok? ==>
      env.sealOk(SealedHeader(env, h, key.address, key).value)
  }

  /** `b` is the block that executing `txs` on the head's state yields, and the importer accepts it. */
  ghost predicate Leads(env: Env, v: View, txs: seq<Transaction>, b: Block) {
    && v.head.Some? && v.head.value in v.byHash && v.head.value in v.snapshots
    && b.header.number == v.byHash[v.head.value].header.number + 1
    && var batch := Produce(env, DEFAULT_GAS, b.header.number, v.snapshots[v.head.value], txs);
    && b.transactions == batch.included && b.receipts == batch.receipts
    && (env.Hash(b) !in v.byHash ==> ImportError(env, v, b).None? && PostState(env, v, b) == batch.world)
  }

  /** `b` is assembled on the head from the candidates, with the timestamp right after the head's. */
  ghost predicate BuiltOn(env: Env, v: View, gasLimit: U64, key: Sealer, txs: seq<Transaction>, b: Block) {
    && v.head.Some? && v.head.value in v.byHash && v.head.value in v.snapshots
    && var parent := v.byHash[v.head.value];
    && var timestamp: U64 := if parent.header.timestamp == U64_MAX then U64_MAX else parent.header.timestamp + 1;
    && var batch := Produce(env, DEFAULT_GAS, b.header.number, v.snapshots[v.head.value], txs);
       Assembled(env, gasLimit, parent, timestamp, key.address, key, batch, b)
  }

  /** The candidate block of a turn; none without pending transactions, a head, or the head's state. */
  method BuildOnHead(store: BlockStore, pool: TransactionPool, producer: BlockProducer, key: Sealer)
    returns (built: Option<Result<Block, ChainError>>, ghost txs: seq<Transaction>)
    requires store.Valid() && pool.Valid() && pool.env == store.env
    requires forall h :: h in store.snapshots ==> Synced(store.env.codec, store.snapshots[h])
    ensures built.None? <==> pool.pending == map[] || store.head.None? || store.head.value !in store.snapshots
    ensures built.Some? ==>
              && Candidates(store.env, pool.pending, 128, txs)
              && store.head.value in store.byHash
              && (built.value.Ok? <==> store.env.isValidator(key.address))
              && (built.value.Ok? ==> BuiltOn(store.env, store.V(), producer.gasLimit, key, txs, built.value.value))
    ensures built.Some? && CleanTick(store.env, store.V(), producer.gasLimit, key, txs) ==>
              built.value.Ok? && Leads(store.env, store.V(), txs, built.value.value)
  {
    hide Inv, Synced, PoolInv, Trapped, Produce, Total, RootHash, ImportError, PostState;
    hide Candidates, Assembled;
    txs := [];
    InvLinked(store.env, store.V());
    if pool.pending == map[] || store.head.None? {
      return None, [];
    }
    var parent := store.byHash[store.head.value];
    var parentState := store.StateAt(store.head.value);
    if parentState == null {
      return None, [];
    }
    var executor := new Executor(parentState, DEFAULT_GAS);
    var timestamp := SaturatingAdd64(parent.header.timestamp, 1);
    var r;
    r, txs := producer.ProduceBlock(parent, pool, executor, key.address, key, timestamp, 128);
    if CleanTick(store.env, store.V(), producer.gasLimit, key, txs) {
      ProducedBlockImports(store.env, store.V(), parent, producer.gasLimit, timestamp, key, txs);
    }
    return Some(r), txs;
  }

  /**
   One turn of the producing node: build a block on a copy of the head's state, then import it
   like any other block. With no trap the import succeeds, the block becomes the head, and the
   live state is the state the producer reached.
   */
  method ProduceTick(store: BlockStore, live: StateDB, pool: TransactionPool, producer: BlockProducer, key: Sealer)
    returns (r: Option<Result<InsertOutcome, ChainError>>, ghost txs: seq<Transaction>, ghost b: Option<Block>)
    requires store.Valid() && pool.Valid() && live.env == pool.env == store.env
    requires forall h :: h in store.snapshots ==> Synced(store.env.codec, store.snapshots[h])
    requires forall h :: h in store.byHash ==> store.byHash[h].header.number < U64_MAX
    modifies store, live, pool
    ensures store.Valid() && pool.Valid()
    ensures r.None? <==>
              (|| old(pool.pending) == map[] || old(store.head).None?
               || old(store.head).value !in old(store.snapshots))
    ensures r.None? || r.value.Err? ==>
              store.V() == old(store.V()) && live.View() == old(live.View()) && pool.P() == old(pool.P())
    ensures r.Some? ==> Candidates(store.env, old(pool.pending), 128, txs)
    ensures b.Some? ==> BuiltOn(store.env, old(store.V()), producer.gasLimit, key, txs, b.value)
    ensures r.Some? && CleanTick(store.env, old(store.V()), producer.gasLimit, key, txs) ==>
              && b.Some? && Leads(store.env, old(store.V()), txs, b.value)
              && (store.env.Hash(b.value) !in old(store.byHash) ==>
                    var w := old(store.snapshots)[old(store.head).value];
                    && r.value.Ok? && store.head == Some(store.env.Hash(b.value))
                    && live.View() == Produce(store.env, DEFAULT_GAS, b.value.header.number, w, txs).world)
  {
    hide Inv, Synced, PoolInv, CleanTick, Produce, ImportError, PostState, Imported, LiveAfter, PoolAfter, TxsOn;
    hide OutcomeOf, Candidates, BuiltOn;
    b := None;
    ghost var v, before := store.V(), live.View();
    var built;
    built, txs := BuildOnHead(store, pool, producer, key);
    if built.None? {
      return None, txs, None;
    }
    if built.value.Err? {
      return Some(Err(built.value.error)), txs, None;
    }
    b := Some(built.value.value);
    var outcome := ImportAndApply(store, live, pool, built.value.value);
    if Leads(store.env, v, txs, b.value) && outcome.Ok? {
      ProducedLeads(store.env, v, before, b.value);
    }
    return Some(outcome), txs, b;
  }

  /** A block one above the head, once imported, is the head, and its state is live. */
  lemma ProducedLeads(env: Env, v: View, live: World, b: Block)
    requires Inv(env, v) && ImportError(env, v, b).None? && Fits(env, v.byHash, b)
    requires v.head.Some? && v.head.value in v.byHash && b.header.number == v.byHash[v.head.value].header.number + 1
    ensures LiveAfter(env, v, live, b) == PostState(env, v, b) && Imported(env, v, b).head == Some(env.Hash(b))
  {
    hide Inv, ImportError, PostState, Inserted, OutcomeOf;
    TallerTakes(env, v, b);
    InsertedHead(env, v, b);
  }

  lemma SameMembers(s: seq<Transaction>, t: seq<Transaction>)
    requires multiset(s) == multiset(t)
    ensures |s| == |t| && forall x :: x in s <==> x in t
  {
    assert |multiset(s)| == |multiset(t)|;
    assert forall x :: x in s <==> x in multiset(s);
  }
}
