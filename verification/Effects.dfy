/**
 What a successful transaction does, balance by balance and slot by slot, and exactly when one
 succeeds. The statements use account fields, storage slots, gas numbers and the contract
 interpreter only, so they pin down the execution of crates/ivory-executor/src/executor.rs
 independently of how `Execute` is composed.
 */
module Effects {
  import opened Primitives
  import opened Ledger
  import opened State
  import opened Execution
  import Trie

  // ----- Storage writes of a contract

  /** `v` is what `slot` reads as after `writes`: the last value written to it, or else `before`. */
  ghost predicate ReadsAs(writes: seq<(H256, Word)>, slot: H256, before: Word, v: Word) {
    || (exists i :: 0 <= i < |writes| && writes[i] == (slot, v) && LastAt(writes, i))
    || ((forall i :: 0 <= i < |writes| ==> writes[i].0 != slot) && v == before)
  }

  ghost predicate LastAt(writes: seq<(H256, Word)>, i: nat)
    requires i < |writes|
  {
    forall j :: i < j < |writes| ==> writes[j].0 != writes[i].0
  }

  lemma ReadsAsMore(writes: seq<(H256, Word)>, last: (H256, Word), slot: H256, before: Word, v: Word)
    requires if slot == last.0 then v == last.1 else ReadsAs(writes, slot, before, v)
    ensures ReadsAs(writes + [last], slot, before, v)
  {
    var all := writes + [last];
    assert all[|writes|] == last;
    if slot == last.0 {
      assert all[|writes|] == (slot, v) && LastAt(all, |writes|);
    } else if i :| 0 <= i < |writes| && writes[i] == (slot, v) && LastAt(writes, i) {
      assert all[i] == (slot, v) && LastAt(all, i);
    }
  }

  /** A write list reaches the callee's slots only, and each of them ends with its last write. */
  lemma {:induction false} WrittenSlots(c: Trie.Codec, w: World, a: Address, writes: seq<(H256, Word)>)
    ensures var w' := Written(c, w, a, writes);
            && (forall s: H256 :: ReadsAs(writes, s, GetOr(w.storage, (a, s), 0), GetOr(w'.storage, (a, s), 0)))
            && (forall b, s: H256 :: b != a ==> Get(w'.storage, (b, s)) == Get(w.storage, (b, s)))
            && w'.code == w.code && SameFields(w', w)
    decreases |writes|
  {
    hide WithStorage, ReadsAs, SameFields;
    if writes == [] {
      NothingWritten(w);
    } else {
      var n := |writes| - 1;
      var v := Written(c, w, a, writes[..n]);
      WrittenSlots(c, w, a, writes[..n]);
      StorageWritten(c, v, a, writes[n].0, writes[n].1);
      var w' := WithStorage(c, v, a, writes[n].0, writes[n].1);
      assert writes == writes[..n] + [writes[n]];
      forall s: H256
        ensures ReadsAs(writes, s, GetOr(w.storage, (a, s), 0), GetOr(w'.storage, (a, s), 0))
      {
        assert s != writes[n].0 ==> Get(w'.storage, (a, s)) == Get(v.storage, (a, s));
        ReadsAsMore(writes[..n], writes[n], s, GetOr(w.storage, (a, s), 0), GetOr(w'.storage, (a, s), 0));
      }
      SameFieldsTrans(w', v, w);
    }
  }

  lemma NothingWritten(w: World)
    ensures SameFields(w, w)
    ensures forall s: H256, before: Word :: ReadsAs([], s, before, before)
  {
  }

  lemma SameFieldsTrans(u: World, v: World, w: World)
    requires SameFields(u, v) && SameFields(v, w)
    ensures SameFields(u, w)
  {
  }

  // ----- The four steps of a transaction

  function Balance(w: World, a: Address): nat {
    GetOr(w.accounts, a, EMPTY_ACCOUNT).balance
  }

  function CodeHash(w: World, a: Address): H256 {
    GetOr(w.accounts, a, EMPTY_ACCOUNT).codeHash
  }

  /** The balance of `a` changed by `amount`, and no other. */
  ghost predicate Adjusted(w: World, w': World, a: Address, amount: int) {
    forall b :: Balance(w', b) == Balance(w, b) + if b == a then amount else 0
  }

  ghost predicate SameCode(w: World, w': World) {
    w'.code == w.code && forall a :: CodeHash(w', a) == CodeHash(w, a)
  }

  /** Every slot of other addresses reads as before. */
  ghost predicate SlotsOnlyAt(w: World, w': World, to: Option<Address>) {
    forall b: Address, s: H256 :: Some(b) != to ==> Get(w'.storage, (b, s)) == Get(w.storage, (b, s))
  }

  lemma AccountStep(c: Trie.Codec, w: World, a: Address, acc: Account)
    ensures var w' := WithAccount(c, w, a, acc);
            && Adjusted(w, w', a, acc.balance - Balance(w, a)) && w'.storage == w.storage && w'.code == w.code
            && (forall b :: CodeHash(w', b) == if b == a then acc.codeHash else CodeHash(w, b))
  {
    hide StorageRoot;
  }

  lemma DebitStep(env: Env, cfg: GasConfig, w: World, w': World, blockGas: U64, tx: Transaction, sender: Account)
    requires Debit(cfg, w, blockGas, tx) == Ok(sender) && w' == WithAccount(env.codec, w, tx.from, sender)
    ensures Adjusted(w, w', tx.from, 0 - tx.value - Mul(tx.gas, tx.gasPrice))
    ensures SameCode(w, w') && w'.storage == w.storage
  {
    hide WithAccount, IntrinsicGas, Mul, Adjusted;
    AccountStep(env.codec, w, tx.from, sender);
  }

  lemma TransferStep(env: Env, w: World, tx: Transaction)
    requires tx.to.Some? && Credit(env, w, tx).Some?
    ensures var w' := Credit(env, w, tx).value;
            Adjusted(w, w', tx.to.value, tx.value) && SameCode(w, w') && w'.storage == w.storage
  {
    hide WithAccount, Adjusted;
    var to := tx.to.value;
    AccountStep(env.codec, w, to, AccountAt(w, to).(balance := AccountAt(w, to).balance + tx.value));
  }

  lemma CreationStep(env: Env, w: World, tx: Transaction)
    requires tx.to.None? && Credit(env, w, tx).Some?
    ensures var w', created := Credit(env, w, tx).value, env.createAddress(tx.from, tx.nonce);
            Adjusted(w, w', created, tx.value) && Created(env, w, w', created, tx.data) && w'.storage == w.storage
  {
    hide WithAccount;
    var created := env.createAddress(tx.from, tx.nonce);
    var acc := AccountAt(w, created).(balance := AccountAt(w, created).balance + tx.value);
    var full := acc.(codeHash := env.codec.keccak(tx.data));
    AccountStep(env.codec, w, created, full);
    var v, w' := WithAccount(env.codec, w, created, full), Credit(env, w, tx).value;
    assert forall a :: CodeHash(w', a) == CodeHash(v, a) && Balance(w', a) == Balance(v, a);
  }

  /** `data` is the code at `created`, under its digest, and no other code changed. */
  ghost predicate Created(env: Env, w: World, w': World, created: Address, data: Bytes) {
    && (forall a :: CodeHash(w', a) == if a == created then env.codec.keccak(data) else CodeHash(w, a))
    && (forall a :: Get(w'.code, a) == if a == created then Some(data) else Get(w.code, a))
  }

  lemma RefundStep(env: Env, w: World, tx: Transaction, unused: U64)
    requires Refund(env, w, tx, unused).Some?
    ensures var w' := Refund(env, w, tx, unused).value;
            Adjusted(w, w', tx.from, Mul(unused, tx.gasPrice)) && SameCode(w, w') && w'.storage == w.storage
  {
    hide WithAccount, Mul;
    var refund := Mul(unused, tx.gasPrice);
    if refund != 0 {
      AccountStep(env.codec, w, tx.from, AccountAt(w, tx.from).(balance := AccountAt(w, tx.from).balance + refund));
    }
  }

  /** A call changes the callee's slots only. */
  lemma CallStep(env: Env, w: World, tx: Transaction, gas: U64)
    ensures var w' := Call(env, w, tx, gas).0;
            Adjusted(w, w', tx.from, 0) && SameCode(w, w') && SlotsOnlyAt(w, w', tx.to)
  {
    hide Written, Slots, ReadsAs, LastAt;
    if tx.to.Some? && GetOr(w.code, tx.to.value, []) != [] {
      var to := tx.to.value;
      WrittenSlots(env.codec, w, to, env.vm(to, w.code[to], Slots(w, to), gas, tx.data).writes);
    }
  }

  ghost predicate Debited(env: Env, cfg: GasConfig, w: World, blockGas: U64, tx: Transaction, w': World) {
    && Debit(cfg, w, blockGas, tx).Ok?
    && w' == WithAccount(env.codec, w, tx.from, Debit(cfg, w, blockGas, tx).value)
  }

  ghost predicate Called(env: Env, w: World, tx: Transaction, gas: U64, w': World, call: CallEnd) {
    Call(env, w, tx, gas) == (w', Some(call))
  }

  ghost predicate Refunded(env: Env, w: World, tx: Transaction, unused: U64, w': World) {
    Refund(env, w, tx, unused) == Some(w')
  }

  /** The states a successful transaction passes through: debited, credited, called, refunded. */
  ghost predicate Passed(env: Env, cfg: GasConfig, w: World, blockGas: U64, number: U64, tx: Transaction,
                         w1: World, w2: World, w3: World, call: CallEnd, w4: World) {
    && IntrinsicGas(cfg, tx) + call.gasUsed <= tx.gas
    && Debited(env, cfg, w, blockGas, tx, w1) && Credit(env, w1, tx) == Some(w2)
    && Called(env, w2, tx, tx.gas - IntrinsicGas(cfg, tx), w3, call)
    && Refunded(env, w3, tx, tx.gas - IntrinsicGas(cfg, tx) - call.gasUsed, w4)
  }

  /** The outcome carries the call's result and accounts for all of the gas. */
  ghost predicate Reported(env: Env, cfg: GasConfig, number: U64, tx: Transaction, call: CallEnd, o: Outcome) {
    && o.gasUsed == o.receipt.gasUsed == IntrinsicGas(cfg, tx) + call.gasUsed && o.gasRefunded == tx.gas - o.gasUsed
    && o.receipt.txHash == env.txHash(tx) && o.receipt.blockNumber == number
    && o.receipt.status == call.success && o.receipt.logs == call.logs
  }

  lemma ExecutePasses(env: Env, cfg: GasConfig, w: World, blockGas: U64, number: U64, tx: Transaction)
    returns (w1: World, w2: World, w3: World, call: CallEnd)
    requires Execute(env, cfg, w, blockGas, number, tx).result.Ok?
    ensures var r := Execute(env, cfg, w, blockGas, number, tx);
            && Passed(env, cfg, w, blockGas, number, tx, w1, w2, w3, call, r.world)
            && Reported(env, cfg, number, tx, call, r.result.value)
  {
    hide IntrinsicGas, Credit, Call, Refund, WithAccount;
    DebitSound(cfg, w, blockGas, tx);
    w1 := WithAccount(env.codec, w, tx.from, Debit(cfg, w, blockGas, tx).value);
    w2 := Credit(env, w1, tx).value;
    var (v, end) := Call(env, w2, tx, tx.gas - IntrinsicGas(cfg, tx));
    w3, call := v, end.value;
  }

  // ----- What a successful transaction does

  /**
   Who pays and who is paid: the recipient, or the created address, gains the value; the sender
   loses the value and the price of the gas used; no other balance changes. A transfer to
   oneself costs the fee alone.
   */
  lemma ExecuteBalances(env: Env, cfg: GasConfig, w: World, blockGas: U64, number: U64, tx: Transaction)
    requires Execute(env, cfg, w, blockGas, number, tx).result.Ok?
    ensures var r := Execute(env, cfg, w, blockGas, number, tx);
            var paid := if tx.to.Some? then tx.to.value else env.createAddress(tx.from, tx.nonce);
            forall a :: Balance(r.world, a) == Balance(w, a)
              + (if a == paid then tx.value else 0)
              - (if a == tx.from then tx.value + r.result.value.gasUsed * tx.gasPrice else 0)
  {
    hide *;
    var r := Execute(env, cfg, w, blockGas, number, tx);
    var paid := if tx.to.Some? then tx.to.value else env.createAddress(tx.from, tx.nonce);
    var w1, w2, w3, call := ExecutePasses(env, cfg, w, blockGas, number, tx);
    var used := r.result.value.gasUsed;
    ReportedGas(env, cfg, number, tx, call, r.result.value);
    PassedBalances(env, cfg, w, blockGas, number, tx, w1, w2, w3, call, r.world);
    CostSplit(used, tx.gas - used, tx.gasPrice);
    Product(used, tx.gasPrice);
    forall a
      ensures Balance(r.world, a) == Balance(w, a)
        + (if a == paid then tx.value else 0) - (if a == tx.from then tx.value + used * tx.gasPrice else 0)
    {
      AdjustedAt(w, w1, tx.from, 0 - tx.value - Mul(tx.gas, tx.gasPrice), a);
      AdjustedAt(w1, w2, paid, tx.value, a);
      AdjustedAt(w2, w3, tx.from, 0, a);
      AdjustedAt(w3, r.world, tx.from, Mul(tx.gas - used, tx.gasPrice), a);
    }
  }

  lemma ReportedGas(env: Env, cfg: GasConfig, number: U64, tx: Transaction, call: CallEnd, o: Outcome)
    requires Reported(env, cfg, number, tx, call, o)
    ensures o.gasUsed == IntrinsicGas(cfg, tx) + call.gasUsed <= tx.gas
  {
    hide IntrinsicGas;
  }

  lemma Product(a: nat, b: nat)
    ensures Mul(a, b) == a * b
  {
  }

  lemma AdjustedAt(w: World, w': World, a: Address, amount: int, b: Address)
    requires Adjusted(w, w', a, amount)
    ensures Balance(w', b) == Balance(w, b) + if b == a then amount else 0
  {
  }

  lemma PassedBalances(env: Env, cfg: GasConfig, w: World, blockGas: U64, number: U64, tx: Transaction,
                       w1: World, w2: World, w3: World, call: CallEnd, w4: World)
    requires Passed(env, cfg, w, blockGas, number, tx, w1, w2, w3, call, w4)
    ensures var paid := if tx.to.Some? then tx.to.value else env.createAddress(tx.from, tx.nonce);
            var unused: nat := tx.gas - (IntrinsicGas(cfg, tx) + call.gasUsed);
            && Adjusted(w, w1, tx.from, 0 - tx.value - Mul(tx.gas, tx.gasPrice))
            && Adjusted(w1, w2, paid, tx.value)
            && Adjusted(w2, w3, tx.from, 0)
            && Adjusted(w3, w4, tx.from, Mul(unused, tx.gasPrice))
  {
    hide IntrinsicGas, Credit, Call, Refund, WithAccount, Debit, Adjusted, Mul, SameCode, SlotsOnlyAt, Created;
    DebitStep(env, cfg, w, w1, blockGas, tx, Debit(cfg, w, blockGas, tx).value);
    if tx.to.Some? {
      TransferStep(env, w1, tx);
    } else {
      CreationStep(env, w1, tx);
    }
    CallStep(env, w2, tx, tx.gas - IntrinsicGas(cfg, tx));
    RefundStep(env, w3, tx, tx.gas - IntrinsicGas(cfg, tx) - call.gasUsed);
  }

  /** Creation installs the data as code under its digest, runs nothing and touches no storage. */
  lemma CreationEffect(env: Env, cfg: GasConfig, w: World, blockGas: U64, number: U64, tx: Transaction)
    requires tx.to.None? && Execute(env, cfg, w, blockGas, number, tx).result.Ok?
    ensures var r, created := Execute(env, cfg, w, blockGas, number, tx), env.createAddress(tx.from, tx.nonce);
            && Created(env, w, r.world, created, tx.data) && r.world.storage == w.storage
            && r.result.value.gasUsed == IntrinsicGas(cfg, tx)
            && r.result.value.receipt.status && r.result.value.receipt.logs == []
  {
    hide IntrinsicGas, Credit, Refund, WithAccount, Debit, Execute, Adjusted;
    var w1, w2, w3, call := ExecutePasses(env, cfg, w, blockGas, number, tx);
    DebitStep(env, cfg, w, w1, blockGas, tx, Debit(cfg, w, blockGas, tx).value);
    CreationStep(env, w1, tx);
    RefundStep(env, w3, tx, tx.gas - IntrinsicGas(cfg, tx) - call.gasUsed);
  }

  /** `slots` are the stored slots of `a`. */
  ghost predicate SlotsOf(w: World, a: Address, slots: map<H256, Word>) {
    forall s: H256 :: Get(slots, s) == Get(w.storage, (a, s))
  }

  lemma SlotsUnique(w: World, v: World, a: Address, slots: map<H256, Word>)
    requires SlotsOf(w, a, slots) && v.storage == w.storage
    ensures Slots(v, a) == slots
  {
    forall s
      ensures Get(Slots(v, a), s) == Get(slots, s)
    {
      assert Get(slots, s) == Get(w.storage, (a, s));
    }
    SameLookups(Slots(v, a), slots);
  }

  /** What the interpreter did shows in the callee's slots, the receipt and the gas, and nowhere else. */
  ghost predicate Ran(cfg: GasConfig, w: World, w': World, tx: Transaction, to: Address, run: VmRun, o: Outcome) {
    && run.Done?
    && (forall s: H256 :: ReadsAs(run.writes, s, GetOr(w.storage, (to, s), 0), GetOr(w'.storage, (to, s), 0)))
    && o.receipt.status == run.success && o.receipt.logs == run.logs
    && var available := tx.gas - IntrinsicGas(cfg, tx);
       o.gasUsed == tx.gas - if run.gasLeft < available then run.gasLeft else available
  }

  /**
   A call to an address with code runs that code on its own slots with the gas left after the
   intrinsic charge. A call to an address without code runs nothing.
   */
  lemma CallEffect(env: Env, cfg: GasConfig, w: World, blockGas: U64, number: U64, tx: Transaction,
                   slots: map<H256, Word>)
    requires tx.to.Some? && Execute(env, cfg, w, blockGas, number, tx).result.Ok? && SlotsOf(w, tx.to.value, slots)
    ensures IntrinsicGas(cfg, tx) <= tx.gas
    ensures var r, to := Execute(env, cfg, w, blockGas, number, tx), tx.to.value;
            var o, code := r.result.value, GetOr(w.code, to, []);
            && SameCode(w, r.world) && SlotsOnlyAt(w, r.world, tx.to)
            && (code == [] ==>
                  && r.world.storage == w.storage && o.gasUsed == IntrinsicGas(cfg, tx)
                  && o.receipt.status && o.receipt.logs == [])
            && (code != [] ==>
                  Ran(cfg, w, r.world, tx, to, env.vm(to, code, slots, tx.gas - IntrinsicGas(cfg, tx), tx.data), o))
  {
    hide IntrinsicGas, Credit, Refund, WithAccount, Debit, Execute, Adjusted, Call, Slots, ReadsAs, Written;
    var w1, w2, w3, call := ExecutePasses(env, cfg, w, blockGas, number, tx);
    DebitStep(env, cfg, w, w1, blockGas, tx, Debit(cfg, w, blockGas, tx).value);
    TransferStep(env, w1, tx);
    CallStep(env, w2, tx, tx.gas - IntrinsicGas(cfg, tx));
    CallRuns(env, w2, tx, tx.gas - IntrinsicGas(cfg, tx));
    RefundStep(env, w3, tx, tx.gas - IntrinsicGas(cfg, tx) - call.gasUsed);
    SlotsUnique(w, w2, tx.to.value, slots);
  }

  lemma CallRuns(env: Env, w: World, tx: Transaction, gas: U64)
    requires tx.to.Some? && Call(env, w, tx, gas).1.Some?
    ensures var (w', end), to := Call(env, w, tx, gas), tx.to.value;
            var code := GetOr(w.code, to, []);
            && (code == [] ==> w' == w && end == Some(CallEnd(0, true, [])))
            && (code != [] ==>
                  var run := env.vm(to, code, Slots(w, to), gas, tx.data);
                  && run.Done? && end.value.success == run.success && end.value.logs == run.logs
                  && end.value.gasUsed == gas - (if run.gasLeft < gas then run.gasLeft else gas)
                  && (forall s: H256 ::
                        ReadsAs(run.writes, s, GetOr(w.storage, (to, s), 0), GetOr(w'.storage, (to, s), 0))))
  {
    hide Written, Slots, ReadsAs, SameFields;
    var to := tx.to.value;
    if GetOr(w.code, to, []) != [] {
      WrittenSlots(env.codec, w, to, env.vm(to, w.code[to], Slots(w, to), gas, tx.data).writes);
    }
  }

  // ----- Exactly when a transaction succeeds

  /** Base cost plus data cost, capped at the largest 64-bit number. */
  lemma IntrinsicExact(cfg: GasConfig, tx: Transaction)
    requires |tx.data| < TWO_64
    ensures var cost := cfg.txGasCost + |tx.data| * cfg.dataGasCost;
            IntrinsicGas(cfg, tx) == if cost > U64_MAX then U64_MAX else cost
  {
  }

  /** The conditions on account, gas and block that let a transaction start. */
  ghost predicate Affordable(cfg: GasConfig, w: World, blockGas: U64, tx: Transaction) {
    var sender := GetOr(w.accounts, tx.from, EMPTY_ACCOUNT);
    && sender.nonce == tx.nonce && tx.nonce < U64_MAX
    && IntrinsicGas(cfg, tx) <= tx.gas
    && tx.value + tx.gas * tx.gasPrice <= sender.balance
    && (blockGas + tx.gas <= cfg.maxGasPerBlock || cfg.maxGasPerBlock == U64_MAX)
  }

  lemma DebitIff(cfg: GasConfig, w: World, blockGas: U64, tx: Transaction)
    ensures Debit(cfg, w, blockGas, tx).Ok? <==> Affordable(cfg, w, blockGas, tx)
  {
    hide IntrinsicGas;
  }

  /** The refusal names the first check that fails. */
  lemma DebitReasons(cfg: GasConfig, w: World, blockGas: U64, tx: Transaction)
    requires Debit(cfg, w, blockGas, tx).Err?
    ensures var e, sender := Debit(cfg, w, blockGas, tx).error, GetOr(w.accounts, tx.from, EMPTY_ACCOUNT);
            var total := tx.value + tx.gas * tx.gasPrice;
            if sender.nonce != tx.nonce then e == NonceMismatch(sender.nonce, tx.nonce)
            else if tx.gas < IntrinsicGas(cfg, tx) then e == OutOfGas
            else if total >= TWO_256 then e == Overflow
            else if sender.balance < total then e == InsufficientBalance
            else if blockGas + tx.gas > cfg.maxGasPerBlock && cfg.maxGasPerBlock < U64_MAX
              then e == BlockGasLimitExceeded
            else tx.nonce == U64_MAX && e == Overflow
  {
    hide IntrinsicGas;
  }

  /** While the supply fits in 256 bits a transaction succeeds iff it is affordable and its callee does not trap. */
  lemma ExecuteSucceeds(env: Env, cfg: GasConfig, w: World, blockGas: U64, number: U64, tx: Transaction,
                        slots: map<H256, Word>)
    requires Total(w.accounts) < TWO_256 && (tx.to.Some? ==> SlotsOf(w, tx.to.value, slots))
    ensures Execute(env, cfg, w, blockGas, number, tx).result.Ok? <==>
              && Affordable(cfg, w, blockGas, tx)
              && !(&& tx.to.Some? && GetOr(w.code, tx.to.value, []) != []
                   && env.vm(tx.to.value, w.code[tx.to.value], slots, tx.gas - IntrinsicGas(cfg, tx), tx.data).Trap?)
  {
    hide Execute, Debit, IntrinsicGas, Total, Slots, SlotsOf;
    FailureAtomicity(env, cfg, w, blockGas, number, tx);
    DebitIff(cfg, w, blockGas, tx);
    if tx.to.Some? {
      SlotsUnique(w, w, tx.to.value, slots);
    }
  }
}
