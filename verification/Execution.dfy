/**
 Transaction execution: crates/ivory-executor/src/{executor,call,gas}.rs.

 `Execute` gives the whole effect of one call, including what it leaves behind when it fails
 part way; the class `Executor` performs it step by step on a shared state handle.
 */
module Execution {
  import opened Primitives
  import opened Ledger
  import opened State
  import Trie

  datatype GasConfig = GasConfig(txGasCost: U64, dataGasCost: U64, maxGasPerBlock: U64)

  const DEFAULT_GAS := GasConfig(21_000, 16, 30_000_000)

  datatype ExecutionError =
    | NonceMismatch(expected: U64, got: U64)
    | InsufficientBalance
    | OutOfGas
    | Overflow
    | BlockGasLimitExceeded
    | VmError

  datatype Outcome = Outcome(receipt: Receipt, gasUsed: U64, gasRefunded: U64)

  /** State and block gas after a call, and what the call returned. */
  datatype Step = Step(world: World, blockGas: U64, result: Result<Outcome, ExecutionError>)

  datatype CallEnd = CallEnd(gasUsed: U64, success: bool, logs: seq<Log>)

  // ----- Specification

  /** Base cost plus the cost of every data byte, capped at the largest 64-bit number. */
  function IntrinsicGas(cfg: GasConfig, tx: Transaction): (r: U64) {
    SaturatingAdd64(cfg.txGasCost, SaturatingMul64(|tx.data| % TWO_64, cfg.dataGasCost))
  }

  function AccountAt(w: World, a: Address): Account {
    GetOr(w.accounts, a, EMPTY_ACCOUNT)
  }

  /** The checks made before anything is written, and the debited sender account. */
  function Debit(cfg: GasConfig, w: World, blockGas: U64, tx: Transaction): (r: Result<Account, ExecutionError>) {
    var sender := AccountAt(w, tx.from);
    if sender.nonce != tx.nonce then Err(NonceMismatch(sender.nonce, tx.nonce))
    else if tx.gas < IntrinsicGas(cfg, tx) then Err(OutOfGas)
    else
      match CheckedMul(tx.gas, tx.gasPrice)
      case None => Err(Overflow)
      case Some(gasCost) =>
        match CheckedAdd(tx.value, gasCost)
        case None => Err(Overflow)
        case Some(total) =>
          if sender.balance < total then Err(InsufficientBalance)
          else if SaturatingAdd64(blockGas, tx.gas) > cfg.maxGasPerBlock then Err(BlockGasLimitExceeded)
          else if sender.nonce == U64_MAX then Err(Overflow)
          else Ok(sender.(balance := sender.balance - total, nonce := sender.nonce + 1))
  }

  function Recipient(env: Env, tx: Transaction): Address {
    match tx.to
    case Some(to) => to
    case None => env.createAddress(tx.from, tx.nonce)
  }

  /** Value transfer, or creation of a contract account holding `tx.data` as its code. */
  ghost function Credit(env: Env, w: World, tx: Transaction): (r: Option<World>) {
    var to := Recipient(env, tx);
    match CheckedAdd(AccountAt(w, to).balance, tx.value)
    case None => None
    case Some(balance) =>
      var acc := AccountAt(w, to).(balance := balance);
      if tx.to.Some? then Some(WithAccount(env.codec, w, to, acc))
      else Some(WithCode(WithAccount(env.codec, w, to, acc.(codeHash := env.codec.keccak(tx.data))), to, tx.data))
  }

  function Slots(w: World, a: Address): map<H256, Word> {
    map s | s in (set p | p in w.storage && p.0 == a :: p.1) :: w.storage[(a, s)]
  }

  ghost function Written(c: Trie.Codec, w: World, a: Address, writes: seq<(H256, Word)>): World {
    if writes == [] then w
    else
      var n := |writes| - 1;
      WithStorage(c, Written(c, w, a, writes[..n]), a, writes[n].0, writes[n].1)
  }

  /** Running the code at the recipient, if there is any; a trap keeps the writes made so far. */
  ghost function Call(env: Env, w: World, tx: Transaction, gas: U64): (r: (World, Option<CallEnd>))
    ensures r.1.Some? ==> r.1.value.gasUsed <= gas
  {
    if tx.to.None? || GetOr(w.code, tx.to.value, []) == [] then (w, Some(CallEnd(0, true, [])))
    else
      var to := tx.to.value;
      var run := env.vm(to, w.code[to], Slots(w, to), gas, tx.data);
      var w' := Written(env.codec, w, to, run.writes);
      match run
      case Trap(_) => (w', None)
      case Done(_, gasLeft, success, logs) => (w', Some(CallEnd(SaturatingSub(gas, gasLeft), success, logs)))
  }

  /** Returning the price of unused gas to the sender. */
  ghost function Refund(env: Env, w: World, tx: Transaction, unused: U64): (r: Option<World>) {
    match CheckedMul(unused, tx.gasPrice)
    case None => None
    case Some(refund) =>
      if refund == 0 then Some(w)
      else
        match CheckedAdd(AccountAt(w, tx.from).balance, refund)
        case None => None
        case Some(balance) =>
          Some(WithAccount(env.codec, w, tx.from, AccountAt(w, tx.from).(balance := balance)))
  }

  ghost function Execute(env: Env, cfg: GasConfig, w: World, blockGas: U64, number: U64, tx: Transaction): (r: Step) {
    match Debit(cfg, w, blockGas, tx)
    case Err(e) => Step(w, blockGas, Err(e))
    case Ok(sender) => ExecuteDebited(env, cfg, WithAccount(env.codec, w, tx.from, sender), blockGas, number, tx)
  }

  ghost function ExecuteDebited(env: Env, cfg: GasConfig, w1: World, blockGas: U64, number: U64,
                                tx: Transaction): (r: Step)
    requires IntrinsicGas(cfg, tx) <= tx.gas
  {
    match Credit(env, w1, tx)
    case None => Step(w1, blockGas, Err(Overflow))
    case Some(w2) =>
      var available := tx.gas - IntrinsicGas(cfg, tx);
      var (w3, end) := Call(env, w2, tx, available);
      match end
      case None => Step(w3, blockGas, Err(VmError))
      case Some(call) =>
        match Refund(env, w3, tx, available - call.gasUsed)
        case None => Step(w3, blockGas, Err(Overflow))
        case Some(w4) =>
          var used := tx.gas - (available - call.gasUsed);
          Step(w4, SaturatingAdd64(blockGas, used),
               Ok(Outcome(Receipt(env.txHash(tx), number, used, call.success, call.logs), used,
                 available - call.gasUsed)))
  }

  lemma CostSplit(a: nat, b: nat, price: nat)
    ensures Mul(a + b, price) == Mul(a, price) + Mul(b, price)
  {
  }

  // ----- Balances and nonces

  /** Sum of all balances. */
  ghost function Total(accounts: map<Address, Account>): nat {
    if accounts == map[] then 0
    else
      var a :| a in accounts;
      accounts[a].balance + Total(accounts - {a})
  }

  lemma {:induction false} TotalRemove(accounts: map<Address, Account>, a: Address)
    requires a in accounts
    ensures Total(accounts) == accounts[a].balance + Total(accounts - {a})
    decreases |accounts|
  {
    var b :| b in accounts && Total(accounts) == accounts[b].balance + Total(accounts - {b});
    if a != b {
      TotalRemove(accounts - {b}, a);
      TotalRemove(accounts - {a}, b);
      assert accounts - {b} - {a} == accounts - {a} - {b};
    }
  }

  lemma TotalUpdate(accounts: map<Address, Account>, a: Address, acc: Account)
    ensures Total(accounts[a := acc]) == Total(accounts) - GetOr(accounts, a, EMPTY_ACCOUNT).balance + acc.balance
    ensures GetOr(accounts, a, EMPTY_ACCOUNT).balance <= Total(accounts)
  {
    TotalRemove(accounts[a := acc], a);
    if a in accounts {
      TotalRemove(accounts, a);
      assert accounts[a := acc] - {a} == accounts - {a};
    } else {
      assert accounts[a := acc] - {a} == accounts;
    }
  }

  /** Same balances and nonces everywhere, hence the same total. */
  ghost predicate SameFunds(v: World, w: World) {
    && (forall a :: AccountAt(v, a).balance == AccountAt(w, a).balance)
    && (forall a :: AccountAt(v, a).nonce == AccountAt(w, a).nonce)
    && Total(v.accounts) == Total(w.accounts)
  }

  lemma WithStorageFunds(c: Trie.Codec, w: World, a: Address, slot: H256, v: Word)
    ensures SameFunds(WithStorage(c, w, a, slot, v), w)
  {
    hide StorageRoot, Total;
    var acc := AccountAt(w, a);
    TotalUpdate(w.accounts, a, WithAccount(c, WithStorage(c, w, a, slot, v), a, acc).accounts[a]);
  }

  lemma {:induction false} WrittenFunds(c: Trie.Codec, w: World, a: Address, writes: seq<(H256, Word)>)
    ensures SameFunds(Written(c, w, a, writes), w)
    ensures Synced(c, w) ==> Synced(c, Written(c, w, a, writes))
    ensures Written(c, w, a, writes).code == w.code
  {
    hide Synced, Total, WithStorage;
    if writes != [] {
      var n := |writes| - 1;
      var v := Written(c, w, a, writes[..n]);
      WrittenFunds(c, w, a, writes[..n]);
      WithStorageFunds(c, v, a, writes[n].0, writes[n].1);
      WithStorageCode(c, v, a, writes[n].0, writes[n].1);
      if Synced(c, w) {
        WithStorageSynced(c, v, a, writes[n].0, writes[n].1);
      }
    }
  }

  lemma WithStorageCode(c: Trie.Codec, w: World, a: Address, slot: H256, v: Word)
    ensures WithStorage(c, w, a, slot, v).code == w.code
  {
    hide StorageRoot;
  }

  lemma WithAccountFunds(c: Trie.Codec, w: World, a: Address, acc: Account)
    ensures Total(WithAccount(c, w, a, acc).accounts) == Total(w.accounts) - AccountAt(w, a).balance + acc.balance
    ensures AccountAt(w, a).balance <= Total(w.accounts)
    ensures forall b :: AccountAt(WithAccount(c, w, a, acc), b).balance ==
                        if b == a then acc.balance else AccountAt(w, b).balance
    ensures forall b :: AccountAt(WithAccount(c, w, a, acc), b).nonce ==
                        if b == a then acc.nonce else AccountAt(w, b).nonce
    ensures Synced(c, w) ==> Synced(c, WithAccount(c, w, a, acc))
  {
    hide StorageRoot, Total, Synced;
    TotalUpdate(w.accounts, a, acc.(storageRoot := StorageRoot(c, w.storage, a)));
    if Synced(c, w) {
      WithAccountSynced(c, w, a, acc);
    }
  }

  lemma CreditEffect(env: Env, w: World, tx: Transaction)
    ensures Total(w.accounts) + tx.value < TWO_256 ==> Credit(env, w, tx).Some?
    ensures Credit(env, w, tx).Some? ==>
              var w' := Credit(env, w, tx).value;
              && Total(w'.accounts) == Total(w.accounts) + tx.value
              && (forall a :: AccountAt(w', a).nonce == AccountAt(w, a).nonce)
              && (Synced(env.codec, w) ==> Synced(env.codec, w'))
  {
    hide WithAccount, Synced, Total;
    var to := Recipient(env, tx);
    if AccountAt(w, to).balance + tx.value < TWO_256 {
      var acc := AccountAt(w, to).(balance := AccountAt(w, to).balance + tx.value);
      var full := if tx.to.Some? then acc else acc.(codeHash := env.codec.keccak(tx.data));
      WithAccountFunds(env.codec, w, to, full);
      WithCodeSynced(env.codec, WithAccount(env.codec, w, to, full), to, tx.data);
    } else {
      WithAccountFunds(env.codec, w, to, AccountAt(w, to));
    }
  }

  lemma WithCodeSynced(c: Trie.Codec, w: World, a: Address, code: Bytes)
    ensures Synced(c, w) <==> Synced(c, WithCode(w, a, code))
  {
    hide StorageRoot;
  }

  lemma CallEffect(env: Env, w: World, tx: Transaction, gas: U64)
    ensures var (w', end) := Call(env, w, tx, gas);
            && SameFunds(w', w)
            && (Synced(env.codec, w) ==> Synced(env.codec, w'))
  {
    hide Written, Synced, Total, Slots;
    if tx.to.Some? && GetOr(w.code, tx.to.value, []) != [] {
      var to := tx.to.value;
      WrittenFunds(env.codec, w, to, env.vm(to, w.code[to], Slots(w, to), gas, tx.data).writes);
    }
  }

  lemma RefundEffect(env: Env, w: World, tx: Transaction, unused: U64)
    ensures Total(w.accounts) + Mul(unused, tx.gasPrice) < TWO_256 ==> Refund(env, w, tx, unused).Some?
    ensures Refund(env, w, tx, unused).Some? ==>
              var w' := Refund(env, w, tx, unused).value;
              && Total(w'.accounts) == Total(w.accounts) + Mul(unused, tx.gasPrice)
              && (forall a :: AccountAt(w', a).nonce == AccountAt(w, a).nonce)
              && (Synced(env.codec, w) ==> Synced(env.codec, w'))
  {
    hide WithAccount, Synced, Total;
    var refund := Mul(unused, tx.gasPrice);
    var sender := AccountAt(w, tx.from);
    if refund != 0 && sender.balance + refund < TWO_256 {
      WithAccountFunds(env.codec, w, tx.from, sender.(balance := sender.balance + refund));
    } else {
      WithAccountFunds(env.codec, w, tx.from, sender);
    }
  }

  /** Everything after the debit: nonces stay, value and unused gas come back, and only a trap can fail. */
  lemma DebitedEffect(env: Env, cfg: GasConfig, w: World, blockGas: U64, number: U64, tx: Transaction)
    requires IntrinsicGas(cfg, tx) <= tx.gas
    ensures var r := ExecuteDebited(env, cfg, w, blockGas, number, tx);
            && (forall a :: AccountAt(r.world, a).nonce == AccountAt(w, a).nonce)
            && (Synced(env.codec, w) ==> Synced(env.codec, r.world))
            && (r.result.Ok? ==>
                  var o := r.result.value;
                  && IntrinsicGas(cfg, tx) <= o.gasUsed == tx.gas - o.gasRefunded
                  && r.blockGas == SaturatingAdd64(blockGas, o.gasUsed)
                  && Total(r.world.accounts) == Total(w.accounts) + tx.value + Mul(o.gasRefunded, tx.gasPrice))
            && (r.result.Err? ==> r.blockGas == blockGas && r.result.error in {Overflow, VmError})
            && (r.result == Err(VmError) ==> Total(r.world.accounts) == Total(w.accounts) + tx.value)
            && (Total(w.accounts) + tx.value + Mul(tx.gas, tx.gasPrice) < TWO_256 ==> r.result != Err(Overflow))
  {
    hide Credit, Call, Refund, IntrinsicGas, Synced, Total, Mul;
    CreditEffect(env, w, tx);
    if Credit(env, w, tx).Some? {
      var w2 := Credit(env, w, tx).value;
      var available := tx.gas - IntrinsicGas(cfg, tx);
      CallEffect(env, w2, tx, available);
      var (w3, end) := Call(env, w2, tx, available);
      if end.Some? {
        var unused := available - end.value.gasUsed;
        RefundEffect(env, w3, tx, unused);
        CostSplit(unused, tx.gas - unused, tx.gasPrice);
      }
    }
  }

  // ----- Main results on one transaction

  lemma DebitEffect(env: Env, cfg: GasConfig, w: World, blockGas: U64, tx: Transaction)
    requires Debit(cfg, w, blockGas, tx).Ok?
    ensures var w1 := WithAccount(env.codec, w, tx.from, Debit(cfg, w, blockGas, tx).value);
            && Total(w1.accounts) == Total(w.accounts) - tx.value - Mul(tx.gas, tx.gasPrice)
            && (forall a :: AccountAt(w1, a).nonce == AccountAt(w, a).nonce + if a == tx.from then 1 else 0)
            && (Synced(env.codec, w) ==> Synced(env.codec, w1))
  {
    hide WithAccount, Synced, Total, IntrinsicGas;
    WithAccountFunds(env.codec, w, tx.from, Debit(cfg, w, blockGas, tx).value);
  }

  /** Value is conserved: what leaves the accounts is exactly the gas charged. */
  lemma ExecuteConserves(env: Env, cfg: GasConfig, w: World, blockGas: U64, number: U64, tx: Transaction)
    requires Execute(env, cfg, w, blockGas, number, tx).result.Ok?
    ensures var r := Execute(env, cfg, w, blockGas, number, tx);
            Total(r.world.accounts) + Mul(r.result.value.gasUsed, tx.gasPrice) == Total(w.accounts)
  {
    hide ExecuteDebited, WithAccount, Total, Debit, Mul, IntrinsicGas;
    DebitEffect(env, cfg, w, blockGas, tx);
    DebitSound(cfg, w, blockGas, tx);
    DebitedConserves(env, cfg, WithAccount(env.codec, w, tx.from, Debit(cfg, w, blockGas, tx).value), blockGas,
      number, tx);
  }

  lemma DebitedConserves(env: Env, cfg: GasConfig, w: World, blockGas: U64, number: U64, tx: Transaction)
    requires IntrinsicGas(cfg, tx) <= tx.gas
    requires ExecuteDebited(env, cfg, w, blockGas, number, tx).result.Ok?
    ensures var r := ExecuteDebited(env, cfg, w, blockGas, number, tx);
            Total(r.world.accounts) + Mul(r.result.value.gasUsed, tx.gasPrice)
            == Total(w.accounts) + tx.value + Mul(tx.gas, tx.gasPrice)
  {
    hide *;
    DebitedEffect(env, cfg, w, blockGas, number, tx);
    var o := ExecuteDebited(env, cfg, w, blockGas, number, tx).result.value;
    CostSplit(o.gasUsed, o.gasRefunded, tx.gasPrice);
  }

  lemma DebitNeverTraps(cfg: GasConfig, w: World, blockGas: U64, tx: Transaction)
    ensures Debit(cfg, w, blockGas, tx) != Err(VmError)
  {
    hide IntrinsicGas;
  }

  lemma DebitSound(cfg: GasConfig, w: World, blockGas: U64, tx: Transaction)
    requires Debit(cfg, w, blockGas, tx).Ok?
    ensures IntrinsicGas(cfg, tx) <= tx.gas && AccountAt(w, tx.from).nonce == tx.nonce
    ensures SaturatingAdd64(blockGas, tx.gas) <= cfg.maxGasPerBlock
  {
    hide IntrinsicGas;
  }

  /** A successful transaction raises its sender's nonce by one, touches no other nonce, and stays in the gas limits. */
  lemma ExecuteNonceAndGas(env: Env, cfg: GasConfig, w: World, blockGas: U64, number: U64, tx: Transaction)
    requires Execute(env, cfg, w, blockGas, number, tx).result.Ok?
    ensures var r := Execute(env, cfg, w, blockGas, number, tx);
            && tx.nonce == AccountAt(w, tx.from).nonce
            && (forall a :: AccountAt(r.world, a).nonce == AccountAt(w, a).nonce + if a == tx.from then 1 else 0)
            && IntrinsicGas(cfg, tx) <= r.result.value.gasUsed <= tx.gas
            && r.blockGas == SaturatingAdd64(blockGas, r.result.value.gasUsed) <= cfg.maxGasPerBlock
  {
    hide ExecuteDebited, WithAccount, Debit, IntrinsicGas;
    DebitEffect(env, cfg, w, blockGas, tx);
    DebitSound(cfg, w, blockGas, tx);
    var w1 := WithAccount(env.codec, w, tx.from, Debit(cfg, w, blockGas, tx).value);
    DebitedEffect(env, cfg, w1, blockGas, number, tx);
  }

  lemma ExecuteSynced(env: Env, cfg: GasConfig, w: World, blockGas: U64, number: U64, tx: Transaction)
    requires Synced(env.codec, w)
    ensures Synced(env.codec, Execute(env, cfg, w, blockGas, number, tx).world)
  {
    hide ExecuteDebited, WithAccount, Debit, Synced;
    if Debit(cfg, w, blockGas, tx).Ok? {
      DebitEffect(env, cfg, w, blockGas, tx);
      DebitSound(cfg, w, blockGas, tx);
      DebitedEffect(env, cfg, WithAccount(env.codec, w, tx.from, Debit(cfg, w, blockGas, tx).value), blockGas,
        number, tx);
    }
  }

  /** There is code at the recipient, and it traps on the gas left after the intrinsic charge. */
  ghost predicate CodeTraps(env: Env, cfg: GasConfig, w: World, tx: Transaction) {
    && IntrinsicGas(cfg, tx) <= tx.gas
    && tx.to.Some? && GetOr(w.code, tx.to.value, []) != []
    && var to := tx.to.value;
       env.vm(to, w.code[to], Slots(w, to), tx.gas - IntrinsicGas(cfg, tx), tx.data).Trap?
  }

  /** The transaction gets past every check, and the code at its recipient then traps. */
  ghost predicate Traps(env: Env, cfg: GasConfig, w: World, blockGas: U64, tx: Transaction) {
    Debit(cfg, w, blockGas, tx).Ok? && CodeTraps(env, cfg, w, tx)
  }

  /** Paying an existing recipient changes neither code nor storage. */
  lemma CreditFrame(env: Env, w: World, tx: Transaction)
    requires tx.to.Some? && Credit(env, w, tx).Some?
    ensures Credit(env, w, tx).value.code == w.code && Credit(env, w, tx).value.storage == w.storage
  {
    hide StorageRoot;
  }

  lemma WithAccountFrame(c: Trie.Codec, w: World, a: Address, acc: Account)
    ensures WithAccount(c, w, a, acc).code == w.code && WithAccount(c, w, a, acc).storage == w.storage
  {
    hide StorageRoot;
  }

  lemma SlotsFrame(v: World, w: World, a: Address)
    requires v.storage == w.storage
    ensures Slots(v, a) == Slots(w, a)
  {
  }

  /** After the debit, with room for the value, the contract error is exactly a trap of the recipient's code. */
  lemma DebitedTraps(env: Env, cfg: GasConfig, w: World, w1: World, blockGas: U64, number: U64, tx: Transaction)
    requires IntrinsicGas(cfg, tx) <= tx.gas && w1.code == w.code && w1.storage == w.storage
    requires Credit(env, w1, tx).Some?
    ensures ExecuteDebited(env, cfg, w1, blockGas, number, tx).result == Err(VmError) <==> CodeTraps(env, cfg, w, tx)
  {
    hide Credit, Refund, IntrinsicGas, Slots, Written;
    if tx.to.Some? {
      CreditFrame(env, w1, tx);
      SlotsFrame(Credit(env, w1, tx).value, w, tx.to.value);
    }
  }

  /** After the debit of a supply that fits, only a trap can fail. */
  lemma DebitedFails(env: Env, cfg: GasConfig, w: World, w1: World, blockGas: U64, number: U64, tx: Transaction)
    requires IntrinsicGas(cfg, tx) <= tx.gas && w1.code == w.code && w1.storage == w.storage
    requires Total(w1.accounts) + tx.value + Mul(tx.gas, tx.gasPrice) < TWO_256
    ensures var r := ExecuteDebited(env, cfg, w1, blockGas, number, tx);
            && (r.result.Err? <==> CodeTraps(env, cfg, w, tx))
            && (r.result.Err? ==> r.result == Err(VmError) && r.blockGas == blockGas)
            && AccountAt(r.world, tx.from).nonce == AccountAt(w1, tx.from).nonce
  {
    hide *;
    CreditEffect(env, w1, tx);
    DebitedEffect(env, cfg, w1, blockGas, number, tx);
    DebitedTraps(env, cfg, w, w1, blockGas, number, tx);
  }

  /**
   Failed execution is not rolled back. While the supply fits in 256 bits, a transaction fails
   exactly when a check before the first write refuses it or the recipient's code traps, and it
   fails and still changes the state exactly when that code traps. The overflow exits after the
   first write cannot be taken.
   */
  lemma FailureAtomicity(env: Env, cfg: GasConfig, w: World, blockGas: U64, number: U64, tx: Transaction)
    requires Total(w.accounts) < TWO_256
    ensures var r := Execute(env, cfg, w, blockGas, number, tx);
            && (r.result.Err? <==> Debit(cfg, w, blockGas, tx).Err? || Traps(env, cfg, w, blockGas, tx))
            && (r.result.Err? && r.world != w <==> Traps(env, cfg, w, blockGas, tx))
            && (r.result == Err(VmError) <==> Traps(env, cfg, w, blockGas, tx))
            && (r.result.Err? ==> r.blockGas == blockGas)
  {
    hide *;
    DebitNeverTraps(cfg, w, blockGas, tx);
    ExecuteByDebit(env, cfg, w, blockGas, number, tx);
    TrapsParts(env, cfg, w, blockGas, tx);
    if Debit(cfg, w, blockGas, tx).Ok? {
      DebitEffect(env, cfg, w, blockGas, tx);
      DebitSound(cfg, w, blockGas, tx);
      var sender := Debit(cfg, w, blockGas, tx).value;
      var w1 := WithAccount(env.codec, w, tx.from, sender);
      WithAccountFrame(env.codec, w, tx.from, sender);
      DebitedFails(env, cfg, w, w1, blockGas, number, tx);
      assert AccountAt(Execute(env, cfg, w, blockGas, number, tx).world, tx.from).nonce != AccountAt(w, tx.from).nonce;
    }
  }

  lemma ExecuteByDebit(env: Env, cfg: GasConfig, w: World, blockGas: U64, number: U64, tx: Transaction)
    ensures var d, r := Debit(cfg, w, blockGas, tx), Execute(env, cfg, w, blockGas, number, tx);
            && (d.Err? ==> r == Step(w, blockGas, Err(d.error)))
            && (d.Ok? ==>
                  && IntrinsicGas(cfg, tx) <= tx.gas
                  && r == ExecuteDebited(env, cfg, WithAccount(env.codec, w, tx.from, d.value), blockGas, number, tx))
  {
    hide ExecuteDebited, WithAccount, IntrinsicGas;
  }

  lemma TrapsParts(env: Env, cfg: GasConfig, w: World, blockGas: U64, tx: Transaction)
    ensures Traps(env, cfg, w, blockGas, tx) <==> Debit(cfg, w, blockGas, tx).Ok? && CodeTraps(env, cfg, w, tx)
  {
    hide CodeTraps, Debit;
  }

  // ----- The executor

  class ExecutionContext {
    const blockNumber: U64
    const timestamp: U64
    var gasUsed: U64

    constructor (blockNumber: U64, timestamp: U64)
      ensures this.blockNumber == blockNumber && this.timestamp == timestamp && gasUsed == 0
    {
      this.blockNumber, this.timestamp, gasUsed := blockNumber, timestamp, 0;
    }
  }

  /** Gas left for execution after the intrinsic charge. */
  class GasMeter {
    const limit: U64
    var remaining: U64

    constructor (limit: U64, intrinsic: U64)
      requires intrinsic <= limit
      ensures this.limit == limit && remaining == limit - intrinsic
    {
      this.limit, remaining := limit, limit - intrinsic;
    }

    method Spend(amount: U64) returns (ok: bool)
      modifies this
      ensures ok <==> amount <= old(remaining)
      ensures remaining == if ok then old(remaining) - amount else old(remaining)
    {
      ok := amount <= remaining;
      if ok {
        remaining := remaining - amount;
      }
    }
  }

  class Executor {
    const state: StateDB
    const gasConfig: GasConfig

    constructor (state: StateDB, gasConfig: GasConfig)
      ensures this.state == state && this.gasConfig == gasConfig
    {
      this.state, this.gasConfig := state, gasConfig;
    }

    method ApplyWrites(a: Address, writes: seq<(H256, Word)>)
      modifies state
      ensures state.View() == Written(state.env.codec, old(state.View()), a, writes)
    {
      hide WithStorage;
      for i := 0 to |writes|
        invariant state.View() == Written(state.env.codec, old(state.View()), a, writes[..i])
      {
        state.SetStorage(a, writes[i].0, writes[i].1);
        assert writes[..i + 1][..i] == writes[..i];
      }
      assert writes[..|writes|] == writes;
    }

    /** Runs the recipient's code; `None` is a trap. */
    method ExecuteCall(tx: Transaction, gas: U64) returns (end: Option<CallEnd>)
      modifies state
      ensures (state.View(), end) == Call(state.env, old(state.View()), tx, gas)
    {
      if tx.to.None? {
        return Some(CallEnd(0, true, []));
      }
      var to := tx.to.value;
      var code := GetOr(state.code, to, []);
      if code == [] {
        return Some(CallEnd(0, true, []));
      }
      var slots := Slots(World(state.accounts, state.storage, state.code), to);
      var run := state.env.vm(to, code, slots, gas, tx.data);
      ApplyWrites(to, run.writes);
      match run
      case Trap(_) => return None;
      case Done(_, gasLeft, success, logs) => return Some(CallEnd(SaturatingSub(gas, gasLeft), success, logs));
    }

    /** Value transfer or contract creation; `false` is a balance overflow, with nothing written. */
    method CreditRecipient(tx: Transaction) returns (ok: bool)
      modifies state
      ensures ok <==> Credit(state.env, old(state.View()), tx).Some?
      ensures state.View() == if ok then Credit(state.env, old(state.View()), tx).value else old(state.View())
    {
      hide WithAccount;
      var to := Recipient(state.env, tx);
      var account := GetOr(state.accounts, to, EMPTY_ACCOUNT);
      var balance := CheckedAdd(account.balance, tx.value);
      if balance.None? {
        return false;
      }
      account := account.(balance := balance.value);
      if tx.to.Some? {
        state.SetAccount(to, account);
      } else {
        account := account.(codeHash := state.env.codec.keccak(tx.data));
        state.SetAccount(to, account);
        state.SetCode(to, tx.data);
      }
      return true;
    }

    method ExecuteTransaction(tx: Transaction, ctx: ExecutionContext) returns (r: Result<Outcome, ExecutionError>)
      modifies state, ctx
      ensures Step(state.View(), ctx.gasUsed, r) ==
              Execute(state.env, gasConfig, old(state.View()), old(ctx.gasUsed), ctx.blockNumber, tx)
    {
      hide WithAccount, Credit, Call, IntrinsicGas;
      var sender := GetOr(state.accounts, tx.from, EMPTY_ACCOUNT);
      if sender.nonce != tx.nonce {
        return Err(NonceMismatch(sender.nonce, tx.nonce));
      }
      var intrinsic := IntrinsicGas(gasConfig, tx);
      if tx.gas < intrinsic {
        return Err(OutOfGas);
      }
      var meter := new GasMeter(tx.gas, intrinsic);
      var gasCost := CheckedMul(tx.gas, tx.gasPrice);
      if gasCost.None? {
        return Err(Overflow);
      }
      var total := CheckedAdd(tx.value, gasCost.value);
      if total.None? {
        return Err(Overflow);
      }
      if sender.balance < total.value {
        return Err(InsufficientBalance);
      }
      var projected := SaturatingAdd64(ctx.gasUsed, tx.gas);
      if projected > gasConfig.maxGasPerBlock {
        return Err(BlockGasLimitExceeded);
      }
      sender := sender.(balance := sender.balance - total.value);
      if sender.nonce == U64_MAX {
        return Err(Overflow);
      }
      sender := sender.(nonce := sender.nonce + 1);
      state.SetAccount(tx.from, sender);
      r := FinishDebited(tx, ctx, meter);
    }

    /** Pays back unused gas; `false` is an overflow, with nothing written. */
    method RefundSender(tx: Transaction, unused: U64) returns (ok: bool)
      modifies state
      ensures ok <==> Refund(state.env, old(state.View()), tx, unused).Some?
      ensures state.View() == if ok then Refund(state.env, old(state.View()), tx, unused).value else old(state.View())
    {
      hide WithAccount, Mul;
      var refund := CheckedMul(unused, tx.gasPrice);
      if refund.None? {
        return false;
      }
      if refund.value != 0 {
        var sender := GetOr(state.accounts, tx.from, EMPTY_ACCOUNT);
        var balance := CheckedAdd(sender.balance, refund.value);
        if balance.None? {
          return false;
        }
        state.SetAccount(tx.from, sender.(balance := balance.value));
      }
      return true;
    }

    method FinishDebited(tx: Transaction, ctx: ExecutionContext, meter: GasMeter)
      returns (r: Result<Outcome, ExecutionError>)
      requires IntrinsicGas(gasConfig, tx) <= tx.gas == meter.limit
      requires meter.remaining == tx.gas - IntrinsicGas(gasConfig, tx)
      modifies state, ctx, meter
      ensures Step(state.View(), ctx.gasUsed, r) ==
              ExecuteDebited(state.env, gasConfig, old(state.View()), old(ctx.gasUsed), ctx.blockNumber, tx)
    {
      hide WithAccount, Credit, Call, Refund, IntrinsicGas;
      var credited := CreditRecipient(tx);
      if !credited {
        return Err(Overflow);
      }
      var end := ExecuteCall(tx, meter.remaining);
      if end.None? {
        return Err(VmError);
      }
      var call := end.value;
      if call.gasUsed > 0 {
        var spent := meter.Spend(call.gasUsed);
        if !spent {
          return Err(OutOfGas);
        }
      }
      var gasUsed := SaturatingSub(meter.limit, meter.remaining);
      var refundUnits := meter.remaining;
      var refunded := RefundSender(tx, refundUnits);
      if !refunded {
        return Err(Overflow);
      }
      ctx.gasUsed := SaturatingAdd64(ctx.gasUsed, gasUsed);
      var receipt := Receipt(state.env.txHash(tx), ctx.blockNumber, gasUsed, call.success, call.logs);
      return Ok(Outcome(receipt, gasUsed, refundUnits));
    }
  }

  // ----- Blocks and chains of blocks

  /** Running a transaction list, stopping at the first failure. */
  ghost function ExecuteAll(env: Env, w: World, blockGas: U64, number: U64, txs: seq<Transaction>)
    : (r: (World, U64, Option<ExecutionError>))
    decreases |txs|
  {
    if txs == [] then (w, blockGas, None)
    else
      var s := Execute(env, DEFAULT_GAS, w, blockGas, number, txs[0]);
      match s.result
      case Err(e) => (s.world, s.blockGas, Some(e))
      case Ok(_) => ExecuteAll(env, s.world, s.blockGas, number, txs[1..])
  }

  /** Gas charged, in money, by a transaction list that runs through. */
  ghost function Fees(env: Env, w: World, blockGas: U64, number: U64, txs: seq<Transaction>): nat
    decreases |txs|
  {
    if txs == [] then 0
    else
      var s := Execute(env, DEFAULT_GAS, w, blockGas, number, txs[0]);
      match s.result
      case Err(_) => 0
      case Ok(o) => Mul(o.gasUsed, txs[0].gasPrice) + Fees(env, s.world, s.blockGas, number, txs[1..])
  }

  /** The state after a block, or the error that makes the block invalid. */
  ghost function ExecuteBlock(env: Env, w: World, b: Block): (r: Result<World, ExecutionError>) {
    var (w', _, e) := ExecuteAll(env, w, 0, b.header.number, b.transactions);
    if e.Some? then Err(e.value) else Ok(w')
  }

  /** The state after a chain of blocks. */
  ghost function ExecuteChain(env: Env, w: World, blocks: seq<Block>): (r: Result<World, ExecutionError>)
    decreases |blocks|
  {
    if blocks == [] then Ok(w)
    else
      match ExecuteBlock(env, w, blocks[0])
      case Err(e) => Err(e)
      case Ok(w') => ExecuteChain(env, w', blocks[1..])
  }

  ghost function ChainFees(env: Env, w: World, blocks: seq<Block>): nat
    decreases |blocks|
  {
    if blocks == [] then 0
    else
      match ExecuteBlock(env, w, blocks[0])
      case Err(_) => 0
      case Ok(w') =>
        Fees(env, w, 0, blocks[0].header.number, blocks[0].transactions) + ChainFees(env, w', blocks[1..])
  }

  function AllTransactions(blocks: seq<Block>): seq<Transaction> {
    if blocks == [] then [] else blocks[0].transactions + AllTransactions(blocks[1..])
  }

  function CountFrom(txs: seq<Transaction>, a: Address): nat {
    if txs == [] then 0 else (if txs[0].from == a then 1 else 0) + CountFrom(txs[1..], a)
  }

  /** Nonces run up from those of `w`: the k-th transaction of a sender carries its starting nonce plus k. */
  ghost predicate NoncesFrom(w: World, txs: seq<Transaction>) {
    forall i :: 0 <= i < |txs| ==> txs[i].nonce == AccountAt(w, txs[i].from).nonce + CountFrom(txs[..i], txs[i].from)
  }

  ghost predicate NoncesAfter(w: World, w': World, txs: seq<Transaction>) {
    forall a :: AccountAt(w', a).nonce == AccountAt(w, a).nonce + CountFrom(txs, a)
  }

  lemma {:induction false} CountFromAppend(s: seq<Transaction>, t: seq<Transaction>, a: Address)
    ensures CountFrom(s + t, a) == CountFrom(s, a) + CountFrom(t, a)
  {
    if s == [] {
      assert s + t == t;
    } else {
      assert (s + t)[1..] == s[1..] + t;
      CountFromAppend(s[1..], t, a);
    }
  }

  /** Nonce runs compose. */
  lemma NoncesCompose(w: World, v: World, s: seq<Transaction>, t: seq<Transaction>)
    requires NoncesFrom(w, s) && NoncesAfter(w, v, s) && NoncesFrom(v, t)
    ensures NoncesFrom(w, s + t)
  {
    forall i | 0 <= i < |s + t|
      ensures (s + t)[i].nonce == AccountAt(w, (s + t)[i].from).nonce + CountFrom((s + t)[..i], (s + t)[i].from)
    {
      if i < |s| {
        assert (s + t)[..i] == s[..i];
      } else {
        assert (s + t)[..i] == s + t[..i - |s|];
        CountFromAppend(s, t[..i - |s|], (s + t)[i].from);
      }
    }
  }

  lemma {:induction false} ExecuteAllEffect(env: Env, w: World, blockGas: U64, number: U64, txs: seq<Transaction>)
    requires ExecuteAll(env, w, blockGas, number, txs).2.None?
    ensures var (w', gas', _) := ExecuteAll(env, w, blockGas, number, txs);
            && Total(w'.accounts) + Fees(env, w, blockGas, number, txs) == Total(w.accounts)
            && NoncesFrom(w, txs) && NoncesAfter(w, w', txs)
    decreases |txs|
  {
    hide Execute, Total, Mul;
    if txs != [] {
      var s := Execute(env, DEFAULT_GAS, w, blockGas, number, txs[0]);
      ExecuteConserves(env, DEFAULT_GAS, w, blockGas, number, txs[0]);
      ExecuteNonceAndGas(env, DEFAULT_GAS, w, blockGas, number, txs[0]);
      ExecuteAllEffect(env, s.world, s.blockGas, number, txs[1..]);
      assert txs == [txs[0]] + txs[1..];
      assert forall a :: CountFrom([txs[0]], a) == if txs[0].from == a then 1 else 0;
      assert forall a :: CountFrom([txs[0]] + txs[1..], a) == CountFrom([txs[0]], a) + CountFrom(txs[1..], a) by {
        forall a { CountFromAppend([txs[0]], txs[1..], a); }
      }
      NoncesCompose(w, s.world, [txs[0]], txs[1..]);
    }
  }

  lemma {:induction false} ExecuteAllSynced(env: Env, w: World, blockGas: U64, number: U64, txs: seq<Transaction>)
    requires Synced(env.codec, w)
    ensures Synced(env.codec, ExecuteAll(env, w, blockGas, number, txs).0)
    decreases |txs|
  {
    hide Execute, Synced;
    if txs != [] {
      ExecuteSynced(env, DEFAULT_GAS, w, blockGas, number, txs[0]);
      var s := Execute(env, DEFAULT_GAS, w, blockGas, number, txs[0]);
      ExecuteAllSynced(env, s.world, s.blockGas, number, txs[1..]);
    }
  }

  /** Conservation along any chain: balances at the tip plus all fees make up the starting supply. */
  lemma {:induction false} ChainConserves(env: Env, w: World, blocks: seq<Block>)
    requires ExecuteChain(env, w, blocks).Ok?
    ensures Total(ExecuteChain(env, w, blocks).value.accounts) + ChainFees(env, w, blocks) == Total(w.accounts)
    decreases |blocks|
  {
    hide ExecuteAll, Fees, Total;
    if blocks != [] {
      ExecuteAllEffect(env, w, 0, blocks[0].header.number, blocks[0].transactions);
      ChainConserves(env, ExecuteBlock(env, w, blocks[0]).value, blocks[1..]);
    }
  }

  /** Nonce sequencing along any chain: the tip nonces count the transactions of each sender. */
  lemma {:induction false} ChainNonces(env: Env, w: World, blocks: seq<Block>)
    requires ExecuteChain(env, w, blocks).Ok?
    ensures NoncesFrom(w, AllTransactions(blocks))
    ensures NoncesAfter(w, ExecuteChain(env, w, blocks).value, AllTransactions(blocks))
    decreases |blocks|
  {
    hide ExecuteAll, NoncesFrom;
    if blocks == [] {
      NoncesFromEmpty(w);
    } else {
      var txs, rest := blocks[0].transactions, AllTransactions(blocks[1..]);
      ExecuteAllEffect(env, w, 0, blocks[0].header.number, txs);
      var w' := ExecuteBlock(env, w, blocks[0]).value;
      ChainNonces(env, w', blocks[1..]);
      NoncesCompose(w, w', txs, rest);
      forall a { CountFromAppend(txs, rest, a); }
    }
  }

  lemma NoncesFromEmpty(w: World)
    ensures NoncesFrom(w, [])
  {
  }

  /** No (sender, nonce) pair is ever included twice on one chain. */
  lemma ChainNoncesDistinct(env: Env, w: World, blocks: seq<Block>, i: nat, j: nat)
    requires ExecuteChain(env, w, blocks).Ok?
    requires i < j < |AllTransactions(blocks)|
    requires AllTransactions(blocks)[i].from == AllTransactions(blocks)[j].from
    ensures AllTransactions(blocks)[i].nonce < AllTransactions(blocks)[j].nonce
  {
    hide ExecuteChain;
    var txs := AllTransactions(blocks);
    ChainNonces(env, w, blocks);
    assert txs[..j] == txs[..i] + txs[i..j];
    CountFromAppend(txs[..i], txs[i..j], txs[i].from);
    assert txs[i..j][0] == txs[i];
  }
}
