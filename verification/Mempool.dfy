/** The pool of pending transactions: admission leaves every sender able to pay for all of them. */
module Mempools {
  import opened Wrappers
  import opened ByteStrings
  import opened Transactions
  import opened AddrBytes
  import opened Ledger
  import opened StoreIndex
  import opened StoreSpec
  import opened StoreQueries
  import opened BalanceQueries
  import opened Consensus
  import opened Digest
  import opened Nodes

  /** Two hours, in the hundredths of a second that timestamps count. */
  const REFUSE_OLDER_THAN: int := 720000

  // ------------------------------------------------------------------ pending spends

  /** Is the transaction young enough at `now`? */
  predicate Young(tx: Tx, now: int) {
    tx.timestamp > now - REFUSE_OLDER_THAN
  }

  function StillValid(txs: seq<Tx>, now: int): (r: seq<Tx>)
    ensures forall tx :: tx in r <==> tx in txs && Young(tx, now)
  {
    if txs == [] then [] else
      var n := |txs| - 1;
      assert txs == txs[..n] + [txs[n]];
      if Young(txs[n], now) then StillValid(txs[..n], now) + [txs[n]] else StillValid(txs[..n], now)
  }

  /** Transfers and fees of one sender. */
  function Cost(rules: Rules, chain: seq<Block>, txs: seq<Tx>, a: Bytes): int {
    if txs == [] then 0 else
      Cost(rules, chain, txs[..|txs| - 1], a)
      + (if txs[|txs| - 1].address == a then txs[|txs| - 1].amount + FeeOf(rules, chain, txs[|txs| - 1]) else 0)
  }

  ghost predicate NonNegative(txs: seq<Tx>) {
    forall tx :: tx in txs ==> tx.amount >= 0
  }

  lemma {:induction false} CostSnoc(rules: Rules, chain: seq<Block>, txs: seq<Tx>, tx: Tx, a: Bytes)
    ensures Cost(rules, chain, txs + [tx], a) ==
      Cost(rules, chain, txs, a) + (if tx.address == a then tx.amount + FeeOf(rules, chain, tx) else 0)
  {
    assert (txs + [tx])[..|txs|] == txs;
  }

  lemma {:induction false} CostConcat(rules: Rules, chain: seq<Block>, x: seq<Tx>, y: seq<Tx>, a: Bytes)
    ensures Cost(rules, chain, x + y, a) == Cost(rules, chain, x, a) + Cost(rules, chain, y, a)
  {
    if y == [] {
      assert x + y == x;
    } else {
      Snoc(x, y);
      CostConcat(rules, chain, x, y[..|y| - 1], a);
      CostSnoc(rules, chain, x + y[..|y| - 1], y[|y| - 1], a);
    }
  }

  lemma {:induction false} CostIsSpend(rules: Rules, chain: seq<Block>, txs: seq<Tx>, a: Bytes)
    ensures Cost(rules, chain, txs, a) == Debit(txs, a) + Fees(rules, chain, txs, a)
  {
    if txs != [] {
      CostIsSpend(rules, chain, txs[..|txs| - 1], a);
    }
  }

  lemma {:induction false} CostNonNegative(rules: Rules, chain: seq<Block>, txs: seq<Tx>, a: Bytes)
    requires NonNegative(txs)
    ensures Cost(rules, chain, txs, a) >= 0
  {
    if txs != [] {
      assert txs[|txs| - 1] in txs && forall tx :: tx in txs[..|txs| - 1] ==> tx in txs;
      CostNonNegative(rules, chain, txs[..|txs| - 1], a);
    }
  }

  /** A selection without repeats from a list costs at most the list. */
  lemma {:induction false} SelectionCosts(rules: Rules, chain: seq<Block>, some: seq<Tx>, all: seq<Tx>, a: Bytes)
    requires NonNegative(all) && DistinctSignatures(some) && forall tx :: tx in some ==> tx in all
    ensures Cost(rules, chain, some, a) <= Cost(rules, chain, all, a)
    decreases |some|
  {
    if some == [] {
      CostNonNegative(rules, chain, all, a);
    } else {
      var n := |some| - 1;
      var tx := some[n];
      assert tx in some;
      var i :| 0 <= i < |all| && all[i] == tx;
      var rest := all[..i] + all[i + 1..];
      assert all == all[..i] + ([tx] + all[i + 1..]);
      forall t | t in some[..n] ensures t in rest {
        assert t in some && t != tx;
      }
      SelectionCosts(rules, chain, some[..n], rest, a);
      hide Cost;
      CostTaken(rules, chain, all[..i], tx, all[i + 1..], a);
      CostLast(rules, chain, some, a);
    }
  }

  lemma {:induction false} CostLast(rules: Rules, chain: seq<Block>, txs: seq<Tx>, a: Bytes)
    requires txs != []
    ensures Cost(rules, chain, txs, a) == Cost(rules, chain, txs[..|txs| - 1], a)
      + (if txs[|txs| - 1].address == a then txs[|txs| - 1].amount + FeeOf(rules, chain, txs[|txs| - 1]) else 0)
  {
  }

  lemma {:induction false} CostTaken(rules: Rules, chain: seq<Block>, x: seq<Tx>, tx: Tx, y: seq<Tx>, a: Bytes)
    ensures Cost(rules, chain, x + ([tx] + y), a) ==
      Cost(rules, chain, x + y, a) + (if tx.address == a then tx.amount + FeeOf(rules, chain, tx) else 0)
  {
    CostConcat(rules, chain, x, [tx] + y, a);
    CostConcat(rules, chain, [tx], y, a);
    CostConcat(rules, chain, x, y, a);
    CostSnoc(rules, chain, [], tx, a);
    assert [] + [tx] == [tx];
  }

  // ------------------------------------------------------------------ the invariant

  ghost predicate Sends(txs: seq<Tx>, a: Bytes) {
    exists tx :: tx in txs && tx.address == a
  }

  /** Whatever a sender has pending and still valid fits what it may spend. */
  ghost predicate Covered(rules: Rules, alloc: map<Address, int>, chain: seq<Block>, txs: seq<Tx>, now: int)
    requires chain != []
  {
    forall a: Address :: Sends(StillValid(txs, now), a) ==>
      Cost(rules, chain, StillValid(txs, now), a) <= Spendable(rules, alloc, chain, a)
  }

  /** Fewer transactions, or a later time, keep the invariant. */
  lemma {:induction false} CoveredFewer(rules: Rules, alloc: map<Address, int>, chain: seq<Block>, txs: seq<Tx>,
                                        now: int, fewer: seq<Tx>, later: int)
    requires chain != [] && Covered(rules, alloc, chain, txs, now) && NonNegative(txs)
    requires DistinctSignatures(fewer) && (forall tx :: tx in fewer ==> tx in txs) && now <= later
    ensures Covered(rules, alloc, chain, fewer, later)
  {
    hide Cost, Spendable;
    var some, all := StillValid(fewer, later), StillValid(txs, now);
    StillValidDistinct(fewer, later);
    forall a: Address | Sends(some, a) ensures Cost(rules, chain, some, a) <= Spendable(rules, alloc, chain, a) {
      SelectionCosts(rules, chain, some, all, a);
      assert Sends(all, a);
    }
  }

  lemma {:induction false} StillValidDistinct(txs: seq<Tx>, now: int)
    requires DistinctSignatures(txs)
    ensures DistinctSignatures(StillValid(txs, now))
  {
    if txs != [] {
      var n := |txs| - 1;
      StillValidDistinct(txs[..n], now);
      var r := StillValid(txs[..n], now);
      forall i | 0 <= i < |r| ensures r[i].signature != txs[n].signature {
        assert r[i] in txs[..n];
      }
    }
  }

  /** Every block built from still-valid pool transactions passes the digester's balance checks. */
  lemma {:induction false} PoolAffordable(rules: Rules, alloc: map<Address, int>, chain: seq<Block>, pool: seq<Tx>,
                                          now: int, payments: seq<Tx>, coinbase: Tx)
    requires chain != [] && Covered(rules, alloc, chain, pool, now) && NonNegative(pool)
    requires DistinctSignatures(payments) && forall tx :: tx in payments ==> tx in pool && Young(tx, now)
    requires coinbase.amount == 0
    ensures Affordable(rules, alloc, chain, payments + [coinbase])
  {
    hide Spendable, Cost, Debit, Fees;
    var txs, n, valid := payments + [coinbase], |payments|, StillValid(pool, now);
    assert txs[..n] == payments;
    forall i | 0 <= i < n ensures Affords(rules, alloc, chain, txs, txs[i].address) {
      var a := txs[i].address;
      assert txs[i] == payments[i];
      assert Sends(valid, a);
      SelectionCosts(rules, chain, payments, valid, a);
      CostIsSpend(rules, chain, payments, a);
      SpendSnoc(rules, chain, payments, coinbase, a);
    }
  }

  // ------------------------------------------------------------------ the pool

  /** The pool without one signature. */
  function Dropped(txs: seq<Tx>, sig: Bytes): (r: seq<Tx>)
    ensures forall tx :: tx in r <==> tx in txs && tx.signature != sig
    ensures |r| <= |txs| && (sig !in Signatures(txs) ==> r == txs)
  {
    if txs == [] then [] else
      var n := |txs| - 1;
      assert txs == txs[..n] + [txs[n]];
      assert sig !in Signatures(txs) ==> sig !in Signatures(txs[..n]) && txs[n].signature != sig by {
        assert Signatures(txs)[n] == txs[n].signature;
        assert forall i :: 0 <= i < n ==> Signatures(txs[..n])[i] == Signatures(txs)[i];
      }
      if txs[n].signature == sig then Dropped(txs[..n], sig) else Dropped(txs[..n], sig) + [txs[n]]
  }

  lemma {:induction false} DroppedDistinct(txs: seq<Tx>, sig: Bytes)
    requires DistinctSignatures(txs)
    ensures DistinctSignatures(Dropped(txs, sig))
  {
    if txs != [] {
      var n := |txs| - 1;
      DroppedDistinct(txs[..n], sig);
      var r := Dropped(txs[..n], sig);
      forall i | 0 <= i < |r| ensures r[i].signature != txs[n].signature {
        assert r[i] in txs[..n];
      }
    }
  }

  /** `purge`: what stays. */
  lemma {:induction false} StillValidSnoc(txs: seq<Tx>, tx: Tx, now: int)
    ensures StillValid(txs + [tx], now) == StillValid(txs, now) + (if Young(tx, now) then [tx] else [])
  {
    assert (txs + [tx])[..|txs|] == txs;
  }

  lemma {:induction false} PurgedValid(txs: seq<Tx>, now: int)
    ensures StillValid(StillValid(txs, now), now) == StillValid(txs, now)
  {
    hide StillValid, Young;
    if txs == [] {
      NonePurged(now);
    } else {
      var n := |txs| - 1;
      var init, r := txs[..n], StillValid(txs[..n], now);
      PurgedValid(init, now);
      assert txs == init + [txs[n]];
      StillValidSnoc(init, txs[n], now);
      StillValidSnoc(r, txs[n], now);
      assert r + [] == r;
    }
  }

  lemma {:induction false} NonePurged(now: int)
    ensures StillValid([], now) == []
  {
  }

  /** Everything `merge` asks of a transaction before it looks at balances; `screen` is format, size and signature. */
  predicate Presentable(tx: Tx, now: int, screen: Tx -> bool) {
    screen(tx) && tx.amount >= 0 && tx.timestamp <= now && tx.timestamp >= now - REFUSE_OLDER_THAN
  }

  /** What the sender would owe for its pending transactions and this one fits what it may spend. */
  ghost predicate PaysFor(rules: Rules, alloc: map<Address, int>, chain: seq<Block>, txs: seq<Tx>, tx: Tx, time: int)
    requires chain != []
  {
    Spendable(rules, alloc, chain, tx.address) >=
      Cost(rules, chain, StillValid(txs, time), tx.address) + tx.amount + FeeOf(rules, chain, tx)
  }

  /** The pool after one transaction is offered: added, dropped because it is on the ledger, or ignored. */
  ghost function Offered(rules: Rules, alloc: map<Address, int>, chain: seq<Block>, txs: seq<Tx>, tx: Tx, now: int,
                         time: int, screen: Tx -> bool): seq<Tx>
    requires chain != []
  {
    if !Presentable(tx, now, screen) then txs
    else if OnLedger(chain, tx.signature) then Dropped(txs, tx.signature)
    else if tx.signature !in Signatures(txs) && PaysFor(rules, alloc, chain, txs, tx, time) then txs + [tx]
    else txs
  }

  /**
   When a transaction is taken in: it passes the screen, is not from the future and at most two hours
   old, its signature is neither on the chain nor in the pool, and the sender can pay for it on top of
   everything of theirs that is still valid.
   */
  lemma {:induction false} TakenIn(rules: Rules, alloc: map<Address, int>, chain: seq<Block>, txs: seq<Tx>, tx: Tx,
                                   now: int, time: int, screen: Tx -> bool)
    requires chain != [] && tx.signature != [] && tx.signature != [48] && tx.signature != [78, 111, 110, 101]
    requires forall p :: p in txs ==> p.signature != tx.signature
    ensures tx in Offered(rules, alloc, chain, txs, tx, now, time, screen) <==>
      && screen(tx) && tx.amount >= 0 && 0 <= now - tx.timestamp <= 720000
      && (forall e :: e in Entries(chain) ==> e.row.signature != tx.signature)
      && var pending := StillValid(txs, time);
         tx.amount + rules.fee(tx.openfield, tx.operation, rules.baseFee(chain))
           + Debit(pending, tx.address) + Fees(rules, chain, pending, tx.address)
           <= Spendable(rules, alloc, chain, tx.address)
  {
    hide Entries, Spendable, StillValid, Debit, Fees, Cost;
    CostIsSpend(rules, chain, StillValid(txs, time), tx.address);
    assert tx !in txs;
    assert tx.signature !in Signatures(txs);
  }

  /** The pool after a list is offered in order, transaction `i` at time `clock(i)`. */
  ghost function Merged(rules: Rules, alloc: map<Address, int>, chain: seq<Block>, txs: seq<Tx>, data: seq<Tx>,
                        now: int, clock: nat -> int, screen: Tx -> bool): seq<Tx>
    requires chain != []
  {
    if data == [] then txs else
      var n := |data| - 1;
      Offered(rules, alloc, chain, Merged(rules, alloc, chain, txs, data[..n], now, clock, screen),
        data[n], now, clock(n), screen)
  }

  lemma {:induction false} CoveredMore(rules: Rules, alloc: map<Address, int>, chain: seq<Block>, txs: seq<Tx>, tx: Tx,
                                       time: int)
    requires chain != [] && Covered(rules, alloc, chain, txs, time) && PaysFor(rules, alloc, chain, txs, tx, time)
    requires tx.amount >= 0
    ensures Covered(rules, alloc, chain, txs + [tx], time)
  {
    var before, after := StillValid(txs, time), StillValid(txs + [tx], time);
    assert (txs + [tx])[..|txs|] == txs;
    hide Spendable, Cost, StillValid;
    forall a: Address | Sends(after, a) ensures Cost(rules, chain, after, a) <= Spendable(rules, alloc, chain, a) {
      if Young(tx, time) {
        CostSnoc(rules, chain, before, tx, a);
      }
      if a != tx.address {
        assert Sends(before, a);
      }
    }
  }

  lemma {:induction false} NothingPending(rules: Rules, chain: seq<Block>, now: int, a: Bytes)
    ensures Cost(rules, chain, StillValid([], now), a) == 0
  {
  }

  lemma {:induction false} PendingNext(rules: Rules, chain: seq<Block>, txs: seq<Tx>, i: nat, now: int, a: Bytes)
    requires i < |txs|
    ensures Cost(rules, chain, StillValid(txs[..i + 1], now), a) == Cost(rules, chain, StillValid(txs[..i], now), a)
      + (if Young(txs[i], now) && txs[i].address == a then txs[i].amount + FeeOf(rules, chain, txs[i]) else 0)
  {
    hide Cost;
    assert txs[..i + 1][..i] == txs[..i];
    CostSnoc(rules, chain, StillValid(txs[..i], now), txs[i], a);
  }

  class Mempool {
    /** Keyed by signature, in the order of insertion. */
    var txs: seq<Tx>

    ghost predicate Valid()
      reads this
    {
      DistinctSignatures(txs) && NonNegative(txs)
    }

    constructor ()
      ensures Valid() && txs == []
    {
      txs := [];
    }

    /** `mp_get`: the still-valid transactions an address sends, and what they cost it. */
    method Pending(rules: Rules, base: nat, a: Address, now: int, ghost chain: seq<Block>) returns (debit: int)
      requires base == rules.baseFee(chain)
      ensures debit == Cost(rules, chain, StillValid(txs, now), a)
    {
      hide Cost, StillValid;
      debit := 0;
      var i := 0;
      TakeAll(txs);
      NothingPending(rules, chain, now, a);
      while i < |txs|
        invariant 0 <= i <= |txs| && debit == Cost(rules, chain, StillValid(txs[..i], now), a)
      {
        PendingNext(rules, chain, txs, i, now, a);
        var tx := txs[i];
        if tx.address == a && tx.timestamp > now - REFUSE_OLDER_THAN {
          debit := debit + tx.amount + rules.fee(tx.openfield, tx.operation, base);
        }
        i := i + 1;
      }
    }

    /** `delete_transaction` */
    method Delete(sig: Bytes)
      requires Valid()
      modifies this
      ensures Valid() && txs == Dropped(old(txs), sig)
      ensures forall rules, alloc, chain: seq<Block>, now ::
        chain != [] && Covered(rules, alloc, chain, old(txs), now) ==> Covered(rules, alloc, chain, txs, now)
    {
      hide Covered;
      DroppedDistinct(txs, sig);
      forall rules, alloc, chain: seq<Block>, now | chain != [] && Covered(rules, alloc, chain, txs, now)
        ensures Covered(rules, alloc, chain, Dropped(txs, sig), now)
      {
        CoveredFewer(rules, alloc, chain, txs, now, Dropped(txs, sig), now);
      }
      txs := Dropped(txs, sig);
    }

    /** `purge` */
    method Purge(now: int)
      requires Valid()
      modifies this
      ensures Valid() && txs == StillValid(old(txs), now) && StillValid(txs, now) == txs
      ensures forall tx :: tx in txs <==> tx in old(txs) && now - tx.timestamp < 720000
    {
      StillValidDistinct(txs, now);
      PurgedValid(txs, now);
      txs := StillValid(txs, now);
    }

    /** The balance part of `merge` for one transaction. */
    method CanPay(codec: Codec, rules: Rules, db: Db, base: nat, tx: Tx, time: int, ghost chain: seq<Block>)
      returns (ok: bool)
      requires Valid() && Refines(codec, rules.fork, db, chain) && chain != [] && base == rules.baseFee(chain)
      requires tx.amount >= 0
      ensures ok <==> PaysFor(rules, db.alloc, chain, txs, tx, time)
    {
      hide Refines, Entries, Immature, Total;
      var debit := Pending(rules, base, tx.address, time, chain);
      CostOfValid(rules, chain, txs, time, tx.address);
      hide Cost;
      var tip, _ := StoreTip(codec, rules.fork, db, chain);
      var parts := BalanceParts(codec, rules.fork, db, tx.address, chain);
      var balancePre := parts.Net();
      var balance := balancePre - debit - tx.amount;
      var immature := ImmatureCoinbase(codec, rules, db, tip + 1, tx.address, chain);
      balance, balancePre := balance - immature, balancePre - immature;
      var fee := rules.fee(tx.openfield, tx.operation, base);
      ok := !(tx.amount > balancePre) && !(balance - fee < 0);
    }

    /** One turn of the loop of `merge`; `now` is when the merge started, `time` when balances are read. */
    method MergeOne(codec: Codec, rules: Rules, db: Db, base: nat, tx: Tx, now: int, time: int, screen: Tx -> bool,
                    ghost chain: seq<Block>)
      returns (added: bool)
      requires Valid() && Refines(codec, rules.fork, db, chain) && chain != [] && base == rules.baseFee(chain)
      requires Covered(rules, db.alloc, chain, txs, time)
      modifies this
      ensures Valid() && Covered(rules, db.alloc, chain, txs, time)
      ensures txs == Offered(rules, db.alloc, chain, old(txs), tx, now, time, screen)
      ensures added <==> |txs| > |old(txs)|
    {
      hide Refines, Covered, PaysFor, Entries, OnLedger;
      added := false;
      if !Presentable(tx, now, screen) {
        return;
      }
      var pooled := tx.signature in Signatures(txs);
      var confirmed := Confirmed(codec, rules, db, tx.signature, chain);
      if confirmed {
        if pooled {
          Delete(tx.signature);
        }
        return;
      }
      if pooled {
        return;
      }
      var ok := CanPay(codec, rules, db, base, tx, time, chain);
      if ok {
        CoveredMore(rules, db.alloc, chain, txs, tx, time);
        KeyedMore(txs, tx);
        txs := txs + [tx];
        added := true;
      }
    }

    /** `merge` of a list of transactions, read at times `clock(0)`, `clock(1)`, ... */
    method Merge(codec: Codec, rules: Rules, db: Db, base: nat, data: seq<Tx>, now: int, clock: nat -> int,
                 screen: Tx -> bool, ghost chain: seq<Block>)
      requires Valid() && Refines(codec, rules.fork, db, chain) && chain != [] && base == rules.baseFee(chain)
      requires Covered(rules, db.alloc, chain, txs, now) && forall i, j :: i <= j ==> now <= clock(i) <= clock(j)
      modifies this
      ensures Valid() && Covered(rules, db.alloc, chain, txs, clock(|data|))
      ensures txs == Merged(rules, db.alloc, chain, old(txs), data, now, clock, screen)
    {
      hide Refines, Covered, PaysFor, Entries, OnLedger, Offered;
      TakeAll(data);
      CoveredFewer(rules, db.alloc, chain, txs, now, txs, clock(0));
      var i: nat := 0;
      while i < |data|
        invariant i <= |data| && Valid() && Covered(rules, db.alloc, chain, txs, clock(i))
        invariant txs == Merged(rules, db.alloc, chain, old(txs), data[..i], now, clock, screen)
      {
        assert data[..i + 1][..i] == data[..i];
        var _ := MergeOne(codec, rules, db, base, data[i], now, clock(i), screen, chain);
        CoveredFewer(rules, db.alloc, chain, txs, clock(i), txs, clock(i + 1));
        i := i + 1;
      }
    }
  }

  ghost predicate OnLedger(chain: seq<Block>, sig: Bytes) {
    Indexable(sig) && SeenSignature(Entries(chain), sig)
  }

  /** Is a transaction with this signature on the confirmed chain? */
  method Confirmed(codec: Codec, rules: Rules, db: Db, sig: Bytes, ghost chain: seq<Block>) returns (found: bool)
    requires Refines(codec, rules.fork, db, chain) && chain != []
    ensures found <==> OnLedger(chain, sig)
  {
    hide Refines, Entries, Indexable;
    var tip, _ := StoreTip(codec, rules.fork, db, chain);
    var rows := SignatureRows(codec, rules.fork, db, sig, Some(tip), 1, chain);
    RefinesParts(codec, rules.fork, db, chain);
    hide WellFormed, Derived, Balances;
    ConfirmedSignature(rules, chain, sig, tip);
    SomeElement(Carriers(sig, Some(tip), Entries(chain)));
    hide Carries;
    found := rows != [];
  }

  lemma {:induction false} KeyedMore(txs: seq<Tx>, tx: Tx)
    requires DistinctSignatures(txs) && NonNegative(txs) && tx.signature !in Signatures(txs) && tx.amount >= 0
    ensures DistinctSignatures(txs + [tx]) && NonNegative(txs + [tx])
  {
    assert forall i :: 0 <= i < |txs| ==> Signatures(txs)[i] in Signatures(txs);
  }

  lemma {:induction false} CostOfValid(rules: Rules, chain: seq<Block>, txs: seq<Tx>, now: int, a: Bytes)
    requires NonNegative(txs)
    ensures Cost(rules, chain, StillValid(txs, now), a) >= 0
  {
    CostNonNegative(rules, chain, StillValid(txs, now), a);
  }

  // ------------------------------------------------------------------ runs

  /** What happens to a pool while the ledger tip stands still. */
  datatype PoolOp =
    | Take(data: seq<Tx>, now: int, clock: nat -> int)
    | Forget(sig: Bytes, now: int)
    | Clean(now: int)

  function End(op: PoolOp): int {
    if op.Take? then op.clock(|op.data|) else op.now
  }

  /** Time does not run backwards, within an operation or between operations. */
  ghost predicate Orderly(ops: seq<PoolOp>, start: int) {
    && (forall k :: 0 <= k < |ops| && ops[k].Take? ==>
      forall i, j :: i <= j ==> ops[k].now <= ops[k].clock(i) <= ops[k].clock(j))
    && (forall k :: 0 <= k < |ops| ==> start <= ops[k].now <= End(ops[k]))
    && (forall k, l :: 0 <= k < l < |ops| ==> End(ops[k]) <= ops[l].now)
  }

  /** Every block of young pool transactions, in any selection and order, passes the overspend and fee checks. */
  ghost predicate AllAffordable(rules: Rules, alloc: map<Address, int>, chain: seq<Block>, pool: seq<Tx>, now: int)
    requires chain != []
  {
    forall payments: seq<Tx>, coinbase: Tx ::
      && DistinctSignatures(payments) && coinbase.amount == 0
      && (forall tx :: tx in payments ==> tx in pool && Young(tx, now))
      ==> Affordable(rules, alloc, chain, payments + [coinbase])
  }

  lemma {:induction false} CoveredAffordable(rules: Rules, alloc: map<Address, int>, chain: seq<Block>, pool: seq<Tx>,
                                             now: int)
    requires chain != [] && NonNegative(pool) && Covered(rules, alloc, chain, pool, now)
    ensures AllAffordable(rules, alloc, chain, pool, now)
  {
    hide Affordable, Covered;
    forall payments: seq<Tx>, coinbase: Tx |
      && DistinctSignatures(payments) && coinbase.amount == 0
      && (forall tx :: tx in payments ==> tx in pool && Young(tx, now))
      ensures Affordable(rules, alloc, chain, payments + [coinbase])
    {
      PoolAffordable(rules, alloc, chain, pool, now, payments, coinbase);
    }
  }

  method RunPoolOp(pool: Mempool, codec: Codec, rules: Rules, db: Db, base: nat, op: PoolOp, screen: Tx -> bool,
                   ghost chain: seq<Block>)
    requires pool.Valid() && Refines(codec, rules.fork, db, chain) && chain != [] && base == rules.baseFee(chain)
    requires Covered(rules, db.alloc, chain, pool.txs, op.now)
    requires op.Take? ==> forall i, j :: i <= j ==> op.now <= op.clock(i) <= op.clock(j)
    modifies pool
    ensures pool.Valid() && Covered(rules, db.alloc, chain, pool.txs, End(op))
    ensures pool.txs ==
      match op
      case Take(data, t, clock) => Merged(rules, db.alloc, chain, old(pool.txs), data, t, clock, screen)
      case Forget(sig, _) => Dropped(old(pool.txs), sig)
      case Clean(t) => StillValid(old(pool.txs), t)
  {
    hide Refines, Covered, Merged, Dropped, StillValid;
    match op {
      case Take(data, t, clock) =>
        pool.Merge(codec, rules, db, base, data, t, clock, screen, chain);
      case Forget(sig, _) =>
        pool.Delete(sig);
      case Clean(t) =>
        ghost var txs := pool.txs;
        pool.Purge(t);
        CoveredFewer(rules, db.alloc, chain, txs, t, pool.txs, t);
    }
  }

  /**
   Any run of merges, deletions and purges at a fixed tip: every block made of still-valid pool
   transactions, in any selection and order, passes the digester's overspend and fee checks.
   */
  method RunPool(pool: Mempool, codec: Codec, rules: Rules, db: Db, base: nat, ops: seq<PoolOp>, start: int,
                 screen: Tx -> bool, ghost chain: seq<Block>)
    returns (now: int)
    requires pool.Valid() && Refines(codec, rules.fork, db, chain) && chain != [] && base == rules.baseFee(chain)
    requires Orderly(ops, start) && Covered(rules, db.alloc, chain, pool.txs, start)
    modifies pool
    ensures pool.Valid() && Covered(rules, db.alloc, chain, pool.txs, now)
    ensures AllAffordable(rules, db.alloc, chain, pool.txs, now)
  {
    hide Refines, Covered, AllAffordable, Merged, Dropped, StillValid;
    now := start;
    var k := 0;
    while k < |ops|
      invariant 0 <= k <= |ops| && pool.Valid() && Covered(rules, db.alloc, chain, pool.txs, now)
      invariant now == if k == 0 then start else End(ops[k - 1])
    {
      CoveredFewer(rules, db.alloc, chain, pool.txs, now, pool.txs, ops[k].now);
      RunPoolOp(pool, codec, rules, db, base, ops[k], screen, chain);
      now := End(ops[k]);
      k := k + 1;
    }
    CoveredAffordable(rules, db.alloc, chain, pool.txs, now);
  }
}
