/** The block checks of `digest.py`, run against the store and proved equal to the acceptance rules. */
module Digest {
  import opened Wrappers
  import opened ByteStrings
  import opened Transactions
  import opened AddrBytes
  import opened Ledger
  import opened StoreIndex
  import opened StoreSpec
  import opened StoreQueries
  import opened BalanceQueries
  import opened Consensus

  // ------------------------------------------------------------------ duplicates

  ghost predicate Distinct<T>(l: seq<T>) {
    forall i, j :: 0 <= i < j < |l| ==> l[i] != l[j]
  }

  /** Counting a list's set finds duplicates. */
  lemma {:induction false} DistinctCount<T>(l: seq<T>)
    ensures |set x | x in l| <= |l|
    ensures |set x | x in l| == |l| <==> Distinct(l)
  {
    if l != [] {
      var n := |l| - 1;
      var init, s, t := l[..n], set x | x in l, set x | x in l[..n];
      DistinctCount(init);
      assert l == init + [l[n]];
      assert s == t + {l[n]};
      if l[n] in init {
        assert s == t;
        var i :| 0 <= i < n && l[i] == l[n];
        assert !Distinct(l);
      } else {
        assert Distinct(l) <==> Distinct(init) by {
          assert forall i :: 0 <= i < n ==> init[i] == l[i] && l[i] in init;
        }
      }
    }
  }

  function Signatures(txs: seq<Tx>): (l: seq<Bytes>)
    ensures |l| == |txs| && forall i :: 0 <= i < |l| ==> l[i] == txs[i].signature
  {
    seq(|txs|, i requires 0 <= i < |txs| => txs[i].signature)
  }

  function TxidList(txs: seq<Tx>): (l: seq<Txid>)
    ensures |l| == |txs| && forall i :: 0 <= i < |l| ==> l[i] == TxidOfTx(txs[i])
  {
    seq(|txs|, i requires 0 <= i < |txs| => TxidOfTx(txs[i]))
  }

  lemma {:induction false} ConfirmedSignature(rules: Rules, chain: seq<Block>, sig: Bytes, last: nat)
    requires WellFormed(rules.fork, chain) && chain != [] && last + 1 == NextHeight(chain)
    ensures (exists e :: e in Entries(chain) && Carries(sig, Some(last), e)) <==> SeenSignature(Entries(chain), sig)
  {
    hide Entries;
    forall e | e in Entries(chain) ensures e.height <= last {
      EntryFits(rules.fork, chain, e);
    }
  }

  /** The per-transaction part of `check_duplicate_signatures`. */
  method CheckUnseen(codec: Codec, rules: Rules, db: Db, last: nat, postFork: bool, tx: Tx, ghost chain: seq<Block>)
    returns (ok: bool)
    requires Refines(codec, rules.fork, db, chain) && TxidSound(rules.fork, db.index.txid, Entries(chain))
    requires chain != [] && last + 1 == NextHeight(chain) && postFork == PostForkNext(rules, chain)
    ensures ok <==> Unseen(rules, chain, db.index.txid.Keys, tx)
  {
    hide Refines, Entries, TxidOfTx, Indexable, TxidSound;
    if tx.signature == [] {
      return false;
    }
    RefinesParts(codec, rules.fork, db, chain);
    hide WellFormed, Derived, Balances;
    var seen := SignatureExists(codec, rules.fork, db, tx.signature, Some(last), chain);
    ConfirmedSignature(rules, chain, tx.signature, last);
    hide Carries;
    ok := !seen;
    if postFork {
      var txid := TxidOfTx(tx);
      ok := ok && !(txid in db.index.txid && db.index.txid[txid] <= last);
      if txid in db.index.txid {
        TxidConfirmed(codec, rules.fork, db, chain, txid, last);
      }
    }
  }

  lemma {:induction false} TxidConfirmed(codec: Codec, fork: Option<nat>, db: Db, chain: seq<Block>, txid: Txid,
                                         last: nat)
    requires Refines(codec, fork, db, chain) && TxidSound(fork, db.index.txid, Entries(chain)) && txid in db.index.txid
    requires chain != [] && last + 1 == NextHeight(chain)
    ensures db.index.txid[txid] <= last
  {
    RefinesParts(codec, fork, db, chain);
    hide Refines, Entries, Derived, Balances;
    assert Carried(fork, Entries(chain), txid, db.index.txid[txid]);
    var e :| e in Entries(chain) && e.height == db.index.txid[txid];
    EntryFits(fork, chain, e);
  }

  lemma {:induction false} ListsNone(txs: seq<Tx>)
    ensures Signatures(txs[..0]) == [] && TxidList(txs[..0]) == []
  {
  }

  lemma {:induction false} ListsNext(txs: seq<Tx>, i: nat)
    requires i < |txs|
    ensures Signatures(txs[..i + 1]) == Signatures(txs[..i]) + [txs[i].signature]
    ensures TxidList(txs[..i + 1]) == TxidList(txs[..i]) + [TxidOfTx(txs[i])]
  {
    hide TxidOfTx;
  }

  lemma {:induction false} DistinctLists(txs: seq<Tx>)
    ensures Distinct(Signatures(txs)) <==> DistinctSignatures(txs)
    ensures Distinct(TxidList(txs)) <==> DistinctTxids(txs)
  {
    hide TxidOfTx;
  }

  /** `check_duplicate_signatures`, against whatever the txid index holds */
  method CheckDuplicates(codec: Codec, rules: Rules, db: Db, last: nat, txs: seq<Tx>, ghost chain: seq<Block>)
    returns (ok: bool)
    requires Refines(codec, rules.fork, db, chain) && TxidSound(rules.fork, db.index.txid, Entries(chain))
    requires chain != [] && txs != [] && last + 1 == NextHeight(chain)
    ensures ok <==> NoReplay(rules, chain, db.index.txid.Keys, txs)
  {
    hide Refines, TxidSound, Unseen, TxidOfTx, Entries, Signatures, TxidList;
    hide Distinct, DistinctSignatures, DistinctTxids;
    ListsNone(txs);
    var postFork := PostFork(rules.fork, last + 1);
    var i, signatures, txids := 0, [], [];
    while i < |txs|
      invariant 0 <= i <= |txs|
      invariant signatures == Signatures(txs[..i]) && (postFork ==> txids == TxidList(txs[..i]))
      invariant forall k ::
        0 <= k < i && k < CheckedCount(rules, chain, txs) ==> Unseen(rules, chain, db.index.txid.Keys, txs[k])
    {
      if !(postFork && i == |txs| - 1) {
        var unseen := CheckUnseen(codec, rules, db, last, postFork, txs[i], chain);
        if !unseen {
          return false;
        }
      }
      ListsNext(txs, i);
      signatures := signatures + [txs[i].signature];
      if postFork {
        txids := txids + [TxidOfTx(txs[i])];
      }
      i := i + 1;
    }
    TakeAll(txs);
    DistinctCount(signatures);
    DistinctCount(txids);
    DistinctLists(txs);
    ok := |txs| == |set s | s in signatures| && !(postFork && |set t | t in txids| != |txids|);
  }

  // ------------------------------------------------------------------ balances

  lemma {:induction false} SpendNext(rules: Rules, chain: seq<Block>, txs: seq<Tx>, i: nat, a: Bytes)
    requires i < |txs|
    ensures Debit(txs[..i + 1], a) == Debit(txs[..i], a) + (if txs[i].address == a then txs[i].amount else 0)
    ensures Fees(rules, chain, txs[..i + 1], a) ==
      Fees(rules, chain, txs[..i], a) + (if txs[i].address == a then FeeOf(rules, chain, txs[i]) else 0)
  {
    TakeNext(txs, i);
    SpendSnoc(rules, chain, txs[..i], txs[i], a);
  }

  /** `_calculate_address_totals`: the coinbase is told apart by value, which distinct signatures make safe. */
  method AddressTotals(rules: Rules, base: nat, txs: seq<Tx>, a: Address, ghost chain: seq<Block>)
    returns (debit: int, fees: nat)
    requires txs != [] && DistinctSignatures(txs) && base == rules.baseFee(chain)
    ensures debit == Debit(txs, a) && fees == Fees(rules, chain, txs[..|txs| - 1], a)
  {
    hide Debit, Fees;
    debit, fees := 0, 0;
    var i, n := 0, |txs| - 1;
    SpendNothing(rules, chain, txs, a);
    while i < |txs|
      invariant 0 <= i <= |txs| && debit == Debit(txs[..i], a)
      invariant fees == Fees(rules, chain, txs[..if i <= n then i else n], a)
    {
      SpendNext(rules, chain, txs, i, a);
      if txs[i].address == a {
        debit := debit + txs[i].amount;
        if txs[i] != txs[n] {
          fees := fees + rules.fee(txs[i].openfield, txs[i].operation, base);
        }
      }
      i := i + 1;
    }
    TakeAll(txs);
  }

  lemma {:induction false} SpendNothing(rules: Rules, chain: seq<Block>, txs: seq<Tx>, a: Bytes)
    ensures Debit(txs[..0], a) == 0 && Fees(rules, chain, txs[..0], a) == 0
  {
  }

  ghost predicate CacheExact(alloc: map<Address, int>, chain: seq<Block>, balances: map<Address, int>) {
    forall a :: a in balances ==> balances[a] == Balance(alloc, Entries(chain), a)
  }

  /** `immature_coinbase`, for a destination height at or above the fork; nothing is held back below it. */
  method ImmatureCoinbase(codec: Codec, rules: Rules, db: Db, height: nat, a: Address, ghost chain: seq<Block>)
    returns (units: int)
    requires Refines(codec, rules.fork, db, chain) && chain != [] && height == NextHeight(chain)
    ensures units == Immature(rules, chain, a)
  {
    hide Refines, Entries, RewardAbove;
    units := 0;
    if PostFork(rules.fork, height) {
      RefinesParts(codec, rules.fork, db, chain);
      assert chain[|chain| - 1].height < HEIGHT_LIMIT - 1;
      hide Derived, Balances, WellFormed;
      units := RewardUnitsSince(codec, rules.fork, db, a, height - rules.maturity, chain);
    }
  }

  /** `_validate_balance`: the balance is read once per address and block. */
  method ValidateBalance(codec: Codec, rules: Rules, db: Db, height: nat, a: Address, debit: int, fees: nat,
                         balances: map<Address, int>, ghost chain: seq<Block>)
    returns (ok: bool, balances': map<Address, int>)
    requires Refines(codec, rules.fork, db, chain) && chain != [] && height == NextHeight(chain)
    requires CacheExact(db.alloc, chain, balances)
    ensures CacheExact(db.alloc, chain, balances')
    ensures ok <==> Spendable(rules, db.alloc, chain, a) >= debit + fees
  {
    hide Refines, Entries, Total, Immature;
    balances' := balances;
    if a !in balances {
      var parts := BalanceParts(codec, rules.fork, db, a, chain);
      balances' := balances[a := parts.Net()];
    }
    var immature := ImmatureCoinbase(codec, rules, db, height, a, chain);
    var spendable := balances'[a] - immature;
    var left := spendable - debit;
    ok := !(spendable < debit) && !(left - fees < 0);
  }

  // ------------------------------------------------------------------ rows

  /** One turn of the loop of `process_transaction_balances` for an ordinary transaction. */
  method ProcessPayment(codec: Codec, rules: Rules, db: Db, base: nat, height: nat, txs: seq<Tx>, i: nat,
                        balances: map<Address, int>, ghost chain: seq<Block>)
    returns (ok: bool, balances': map<Address, int>)
    requires Refines(codec, rules.fork, db, chain) && chain != [] && height == NextHeight(chain)
    requires base == rules.baseFee(chain) && i < |txs| - 1 && DistinctSignatures(txs)
    requires CacheExact(db.alloc, chain, balances)
    ensures CacheExact(db.alloc, chain, balances')
    ensures ok <==> Affords(rules, db.alloc, chain, txs, txs[i].address)
  {
    hide Refines, CacheExact, Debit, Fees, DistinctSignatures;
    var debit, fees := AddressTotals(rules, base, txs, txs[i].address, chain);
    ok, balances' := ValidateBalance(codec, rules, db, height, txs[i].address, debit, fees, balances, chain);
  }

  lemma {:induction false} FeeNext(rules: Rules, chain: seq<Block>, txs: seq<Tx>, i: nat)
    requires i < |txs|
    ensures FeeSum(rules, chain, txs[..i + 1]) == FeeSum(rules, chain, txs[..i]) + FeeOf(rules, chain, txs[i])
  {
    assert txs[..i + 1][..i] == txs[..i];
  }

  lemma {:induction false} PaymentRowsNext(rules: Rules, chain: seq<Block>, hash: Bytes, txs: seq<Tx>, i: nat)
    requires i < |txs|
    ensures PaymentRows(rules, chain, hash, txs[..i + 1]) ==
      PaymentRows(rules, chain, hash, txs[..i]) + [PaymentRow(rules, chain, hash, txs[i])]
  {
    hide PaymentRow;
  }

  lemma {:induction false} NewRows(rules: Rules, chain: seq<Block>, txs: seq<Tx>)
    requires chain != [] && txs != []
    ensures var hash := HashFor(rules, chain, txs);
      NewBlock(rules, chain, txs).rows ==
        PaymentRows(rules, chain, hash, txs[..|txs| - 1]) + [CoinbaseRow(rules, chain, hash, txs)]
  {
    hide PaymentRow, CoinbaseRow;
  }

  /** `process_transaction_balances`: the rows to commit, or a rejection. */
  method ProcessBalances(codec: Codec, rules: Rules, db: Db, base: nat, height: nat, hash: Bytes, txs: seq<Tx>,
                         ghost chain: seq<Block>)
    returns (ok: bool, rows: seq<Row>)
    requires Refines(codec, rules.fork, db, chain) && chain != [] && height == NextHeight(chain)
    requires base == rules.baseFee(chain) && hash == HashFor(rules, chain, txs)
    requires txs != [] && DistinctSignatures(txs)
    ensures ok <==> Affordable(rules, db.alloc, chain, txs) && txs[|txs| - 1].amount == 0
    ensures ok ==> rows == NewBlock(rules, chain, txs).rows
  {
    hide Refines, CacheExact, DistinctSignatures, Affords, NewBlock, PaymentRows, FeeSum;
    NewRows(rules, chain, txs);
    var fees: nat, balances, i, n := 0, map[], 0, |txs| - 1;
    rows := [];
    NothingCached(db.alloc, chain);
    NoPayments(rules, chain, hash, txs);
    while i < n
      invariant 0 <= i <= n && CacheExact(db.alloc, chain, balances) && fees == FeeSum(rules, chain, txs[..i])
      invariant rows == PaymentRows(rules, chain, hash, txs[..i])
      invariant forall k :: 0 <= k < i ==> Affords(rules, db.alloc, chain, txs, txs[k].address)
    {
      var fee := rules.fee(txs[i].openfield, txs[i].operation, base);
      var affords;
      affords, balances := ProcessPayment(codec, rules, db, base, height, txs, i, balances, chain);
      if !affords {
        return false, [];
      }
      FeeNext(rules, chain, txs, i);
      PaymentRowsNext(rules, chain, hash, txs, i);
      fees := fees + fee;
      var tx := txs[i];
      rows := rows + [Row(tx.timestamp, tx.address, tx.recipient, tx.amount, tx.signature, tx.pubkey, hash,
                          fee, 0, tx.operation, tx.openfield)];
      i := i + 1;
    }
    var tx := txs[n];
    if tx.amount != 0 {
      return false, [];
    }
    var reward := rules.subsidy(height) + fees;
    rows := rows + [Row(tx.timestamp, tx.address, tx.recipient, 0, tx.signature, tx.pubkey, hash,
                        0, reward, tx.operation, tx.openfield)];
    ok := true;
  }

  lemma {:induction false} NoPayments(rules: Rules, chain: seq<Block>, hash: Bytes, txs: seq<Tx>)
    ensures PaymentRows(rules, chain, hash, txs[..0]) == [] && FeeSum(rules, chain, txs[..0]) == 0
  {
  }

  lemma {:induction false} NothingCached(alloc: map<Address, int>, chain: seq<Block>)
    ensures CacheExact(alloc, chain, map[])
  {
  }
}
