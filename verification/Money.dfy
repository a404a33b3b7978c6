/** What acceptance guarantees about money on every accepted chain. */
module Money {
  import opened Wrappers
  import opened ByteStrings
  import opened Transactions
  import opened Ledger
  import opened BalanceQueries
  import opened Consensus

  // ------------------------------------------------------------------ one block

  function CreditTo(txs: seq<Tx>, a: Bytes): int {
    if txs == [] then 0 else
      CreditTo(txs[..|txs| - 1], a) + (if txs[|txs| - 1].recipient == a then txs[|txs| - 1].amount else 0)
  }

  lemma {:induction false} CreditSnoc(txs: seq<Tx>, tx: Tx, a: Bytes)
    ensures CreditTo(txs + [tx], a) == CreditTo(txs, a) + (if tx.recipient == a then tx.amount else 0)
  {
    assert (txs + [tx])[..|txs|] == txs;
  }

  /** The payments of a block, up to the i-th, as the ledger folds them. */
  lemma {:induction false} PaymentParts(rules: Rules, chain: seq<Block>, txs: seq<Tx>, i: nat, a: Bytes)
    requires chain != [] && txs != [] && i < |txs|
    ensures PartsOf(BlockEntries(NewBlock(rules, chain, txs))[..i], a)
      == Parts(CreditTo(txs[..i], a), 0, Debit(txs[..i], a), Fees(rules, chain, txs[..i], a))
  {
    hide NewBlock, PartsOf, CreditTo, Debit, Fees, HashFor;
    var es := BlockEntries(NewBlock(rules, chain, txs));
    if i == 0 {
      TakeAll(es);
      TakeAll(txs);
      NothingMoved(rules, chain, a);
    } else {
      var j := i - 1;
      PaymentParts(rules, chain, txs, j, a);
      NewRow(rules, chain, txs, j);
      TakeNext(es, j);
      TakeNext(txs, j);
      PartsSnoc(es[..j], es[j], a);
      SpendSnoc(rules, chain, txs[..j], txs[j], a);
      CreditSnoc(txs[..j], txs[j], a);
    }
  }

  lemma {:induction false} NothingMoved(rules: Rules, chain: seq<Block>, a: Bytes)
    ensures PartsOf([], a) == ZERO && CreditTo([], a) == 0 && Debit([], a) == 0 && Fees(rules, chain, [], a) == 0
  {
  }

  /** What an accepted block does to an address. */
  lemma {:induction false} BlockParts(rules: Rules, chain: seq<Block>, txs: seq<Tx>, a: Bytes)
    requires chain != [] && txs != [] && AmountsOk(txs)
    ensures var n := |txs| - 1;
      PartsOf(BlockEntries(NewBlock(rules, chain, txs)), a) == Parts(
        CreditTo(txs[..n], a),
        if txs[n].recipient == a then rules.subsidy(NextHeight(chain)) + FeeSum(rules, chain, txs[..n]) else 0,
        Debit(txs, a),
        Fees(rules, chain, txs[..n], a))
  {
    hide NewBlock, PartsOf, CreditTo, Debit, Fees, HashFor;
    var n, es := |txs| - 1, BlockEntries(NewBlock(rules, chain, txs));
    PaymentParts(rules, chain, txs, n, a);
    NewRow(rules, chain, txs, n);
    Snoc([], es);
    Snoc([], txs);
    PartsSnoc(es[..n], es[n], a);
    SpendSnoc(rules, chain, txs[..n], txs[n], a);
  }

  lemma {:induction false} SumsNonNegative(txs: seq<Tx>, a: Bytes)
    requires forall tx :: tx in txs ==> tx.amount >= 0
    ensures CreditTo(txs, a) >= 0 && Debit(txs, a) >= 0
  {
    if txs != [] {
      assert txs[|txs| - 1] in txs;
      SumsNonNegative(txs[..|txs| - 1], a);
    }
  }

  /** An address that sends no payment spends nothing. */
  lemma {:induction false} NonSender(rules: Rules, chain: seq<Block>, txs: seq<Tx>, a: Bytes)
    requires forall tx :: tx in txs ==> tx.address != a
    ensures Debit(txs, a) == 0 && Fees(rules, chain, txs, a) == 0
  {
    if txs != [] {
      assert txs[|txs| - 1] in txs;
      NonSender(rules, chain, txs[..|txs| - 1], a);
    }
  }

  /** The money rule of one accepted block: spending is covered, or there is none. */
  lemma {:induction false} SpendCovered(rules: Rules, alloc: map<Address, int>, chain: seq<Block>, txs: seq<Tx>,
                                        a: Bytes)
    requires chain != [] && txs != [] && AmountsOk(txs) && Affordable(rules, alloc, chain, txs)
    ensures var spend := Debit(txs, a) + Fees(rules, chain, txs[..|txs| - 1], a);
      spend >= 0 && (spend == 0 || spend <= Spendable(rules, alloc, chain, a))
  {
    hide Spendable;
    var n := |txs| - 1;
    SumsNonNegative(txs, a);
    if exists i :: 0 <= i < n && txs[i].address == a {
      var i :| 0 <= i < n && txs[i].address == a;
      assert Affords(rules, alloc, chain, txs, txs[i].address);
    } else {
      NonSender(rules, chain, txs[..n], a);
    }
  }

  // ------------------------------------------------------------------ rewards

  ghost predicate RewardsOk(es: seq<Entry>) {
    forall e :: e in es ==> e.row.reward >= 0
  }

  lemma {:induction false} RewardMonotone(es: seq<Entry>, a: Bytes, lo: int, hi: int)
    requires RewardsOk(es) && lo <= hi
    ensures 0 <= RewardAbove(es, a, hi) <= RewardAbove(es, a, lo)
  {
    if es != [] {
      assert es[|es| - 1] in es;
      RewardMonotone(es[..|es| - 1], a, lo, hi);
    }
  }

  /** Rewards above a height are part of all rewards. */
  lemma {:induction false} RewardWithinParts(es: seq<Entry>, a: Bytes, above: int)
    requires RewardsOk(es)
    ensures 0 <= RewardAbove(es, a, above) <= PartsOf(es, a).reward
  {
    if es != [] {
      assert es[|es| - 1] in es;
      RewardWithinParts(es[..|es| - 1], a, above);
    }
  }

  lemma {:induction false} BlockRewardsOk(rules: Rules, chain: seq<Block>, txs: seq<Tx>)
    requires chain != [] && txs != []
    ensures RewardsOk(BlockEntries(NewBlock(rules, chain, txs)))
  {
    hide NewBlock, HashFor;
    var es := BlockEntries(NewBlock(rules, chain, txs));
    forall e | e in es ensures e.row.reward >= 0 {
      var i :| 0 <= i < |es| && es[i] == e;
      NewRow(rules, chain, txs, i);
    }
  }

  lemma {:induction false} DigestedRewardsOk(rules: Rules, alloc: map<Address, int>, chain: seq<Block>)
    requires Digested(rules, alloc, chain)
    ensures RewardsOk(Entries(chain))
  {
    hide Accepted, Digested, Accepts, NewBlock;
    var n := |chain| - 1;
    DigestedEnds(rules, alloc, chain);
    if n == 0 {
      GenesisEntries(chain[0]);
      assert chain == [chain[0]];
    } else {
      DigestedRewardsOk(rules, alloc, chain[..n]);
      AcceptedIs(rules, alloc, chain[..n], chain[n]);
      BlockRewardsOk(rules, chain[..n], WireTxs(chain[n].rows));
    }
  }

  lemma {:induction false} GenesisEntries(g: Block)
    requires IsGenesis(g)
    ensures Entries([g]) == [Entry(1, 0, g.rows[0])]
  {
    assert [g][..0] == [];
    assert [] + BlockEntries(g) == BlockEntries(g);
  }

  // ------------------------------------------------------------------ no overspend

  predicate AllocationsOk(alloc: map<Address, int>) {
    forall a :: a in alloc ==> alloc[a] >= 0
  }

  lemma {:induction false} BalanceSnoc(alloc: map<Address, int>, chain: seq<Block>, b: Block, a: Bytes)
    ensures Balance(alloc, Entries(chain + [b]), a) ==
      Balance(alloc, Entries(chain), a) + PartsOf(BlockEntries(b), a).Net()
  {
    EntriesSnoc(chain, b);
    PartsConcat(Entries(chain), BlockEntries(b), a);
  }

  lemma {:induction false} GenesisBalance(alloc: map<Address, int>, g: Block, a: Bytes)
    requires IsGenesis(g)
    ensures Balance(alloc, Entries([g]), a) ==
      AllocationOf(alloc, a) + (if g.rows[0].recipient == a then GENESIS_REWARD else 0)
  {
    hide PartsOf, Entries;
    GenesisEntries(g);
    PartsSingle(Entry(1, 0, g.rows[0]), a);
  }

  /** One accepted block keeps a balance at or above whatever part of it was held back. */
  lemma {:induction false} BlockKeeps(rules: Rules, alloc: map<Address, int>, chain: seq<Block>, txs: seq<Tx>, a: Bytes,
                                      held: int)
    requires chain != [] && Accepts(rules, alloc, chain, {}, txs)
    requires 0 <= held <= Balance(alloc, Entries(chain), a) && held <= Immature(rules, chain, a)
    ensures var b := NewBlock(rules, chain, txs);
      Balance(alloc, Entries(chain + [b]), a) >= held + PartsOf(BlockEntries(b), a).reward
  {
    hide NewBlock, NoReplay, Entries, Immature, Affordable;
    var b := NewBlock(rules, chain, txs);
    BalanceSnoc(alloc, chain, b, a);
    BlockParts(rules, chain, txs, a);
    SpendCovered(rules, alloc, chain, txs, a);
    SumsNonNegative(txs[..|txs| - 1], a);
  }

  lemma {:induction false} ImmatureNonNegative(rules: Rules, alloc: map<Address, int>, chain: seq<Block>, a: Bytes)
    requires Digested(rules, alloc, chain)
    ensures Immature(rules, chain, a) >= 0
  {
    hide Accepted;
    DigestedRewardsOk(rules, alloc, chain);
    RewardMonotone(Entries(chain), a, NextHeight(chain) - rules.maturity, NextHeight(chain) - rules.maturity);
  }

  /** On every accepted chain every balance is non-negative. */
  lemma {:induction false} NoOverspend(rules: Rules, alloc: map<Address, int>, chain: seq<Block>, a: Bytes)
    requires Digested(rules, alloc, chain) && AllocationsOk(alloc)
    ensures Balance(alloc, Entries(chain), a) >= 0
  {
    hide Accepted, Digested, Accepts, NewBlock, Entries, Balance, Immature;
    var n := |chain| - 1;
    DigestedEnds(rules, alloc, chain);
    if n == 0 {
      assert chain == [chain[0]];
      GenesisBalance(alloc, chain[0], a);
    } else {
      var txs := WireTxs(chain[n].rows);
      AcceptedIs(rules, alloc, chain[..n], chain[n]);
      NoOverspend(rules, alloc, chain[..n], a);
      ImmatureNonNegative(rules, alloc, chain[..n], a);
      BlockKeeps(rules, alloc, chain[..n], txs, a, 0);
      Snoc([], chain);
      BlockRewardsOk(rules, chain[..n], txs);
      RewardWithinParts(BlockEntries(chain[n]), a, 0);
    }
  }

  /** The height above which rewards are held back at the next block: post-fork, and not yet deep enough. */
  function HeldAbove(rules: Rules, fork: nat, chain: seq<Block>): int
    requires chain != []
  {
    if fork - 1 >= NextHeight(chain) - rules.maturity then fork - 1 else NextHeight(chain) - rules.maturity
  }

  lemma {:induction false} HeldRewardsIntact(rules: Rules, alloc: map<Address, int>, chain: seq<Block>, a: Bytes)
    requires Digested(rules, alloc, chain) && AllocationsOk(alloc) && rules.fork.Some?
    ensures Balance(alloc, Entries(chain), a) >=
      RewardAbove(Entries(chain), a, HeldAbove(rules, rules.fork.value, chain))
  {
    hide Accepted, Digested, Accepts, NewBlock, Entries, Balance, RewardAbove;
    DigestedEnds(rules, alloc, chain);
    var n, fork := |chain| - 1, rules.fork.value;
    NoOverspend(rules, alloc, chain, a);
    DigestedWellFormed(rules, alloc, chain);
    if chain[n].height < fork {
      HeightsUpTo(rules.fork, chain);
      RewardNone(Entries(chain), a, HeldAbove(rules, fork, chain));
    } else if n == 0 {
      GenesisIntact(rules, alloc, chain, a);
    } else {
      var init, b, txs := chain[..n], chain[n], WireTxs(chain[n].rows);
      var x, x' := HeldAbove(rules, fork, init), HeldAbove(rules, fork, chain);
      Snoc([], chain);
      AcceptedIs(rules, alloc, init, b);
      HeldRewardsIntact(rules, alloc, init, a);
      DigestedRewardsOk(rules, alloc, init);
      RewardMonotone(Entries(init), a, NextHeight(init) - rules.maturity, x);
      RewardMonotone(Entries(init), a, x, x');
      assert Immature(rules, init, a) == RewardAbove(Entries(init), a, NextHeight(init) - rules.maturity);
      BlockKeeps(rules, alloc, init, txs, a, RewardAbove(Entries(init), a, x));
      EntriesSnoc(init, b);
      RewardConcat(Entries(init), BlockEntries(b), a, x');
      BlockRewardsOk(rules, init, txs);
      RewardWithinParts(BlockEntries(b), a, x');
    }
  }

  lemma {:induction false} HeightsUpTo(fork: Option<nat>, chain: seq<Block>)
    requires WellFormed(fork, chain) && chain != []
    ensures forall e :: e in Entries(chain) ==> e.height <= chain[|chain| - 1].height
  {
    forall e | e in Entries(chain) ensures e.height <= chain[|chain| - 1].height {
      EntryFits(fork, chain, e);
    }
  }

  lemma {:induction false} GenesisIntact(rules: Rules, alloc: map<Address, int>, chain: seq<Block>, a: Bytes)
    requires Digested(rules, alloc, chain) && |chain| == 1 && AllocationsOk(alloc) && rules.fork.Some?
    ensures Balance(alloc, Entries(chain), a) >=
      RewardAbove(Entries(chain), a, HeldAbove(rules, rules.fork.value, chain))
  {
    assert chain == [chain[0]];
    GenesisBalance(alloc, chain[0], a);
    DigestedRewardsOk(rules, alloc, chain);
    RewardWithinParts(Entries(chain), a, HeldAbove(rules, rules.fork.value, chain));
  }

  /**
   On every accepted chain every address still owns all its post-fork rewards that are younger
   than the maturity depth: no sequence of blocks, however the spends are split, has moved them.
   Block `i` has height `i + 1`, so the blocks from `k` on are post-fork and not yet deep enough.
   */
  lemma {:induction false} ImmatureRewardsIntact(rules: Rules, alloc: map<Address, int>, chain: seq<Block>, a: Bytes,
                                                 k: nat)
    requires Digested(rules, alloc, chain) && AllocationsOk(alloc) && k <= |chain|
    requires rules.fork.Some? && k + 1 >= rules.fork.value && |chain| < k + rules.maturity
    ensures Balance(alloc, Entries(chain), a) >= PartsOf(Entries(chain[k..]), a).reward
  {
    hide Digested, Entries, Balance, RewardAbove, PartsOf, WellFormed;
    DigestedWellFormed(rules, alloc, chain);
    HeldRewardsIntact(rules, alloc, chain, a);
    DigestedRewardsOk(rules, alloc, chain);
    ChainLength(rules, alloc, chain);
    RewardMonotone(Entries(chain), a, HeldAbove(rules, rules.fork.value, chain), k);
    RewardFrom(rules.fork, chain, a, k);
  }

  lemma {:induction false} ChainLength(rules: Rules, alloc: map<Address, int>, chain: seq<Block>)
    requires Digested(rules, alloc, chain)
    ensures chain != [] && NextHeight(chain) == |chain| + 1
  {
    hide Accepted;
    DigestedWellFormed(rules, alloc, chain);
  }

  /**
   The money rule in terms of the ledger: a block passes exactly when, for the sender of every payment,
   what its rows would take from the balance fits the balance below, less the rewards of the last
   `maturity - 1` blocks once the block lies behind the fork.
   */
  lemma {:induction false} AffordableIs(rules: Rules, alloc: map<Address, int>, chain: seq<Block>, txs: seq<Tx>)
    requires Digested(rules, alloc, chain) && txs != [] && AmountsOk(txs)
    ensures var k := if |chain| < rules.maturity then 0 else |chain| + 1 - rules.maturity;
      Affordable(rules, alloc, chain, txs) <==>
        forall i :: 0 <= i < |txs| - 1 ==>
          var a := txs[i].address;
          var taken := PartsOf(BlockEntries(NewBlock(rules, chain, txs)), a);
          taken.debit + taken.fee <= Balance(alloc, Entries(chain), a)
            - (if PostFork(rules.fork, |chain| + 1) then PartsOf(Entries(chain[k..]), a).reward else 0)
  {
    hide Digested, Entries, Balance, RewardAbove, PartsOf, WellFormed, Debit, Fees, NewBlock;
    DigestedWellFormed(rules, alloc, chain);
    ChainLength(rules, alloc, chain);
    var k := if |chain| < rules.maturity then 0 else |chain| + 1 - rules.maturity;
    forall a: Bytes
      ensures RewardAbove(Entries(chain), a, NextHeight(chain) - rules.maturity) ==
        PartsOf(Entries(chain[k..]), a).reward
    {
      RewardSince(rules.fork, chain, a, NextHeight(chain) - rules.maturity, k);
    }
    forall a: Bytes
      ensures var taken := PartsOf(BlockEntries(NewBlock(rules, chain, txs)), a);
        taken.debit == Debit(txs, a) && taken.fee == Fees(rules, chain, txs[..|txs| - 1], a)
    {
      BlockParts(rules, chain, txs, a);
    }
  }

  lemma {:induction false} RewardSince(fork: Option<nat>, chain: seq<Block>, a: Bytes, above: int, k: nat)
    requires WellFormed(fork, chain) && chain != [] && chain[0].height == 1 && k <= |chain|
    requires k == (if above <= 0 then 0 else above)
    ensures RewardAbove(Entries(chain), a, above) == PartsOf(Entries(chain[k..]), a).reward
  {
    hide Entries, RewardAbove, PartsOf;
    if above <= 0 {
      assert chain[0..] == chain;
      forall e | e in Entries(chain) ensures e.height > above {
        EntryFits(fork, chain, e);
      }
      RewardAll(Entries(chain), a, above);
    } else {
      RewardFrom(fork, chain, a, k);
    }
  }
}
