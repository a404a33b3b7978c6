/**
 The block acceptance rules of `digest.py` as a predicate on the confirmed chain and
 a candidate block, and the row list an accepted block commits.
 */
module Consensus {
  import opened Wrappers
  import opened ByteStrings
  import opened Transactions
  import opened Serialize
  import opened Ledger
  import opened StoreSpec
  import opened BalanceQueries

  type Positive = n: int | n > 0 witness 1
  type Maturity = m: int | 1 <= m < 0x8000_0000_0000_0000 witness 1

  /**
   What acceptance takes from elsewhere. `valid` stands for signatures, timestamps, field
   bounds, proof of work and sender types: a deterministic predicate on the chain below
   and the block. `fee` is the fee schedule on (openfield, operation, base fee).
   */
  datatype Rules = Rules(
    fork: Option<nat>,
    maturity: Maturity,
    valid: (seq<Block>, seq<Tx>) -> bool,
    hashOf: (nat, seq<Tx>, Bytes) -> Bytes,
    difficulty: (seq<Block>, seq<Tx>) -> Bytes,
    subsidy: nat -> Positive,
    baseFee: seq<Block> -> nat,
    fee: (Bytes, Bytes, nat) -> nat)

  // ------------------------------------------------------------------ the new block

  function NextHeight(chain: seq<Block>): nat
    requires chain != []
  {
    chain[|chain| - 1].height + 1
  }

  function FeeOf(rules: Rules, chain: seq<Block>, tx: Tx): nat {
    rules.fee(tx.openfield, tx.operation, rules.baseFee(chain))
  }

  function FeeSum(rules: Rules, chain: seq<Block>, txs: seq<Tx>): nat {
    if txs == [] then 0 else FeeSum(rules, chain, txs[..|txs| - 1]) + FeeOf(rules, chain, txs[|txs| - 1])
  }

  function HashFor(rules: Rules, chain: seq<Block>, txs: seq<Tx>): Bytes
    requires chain != []
  {
    rules.hashOf(NextHeight(chain), txs, chain[|chain| - 1].hash)
  }

  /** The row of an ordinary transaction. */
  function PaymentRow(rules: Rules, chain: seq<Block>, hash: Bytes, tx: Tx): Row {
    Row(tx.timestamp, tx.address, tx.recipient, tx.amount, tx.signature, tx.pubkey, hash,
        FeeOf(rules, chain, tx), 0, tx.operation, tx.openfield)
  }

  /** The coinbase row: amount forced to 0, reward recomputed from the subsidy and the block's fees. */
  function CoinbaseRow(rules: Rules, chain: seq<Block>, hash: Bytes, txs: seq<Tx>): Row
    requires chain != [] && txs != []
  {
    var n, tx := |txs| - 1, txs[|txs| - 1];
    Row(tx.timestamp, tx.address, tx.recipient, 0, tx.signature, tx.pubkey, hash,
        0, rules.subsidy(NextHeight(chain)) + FeeSum(rules, chain, txs[..n]), tx.operation, tx.openfield)
  }

  function PaymentRows(rules: Rules, chain: seq<Block>, hash: Bytes, txs: seq<Tx>): (rows: seq<Row>)
    ensures |rows| == |txs| && forall i :: 0 <= i < |txs| ==> rows[i] == PaymentRow(rules, chain, hash, txs[i])
  {
    seq(|txs|, i requires 0 <= i < |txs| => PaymentRow(rules, chain, hash, txs[i]))
  }

  function NewBlock(rules: Rules, chain: seq<Block>, txs: seq<Tx>): (b: Block)
    requires chain != [] && txs != []
    ensures b.height == NextHeight(chain) && |b.rows| == |txs|
  {
    var hash := HashFor(rules, chain, txs);
    Block(NextHeight(chain), hash,
          PaymentRows(rules, chain, hash, txs[..|txs| - 1]) + [CoinbaseRow(rules, chain, hash, txs)],
          Some(rules.difficulty(chain, txs)))
  }

  /** A stored row as the wire transaction it came from. */
  function WireTx(r: Row): Tx {
    Tx(r.timestamp, r.address, r.recipient, r.amount, r.signature, r.pubkey, r.operation, r.openfield)
  }

  function WireTxs(rows: seq<Row>): (txs: seq<Tx>)
    ensures |txs| == |rows| && forall i :: 0 <= i < |rows| ==> txs[i] == WireTx(rows[i])
  {
    seq(|rows|, i requires 0 <= i < |rows| => WireTx(rows[i]))
  }

  /** The rows of a new block, one by one. */
  lemma {:induction false} NewRow(rules: Rules, chain: seq<Block>, txs: seq<Tx>, i: nat)
    requires chain != [] && i < |txs|
    ensures BlockEntries(NewBlock(rules, chain, txs))[i] == Entry(NextHeight(chain), i,
      var hash := HashFor(rules, chain, txs);
      if i < |txs| - 1 then PaymentRow(rules, chain, hash, txs[i]) else CoinbaseRow(rules, chain, hash, txs))
  {
    hide PaymentRow, CoinbaseRow;
    assert i < |txs| - 1 ==> txs[..|txs| - 1][i] == txs[i];
  }

  /** A payment's row carries the scheduled fee at the chain's base fee and no reward; the coinbase pays no fee. */
  lemma {:induction false} RowFees(rules: Rules, chain: seq<Block>, txs: seq<Tx>, i: nat)
    requires chain != [] && i < |txs|
    ensures var r := NewBlock(rules, chain, txs).rows[i];
      if i < |txs| - 1
      then r.fee == rules.fee(txs[i].openfield, txs[i].operation, rules.baseFee(chain)) && r.reward == 0
      else r.fee == 0 && r.amount == 0
  {
    NewRow(rules, chain, txs, i);
  }

  // ------------------------------------------------------------------ replay

  function TxidOfTx(tx: Tx): Txid {
    Txid(SignatureBuffer(Content(tx.timestamp, tx.amount, tx.address, tx.recipient,
      Some(tx.operation), Some(tx.openfield))))
  }

  /** Two transactions have one txid exactly when they agree on the six signed fields. */
  lemma {:induction false} TxidFieldsOfTx(x: Tx, y: Tx)
    requires TxidOfTx(x).preimage.Some?
    ensures TxidOfTx(x) == TxidOfTx(y) <==>
      && x.timestamp == y.timestamp && x.amount == y.amount && x.address == y.address && x.recipient == y.recipient
      && x.operation == y.operation && x.openfield == y.openfield
  {
    hide SignatureBuffer;
    if TxidOfTx(x) == TxidOfTx(y) {
      SignatureBufferInjective(
        Content(x.timestamp, x.amount, x.address, x.recipient, Some(x.operation), Some(x.openfield)),
        Content(y.timestamp, y.amount, y.address, y.recipient, Some(y.operation), Some(y.openfield)));
    }
  }

  predicate PostForkNext(rules: Rules, chain: seq<Block>)
    requires chain != []
  {
    PostFork(rules.fork, NextHeight(chain))
  }

  /** How many transactions are checked against the chain: after the fork the coinbase is not. */
  function CheckedCount(rules: Rules, chain: seq<Block>, txs: seq<Tx>): nat
    requires chain != [] && txs != []
  {
    if PostForkNext(rules, chain) then |txs| - 1 else |txs|
  }

  ghost predicate SeenSignature(es: seq<Entry>, sig: Bytes) {
    exists e :: e in es && e.row.signature == sig
  }

  ghost predicate DistinctSignatures(txs: seq<Tx>) {
    forall i, j :: 0 <= i < j < |txs| ==> txs[i].signature != txs[j].signature
  }

  ghost predicate DistinctTxids(txs: seq<Tx>) {
    forall i, j :: 0 <= i < j < |txs| ==> TxidOfTx(txs[i]) != TxidOfTx(txs[j])
  }

  /** Not seen before: by signature on the confirmed chain, and after the fork by txid among the `known` ones. */
  ghost predicate Unseen(rules: Rules, chain: seq<Block>, known: set<Txid>, tx: Tx)
    requires chain != []
  {
    && tx.signature != []
    && (Indexable(tx.signature) ==> !SeenSignature(Entries(chain), tx.signature))
    && (PostForkNext(rules, chain) ==> TxidOfTx(tx) !in known)
  }

  ghost predicate NoReplay(rules: Rules, chain: seq<Block>, known: set<Txid>, txs: seq<Tx>)
    requires chain != [] && txs != []
  {
    && (forall i :: 0 <= i < CheckedCount(rules, chain, txs) ==> Unseen(rules, chain, known, txs[i]))
    && DistinctSignatures(txs)
    && (PostForkNext(rules, chain) ==> DistinctTxids(txs))
  }

  // ------------------------------------------------------------------ affordability

  function Debit(txs: seq<Tx>, a: Bytes): int {
    if txs == [] then 0 else
      Debit(txs[..|txs| - 1], a) + (if txs[|txs| - 1].address == a then txs[|txs| - 1].amount else 0)
  }

  function Fees(rules: Rules, chain: seq<Block>, txs: seq<Tx>, a: Bytes): nat {
    if txs == [] then 0 else
      Fees(rules, chain, txs[..|txs| - 1], a)
        + (if txs[|txs| - 1].address == a then FeeOf(rules, chain, txs[|txs| - 1]) else 0)
  }

  lemma {:induction false} SpendSnoc(rules: Rules, chain: seq<Block>, txs: seq<Tx>, tx: Tx, a: Bytes)
    ensures Debit(txs + [tx], a) == Debit(txs, a) + (if tx.address == a then tx.amount else 0)
    ensures Fees(rules, chain, txs + [tx], a) ==
      Fees(rules, chain, txs, a) + (if tx.address == a then FeeOf(rules, chain, tx) else 0)
  {
    assert (txs + [tx])[..|txs|] == txs;
  }

  function Balance(alloc: map<Address, int>, es: seq<Entry>, a: Bytes): int {
    Total(alloc, es, a).Net()
  }

  /** Reward not yet deep enough to spend at the next height; nothing is held back before the fork. */
  function Immature(rules: Rules, chain: seq<Block>, a: Bytes): int
    requires chain != []
  {
    if PostForkNext(rules, chain) then RewardAbove(Entries(chain), a, NextHeight(chain) - rules.maturity) else 0
  }

  function Spendable(rules: Rules, alloc: map<Address, int>, chain: seq<Block>, a: Bytes): int
    requires chain != []
  {
    Balance(alloc, Entries(chain), a) - Immature(rules, chain, a)
  }

  /** Everything an address sends in the block, transfers and fees together, fits what it may spend. */
  predicate Affords(rules: Rules, alloc: map<Address, int>, chain: seq<Block>, txs: seq<Tx>, a: Bytes)
    requires chain != [] && txs != []
  {
    Spendable(rules, alloc, chain, a) >= Debit(txs, a) + Fees(rules, chain, txs[..|txs| - 1], a)
  }

  ghost predicate Affordable(rules: Rules, alloc: map<Address, int>, chain: seq<Block>, txs: seq<Tx>)
    requires chain != [] && txs != []
  {
    forall i :: 0 <= i < |txs| - 1 ==> Affords(rules, alloc, chain, txs, txs[i].address)
  }

  // ------------------------------------------------------------------ acceptance

  predicate AmountsOk(txs: seq<Tx>) {
    (forall tx :: tx in txs ==> tx.amount >= 0) && (txs != [] ==> txs[|txs| - 1].amount == 0)
  }

  /**
   What the digester accepts on top of a chain when its txid index holds the `known` txids. The
   index of a store that has been rolled back may lack some that are still on the chain.
   */
  ghost predicate Accepts(rules: Rules, alloc: map<Address, int>, chain: seq<Block>, known: set<Txid>, txs: seq<Tx>)
    requires chain != []
  {
    && txs != [] && AmountsOk(txs) && rules.valid(chain, txs)
    && NoReplay(rules, chain, known, txs)
    && HashFor(rules, chain, txs) !in Hashes(chain)
    && Affordable(rules, alloc, chain, txs)
    && BlockFits(rules.fork, NewBlock(rules, chain, txs))
  }

  /** The post-fork txids of a block's rows. */
  ghost function BlockTxids(rules: Rules, b: Block): set<Txid> {
    Txids(rules.fork, BlockEntries(b))
  }

  /** The chain after digesting candidate blocks in order, stopping at the first rejected one. */
  ghost function DigestAll(rules: Rules, alloc: map<Address, int>, chain: seq<Block>, known: set<Txid>,
                           blocks: seq<seq<Tx>>):
    (chain': seq<Block>)
    requires chain != []
    ensures chain <= chain'
    decreases |blocks|
  {
    if blocks == [] || !Accepts(rules, alloc, chain, known, blocks[0]) then chain
    else
      var b := NewBlock(rules, chain, blocks[0]);
      DigestAll(rules, alloc, chain + [b], known + BlockTxids(rules, b), blocks[1..])
  }

  // ------------------------------------------------------------------ chains of accepted blocks

  const GENESIS_REWARD: int := 100_000_000

  /** Height 1, one row: it moves nothing and pays one coin. */
  predicate IsGenesis(b: Block) {
    && b.height == 1 && |b.rows| == 1
    && b.rows[0].amount == 0 && b.rows[0].fee == 0 && b.rows[0].reward == GENESIS_REWARD
  }

  /** The block is what the rules accept on top of a chain, whatever the txid index knew. */
  ghost predicate Accepted(rules: Rules, alloc: map<Address, int>, chain: seq<Block>, b: Block)
    requires chain != []
  {
    Accepts(rules, alloc, chain, {}, WireTxs(b.rows)) && b == NewBlock(rules, chain, WireTxs(b.rows))
  }

  /**
   An upper bound on the chains a node can hold: genesis, then blocks that are accepted where the txid
   index knows nothing. Every chain a node holds is one, whatever its rollbacks did to that index.
   */
  ghost predicate Digested(rules: Rules, alloc: map<Address, int>, chain: seq<Block>) {
    && chain != [] && IsGenesis(chain[0]) && BlockFits(rules.fork, chain[0])
    && forall k :: 1 <= k < |chain| ==> Accepted(rules, alloc, chain[..k], chain[k])
  }

  /** Committing and reading back gives the transactions that were accepted. */
  lemma {:induction false} WireRoundTrip(rules: Rules, chain: seq<Block>, txs: seq<Tx>)
    requires chain != [] && txs != [] && AmountsOk(txs)
    ensures WireTxs(NewBlock(rules, chain, txs).rows) == txs
  {
    var n, b := |txs| - 1, NewBlock(rules, chain, txs);
    forall i | 0 <= i < |txs| ensures WireTx(b.rows[i]) == txs[i] {
      if i < n {
        assert b.rows[i] == PaymentRow(rules, chain, b.hash, txs[i]);
      }
    }
  }

  /** Knowing more txids only makes the digester reject more, and only by the txid of a payment. */
  lemma {:induction false} AcceptsKnown(rules: Rules, alloc: map<Address, int>, chain: seq<Block>, known: set<Txid>,
                                        txs: seq<Tx>)
    requires chain != []
    ensures Accepts(rules, alloc, chain, known, txs) <==>
      && Accepts(rules, alloc, chain, {}, txs)
      && (PostForkNext(rules, chain) ==> forall i :: 0 <= i < |txs| - 1 ==> TxidOfTx(txs[i]) !in known)
  {
    hide TxidOfTx, Affordable, NewBlock, BlockFits, Hashes, SeenSignature, DistinctSignatures, DistinctTxids;
  }

  lemma {:induction false} AcceptedNew(rules: Rules, alloc: map<Address, int>, chain: seq<Block>, known: set<Txid>,
                                       txs: seq<Tx>)
    requires chain != [] && Accepts(rules, alloc, chain, known, txs)
    ensures Accepted(rules, alloc, chain, NewBlock(rules, chain, txs))
  {
    AcceptsKnown(rules, alloc, chain, known, txs);
    hide NewBlock, NoReplay, Affordable, BlockFits;
    WireRoundTrip(rules, chain, txs);
  }

  lemma {:induction false} DigestedSnoc(rules: Rules, alloc: map<Address, int>, chain: seq<Block>, b: Block)
    requires Digested(rules, alloc, chain) && Accepted(rules, alloc, chain, b)
    ensures Digested(rules, alloc, chain + [b])
  {
    hide Accepted, IsGenesis, BlockFits;
    var c := chain + [b];
    forall k | 1 <= k < |c| ensures Accepted(rules, alloc, c[..k], c[k]) {
      assert c[..k] == if k < |chain| then chain[..k] else chain;
    }
  }

  /** Rolling back leaves a chain that could have been built directly. */
  lemma {:induction false} DigestedPrefix(rules: Rules, alloc: map<Address, int>, chain: seq<Block>, k: nat)
    requires Digested(rules, alloc, chain) && 1 <= k <= |chain|
    ensures Digested(rules, alloc, chain[..k])
  {
    hide Accepted, IsGenesis, BlockFits;
    var c := chain[..k];
    forall j | 1 <= j < |c| ensures Accepted(rules, alloc, c[..j], c[j]) {
      assert c[..j] == chain[..j];
    }
  }

  lemma {:induction false} DigestedAt(rules: Rules, alloc: map<Address, int>, chain: seq<Block>, k: nat)
    requires Digested(rules, alloc, chain) && 1 <= k < |chain|
    ensures Accepted(rules, alloc, chain[..k], chain[k])
  {
    hide Accepted;
  }

  /** An accepted chain is genesis alone, or an accepted chain and one accepted block. */
  lemma {:induction false} DigestedEnds(rules: Rules, alloc: map<Address, int>, chain: seq<Block>)
    requires Digested(rules, alloc, chain)
    ensures chain != [] && IsGenesis(chain[0]) && BlockFits(rules.fork, chain[0])
    ensures |chain| > 1 ==>
      Digested(rules, alloc, chain[..|chain| - 1]) && Accepted(rules, alloc, chain[..|chain| - 1], chain[|chain| - 1])
  {
    hide Accepted, IsGenesis, BlockFits;
    if |chain| > 1 {
      DigestedPrefix(rules, alloc, chain, |chain| - 1);
    }
  }

  lemma {:induction false} AcceptedIs(rules: Rules, alloc: map<Address, int>, chain: seq<Block>, b: Block)
    requires chain != [] && Accepted(rules, alloc, chain, b)
    ensures var txs := WireTxs(b.rows);
      txs != [] && AmountsOk(txs) && Accepts(rules, alloc, chain, {}, txs) && b == NewBlock(rules, chain, txs)
  {
    hide NoReplay, Affordable, NewBlock, BlockFits;
  }

  lemma {:induction false} AcceptedFits(rules: Rules, alloc: map<Address, int>, chain: seq<Block>, b: Block)
    requires chain != [] && Accepted(rules, alloc, chain, b)
    ensures b.height == NextHeight(chain) && BlockFits(rules.fork, b) && b.hash !in Hashes(chain) && b.rows != []
  {
    hide NoReplay, Affordable;
  }

  lemma {:induction false} DigestedWellFormed(rules: Rules, alloc: map<Address, int>, chain: seq<Block>)
    requires Digested(rules, alloc, chain)
    ensures WellFormed(rules.fork, chain) && chain[0].height == 1
  {
    hide Accepted, Digested;
    DigestedEnds(rules, alloc, chain);
    if |chain| > 1 {
      var n := |chain| - 1;
      DigestedWellFormed(rules, alloc, chain[..n]);
      AcceptedFits(rules, alloc, chain[..n], chain[n]);
      assert chain == chain[..n] + [chain[n]];
    }
  }

  lemma {:induction false} DigestAllDigested(rules: Rules, alloc: map<Address, int>, chain: seq<Block>,
                                             known: set<Txid>, blocks: seq<seq<Tx>>)
    requires Digested(rules, alloc, chain)
    ensures Digested(rules, alloc, DigestAll(rules, alloc, chain, known, blocks))
    decreases |blocks|
  {
    hide Accepted, Digested, NewBlock, NoReplay, Affordable;
    DigestedEnds(rules, alloc, chain);
    if blocks != [] && Accepts(rules, alloc, chain, known, blocks[0]) {
      var b := NewBlock(rules, chain, blocks[0]);
      AcceptedNew(rules, alloc, chain, known, blocks[0]);
      DigestedSnoc(rules, alloc, chain, b);
      DigestAllDigested(rules, alloc, chain + [b], known + BlockTxids(rules, b), blocks[1..]);
    }
  }
}
