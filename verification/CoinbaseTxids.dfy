/**
 The replay check skips the coinbase, so a coinbase may repeat the txid of an earlier payment. A
 chain digested from genesis that shows it, and what a rollback of that coinbase does to the txid index.
 */
module CoinbaseTxids {
  import opened Wrappers
  import opened ByteStrings
  import opened Transactions
  import opened Serialize
  import opened Ledger
  import opened StoreIndex
  import opened StoreSpec
  import opened BlockStores
  import opened BalanceQueries
  import opened Consensus
  import opened Money
  import opened Replay

  const FORK: Option<nat> := Some(2)

  function Miner(): Address {
    [1]
  }

  function Founder(): Address {
    [9]
  }

  /** Fork at height 2, nothing costs anything, block timestamps increase. */
  function Example(): Rules {
    Rules(
      FORK, 2,
      (chain: seq<Block>, txs: seq<Tx>) => chain != [] && chain[|chain| - 1].rows != [] && txs != []
        && txs[|txs| - 1].timestamp > LastRow(chain[|chain| - 1]).timestamp,
      (height: nat, txs: seq<Tx>, parent: Bytes) => [0] + parent,
      (chain: seq<Block>, txs: seq<Tx>) => [],
      (height: nat) => 1,
      (chain: seq<Block>) => 0,
      (openfield: Bytes, operation: Bytes, base: nat) => 0)
  }

  function Genesis(): Block {
    Block(1, [0], [Row(0, Founder(), Founder(), 0, [1], [], [], 0, GENESIS_REWARD, [], [])], None)
  }

  /** A transaction of the miner with itself. */
  function Self(timestamp: int, signature: Bytes): Tx {
    Tx(timestamp, Miner(), Miner(), 0, signature, [], [], [])
  }

  function SelfRow(timestamp: int, signature: Bytes, hash: Bytes, reward: int): Row {
    Row(timestamp, Miner(), Miner(), 0, signature, [], hash, 0, reward, [], [])
  }

  /** A payment stamped 5, in a block stamped 3; then a coinbase with the payment's content. */
  function Second(): Block {
    NewBlock(Example(), [Genesis()], [Self(5, [2]), Self(3, [3])])
  }

  function Two(): seq<Block> {
    [Genesis(), Second()]
  }

  function Third(): Block {
    NewBlock(Example(), Two(), [Self(5, [4])])
  }

  function Three(): seq<Block> {
    Two() + [Third()]
  }

  /** The content txid of the payment. */
  function Payment(): Txid {
    TxidOfTx(Self(5, [2]))
  }

  // ------------------------------------------------------------------ blocks of such transactions

  lemma {:induction false} SameContent(timestamp: int, signature: Bytes, signature': Bytes, hash: Bytes, reward: int)
    ensures TxidOfTx(Self(timestamp, signature)) == TxidOfTx(Self(timestamp, signature'))
    ensures TxidOf(SelfRow(timestamp, signature, hash, reward)) == TxidOfTx(Self(timestamp, signature))
  {
  }

  lemma {:induction false} StampsDiffer(s: int, t: int, a: Bytes, b: Bytes)
    requires 0 <= s < 256 && 0 <= t < 256 && s != t
    ensures TxidOfTx(Self(s, a)) != TxidOfTx(Self(t, b))
  {
    var c, d := Content(s, 0, Miner(), Miner(), Some([]), Some([])),
      Content(t, 0, Miner(), Miner(), Some([]), Some([]));
    if TxidOfTx(Self(s, a)) == TxidOfTx(Self(t, b)) {
      SignatureBufferInjective(c, d);
    }
  }

  lemma {:induction false} CostsNothing(chain: seq<Block>, txs: seq<Tx>, a: Bytes)
    requires forall tx :: tx in txs ==> tx.amount == 0
    ensures Debit(txs, a) == 0 && Fees(Example(), chain, txs, a) == 0
  {
    if txs != [] {
      var n := |txs| - 1;
      assert txs[n] in txs && forall tx :: tx in txs[..n] ==> tx in txs;
      CostsNothing(chain, txs[..n], a);
    }
  }

  lemma {:induction false} FreeAffordable(chain: seq<Block>, txs: seq<Tx>)
    requires chain != [] && txs != [] && forall tx :: tx in txs ==> tx.amount == 0 && tx.address == Miner()
    requires Spendable(Example(), map[], chain, Miner()) >= 0
    ensures Affordable(Example(), map[], chain, txs)
  {
    hide Spendable, Debit, Fees, Example;
    forall i | 0 <= i < |txs| - 1 ensures Affords(Example(), map[], chain, txs, txs[i].address) {
      assert forall tx :: tx in txs[..|txs| - 1] ==> tx in txs;
      CostsNothing(chain, txs, Miner());
      CostsNothing(chain, txs[..|txs| - 1], Miner());
      assert txs[i] in txs;
    }
  }

  /** A payment and a coinbase on top of a chain, as rows. */
  lemma {:induction false} PairRows(chain: seq<Block>, s: int, a: Bytes, t: int, b: Bytes)
    requires chain != []
    ensures var hash := [0] + chain[|chain| - 1].hash;
      NewBlock(Example(), chain, [Self(s, a), Self(t, b)]) ==
        Block(NextHeight(chain), hash, [SelfRow(s, a, hash, 0), SelfRow(t, b, hash, 1)], Some([]))
  {
    var p, c := Self(s, a), Self(t, b);
    assert [p, c][..1] == [p] && [p][..0] == [];
    assert FeeSum(Example(), chain, []) == 0;
    assert FeeSum(Example(), chain, [p]) == 0;
  }

  /** A coinbase alone. */
  lemma {:induction false} LoneRow(chain: seq<Block>, t: int, b: Bytes)
    requires chain != []
    ensures var hash := [0] + chain[|chain| - 1].hash;
      NewBlock(Example(), chain, [Self(t, b)]) ==
        Block(NextHeight(chain), hash, [SelfRow(t, b, hash, 1)], Some([]))
  {
    assert [Self(t, b)][..0] == [];
    assert FeeSum(Example(), chain, []) == 0;
  }

  lemma {:induction false} PairFits(height: nat, hash: Bytes, s: int, a: Bytes, t: int, b: Bytes)
    requires height < 10 && 0 <= s < 256 && 0 <= t < 256
    ensures BlockFits(FORK, Block(height, hash, [SelfRow(s, a, hash, 0), SelfRow(t, b, hash, 1)], Some([])))
  {
    var rows := [SelfRow(s, a, hash, 0), SelfRow(t, b, hash, 1)];
    assert forall r :: r in rows ==> r == rows[0] || r == rows[1];
  }

  lemma {:induction false} PairNoReplay(rules: Rules, chain: seq<Block>, known: set<Txid>, p: Tx, c: Tx)
    requires chain != [] && PostForkNext(rules, chain) && Unseen(rules, chain, known, p)
    requires p.signature != c.signature && TxidOfTx(p) != TxidOfTx(c)
    ensures NoReplay(rules, chain, known, [p, c])
  {
    hide Unseen, TxidOfTx;
  }

  /** What the example's rules say about a block. */
  lemma {:induction false} ExampleAccepts(chain: seq<Block>, known: set<Txid>, txs: seq<Tx>)
    requires chain != [] && chain[|chain| - 1].rows != [] && txs != [] && AmountsOk(txs)
    requires txs[|txs| - 1].timestamp > LastRow(chain[|chain| - 1]).timestamp
    requires NoReplay(Example(), chain, known, txs) && Affordable(Example(), map[], chain, txs)
    requires [0] + chain[|chain| - 1].hash !in Hashes(chain) && BlockFits(FORK, NewBlock(Example(), chain, txs))
    ensures Accepts(Example(), map[], chain, known, txs)
  {
    hide NoReplay, Affordable, BlockFits, NewBlock, Hashes, AmountsOk;
  }

  /** When the digester accepts a payment and a coinbase. */
  lemma {:induction false} PairAccepted(chain: seq<Block>, known: set<Txid>, s: int, a: Bytes, t: int, b: Bytes)
    requires chain != [] && chain[|chain| - 1].rows != [] && 2 <= NextHeight(chain) < 10
    requires 0 <= s < 256 && 0 <= t < 256 && s != t && a != b && t > LastRow(chain[|chain| - 1]).timestamp
    requires Unseen(Example(), chain, known, Self(s, a)) && [0] + chain[|chain| - 1].hash !in Hashes(chain)
    requires Spendable(Example(), map[], chain, Miner()) >= 0
    ensures Accepts(Example(), map[], chain, known, [Self(s, a), Self(t, b)])
  {
    hide Unseen, TxidOfTx, NewBlock, BlockFits, Affordable, Spendable, Hashes, NoReplay, SelfRow, Accepts, Miner;
    StampsDiffer(s, t, a, b);
    PairRows(chain, s, a, t, b);
    PairFits(NextHeight(chain), [0] + chain[|chain| - 1].hash, s, a, t, b);
    PairNoReplay(Example(), chain, known, Self(s, a), Self(t, b));
    hide Example;
    FreeAffordable(chain, [Self(s, a), Self(t, b)]);
    ExampleAccepts(chain, known, [Self(s, a), Self(t, b)]);
  }

  // ------------------------------------------------------------------ the second block

  lemma {:induction false} SecondIs()
    ensures Second() == Block(2, [0, 0], [SelfRow(5, [2], [0, 0], 0), SelfRow(3, [3], [0, 0], 1)], Some([]))
  {
    hide NewBlock, SelfRow, Example, Self;
    PairRows([Genesis()], 5, [2], 3, [3]);
    assert [0] + [0] == [0, 0];
  }

  lemma {:induction false} TwoIs()
    ensures |Two()| == 2 && Two()[0] == Genesis() && Two()[1] == Second() && NextHeight(Two()) == 3
    ensures Two()[1].hash == [0, 0] && Two()[1].rows != [] && LastRow(Two()[1]).timestamp == 3
  {
    SecondIs();
  }

  lemma {:induction false} GenesisSpendable()
    ensures Spendable(Example(), map[], [Genesis()], Miner()) == 0
  {
    hide Genesis, Miner, Founder, Example, Spendable;
    GenesisIs();
    NothingToSpend(Example(), Genesis(), Miner());
  }

  lemma {:induction false} NothingToSpend(rules: Rules, g: Block, a: Bytes)
    requires IsGenesis(g) && g.rows[0].recipient != a
    ensures Spendable(rules, map[], [g], a) == 0
  {
    hide Balance, Entries, RewardAbove;
    GenesisBalance(map[], g, a);
    GenesisEntries(g);
    NotPaid(Entry(1, 0, g.rows[0]), a, NextHeight([g]) - rules.maturity);
  }

  lemma {:induction false} GenesisIs()
    ensures IsGenesis(Genesis()) && Genesis().rows[0].recipient != Miner() && BlockFits(FORK, Genesis())
  {
  }

  lemma {:induction false} NotPaid(e: Entry, a: Bytes, above: int)
    requires e.row.recipient != a
    ensures RewardAbove([e], a, above) == 0
  {
    assert [e][..0] == [];
    assert RewardAbove([], a, above) == 0;
  }

  lemma {:induction false} PaymentUnseen()
    ensures Unseen(Example(), [Genesis()], {}, Self(5, [2]))
  {
    GenesisEntries(Genesis());
    hide Entries, TxidOfTx;
    var e := Entry(1, 0, Genesis().rows[0]);
    assert forall f :: f in [e] ==> f == e;
  }

  lemma {:induction false} SecondAccepted()
    ensures Accepts(Example(), map[], [Genesis()], {}, [Self(5, [2]), Self(3, [3])])
    ensures Accepted(Example(), map[], [Genesis()], Second())
  {
    GenesisSpendable();
    PaymentUnseen();
    hide Spendable, Unseen, Accepts, NewBlock, Example;
    assert Hashes([Genesis()]) == {[0]};
    PairAccepted([Genesis()], {}, 5, [2], 3, [3]);
    AcceptedNew(Example(), map[], [Genesis()], {}, [Self(5, [2]), Self(3, [3])]);
  }

  lemma {:induction false} GenesisDigested()
    ensures Digested(Example(), map[], [Genesis()])
  {
    hide Accepted, IsGenesis, BlockFits, Genesis, Miner;
    GenesisIs();
    assert Example().fork == FORK;
  }

  lemma {:induction false} TwoDigested()
    ensures Digested(Example(), map[], Two())
  {
    hide Second, Accepted, Accepts, Example, Self, Genesis;
    SecondAccepted();
    GenesisDigested();
    hide Digested;
    assert [Genesis()] + [Second()] == Two();
    DigestedSnoc(Example(), map[], [Genesis()], Second());
  }

  /** The payment's row, and its place on the chain. */
  lemma {:induction false} PaymentEntry() returns (e: Entry)
    ensures e in Entries(Two()) && PostFork(FORK, e.height) && TxidOf(e.row) == Payment()
  {
    SecondIs();
    TwoIs();
    hide Second, Two;
    e := Entry(2, 0, SelfRow(5, [2], [0, 0], 0));
    EntriesAre(Two(), e);
    assert InBlock(Two()[1], e);
    SameContent(5, [2], [2], [0, 0], 0);
  }

  // ------------------------------------------------------------------ the twin

  lemma {:induction false} ThirdIs()
    ensures Third() == Block(3, [0, 0, 0], [SelfRow(5, [4], [0, 0, 0], 1)], Some([]))
  {
    hide Two, Second, Genesis, NewBlock, SelfRow, Example, Self;
    TwoIs();
    LoneRow(Two(), 5, [4]);
    assert [0] + [0, 0] == [0, 0, 0];
  }

  lemma {:induction false} ThirdFits()
    ensures BlockFits(FORK, Third())
  {
    ThirdIs();
    hide Third;
    assert forall r :: r in Third().rows ==> r == Third().rows[0];
  }

  lemma {:induction false} TwoHashes()
    ensures [0, 0, 0] !in Hashes(Two())
  {
    TwoIs();
    hide Two, Second;
    forall b | b in Two() ensures b.hash != [0, 0, 0] {
      var i :| 0 <= i < |Two()| && Two()[i] == b;
    }
  }

  lemma {:induction false} LoneNoReplay(chain: seq<Block>, known: set<Txid>)
    requires chain != [] && NextHeight(chain) >= 2
    ensures NoReplay(Example(), chain, known, [Self(5, [4])]) && Affordable(Example(), map[], chain, [Self(5, [4])])
  {
    hide Unseen, TxidOfTx, Affords;
  }

  /** Whatever the txid index knows, the payment's txid included. */
  lemma {:induction false} ThirdAccepted(known: set<Txid>)
    ensures Accepts(Example(), map[], Two(), known, [Self(5, [4])])
  {
    hide Two, Second, Genesis, Entries, BlockFits, Unseen, NewBlock, Hashes, NoReplay, Affordable, Accepts, Example;
    TwoIs();
    TwoHashes();
    ThirdFits();
    LoneNoReplay(Two(), known);
    assert [0] + [0, 0] == [0, 0, 0];
    ExampleAccepts(Two(), known, [Self(5, [4])]);
  }

  lemma {:induction false} TwinTxid()
    ensures TxidOf(LastRow(Third())) == Payment() && !FreshAt(FORK, Two(), Third())
  {
    hide Two, Third, Entries, TxidOf, TxidOfTx, Self, SelfRow;
    ThirdIs();
    SameContent(5, [4], [2], [0, 0, 0], 1);
    var e := PaymentEntry();
    assert TxidOf(e.row) in Txids(FORK, Entries(Two()));
  }

  lemma {:induction false} DigestTwo(rules: Rules, alloc: map<Address, int>, chain: seq<Block>, known: set<Txid>,
                                     txs: seq<Tx>, txs': seq<Tx>, b: Block)
    requires chain != [] && Accepts(rules, alloc, chain, known, txs) && b == NewBlock(rules, chain, txs)
    requires Accepts(rules, alloc, chain + [b], known + BlockTxids(rules, b), txs')
    ensures DigestAll(rules, alloc, chain, known, [txs, txs']) == chain + [b] + [NewBlock(rules, chain + [b], txs')]
  {
    hide NewBlock, BlockTxids, NoReplay, Affordable, BlockFits, HashFor;
    var c, known' := chain + [b], known + BlockTxids(rules, b);
    var b' := NewBlock(rules, c, txs');
    hide Accepts;
    assert [txs, txs'][1..] == [txs'] && [txs'][1..] == [];
    assert DigestAll(rules, alloc, c, known', [txs']) ==
      DigestAll(rules, alloc, c + [b'], known' + BlockTxids(rules, b'), []);
  }

  /** What a node that starts on genesis digests, block by block. */
  lemma {:induction false} ThreeReached()
    ensures DigestAll(Example(), map[], [Genesis()], {}, [[Self(5, [2]), Self(3, [3])], [Self(5, [4])]]) == Three()
  {
    hide Accepts, NewBlock, Self, Genesis, Example, DigestAll, BlockTxids, Accepted;
    SecondAccepted();
    ThirdAccepted({} + BlockTxids(Example(), Second()));
    assert [Genesis()] + [Second()] == Two();
    DigestTwo(Example(), map[], [Genesis()], {}, [Self(5, [2]), Self(3, [3])], [Self(5, [4])], Second());
  }

  /**
   A chain a node reaches from genesis on which a coinbase repeats a payment's txid: the block with that
   coinbase is accepted while the txid index holds the payment.
   */
  lemma {:induction false} CoinbaseRepeats()
    ensures DigestAll(Example(), map[], [Genesis()], {}, [[Self(5, [2]), Self(3, [3])], [Self(5, [4])]]) == Three()
    ensures Accepts(Example(), map[], Two(), Txids(FORK, Entries(Two())), [Self(5, [4])])
    ensures Digested(Example(), map[], Three()) && !CoinbaseFresh(FORK, Three())
  {
    hide Example, Two, Second, Self, Accepts, Accepted, FreshAt, Digested, DigestAll, Txids, Entries, NewBlock;
    ThreeReached();
    TwoIs();
    TwoDigested();
    ThirdAccepted(Txids(FORK, Entries(Two())));
    TwinTxid();
    ThirdAccepted({});
    AcceptedNew(Example(), map[], Two(), {}, [Self(5, [4])]);
    DigestedSnoc(Example(), map[], Two(), Third());
    assert Three()[..2] == Two();
    assert !FreshAt(FORK, Three()[..2], Three()[2]);
  }

  // ------------------------------------------------------------------ what a rollback then loses

  /** Rolling the twin back leaves an index without the payment that is still on the chain. */
  lemma {:induction false} RollbackLoses(db: Db, db': Db)
    requires TxidExact(FORK, db, Three()) && |Three()| >= 2 && ExactIff(FORK, db, db', Three(), 2)
    ensures !TxidExact(FORK, db', Two())
  {
    TwoIs();
    TwinTxid();
    hide Two, Third, TxidExact, FreshAt, Txids, Entries, Hashes;
    assert Three()[..2] == Two() && Three()[2] == Third();
    if Txids(FORK, Entries(Three()[..2])) !! Txids(FORK, Entries(Three()[2..])) {
      DisjointFresh(FORK, Three(), 2);
    }
  }

  lemma {:induction false} TwinRemoved()
    ensures Payment() in Txids(FORK, Entries([Third()]))
  {
    TwinTxid();
    ThirdIs();
    hide Third;
    var e := Entry(3, 0, Third().rows[0]);
    EntriesAre([Third()], e);
    assert InBlock([Third()][0], e);
    hide Entries, TxidOf, Payment;
  }

  /** The payment signed anew, in a block of its own. */
  function Replaying(): Block {
    NewBlock(Example(), Two(), [Self(5, [6]), Self(7, [7])])
  }

  lemma {:induction false} TwoSpendable()
    ensures Spendable(Example(), map[], Two(), Miner()) >= 0
  {
    TwoIs();
    TwoDigested();
    hide Two, Digested, Entries, Balance, RewardAbove;
    HeldRewardsIntact(Example(), map[], Two(), Miner());
  }

  lemma {:induction false} TwoSignatures()
    ensures !SeenSignature(Entries(Two()), [6])
  {
    SecondIs();
    TwoIs();
    hide Second, Two;
    forall e | e in Entries(Two()) ensures e.row.signature != [6] {
      EntriesAre(Two(), e);
      var b :| b in Two() && InBlock(b, e);
      var i :| 0 <= i < |Two()| && Two()[i] == b;
    }
  }

  lemma {:induction false} ReplayingUnseen(known: set<Txid>)
    requires Payment() !in known
    ensures Unseen(Example(), Two(), known, Self(5, [6]))
  {
    TwoSignatures();
    TwoIs();
    SameContent(5, [2], [6], [], 0);
    hide Two, Entries, SeenSignature, TxidOfTx;
  }

  lemma {:induction false} ReplayingAccepted(known: set<Txid>)
    requires Payment() !in known
    ensures Accepts(Example(), map[], Two(), known, [Self(5, [6]), Self(7, [7])])
  {
    hide Two, Second, Genesis, Unseen, Spendable, Accepts, Hashes, Example, Payment, Miner;
    TwoIs();
    TwoHashes();
    ReplayingUnseen(known);
    TwoSpendable();
    assert [0] + [0, 0] == [0, 0, 0];
    PairAccepted(Two(), known, 5, [6], 7, [7]);
  }

  lemma {:induction false} ReplayingRepeats()
    ensures !TxidsFresh(FORK, Entries(Two()) + BlockEntries(Replaying()))
  {
    hide Two, NewBlock, Entries, TxidOf, TxidOfTx, Genesis, Second, Self;
    TwoIs();
    PairRows(Two(), 5, [6], 7, [7]);
    var hash := [0] + Two()[1].hash;
    SameContent(5, [6], [2], hash, 0);
    var e := PaymentEntry();
    var fs := BlockEntries(Replaying());
    assert fs[0] == Entry(3, 0, SelfRow(5, [6], hash, 0)) && LookedUp(FORK, fs[0]);
    hide SelfRow, Replaying, BlockEntries;
    RepeatShows(Entries(Two()), e, fs);
  }

  lemma {:induction false} RepeatShows(es: seq<Entry>, e: Entry, fs: seq<Entry>)
    requires e in es && PostFork(FORK, e.height) && fs != [] && LookedUp(FORK, fs[0])
    requires TxidOf(e.row) == TxidOf(fs[0].row)
    ensures !TxidsFresh(FORK, es + fs)
  {
    hide TxidOf;
    var i :| 0 <= i < |es| && es[i] == e;
    assert (es + fs)[i] == e && (es + fs)[|es|] == fs[0];
  }

  /**
   On the store a rollback of the twin leaves, the digester accepts the payment a second time under a
   new signature: a node then holds a chain with a repeated txid.
   */
  lemma {:induction false} ReplayAdmitted(known: set<Txid>)
    requires known !! Txids(FORK, Entries([Third()]))
    ensures Accepts(Example(), map[], Two(), known, [Self(5, [6]), Self(7, [7])])
    ensures Digested(Example(), map[], Two() + [Replaying()]) && !TxidsFresh(FORK, Entries(Two() + [Replaying()]))
  {
    hide Example, Two, Second, Third, Self, Accepts, Accepted, Digested, Entries, TxidsFresh, Txids, Payment, NewBlock;
    TwoIs();
    TwinRemoved();
    ReplayingAccepted(known);
    TwoDigested();
    ReplayingRepeats();
    EntriesSnoc(Two(), Replaying());
    DigestedEnds(Example(), map[], Two());
    AcceptedNew(Example(), map[], Two(), known, [Self(5, [6]), Self(7, [7])]);
    DigestedSnoc(Example(), map[], Two(), Replaying());
  }
}
