/**
 A chain that repeats a payment's txid is not put back whole when a branch that failed is taken off
 again. A node that gets onto such a chain by one reorg, and loses its last block in the next contest.
 */
module RestoredPart {
  import opened Wrappers
  import opened ByteStrings
  import opened Transactions
  import opened AddrBytes
  import opened BlockBody
  import opened Ledger
  import opened StoreSpec
  import opened Consensus
  import opened Replay
  import opened Nodes
  import opened ForkResolution
  import opened Reorg
  import opened Money
  import opened CoinbaseTxids

  /** The payment, and the payment signed anew. */
  function Repeating(): seq<Block> {
    Two() + [Replaying()]
  }

  lemma {:induction false} RepeatingIs()
    ensures |Repeating()| == 3 && Repeating()[0] == Genesis()
    ensures Repeating()[1] == Second() && Repeating()[2] == Replaying()
    ensures Repeating()[1].hash == [0, 0] && Repeating()[1].rows != [] && Genesis().hash == [0] && Genesis().rows != []
    ensures Replaying().height == 3 && Replaying().hash == [0, 0, 0] && Replaying().rows != []
    ensures WireTxs(Replaying().rows) == [Self(5, [6]), Self(7, [7])]
  {
    TwoIs();
    hide Two, Second, Example;
    PairRows(Two(), 5, [6], 7, [7]);
    WireRoundTrip(Example(), Two(), [Self(5, [6]), Self(7, [7])]);
    hide NewBlock, WireTxs;
    assert [0] + [0, 0] == [0, 0, 0];
  }

  /** Genesis lies below the fork, so the repeat is above it. */
  lemma {:induction false} RepeatAbove()
    ensures !TxidsFresh(FORK, Entries(Repeating()[1..]))
  {
    hide Example, Two, Second, Third, Replaying, Self, Genesis, Entries, Txids, TxidsFresh, Digested, Accepts, WireTxs;
    RepeatingIs();
    ReplayAdmitted({});
    if TxidsFresh(FORK, Entries(Repeating()[1..])) {
      BelowFork(Repeating());
    }
  }

  lemma {:induction false} BelowFork(chain: seq<Block>)
    requires chain != [] && chain[0] == Genesis() && TxidsFresh(FORK, Entries(chain[1..]))
    ensures TxidsFresh(FORK, Entries(chain))
  {
    hide Entries, TxidOf;
    EntriesSplit(chain, 1);
    GenesisEntries(Genesis());
    assert chain[..1] == [Genesis()];
    var es, fs := Entries(chain[..1]), Entries(chain[1..]);
    assert |es| == 1 && es[0].height == 1;
    assert forall i :: 1 <= i < |es + fs| ==> (es + fs)[i] == fs[i - 1];
  }

  /** What is put back of this chain on top of genesis is never all of it. */
  lemma {:induction false} PutBackShorter(after: seq<Block>)
    requires PutBack(FORK, Repeating(), 1, after)
    ensures |after| < |Repeating()|
  {
    hide Repeating, TxidsFresh, Entries;
    RepeatAbove();
    TakeAll(Repeating());
    TakeAll(after);
  }

  // ------------------------------------------------------------------ onto the chain

  /** A tie with the chain of the twin coinbase, under a smaller hash. */
  function Rival(): seq<Block> {
    Two() + [Replaying().(hash := [0])]
  }

  lemma {:induction false} RivalWins(checkpoint: int, s: Surroundings)
    requires checkpoint <= 2 && !s.busyLater && forall i :: !s.expired(i)
    ensures |Three()| == |Rival()| == 3 && Filled(Three()) && Filled(Rival()) && SplitAt(Three(), Rival(), 2)
    ensures Winning(Three(), Rival(), 2, checkpoint, s)
    ensures Wires(Rival()[2..]) == [[Self(5, [6]), Self(7, [7])]]
    ensures Three()[2].height == 3 && Three()[2].hash == [0, 0, 0] && Three()[2..] == [Third()] && Three()[..2] == Two()
  {
    RepeatingIs();
    TwoIs();
    ThirdIs();
    hide Two, Second, Third, Replaying, WireTxs;
    assert Rival()[2..] == [Replaying().(hash := [0])];
    assert LexLess([0], [0, 0, 0]);
  }

  lemma {:induction false} RivalTried(known: set<Txid>)
    requires known !! Txids(FORK, Entries([Third()]))
    ensures DigestAll(Example(), map[], Two(), known, [[Self(5, [6]), Self(7, [7])]]) == Repeating()
  {
    hide Two, Third, Entries, Txids, Accepts, NewBlock, BlockTxids, Example, Self, Digested, TxidsFresh;
    ReplayAdmitted(known);
    TwoIs();
    assert [[Self(5, [6]), Self(7, [7])]][1..] == [];
  }

  // ------------------------------------------------------------------ off it again

  /** A longer chain of blocks that are not valid on genesis. */
  function Invalid(): seq<Block> {
    var b := Block(2, [1], [SelfRow(0, [8], [1], 0)], None);
    [Genesis(), b, b, b]
  }

  lemma {:induction false} InvalidWins(checkpoint: int, s: Surroundings)
    requires checkpoint <= 2 && !s.busyLater && forall i :: !s.expired(i)
    ensures |Invalid()| == 4 && Filled(Repeating()) && Filled(Invalid()) && SplitAt(Repeating(), Invalid(), 1)
    ensures Winning(Repeating(), Invalid(), 1, checkpoint, s)
  {
    RepeatingIs();
    hide Repeating, Second, Replaying;
  }

  lemma {:induction false} InvalidRejected(known: set<Txid>)
    ensures Candidate(Example(), map[], Repeating(), 1, known, Wires(Invalid()[1..])) == [Genesis()]
  {
    hide Repeating, Second, Replaying, Invalid, Example, Genesis, DigestAll, Wires, WireTxs, Self;
    RepeatingIs();
    InvalidFirst();
    assert Repeating()[..1] == [Genesis()];
    RejectedFirst(Example(), map[], [Genesis()], known, Wires(Invalid()[1..]));
  }

  lemma {:induction false} InvalidFirst()
    ensures |Invalid()| == 4 && !Example().valid([Genesis()], Wires(Invalid()[1..])[0])
  {
    hide Example, Self, SelfRow, Genesis, WireTxs, WireTx;
    TooEarly();
    WireSelf(0, [8], [1], 0);
  }

  lemma {:induction false} WireSelf(timestamp: int, signature: Bytes, hash: Bytes, reward: int)
    ensures WireTxs([SelfRow(timestamp, signature, hash, reward)]) == [Self(timestamp, signature)]
  {
  }

  lemma {:induction false} TooEarly()
    ensures !Example().valid([Genesis()], [Self(0, [8])])
  {
  }

  lemma {:induction false} RejectedFirst(rules: Rules, alloc: map<Address, int>, chain: seq<Block>, known: set<Txid>,
                                         held: seq<seq<Tx>>)
    requires chain != [] && held != [] && !rules.valid(chain, held[0])
    ensures DigestAll(rules, alloc, chain, known, held) == chain
  {
  }

  /** A contest against an invalid branch leaves a node on this chain with fewer blocks than it had. */
  method LoseBlock(node: Node, s: Surroundings, peerId: Bytes) returns (o: Outcome)
    requires node.Valid() && node.rules == Example() && node.store.chain == Repeating() && node.store.db.alloc == map[]
    requires Calm(s) && !s.busyLater && (forall i :: !s.expired(i)) && node.checkpoint <= 2
    requires Cached(node.verdicts, ([0, 0, 0], peerId), s.now).None?
    modifies node, node.store
    ensures node.Valid() && !o.rolled && |node.store.chain| < |old(node.store.chain)|
  {
    hide Refines, TxidSound, Digested, HashExact, TxidExact, Repeating, Invalid, Winning, SplitAt, Filled, Candidate;
    hide Txids, Entries, PutBack, Calm, Cached, Wires, Example, Genesis, Second, Replaying;
    RepeatingIs();
    InvalidWins(node.checkpoint, s);
    InvalidRejected(node.store.Known() - Txids(FORK, Entries(node.store.chain[1..])));
    ExampleFork();
    ghost var tried;
    o, tried := ResolveClaimed(node, s, peerId, Invalid(), 1);
    PutBackShorter(node.store.chain);
  }

  lemma {:induction false} ExampleFork()
    ensures Example().fork == FORK
  {
  }

  // ------------------------------------------------------------------ the run

  lemma {:induction false} Started()
    ensures IsGenesis(Genesis()) && BlockFits(FORK, Genesis()) && ReadBack(FORK, Genesis()) == Genesis()
    ensures BlockTxids(Example(), Genesis()) == {}
  {
    ReadBackExact(FORK, Genesis());
    assert forall e :: e in BlockEntries(Genesis()) ==> e.height == 1;
  }

  /** A node on the chain of the twin coinbase is moved onto the chain that repeats the payment. */
  method TakeRival(node: Node, s: Surroundings, peerId: Bytes)
    requires node.Valid() && node.rules == Example() && node.store.chain == Three() && node.store.db.alloc == map[]
    requires Calm(s) && !s.busyLater && (forall i :: !s.expired(i)) && node.checkpoint <= 2 && node.verdicts == map[]
    modifies node, node.store
    ensures node.Valid() && node.store.chain == Repeating() && node.store.db.alloc == map[]
    ensures node.checkpoint <= 2 && node.verdicts == map[]
  {
    hide Refines, TxidSound, Digested, HashExact, TxidExact, Repeating, Three, Two, Rival, Winning, SplitAt, Filled;
    hide Txids, Entries, PutBack, Calm, Wires, Example, Genesis, Second, Replaying, Third, DigestAll;
    RepeatingIs();
    RivalWins(node.checkpoint, s);
    ExampleFork();
    RivalTried(node.store.Known() - Txids(FORK, Entries([Third()])));
    var o;
    ghost var tried;
    o, tried := ResolveClaimed(node, s, peerId, Rival(), 2);
  }

  /** From an empty store: genesis, a payment, and the twin coinbase. */
  method StartTwin(codec: Codec) returns (node: Node)
    ensures fresh(node) && fresh(node.store) && node.Valid() && node.rules == Example()
    ensures node.store.chain == Three() && node.store.db.alloc == map[]
    ensures node.checkpoint <= 2 && node.verdicts == map[]
  {
    hide Refines, TxidSound, Digested, HashExact, TxidExact, Three, Genesis, Example, Self, ReadBack;
    hide DigestAll, Txids, Entries, BlockTxids, Checkpoint;
    Started();
    ExampleFork();
    ThreeReached();
    node := StartNode(codec, Example(), Genesis(), 1);
    var _ := node.ApplyBlocks([[Self(5, [2]), Self(3, [3])], [Self(5, [4])]]);
    ThreeHeight();
    CheckpointRange(node.rollbackDepth, node.lastBlock);
  }

  lemma {:induction false} ThreeHeight()
    ensures |Three()| == 3 && Three()[2].height == 3
  {
    TwoIs();
    hide Two;
    ThirdIs();
  }

  /**
   From an empty store: genesis, a payment, a twin coinbase, a tie with a chain that repeats the payment,
   and a contest against an invalid branch. The node had held `before` and ends on fewer blocks.
   */
  method BlockLost(codec: Codec, s: Surroundings, peerId: Bytes) returns (node: Node, ghost before: seq<Block>)
    requires Calm(s) && !s.busyLater && forall i :: !s.expired(i)
    ensures node.Valid() && node.rules == Example() && before == Repeating() && |node.store.chain| < |before|
  {
    hide Refines, TxidSound, Digested, HashExact, TxidExact, Repeating, Three, Example, Entries, Calm;
    node := StartTwin(codec);
    TakeRival(node, s, peerId);
    before := node.store.chain;
    var _ := LoseBlock(node, s, peerId);
  }
}
