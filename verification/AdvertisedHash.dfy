/**
 A tie is decided by the hash a peer advertises, and the block it then serves is not compared with it.
 A peer, and a run of a node with it that ends on the chain that does not win the tie.
 */
module AdvertisedHash {
  import opened Wrappers
  import opened ByteStrings
  import opened Transactions
  import opened AddrBytes
  import opened BlockBody
  import opened Ledger
  import opened StoreSpec
  import opened Consensus
  import opened Nodes
  import opened ForkResolution
  import opened Reorg
  import opened ChainOrder

  const MINER: Address := [1]

  /** No fork; a block's hash is the signature of its coinbase. */
  const RULES: Rules := Rules(
    None, 2,
    (chain: seq<Block>, txs: seq<Tx>) => true,
    (height: nat, txs: seq<Tx>, parent: Bytes) => if txs == [] then [] else txs[|txs| - 1].signature,
    (chain: seq<Block>, txs: seq<Tx>) => [],
    (height: nat) => 1,
    (chain: seq<Block>) => 0,
    (openfield: Bytes, operation: Bytes, base: nat) => 0)

  const GENESIS: Block := Block(1, [9], [Row(0, MINER, MINER, 0, [1], [], [9], 0, GENESIS_REWARD, [], [])], None)

  function Mined(sig: Bytes): Tx {
    Tx(3, MINER, MINER, 0, sig, [], [], [])
  }

  /** The chain whose second block has the given hash. */
  function Chain(hash: Bytes): seq<Block> {
    [GENESIS, NewBlock(RULES, [GENESIS], [Mined(hash)])]
  }

  /** What the peer says its chain is: a second block with the content of [7] under the hash [2]. */
  function Claimed(): seq<Block> {
    [GENESIS, Chain([7])[1].(hash := [2])]
  }

  lemma {:induction false} MinedRow(hash: Bytes)
    ensures Chain(hash)[1] == Block(2, hash, [Row(3, MINER, MINER, 0, hash, [], hash, 0, 1, [], [])], Some([]))
  {
    assert [Mined(hash)][..0] == [];
    assert PaymentRows(RULES, [GENESIS], hash, []) == [];
  }

  lemma {:induction false} MinedUnseen(hash: Bytes, known: set<Txid>)
    requires hash != [] && hash != [1]
    ensures NoReplay(RULES, [GENESIS], known, [Mined(hash)])
  {
    var e := Entry(1, 0, GENESIS.rows[0]);
    assert [GENESIS][..0] == [];
    assert Entries([GENESIS]) == [e] by {
      assert [] + BlockEntries(GENESIS) == [e];
    }
    assert forall f :: f in [e] ==> f == e;
  }

  lemma {:induction false} MinedAccepted(hash: Bytes, known: set<Txid>)
    requires hash != [] && hash != [1] && hash != [9]
    ensures Accepts(RULES, map[], [GENESIS], known, [Mined(hash)])
  {
    MinedUnseen(hash, known);
    MinedRow(hash);
    hide NoReplay;
    assert Hashes([GENESIS]) == {[9]};
  }

  /** Whatever the txid index holds, the served branch is digested. */
  lemma {:induction false} ServedDigested(known: set<Txid>)
    ensures Candidate(RULES, map[], Chain([5]), 1, known, [[Mined([7])]]) == Chain([7])
  {
    MinedAccepted([7], known);
    hide Accepts, NewBlock, BlockTxids;
    assert Chain([5])[..1] == [GENESIS];
    assert [GENESIS] + [NewBlock(RULES, [GENESIS], [Mined([7])])] == Chain([7]);
    assert [[Mined([7])]][1..] == [];
  }

  lemma {:induction false} NotUp()
    ensures !Beats(Chain([7]), Chain([5]))
  {
    MinedRow([5]);
    MinedRow([7]);
    hide NewBlock;
    assert Chain([7])[..1] == [GENESIS] == Chain([5])[..1];
    CommonIs(Chain([7]), Chain([5]), 1);
    assert !LexLess([7], [5]);
  }

  // ------------------------------------------------------------------ what the peer answers

  lemma {:induction false} ClaimedIs()
    ensures |Claimed()| == 2 && Claimed()[0] == GENESIS && Claimed()[1].hash == [2] && Claimed()[1].rows != []
    ensures WireTxs(Claimed()[1].rows) == [Mined([7])]
    ensures |Chain([5])| == 2 && Chain([5])[0] == GENESIS && Chain([5])[1].rows != []
    ensures Chain([5])[1].height == 2 && Chain([5])[1].hash == [5] && |Chain([7])| == 2
  {
    MinedRow([5]);
    MinedRow([7]);
  }

  lemma {:induction false} ClaimedWins(checkpoint: int, s: Surroundings)
    requires checkpoint <= 2 && !s.busyLater && forall i :: !s.expired(i)
    ensures Filled(Chain([5])) && Filled(Claimed()) && SplitAt(Chain([5]), Claimed(), 1)
    ensures Winning(Chain([5]), Claimed(), 1, checkpoint, s) && Wires(Claimed()[1..]) == [[Mined([7])]]
  {
    ClaimedIs();
    hide Claimed, Chain;
    assert LexLess([2], [5]);
  }

  // ------------------------------------------------------------------ the run

  /** A node on the chain that wins the tie meets the peer and ends on the one that loses it. */
  method LoseTie(node: Node, s: Surroundings, peerId: Bytes) returns (o: Outcome)
    requires node.Valid() && node.rules == RULES && node.store.chain == Chain([5]) && node.store.db.alloc == map[]
    requires Calm(s) && !s.busyLater && (forall i :: !s.expired(i)) && node.checkpoint <= 2
    requires Cached(node.verdicts, ([5], peerId), s.now).None?
    modifies node, node.store
    ensures node.Valid() && o.rolled && node.store.chain == Chain([7])
    ensures !Beats(node.store.chain, old(node.store.chain))
  {
    hide Refines, TxidSound, Digested, HashExact, TxidExact, Chain, Claimed, Winning, SplitAt, Filled, Beats, Candidate;
    hide Txids, Entries, PutBack, Calm, Cached, Wires;
    ClaimedIs();
    ClaimedWins(node.checkpoint, s);
    NotUp();
    ServedDigested(node.store.Known() - Txids(None, Entries(node.store.chain[1..])));
    ghost var tried;
    o, tried := ResolveClaimed(node, s, peerId, Claimed(), 1);
  }

  /** From an empty store: genesis, the block with hash [5], then the peer; the node ends on the larger hash. */
  method TieLost(codec: Codec, s: Surroundings, peerId: Bytes) returns (node: Node)
    requires Calm(s) && !s.busyLater && forall i :: !s.expired(i)
    ensures node.Valid() && node.rules == RULES && node.store.chain == Chain([7])
  {
    hide Refines, TxidSound, Digested, HashExact, TxidExact, Chain, ReadBack, DigestAll, Txids, Entries, Beats;
    GenesisFits();
    node := StartNode(codec, RULES, GENESIS, 1);
    FirstDigested(node.store.Known());
    var _ := node.ApplyBlocks([[Mined([5])]]);
    ClaimedIs();
    var _ := LoseTie(node, s, peerId);
  }

  lemma {:induction false} GenesisFits()
    ensures IsGenesis(GENESIS) && BlockFits(None, GENESIS) && ReadBack(None, GENESIS) == GENESIS
  {
    ReadBackExact(None, GENESIS);
  }

  lemma {:induction false} FirstDigested(known: set<Txid>)
    ensures DigestAll(RULES, map[], [GENESIS], known, [[Mined([5])]]) == Chain([5])
  {
    MinedAccepted([5], known);
    hide Accepts, NewBlock, BlockTxids;
    assert [GENESIS] + [NewBlock(RULES, [GENESIS], [Mined([5])])] == Chain([5]);
    assert [[Mined([5])]][1..] == [];
  }
}
