/** A node: the ledger store, the in-memory tip beside it, and the path every block takes into the chain. */
module Nodes {
  import opened Wrappers
  import opened Arithmetic
  import opened ByteStrings
  import opened Transactions
  import opened AddrBytes
  import opened BlockBody
  import opened Ledger
  import opened StoreIndex
  import opened StoreSpec
  import opened BlockStores
  import opened Consensus
  import opened Replay
  import opened Digest

  // ------------------------------------------------------------------ reading the chain

  lemma {:induction false} DifficultyAt(fork: Option<nat>, chain: seq<Block>, i: nat)
    requires WellFormed(fork, chain) && i < |chain|
    ensures var h, m := chain[i].height, DifficultyMap(chain);
      chain[i].difficulty == if h in m then Some(m[h]) else None
    decreases |chain|
  {
    var n := |chain| - 1;
    DifficultyKeys(fork, chain[..n]);
    if i < n {
      DifficultyAt(fork, chain[..n], i);
    }
  }

  lemma {:induction false} DifficultyKeys(fork: Option<nat>, chain: seq<Block>)
    requires WellFormed(fork, chain)
    ensures forall h :: h in DifficultyMap(chain) ==> chain != [] && h < chain[0].height + |chain|
  {
    if chain != [] {
      DifficultyKeys(fork, chain[..|chain| - 1]);
    }
  }

  lemma {:induction false} DifficultyStored(codec: Codec, fork: Option<nat>, db: Db, chain: seq<Block>, i: nat)
    requires Refines(codec, fork, db, chain) && i < |chain|
    ensures chain[i].difficulty == if chain[i].height in db.diff then Some(db.diff[chain[i].height]) else None
  {
    RefinesParts(codec, fork, db, chain);
    hide Refines, Balances;
    DifficultyAt(fork, chain, i);
  }

  lemma {:induction false} TipStored(codec: Codec, fork: Option<nat>, db: Db, chain: seq<Block>)
    requires Refines(codec, fork, db, chain)
    ensures Consecutive(chain) && Bodies(codec, db, chain) && HeightsFit(db.blocks)
  {
    StoredHeightsFit(codec, fork, db, chain);
  }

  /** Height and hash of the last stored block. */
  method StoreTip(codec: Codec, fork: Option<nat>, db: Db, ghost chain: seq<Block>) returns (height: nat, hash: Bytes)
    requires Refines(codec, fork, db, chain) && chain != []
    ensures height == chain[|chain| - 1].height && hash == chain[|chain| - 1].hash
    ensures height in db.blocks && db.blocks[height].hash == hash
  {
    hide Refines;
    TipStored(codec, fork, db, chain);
    var tip := TipOf(db.blocks);
    TipIsLast(codec, db, chain, tip);
    RefinesStored(codec, fork, db, chain, |chain| - 1);
    height := tip.value;
    hash := db.blocks[height].hash;
  }

  /** What validation may look at: the whole chain, as the store gives it back. */
  method ReadChain(codec: Codec, fork: Option<nat>, db: Db, ghost chain: seq<Block>) returns (c: seq<Block>)
    requires Refines(codec, fork, db, chain) && chain != [] && chain[0].height == 1
    ensures c == chain
  {
    hide Refines, Expand, Bodies;
    var tip, _ := StoreTip(codec, fork, db, chain);
    TipStored(codec, fork, db, chain);
    c := [];
    var h := 1;
    while h <= tip
      invariant 1 <= h <= tip + 1 && c == chain[..h - 1]
    {
      RefinesStored(codec, fork, db, chain, h - 1);
      DifficultyStored(codec, fork, db, chain, h - 1);
      var rec := db.blocks[h];
      var rows := Expand(codec, db.keys, rec).value;
      c := c + [Block(h, rec.hash, rows, if h in db.diff then Some(db.diff[h]) else None)];
      h := h + 1;
    }
  }

  // ------------------------------------------------------------------ fork verdicts

  datatype Verdict = BEHIND | SYNCED | REORG | DEAD_FORK | UNKNOWN | TIE_WIN

  // ------------------------------------------------------------------ the node

  class Node {
    const store: BlockStore
    const rules: Rules
    const rollbackDepth: Positive
    var lastBlock: nat
    var lastBlockHash: Bytes
    var hddBlock: nat
    var hddHash: Bytes
    var checkpoint: int
    /** (our tip hash, peer) to a verdict and the time it expires */
    var verdicts: map<(Bytes, Bytes), (Verdict, nat)>

    /** The store holds an accepted chain, and every block hash of it. */
    ghost predicate Ledger()
      reads this, store
    {
      && rules.fork == store.fork && store.Valid() && HashExact(store.db, store.chain)
      && Digested(rules, store.db.alloc, store.chain)
    }

    /** No txid of the chain is missing from the index, and no payment repeats one. */
    ghost predicate Clean()
      reads this, store
    {
      TxidExact(store.fork, store.db, store.chain) && TxidsFresh(store.fork, Entries(store.chain))
    }

    /** The in-memory tip is the store's tip. */
    ghost predicate AtTip()
      reads this, store
    {
      && store.chain != []
      && lastBlock == store.chain[|store.chain| - 1].height && lastBlockHash == store.chain[|store.chain| - 1].hash
    }

    ghost predicate NoReorgCached()
      reads this
    {
      forall key :: key in verdicts ==> verdicts[key].0 != REORG
    }

    ghost predicate Valid()
      reads this, store
    {
      Ledger() && AtTip() && hddBlock == lastBlock && hddHash == lastBlockHash && NoReorgCached()
    }

    constructor (store: BlockStore, rules: Rules, rollbackDepth: Positive)
      requires rules.fork == store.fork && store.Valid() && HashExact(store.db, store.chain)
      requires Digested(rules, store.db.alloc, store.chain)
      ensures this.store == store && this.rules == rules && Valid() && checkpoint == 0 && verdicts == map[]
    {
      hide Refines, TxidSound, Digested, HashExact;
      DigestedStart(rules, store.db.alloc, store.chain);
      var height, hash := StoreTip(store.codec, store.fork, store.db, store.chain);
      this.store, this.rules, this.rollbackDepth := store, rules, rollbackDepth;
      lastBlock, lastBlockHash, hddBlock, hddHash := height, hash, height, hash;
      checkpoint, verdicts := 0, map[];
    }

    /** Resync the in-memory tip from the store, as after a rejected block. */
    method ResyncTip()
      requires Ledger()
      modifies `lastBlock, `lastBlockHash
      ensures Ledger() && AtTip()
    {
      hide Refines, TxidSound, Digested, HashExact;
      DigestedStart(rules, store.db.alloc, store.chain);
      lastBlock, lastBlockHash := StoreTip(store.codec, store.fork, store.db, store.chain);
    }

    /** One turn of `process_block_data`: the tip moves first, then the block is committed. */
    method DigestOne(txs: seq<Tx>) returns (ok: bool)
      requires Ledger() && AtTip()
      modifies this`lastBlock, this`lastBlockHash, store
      ensures Ledger() && store.db.alloc == old(store.db.alloc)
      ensures ok <==> Accepts(rules, old(store.db.alloc), old(store.chain), old(store.Known()), txs)
      ensures ok ==> AtTip() && store.chain == old(store.chain) + [NewBlock(rules, old(store.chain), txs)]
      ensures ok ==> store.Known() == old(store.Known()) + BlockTxids(rules, NewBlock(rules, old(store.chain), txs))
      ensures !ok ==> store.chain == old(store.chain) && store.db == old(store.db)
      ensures old(TxidExact(store.fork, store.db, store.chain)) ==> TxidExact(store.fork, store.db, store.chain)
    {
      hide Refines, TxidSound, Digested, TxidExact, HashExact, Accepts, NewBlock, BlockFits, Txids;
      ghost var chain, alloc, known := store.chain, store.db.alloc, store.Known();
      DigestedStart(rules, alloc, chain);
      var block;
      ok, block := CheckBlock(store.codec, rules, store.db, lastBlock, lastBlockHash, txs, chain);
      if !ok {
        return;
      }
      NewBlockReads(rules, chain, txs);
      NewBlockIs(rules, chain, txs);
      lastBlock, lastBlockHash := block.height, block.hash;
      ok := store.CommitBlock(block.height, block.hash, block.rows, block.difficulty);
      if ok {
        AcceptedNew(rules, alloc, chain, known, txs);
        DigestedSnoc(rules, alloc, chain, block);
      }
    }

    /** `checkpoint_set` */
    method CheckpointSet()
      modifies `checkpoint
      ensures checkpoint == Checkpoint(rollbackDepth, lastBlock)
    {
      var limit: int := rollbackDepth;
      if lastBlock < 1450000 {
        limit := 1000;
      }
      var c := (lastBlock / limit) * limit - limit;
      if c != checkpoint {
        checkpoint := c;
      }
    }

    /** Digest in order and stop at the first rejected block; the in-memory tip is the store's either way. */
    method DigestBlocks(blocks: seq<seq<Tx>>) returns (ok: bool)
      requires Ledger() && AtTip()
      modifies this`lastBlock, this`lastBlockHash, store
      ensures Ledger() && AtTip() && store.db.alloc == old(store.db.alloc)
      ensures store.chain == DigestAll(rules, old(store.db.alloc), old(store.chain), old(store.Known()), blocks)
      ensures ok <==> |store.chain| == |old(store.chain)| + |blocks|
      ensures store.Known() == Added(rules, old(store.chain), old(store.Known()), store.chain)
      ensures old(TxidExact(store.fork, store.db, store.chain)) ==> TxidExact(store.fork, store.db, store.chain)
    {
      hide Refines, TxidSound, Digested, TxidExact, HashExact, Accepts, NewBlock, BlockTxids, Txids, Entries;
      var i := 0;
      ok := true;
      ghost var start, known, exact := store.chain, store.Known(), TxidExact(store.fork, store.db, store.chain);
      ghost var want := DigestAll(rules, store.db.alloc, start, known, blocks);
      TakeAll(blocks);
      NothingAdded(rules, start, known);
      while i < |blocks|
        invariant 0 <= i <= |blocks| && Ledger() && AtTip() && store.db.alloc == old(store.db.alloc)
        invariant want == DigestAll(rules, store.db.alloc, store.chain, store.Known(), blocks[i..])
        invariant |store.chain| == |start| + i && start <= store.chain
        invariant store.Known() == Added(rules, start, known, store.chain)
        invariant exact ==> TxidExact(store.fork, store.db, store.chain)
      {
        ghost var before := store.chain;
        ok := DigestOne(blocks[i]);
        assert blocks[i..][0] == blocks[i] && blocks[i..][1..] == blocks[i + 1..];
        if !ok {
          ResyncTip();
          break;
        }
        MoreAdded(rules, start, known, before, store.chain[|before|]);
        i := i + 1;
      }
    }

    /** The body of `digest_block` and of `_apply_blocks_locked`. */
    method ApplyBlocks(blocks: seq<seq<Tx>>) returns (ok: bool)
      requires Ledger() && AtTip() && NoReorgCached()
      modifies this`lastBlock, this`lastBlockHash, this`hddBlock, this`hddHash, this`checkpoint, store
      ensures Valid() && store.db.alloc == old(store.db.alloc)
      ensures store.chain == DigestAll(rules, old(store.db.alloc), old(store.chain), old(store.Known()), blocks)
      ensures ok <==> |store.chain| == |old(store.chain)| + |blocks|
      ensures store.Known() == old(store.Known()) + Txids(rules.fork, Entries(store.chain[|old(store.chain)|..]))
      ensures old(Clean()) ==> Clean()
      ensures checkpoint == if ok then Checkpoint(rollbackDepth, lastBlock) else old(checkpoint)
    {
      hide Refines, TxidSound, Digested, TxidExact, HashExact, Txids, Entries, TxidsFresh, DigestAll;
      ghost var start, known, alloc := store.chain, store.Known(), store.db.alloc;
      if Clean() {
        ExactKeys(store.fork, store.db, start);
        DigestAllFresh(rules, alloc, start, known, blocks);
      }
      ok := DigestBlocks(blocks);
      if ok {
        CheckpointSet();
      }
      hddBlock, hddHash := lastBlock, lastBlockHash;
    }
  }

  /** The txids known after the chain has grown from `start`. */
  ghost function Added(rules: Rules, start: seq<Block>, known: set<Txid>, chain: seq<Block>): set<Txid>
    requires start <= chain
  {
    known + Txids(rules.fork, Entries(chain[|start|..]))
  }

  lemma {:induction false} NothingAdded(rules: Rules, start: seq<Block>, known: set<Txid>)
    ensures Added(rules, start, known, start) == known
  {
    TakeAll(start);
    assert Txids(rules.fork, []) == {};
  }

  lemma {:induction false} MoreAdded(rules: Rules, start: seq<Block>, known: set<Txid>, chain: seq<Block>, b: Block)
    requires start <= chain
    ensures Added(rules, start, known, chain + [b]) == Added(rules, start, known, chain) + BlockTxids(rules, b)
  {
    hide Entries, Txids;
    var grown := chain[|start|..];
    assert (chain + [b])[|start|..] == grown + [b];
    EntriesSnoc(grown, b);
    TxidsConcat(rules.fork, Entries(grown), BlockEntries(b));
    SetsAssoc(known, Txids(rules.fork, Entries(grown)), Txids(rules.fork, BlockEntries(b)));
  }

  function Checkpoint(depth: Positive, height: nat): int {
    var limit: int := if height < 1450000 then 1000 else depth;
    height / limit * limit - limit
  }

  /** A rollback down to the checkpoint is at least one step, and less than two, below the tip. */
  lemma {:induction false} CheckpointRange(depth: Positive, height: nat)
    ensures var limit: int := if height < 1450000 then 1000 else depth;
      limit <= height - Checkpoint(depth, height) < 2 * limit && Checkpoint(depth, height) % limit == 0
  {
    var limit: int := if height < 1450000 then 1000 else depth;
    assert height == height / limit * limit + height % limit;
    MultipleIs(height / limit - 1, limit);
    assert (height / limit - 1) * limit == height / limit * limit - limit;
  }

  // ------------------------------------------------------------------ one block

  lemma {:induction false} KnownHash(db: Db, chain: seq<Block>, hash: Bytes)
    requires HashExact(db, chain)
    ensures hash in db.hashes <==> hash in Hashes(chain)
  {
    HashMapKeys(chain, hash);
  }

  /** A new block reads back as it was committed. */
  lemma {:induction false} NewBlockReads(rules: Rules, chain: seq<Block>, txs: seq<Tx>)
    requires chain != [] && txs != []
    ensures ReadBack(rules.fork, NewBlock(rules, chain, txs)) == NewBlock(rules, chain, txs)
  {
    var b := NewBlock(rules, chain, txs);
    forall r | r in b.rows ensures r.blockHash == b.hash {
      var i :| 0 <= i < |b.rows| && b.rows[i] == r;
    }
    ReadBackExact(rules.fork, b);
  }

  /** The checks of `process_block_data` on one block, up to the rows to commit. */
  method CheckBlock(codec: Codec, rules: Rules, db: Db, last: nat, lastHash: Bytes, txs: seq<Tx>,
                    ghost chain: seq<Block>)
    returns (ok: bool, block: Block)
    requires Refines(codec, rules.fork, db, chain) && TxidSound(rules.fork, db.index.txid, Entries(chain))
    requires HashExact(db, chain)
    requires chain != [] && chain[0].height == 1
    requires last == chain[|chain| - 1].height && lastHash == chain[|chain| - 1].hash
    ensures !ok ==> !Accepts(rules, db.alloc, chain, db.index.txid.Keys, txs)
    ensures ok ==> txs != [] && block == NewBlock(rules, chain, txs)
    ensures ok ==> (Accepts(rules, db.alloc, chain, db.index.txid.Keys, txs) <==> BlockFits(rules.fork, block))
  {
    hide Refines, TxidSound, HashExact, NoReplay, Affordable, NewBlock, Hashes, BlockFits;
    block := Block(0, [], [], None);
    if txs == [] || !AmountsOk(txs) {
      return false, block;
    }
    var c := ReadChain(codec, rules.fork, db, chain);
    if !rules.valid(c, txs) {
      return false, block;
    }
    var replayFree := CheckDuplicates(codec, rules, db, last, txs, chain);
    if !replayFree {
      return false, block;
    }
    var hash := rules.hashOf(last + 1, txs, lastHash);
    KnownHash(db, chain, hash);
    if hash in db.hashes {
      return false, block;
    }
    NoReplayDistinct(rules, chain, db.index.txid.Keys, txs);
    var rows;
    ok, rows := ProcessBalances(codec, rules, db, rules.baseFee(c), last + 1, hash, txs, chain);
    if ok {
      block := Block(last + 1, hash, rows, Some(rules.difficulty(c, txs)));
      NewBlockIs(rules, chain, txs);
    }
  }

  lemma {:induction false} NoReplayDistinct(rules: Rules, chain: seq<Block>, known: set<Txid>, txs: seq<Tx>)
    requires chain != [] && txs != [] && NoReplay(rules, chain, known, txs)
    ensures DistinctSignatures(txs)
  {
  }

  lemma {:induction false} NewBlockIs(rules: Rules, chain: seq<Block>, txs: seq<Tx>)
    requires chain != [] && txs != []
    ensures var b := NewBlock(rules, chain, txs);
      b == Block(NextHeight(chain), HashFor(rules, chain, txs), b.rows, Some(rules.difficulty(chain, txs)))
  {
  }

  lemma {:induction false} DigestedStart(rules: Rules, alloc: map<Address, int>, chain: seq<Block>)
    requires Digested(rules, alloc, chain)
    ensures chain != [] && chain[0].height == 1 && NextHeight(chain) == |chain| + 1
  {
    DigestedWellFormed(rules, alloc, chain);
  }

  lemma {:induction false} NothingKnown(fork: Option<nat>, db: Db)
    requires TxidExact(fork, db, [])
    ensures db.index.txid.Keys == {}
  {
  }

  /** A node started on a genesis block: an empty store, and that block committed. */
  method StartNode(codec: Codec, rules: Rules, genesis: Block, depth: Positive) returns (node: Node)
    requires IsGenesis(genesis) && BlockFits(rules.fork, genesis) && ReadBack(rules.fork, genesis) == genesis
    ensures fresh(node) && fresh(node.store) && node.Valid() && node.rules == rules
    ensures node.store.chain == [genesis] && node.store.db.alloc == map[]
    ensures node.store.Known() == BlockTxids(rules, genesis)
    ensures node.checkpoint == 0 && node.verdicts == map[]
  {
    hide Refines, TxidSound, HashExact, TxidExact, IsGenesis, BlockFits, ReadBack;
    var store := new BlockStore(codec, rules.fork);
    NothingKnown(rules.fork, store.db);
    var _ := store.CommitBlock(genesis.height, genesis.hash, genesis.rows, genesis.difficulty);
    node := new Node(store, rules, depth);
  }
}
