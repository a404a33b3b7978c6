/** The measured reorg of `chain_ops.py`: measure, fetch, roll back, adopt or restore. */
module Reorg {
  import opened Wrappers
  import opened ByteStrings
  import opened Transactions
  import opened AddrBytes
  import opened BlockBody
  import opened Ledger
  import opened StoreIndex
  import opened StoreSpec
  import opened BlockStores
  import opened Consensus
  import opened Replay
  import opened Nodes
  import opened ForkResolution

  // ------------------------------------------------------------------ backed-up rows regroup to the removed blocks

  lemma {:induction false} TxsAtConcat(a: seq<Entry>, b: seq<Entry>, h: int)
    ensures TxsAt(a + b, h) == TxsAt(a, h) + TxsAt(b, h)
  {
    if b == [] {
      assert a + b == a;
    } else {
      Snoc(a, b);
      TxsAtConcat(a, b[..|b| - 1], h);
    }
  }

  lemma {:induction false} TxsAtSnoc(es: seq<Entry>, e: Entry, h: int)
    ensures TxsAt(es + [e], h) == TxsAt(es, h) + (if e.height == h then [WireTx(e.row)] else [])
  {
    assert (es + [e])[..|es|] == es;
  }

  lemma {:induction false} WireTxsNext(rows: seq<Row>, i: nat)
    requires i < |rows|
    ensures WireTxs(rows[..i + 1]) == WireTxs(rows[..i]) + [WireTx(rows[i])]
  {
    hide WireTx;
  }

  lemma {:induction false} TxsAtBlock(b: Block, n: nat, h: int)
    requires n <= |b.rows|
    ensures TxsAt(BlockEntries(b)[..n], h) == if b.height == h then WireTxs(b.rows[..n]) else []
  {
    if n > 0 {
      hide TxsAt, WireTxs, WireTx;
      var es := BlockEntries(b);
      TxsAtBlock(b, n - 1, h);
      TakeNext(es, n - 1);
      TxsAtSnoc(es[..n - 1], es[n - 1], h);
      WireTxsNext(b.rows, n - 1);
    }
  }

  lemma {:induction false} TxsAtChain(chain: seq<Block>, h: int)
    requires Consecutive(chain)
    ensures TxsAt(Entries(chain), h) ==
      if chain != [] && chain[0].height <= h < chain[0].height + |chain|
      then WireTxs(chain[h - chain[0].height].rows)
      else []
  {
    if chain != [] {
      var n := |chain| - 1;
      TxsAtChain(chain[..n], h);
      TxsAtConcat(Entries(chain[..n]), BlockEntries(chain[n]), h);
      TxsAtBlock(chain[n], |chain[n].rows|, h);
      TakeAll(BlockEntries(chain[n]));
      TakeAll(chain[n].rows);
    }
  }

  /** The heights of a run of non-empty blocks are exactly those that have rows. */
  lemma {:induction false} HeightHasRows(chain: seq<Block>, h: nat)
    requires Consecutive(chain) && chain != [] && chain[0].height >= 1
    requires forall i :: 0 <= i < |chain| ==> chain[i].rows != []
    ensures h > 0 && TxsAt(Entries(chain), h) != [] <==> chain[0].height <= h < chain[0].height + |chain|
  {
    hide TxsAt, Entries;
    TxsAtChain(chain, h);
  }

  lemma {:induction false} RegroupAt(chain: seq<Block>, blocks: seq<seq<Tx>>, heights: seq<nat>)
    requires Consecutive(chain) && chain != [] && chain[0].height >= 1
    requires forall i :: 0 <= i < |chain| ==> chain[i].rows != []
    requires GroupedAt(Entries(chain), blocks, heights)
    ensures blocks == Wires(chain)
  {
    hide TxsAt, Entries, WireTxs;
    var lo := chain[0].height;
    forall h: nat ensures h in heights <==> lo <= h < lo + |chain| {
      HeightHasRows(chain, h);
    }
    RunIndex(heights, lo, lo + |chain|);
    forall i | 0 <= i < |chain| ensures blocks[i] == WireTxs(chain[i].rows) {
      TxsAtChain(chain, lo + i);
    }
  }

  lemma {:induction false} RegroupNone(blocks: seq<seq<Tx>>, heights: seq<nat>)
    requires GroupedAt([], blocks, heights)
    ensures blocks == []
  {
    SomeElement(heights);
  }

  /** The rows of a run of non-empty blocks, backed up and regrouped, are those blocks on the wire. */
  lemma {:induction false} RegroupExact(chain: seq<Block>, blocks: seq<seq<Tx>>)
    requires Consecutive(chain) && (chain != [] ==> chain[0].height >= 1)
    requires forall i :: 0 <= i < |chain| ==> chain[i].rows != []
    requires Regrouped(Entries(chain), blocks)
    ensures blocks == Wires(chain)
  {
    hide GroupedAt;
    var heights :| GroupedAt(Entries(chain), blocks, heights);
    if chain == [] {
      RegroupNone(blocks, heights);
    } else {
      RegroupAt(chain, blocks, heights);
    }
  }

  // ------------------------------------------------------------------ digesting what a valid chain holds

  /**
   Blocks of an accepted chain, digested again on top of the part below them, give that chain as far
   as it goes, and all of it exactly when no block repeats a txid the index then holds.
   */
  lemma {:induction false} DigestServed(rules: Rules, alloc: map<Address, int>, chain: seq<Block>, k: nat, m: nat,
                                        known: set<Txid>)
    requires Digested(rules, alloc, chain) && 1 <= k <= m <= |chain|
    ensures var c := DigestAll(rules, alloc, chain[..k], known, Wires(chain[k..m]));
      c <= chain[..m] && (c == chain[..m] <==> Replayable(rules, known, chain[k..m]))
    decreases m - k
  {
    hide Digested, Accepted, Accepts, NewBlock, Unknown, BlockTxids;
    if k < m {
      var b := chain[k];
      DigestedAt(rules, alloc, chain, k);
      AcceptedIs(rules, alloc, chain[..k], b);
      AcceptsUnknown(rules, alloc, chain[..k], known, WireTxs(b.rows));
      TakeNext(chain, k);
      DigestServed(rules, alloc, chain, k + 1, m, known + BlockTxids(rules, b));
      ServedHead(chain, k, m);
      assert chain[..k] <= chain[..m];
    }
  }

  lemma {:induction false} ServedHead(chain: seq<Block>, k: nat, m: nat)
    requires k < m <= |chain|
    ensures chain[k..m] != [] && chain[k..m][0] == chain[k] && chain[k..m][1..] == chain[k + 1..m]
    ensures Wires(chain[k..m])[0] == WireTxs(chain[k].rows) && Wires(chain[k..m])[1..] == Wires(chain[k + 1..m])
  {
  }

  lemma {:induction false} DigestedRows(rules: Rules, alloc: map<Address, int>, chain: seq<Block>)
    requires Digested(rules, alloc, chain)
    ensures forall i :: 0 <= i < |chain| ==> chain[i].rows != []
  {
    hide Accepted;
    DigestedPrefix(rules, alloc, chain, 1);
    forall i | 1 <= i < |chain| ensures chain[i].rows != [] {
      DigestedAt(rules, alloc, chain, i);
      AcceptedFits(rules, alloc, chain[..i], chain[i]);
    }
    assert chain[..1][0] == chain[0];
  }

  // ------------------------------------------------------------------ rolling back

  lemma {:induction false} KeptAt(rules: Rules, alloc: map<Address, int>, chain: seq<Block>, k: nat)
    requires Digested(rules, alloc, chain) && 1 <= k <= |chain|
    ensures KeptCount(chain, k) == k && k < HEIGHT_LIMIT && chain[k - 1].height == k
  {
    hide Digested;
    DigestedWellFormed(rules, alloc, chain);
    assert BlockFits(rules.fork, chain[k - 1]);
  }

  /** A rollback of an accepted chain keeps the hash map exact, and the txid index where no coinbase repeats a txid. */
  lemma {:induction false} RollbackExact(rules: Rules, alloc: map<Address, int>, db: Db, db': Db, chain: seq<Block>,
                                         k: nat)
    requires Digested(rules, alloc, chain) && 1 <= k <= |chain| && ExactIff(rules.fork, db, db', chain, k)
    ensures Digested(rules, alloc, chain[..k])
    ensures HashExact(db, chain) ==> HashExact(db', chain[..k])
    ensures CoinbaseFresh(rules.fork, chain) ==>
      TxidExact(rules.fork, db, chain) && TxidsFresh(rules.fork, Entries(chain)) ==>
      TxidExact(rules.fork, db', chain[..k]) && TxidsFresh(rules.fork, Entries(chain[..k]))
  {
    hide Digested, TxidExact, HashExact, Txids, Hashes, TxidsFresh, CoinbaseFresh, Entries, Unknown;
    HashesDisjoint(rules, alloc, chain, k);
    DigestedPrefix(rules, alloc, chain, k);
    if TxidsFresh(rules.fork, Entries(chain)) && CoinbaseFresh(rules.fork, chain) {
      FreshDisjoint(rules, alloc, chain, k);
      FreshRun(rules.fork, chain, k, |chain|);
    }
  }

  /** `rollback_under(ancestor + 1)` on the store alone; it is also the backup. */
  method RollStore(node: Node, ancestor: nat) returns (removed: seq<Entry>)
    requires node.Ledger() && 1 <= ancestor <= |node.store.chain|
    modifies node.store
    ensures node.Ledger() && node.store.db.alloc == old(node.store.db.alloc)
    ensures node.store.chain == old(node.store.chain)[..ancestor]
    ensures removed == Entries(old(node.store.chain)[ancestor..])
    ensures node.store.Known() == old(node.store.Known()) - Txids(node.rules.fork, removed)
    ensures old(node.Clean()) && CoinbaseFresh(node.rules.fork, old(node.store.chain)) ==> node.Clean()
  {
    hide Refines, TxidSound, Digested, TxidExact, HashExact, Entries, ExactIff, Txids, TxidsFresh, CoinbaseFresh;
    ghost var chain, db := node.store.chain, node.store.db;
    KeptAt(node.rules, db.alloc, chain, ancestor);
    removed := node.store.Rollback(ancestor);
    RollbackExact(node.rules, db.alloc, db, node.store.db, chain, ancestor);
  }

  /** `_roll_to_locked` */
  method RollTo(node: Node, ancestor: nat)
    requires node.Ledger() && 1 <= ancestor <= |node.store.chain|
    modifies node`lastBlock, node`lastBlockHash, node`hddBlock, node`hddHash, node.store
    ensures node.Ledger() && node.AtTip() && node.hddBlock == node.lastBlock && node.hddHash == node.lastBlockHash
    ensures node.store.db.alloc == old(node.store.db.alloc) && node.store.chain == old(node.store.chain)[..ancestor]
    ensures node.store.Known() ==
      old(node.store.Known()) - Txids(node.rules.fork, Entries(old(node.store.chain)[ancestor..]))
    ensures old(node.Clean()) && CoinbaseFresh(node.rules.fork, old(node.store.chain)) ==> node.Clean()
  {
    hide Refines, TxidSound, Digested, TxidExact, HashExact, Entries, Txids, TxidsFresh, CoinbaseFresh;
    KeptAt(node.rules, node.store.db.alloc, node.store.chain, ancestor);
    var _ := RollStore(node, ancestor);
    var _, hash := StoreTip(node.store.codec, node.store.fork, node.store.db, node.store.chain);
    node.lastBlockHash, node.lastBlock := hash, ancestor;
    node.hddHash, node.hddBlock := hash, ancestor;
  }

  /** Roll back to the ancestor and back up: the store first, then the tip variables with a second, empty rollback. */
  method BackUp(node: Node, ancestor: nat) returns (removed: seq<Entry>)
    requires node.Ledger() && 1 <= ancestor <= |node.store.chain|
    modifies node`lastBlock, node`lastBlockHash, node`hddBlock, node`hddHash, node.store
    ensures node.Ledger() && node.AtTip() && node.hddBlock == node.lastBlock && node.hddHash == node.lastBlockHash
    ensures node.store.db.alloc == old(node.store.db.alloc) && node.store.chain == old(node.store.chain)[..ancestor]
    ensures removed == Entries(old(node.store.chain)[ancestor..])
    ensures node.store.Known() == old(node.store.Known()) - Txids(node.rules.fork, removed)
    ensures old(node.Clean()) && CoinbaseFresh(node.rules.fork, old(node.store.chain)) ==> node.Clean()
  {
    hide Refines, TxidSound, Digested, TxidExact, HashExact, Entries, Txids, TxidsFresh, CoinbaseFresh;
    ghost var chain := node.store.chain;
    removed := RollStore(node, ancestor);
    NothingLeft(node.rules.fork, chain[..ancestor]);
    FreshPart(node.rules.fork, chain, ancestor);
    RollTo(node, ancestor);
  }

  lemma {:induction false} NothingLeft(fork: Option<nat>, chain: seq<Block>)
    ensures chain[..|chain|] == chain && Txids(fork, Entries(chain[|chain|..])) == {}
  {
    TakeAll(chain);
  }

  lemma {:induction false} FreshPart(fork: Option<nat>, chain: seq<Block>, k: nat)
    requires k <= |chain|
    ensures CoinbaseFresh(fork, chain) ==> CoinbaseFresh(fork, chain[..k])
  {
    hide FreshAt;
    if CoinbaseFresh(fork, chain) {
      forall j | 1 <= j < k ensures FreshAt(fork, chain[..k][..j], chain[..k][j]) {
        assert chain[..k][..j] == chain[..j];
      }
    }
  }

  // ------------------------------------------------------------------ adopt or restore

  /** The branch a node would hold after digesting `held` on top of its first `k` blocks. */
  ghost function Candidate(rules: Rules, alloc: map<Address, int>, chain: seq<Block>, k: nat, known: set<Txid>,
                           held: seq<seq<Tx>>):
    (c: seq<Block>)
    requires 1 <= k <= |chain|
    ensures chain[..k] <= c
  {
    DigestAll(rules, alloc, chain[..k], known, held)
  }

  /** The chain a run tries: what it held, digested on top of the kept part, with the removed txids forgotten. */
  ghost function Attempt(rules: Rules, db: Db, ours: seq<Block>, a: nat, held: seq<seq<Tx>>): seq<Block>
    requires 1 <= a <= |ours|
  {
    Candidate(rules, db.alloc, ours, a, db.index.txid.Keys - Txids(rules.fork, Entries(ours[a..])), held)
  }

  /** The checkpoint stays, or is one below the tip. */
  predicate CheckpointKept(before: int, after: int, chain: seq<Block>) {
    after == before || after < |chain|
  }

  /** What putting a chain back leaves: all of it exactly when no removed payment repeats a removed txid. */
  ghost predicate PutBack(fork: Option<nat>, chain: seq<Block>, k: nat, after: seq<Block>)
    requires k <= |chain|
  {
    chain[..k] <= after <= chain && (after == chain <==> TxidsFresh(fork, Entries(chain[k..])))
  }

  lemma {:induction false} DigestsBack(rules: Rules, alloc: map<Address, int>, chain: seq<Block>, k: nat,
                                       known: set<Txid>)
    requires Digested(rules, alloc, chain) && 1 <= k <= |chain| && Unknown(rules.fork, known, Entries(chain[k..]))
    ensures PutBack(rules.fork, chain, k, DigestAll(rules, alloc, chain[..k], known, Wires(chain[k..])))
  {
    hide Digested, DigestAll, Replayable, Unknown, TxidsFresh, Entries;
    TakeAll(chain);
    assert chain[k..|chain|] == chain[k..];
    DigestServed(rules, alloc, chain, k, |chain|, known);
    ReplayableFrom(rules, alloc, chain, k, |chain|, known);
  }

  /** Put our own branch back from the backed-up rows. */
  method Restore(node: Node, removed: seq<Entry>, ghost chain: seq<Block>, ghost k: nat)
    requires node.Ledger() && node.AtTip() && node.NoReorgCached()
    requires 1 <= k <= |chain| && Digested(node.rules, node.store.db.alloc, chain)
    requires node.store.chain == chain[..k] && removed == Entries(chain[k..])
    requires Unknown(node.rules.fork, node.store.Known(), Entries(chain[k..]))
    modifies node`lastBlock, node`lastBlockHash, node`hddBlock, node`hddHash, node`checkpoint, node.store
    ensures node.Valid() && node.store.db.alloc == old(node.store.db.alloc)
    ensures PutBack(node.rules.fork, chain, k, node.store.chain)
    ensures old(node.Clean()) ==> node.Clean()
  {
    hide Refines, TxidSound, Digested, TxidExact, HashExact, Entries, DigestAll, Unknown, PutBack, TxidsFresh, Txids;
    ghost var rules, alloc := node.rules, node.store.db.alloc;
    var blocks := BlocksFromRows(removed);
    DigestedWellFormed(rules, alloc, chain);
    DigestedRows(rules, alloc, chain);
    RegroupExact(chain[k..], blocks);
    DigestsBack(rules, alloc, chain, k, node.store.Known());
    var _ := node.ApplyBlocks(blocks);
  }

  /** The held branch did not beat ours: take it off again and put ours back. */
  method GiveUp(node: Node, ancestor: nat, removed: seq<Entry>, ghost chain: seq<Block>, ghost known: set<Txid>)
    requires node.Valid() && 1 <= ancestor <= |chain| && chain[..ancestor] <= node.store.chain
    requires Digested(node.rules, node.store.db.alloc, chain) && removed == Entries(chain[ancestor..])
    requires Unknown(node.rules.fork, known, Entries(chain[ancestor..]))
    requires node.store.Known() == known + Txids(node.rules.fork, Entries(node.store.chain[ancestor..]))
    modifies node, node.store
    ensures node.Valid() && node.store.db.alloc == old(node.store.db.alloc) && node.verdicts == map[]
    ensures PutBack(node.rules.fork, chain, ancestor, node.store.chain)
    ensures old(node.Clean()) && CoinbaseFresh(node.rules.fork, old(node.store.chain)) ==> node.Clean()
  {
    hide Refines, TxidSound, Digested, TxidExact, HashExact, Entries, Unknown, PutBack, TxidsFresh, Txids;
    hide CoinbaseFresh;
    ghost var c, fork := node.store.chain, node.rules.fork;
    KeptAt(node.rules, node.store.db.alloc, c, |c|);
    NothingLeft(fork, c);
    if node.lastBlock > ancestor {
      var _ := BackUp(node, ancestor);
    }
    node.verdicts := map[];
    assert c[..ancestor] == chain[..ancestor];
    UnknownFewer(fork, node.store.Known(), known, Entries(chain[ancestor..]));
    Restore(node, removed, chain, ancestor);
  }

  /**
   The part of `_blocknf_measured` under the ledger lock: back up, roll back to the ancestor,
   digest the held branch; keep it if it beats ours, else restore ours.
   */
  method Adopt(node: Node, ancestor: nat, held: seq<seq<Tx>>, tie: bool)
    returns (adopted: bool, ghost tried: seq<Block>)
    requires node.Valid() && 1 <= ancestor < |node.store.chain|
    modifies node, node.store
    ensures node.Valid() && node.store.db.alloc == old(node.store.db.alloc) && node.verdicts == map[]
    ensures tried == Attempt(node.rules, old(node.store.db), old(node.store.chain), ancestor, held)
    ensures adopted <==> |tried| > |old(node.store.chain)| || (tie && |tried| == |old(node.store.chain)|)
    ensures adopted ==> node.store.chain == tried && CheckpointKept(old(node.checkpoint), node.checkpoint, tried)
    ensures !adopted ==> PutBack(node.rules.fork, old(node.store.chain), ancestor, node.store.chain)
    ensures old(node.Clean() && CoinbaseFresh(node.rules.fork, node.store.chain)) ==>
      CoinbaseFresh(node.rules.fork, tried) ==> node.Clean()
  {
    hide Refines, TxidSound, Digested, TxidExact, HashExact, Entries, DigestAll, Unknown, PutBack, TxidsFresh;
    hide Txids, CoinbaseFresh;
    ghost var chain, alloc, rules := node.store.chain, node.store.db.alloc, node.rules;
    KeptAt(rules, alloc, chain, |chain|);
    KeptAt(rules, alloc, chain, ancestor);
    var tip := node.lastBlock;
    var removed := BackUp(node, ancestor);
    ghost var known := node.store.Known();
    UnknownApart(rules.fork, known, removed);
    node.verdicts := map[];
    var _ := node.ApplyBlocks(held);
    tried := node.store.chain;
    KeptAt(rules, alloc, tried, |tried|);
    CheckpointRange(node.rollbackDepth, node.lastBlock);
    var newTip := node.lastBlock;
    adopted := newTip > tip || (tie && newTip == tip && newTip > ancestor);
    if !adopted {
      GiveUp(node, ancestor, removed, chain, known);
    }
  }

  // ------------------------------------------------------------------ verdict cache

  const VERDICT_TTL_S: nat := 60

  type Cache = map<(Bytes, Bytes), (Verdict, nat)>

  /** `_cache_get` */
  function Cached(cache: Cache, key: (Bytes, Bytes), now: nat): Option<Verdict> {
    if key in cache && cache[key].1 > now then Some(cache[key].0) else None
  }

  /** `_cache_put`: expired entries go, the new one is added. */
  function CachePut(cache: Cache, key: (Bytes, Bytes), verdict: Verdict, now: nat): (cache': Cache)
    ensures forall k, t :: t >= now && k != key ==> Cached(cache', k, t) == Cached(cache, k, t)
    ensures forall t :: now <= t < now + 60 ==> Cached(cache', key, t) == Some(verdict)
    ensures forall t :: t >= now + 60 ==> Cached(cache', key, t).None?
  {
    (map k | k in cache && cache[k].1 > now :: cache[k])[key := (verdict, now + VERDICT_TTL_S)]
  }

  // ------------------------------------------------------------------ one run

  /** What the run finds around it: locks, hooks, the age of our tip, the clock, and other peers. */
  datatype Surroundings = Surroundings(
    busy: bool, filtered: bool, stale: bool, resolving: bool, busyLater: bool, now: nat,
    others: seq<Option<bool>>, policy: Policy, expired: nat -> bool)

  datatype Outcome = Outcome(rolled: bool, state: Verdict)

  /** `our_hash_at` */
  function OurHashAt(db: Db): int -> Option<Bytes> {
    (h: int) => if h >= 0 && h in db.blocks then Some(db.blocks[h].hash) else None
  }

  /** May the chain be cut above `ancestor`? The checkpoint rule, or corroborated deep recovery. */
  function Permitted(checkpoint: int, policy: Policy, corroborated: bool): int -> bool {
    (ancestor: int) => ancestor + 1 >= checkpoint || (RollbackAllowed(checkpoint, ancestor + 1, policy) && corroborated)
  }

  /** The block above the ancestor is not below the checkpoint, or the deep recovery of a proven majority is open. */
  ghost predicate CutAllowed(checkpoint: int, ancestor: int, policy: Policy, others: seq<Option<bool>>) {
    || ancestor + 1 >= checkpoint
    || (&& Corroborates(others) && policy.recovery && policy.consensusSize >= policy.minPeers
        && policy.percentage >= policy.threshold && policy.reputable >= policy.minReputable)
  }

  lemma {:induction false} CutRule(checkpoint: int, ancestor: int, policy: Policy, others: seq<Option<bool>>)
    requires CutAllowed(checkpoint, ancestor, policy, others)
    ensures || ancestor + 1 >= checkpoint
            || (&& Corroborates(others) && policy.recovery && policy.consensusSize >= policy.minPeers
                && policy.percentage >= policy.threshold && policy.reputable >= policy.minReputable)
  {
  }

  /** What the code asks is that rule. */
  lemma {:induction false} PermittedIs(checkpoint: int, policy: Policy, others: seq<Option<bool>>, ancestor: int)
    ensures Permitted(checkpoint, policy, Corroborates(others))(ancestor) <==>
      CutAllowed(checkpoint, ancestor, policy, others)
  {
    hide Corroborates;
  }

  lemma {:induction false} HashesOurs(codec: Codec, fork: Option<nat>, db: Db, chain: seq<Block>, h: int)
    requires Refines(codec, fork, db, chain) && chain != [] && chain[0].height == 1
    ensures OurHashAt(db)(h) == if 1 <= h <= |chain| then Some(chain[h - 1].hash) else None
  {
    hide Refines, Expand;
    TipStored(codec, fork, db, chain);
    if 1 <= h <= |chain| {
      RefinesStored(codec, fork, db, chain, h - 1);
    }
  }

  /**
   What every run guarantees, whatever the peer says: the old chain, or one that keeps our
   blocks up to the ancestor and is longer; as long only where the peer won the tie-break.
   */
  ghost predicate Safe(before: seq<Block>, after: seq<Block>, ancestor: int, peer: Peer, peerHeight: Option<int>) {
    && 1 <= ancestor < |before| && |before| - ancestor <= MAX_PROBE_DEPTH
    && before[..ancestor] <= after
    && (|after| > |before|
        || (|after| == |before| && peerHeight == Some(|before|)
            && TieWinner(Some(before[ancestor].hash), peer.hashAt(0, ancestor + 1)) == Theirs))
  }

  /** The peer's chain agrees with ours on the first `d` blocks and on no later one. */
  ghost predicate SplitAt(ours: seq<Block>, theirs: seq<Block>, d: int) {
    && 1 <= d < |ours| <= |theirs|
    && forall i :: 0 <= i < |ours| ==> (ours[i].hash == theirs[i].hash <==> i < d)
  }

  /** A peer that answers from one chain, at least as long as ours, that splits off at `d`. */
  ghost predicate Honest(ours: seq<Block>, peer: Peer, peerHeight: Option<int>, theirs: seq<Block>, d: int) {
    Serves(peer, theirs) && peerHeight == Some(|theirs|) && Filled(ours) && Filled(theirs) && SplitAt(ours, theirs, d)
  }

  /** A peer that answers from one chain that extends ours, or that is shorter. */
  ghost predicate NoRival(ours: seq<Block>, peer: Peer, peerHeight: Option<int>, theirs: seq<Block>) {
    Serves(peer, theirs) && peerHeight == Some(|theirs|) && Filled(ours) && (|theirs| < |ours| || ours <= theirs)
  }

  /** Its split is within reach and permitted, it wins any tie, and nothing interferes. */
  ghost predicate Winning(ours: seq<Block>, theirs: seq<Block>, d: int, checkpoint: int, s: Surroundings)
    requires SplitAt(ours, theirs, d)
  {
    && |ours| - d <= 720
    && CutAllowed(checkpoint, d, s.policy, s.others)
    && (|theirs| == |ours| ==> LexLess(theirs[d].hash, ours[d].hash))
    && !s.busyLater && forall i :: !s.expired(i)
  }

  lemma {:induction false} HonestProbe(ourHashAt: HashAt, ours: seq<Block>, peer: Peer, theirs: seq<Block>, d: int,
                                       s: nat, h: int)
    requires Filled(ours) && Serves(peer, theirs) && SplitAt(ours, theirs, d) && 1 <= h <= |ours|
    requires ourHashAt(h) == Some(ours[h - 1].hash)
    ensures Probe(ourHashAt, peer.knows, s, h) == Some(h <= d)
  {
    hide ServesAfter;
    assert peer.knows(s, h, ours[h - 1].hash) == Some(1 <= h <= |theirs| && theirs[h - 1].hash == ours[h - 1].hash);
  }

  /** Measuring an honest peer finds the split if it is within reach, and asks for a reorg if that is permitted. */
  lemma {:induction false} HonestMeasure(ourHashAt: HashAt, ours: seq<Block>, peer: Peer, theirs: seq<Block>, d: int,
                      permitted: int -> bool, state: Verdict, found: Option<int>)
    requires forall h :: 1 <= h <= |ours| ==> ourHashAt(h) == Some(ours[h - 1].hash)
    requires Filled(ours) && Serves(peer, theirs) && SplitAt(ours, theirs, d)
    requires Measured(ourHashAt, peer, |ours|, Some(|theirs|), permitted, state, found)
    ensures state == REORG <==> |ours| - d <= MAX_PROBE_DEPTH && permitted(d)
    ensures state == REORG ==> found == Some(d)
  {
    hide Probe, Boundary, Filled;
    var tip, floor := |ours|, Floor(|ours|);
    var asked :| MeasuredBy(ourHashAt, peer, tip, Some(|theirs|), permitted, state, found, asked);
    forall s: nat, h | 1 <= h <= tip ensures Probe(ourHashAt, peer.knows, s, h) == Some(h <= d) {
      HonestProbe(ourHashAt, ours, peer, theirs, d, s, h);
    }
    assert peer.alive;
    hide Serves, SplitAt;
    assert AllAnswered(ourHashAt, peer.knows, asked);
    hide AllAnswered;
    assert forall h :: 1 <= h <= tip ==> (Agrees(ourHashAt, peer.knows, h) <==> h <= d);
    assert Steady(ourHashAt, peer.knows, floor, tip);
    hide Steady;
    BoundaryIsHighest(ourHashAt, peer.knows, asked, floor, tip, found.value);
    assert d >= floor ==> Agrees(ourHashAt, peer.knows, d);
  }

  /** A peer whose chain extends ours knows our tip, so nothing asks for a reorg. */
  lemma {:induction false} ExtendedMeasure(ourHashAt: HashAt, ours: seq<Block>, peer: Peer, theirs: seq<Block>,
                                           permitted: int -> bool, state: Verdict, found: Option<int>)
    requires ours != [] && forall h :: 1 <= h <= |ours| ==> ourHashAt(h) == Some(ours[h - 1].hash)
    requires Filled(ours) && Serves(peer, theirs) && ours <= theirs
    requires Measured(ourHashAt, peer, |ours|, Some(|theirs|), permitted, state, found)
    ensures state != REORG
  {
    hide Probe, ServesAfter;
    var asked :| MeasuredBy(ourHashAt, peer, |ours|, Some(|theirs|), permitted, state, found, asked);
    forall s: nat, h | 1 <= h <= |ours| ensures Probe(ourHashAt, peer.knows, s, h) == Some(true) {
      ExtendedProbe(ourHashAt, ours, peer, theirs, s, h);
    }
    hide Serves;
  }

  lemma {:induction false} ExtendedProbe(ourHashAt: HashAt, ours: seq<Block>, peer: Peer, theirs: seq<Block>, s: nat,
                                         h: int)
    requires Filled(ours) && Serves(peer, theirs) && ours <= theirs && 1 <= h <= |ours|
    requires ourHashAt(h) == Some(ours[h - 1].hash)
    ensures Probe(ourHashAt, peer.knows, s, h) == Some(true)
  {
    hide ServesAfter;
    assert peer.knows(s, h, ours[h - 1].hash) == Some(1 <= h <= |theirs| && theirs[h - 1].hash == ours[h - 1].hash);
  }

  predicate Calm(s: Surroundings) {
    !s.busy && !s.filtered && !s.stale && !s.resolving
  }

  /** No lock or hook is in the way, the report is about our tip, and no verdict about it is still valid. */
  ghost predicate Open(node: Node, s: Surroundings, tipHash: Bytes, peerId: Bytes, peerHeight: Option<int>)
    reads node
  {
    && Calm(s) && tipHash == node.lastBlockHash && peerHeight.Some? && peerHeight.value >= node.lastBlock
    && Cached(node.verdicts, (tipHash, peerId), s.now).None?
  }

  /** The gates before any network traffic; None means go on. */
  method Gate(node: Node, s: Surroundings, tipHash: Bytes, peerId: Bytes, peerHeight: Option<int>)
    returns (blocked: Option<Verdict>)
    requires node.Valid()
    ensures blocked != Some(REORG)
    ensures s.busy || s.filtered ==> blocked == Some(UNKNOWN)
    ensures !s.busy && !s.filtered && tipHash != node.lastBlockHash ==> blocked == Some(SYNCED)
    ensures blocked.None? <==>
      && !s.busy && !s.filtered && !s.stale && !s.resolving
      && tipHash == node.store.chain[|node.store.chain| - 1].hash
      && peerHeight.Some? && peerHeight.value >= node.store.chain[|node.store.chain| - 1].height
      && !((tipHash, peerId) in node.verdicts && node.verdicts[(tipHash, peerId)].1 > s.now)
    ensures blocked.None? <==> Open(node, s, tipHash, peerId, peerHeight)
  {
    hide Refines, TxidSound, Digested, HashExact;
    if s.busy {
      return Some(UNKNOWN);
    }
    var tip, hash := StoreTip(node.store.codec, node.store.fork, node.store.db, node.store.chain);
    if s.filtered {
      return Some(UNKNOWN);
    }
    if hash != tipHash {
      return Some(SYNCED);
    }
    if s.stale || peerHeight.None? {
      return Some(UNKNOWN);
    }
    if peerHeight.value < tip {
      return Some(SYNCED);
    }
    blocked := Cached(node.verdicts, (hash, peerId), s.now);
    if blocked.None? && s.resolving {
      blocked := Some(UNKNOWN);
    }
  }

  lemma {:induction false} MeasuredPermitted(ourHashAt: HashAt, peer: Peer, tip: int, peerHeight: Option<int>,
                                             permitted: int -> bool, found: Option<int>)
    requires Measured(ourHashAt, peer, tip, peerHeight, permitted, REORG, found)
    ensures found.Some? && permitted(found.value)
  {
    hide Boundary, AllAnswered, InRange;
  }

  /** Measure our chain against the peer. */
  method MeasurePeer(codec: Codec, fork: Option<nat>, db: Db, checkpoint: int, s: Surroundings, peerHeight: int,
                     peer: Peer, ghost ours: seq<Block>, ghost theirs: seq<Block>, ghost d: int)
    returns (state: Verdict, ancestor: int)
    requires Refines(codec, fork, db, ours) && ours != [] && ours[0].height == 1 && peerHeight >= |ours|
    ensures state == REORG ==> 1 <= ancestor < |ours| && |ours| - ancestor <= MAX_PROBE_DEPTH
    ensures state == REORG ==>
      || ancestor + 1 >= checkpoint
      || (&& Corroborates(s.others) && s.policy.recovery && s.policy.consensusSize >= s.policy.minPeers
          && s.policy.percentage >= s.policy.threshold && s.policy.reputable >= s.policy.minReputable)
    ensures Honest(ours, peer, Some(peerHeight), theirs, d) ==>
      && (state == REORG ==> ancestor == d)
      && (state == REORG <==> |ours| - d <= MAX_PROBE_DEPTH && CutAllowed(checkpoint, d, s.policy, s.others))
    ensures NoRival(ours, peer, Some(peerHeight), theirs) ==> state != REORG
  {
    hide Refines, Boundary, AllAnswered, Permitted, Corroborates, Serves, Filled, SplitAt;
    TipStored(codec, fork, db, ours);
    var tip, _ := StoreTip(codec, fork, db, ours);
    hide Bodies;
    var ourHashAt := OurHashAt(db);
    forall h ensures ourHashAt(h) == if 1 <= h <= |ours| then Some(ours[h - 1].hash) else None {
      HashesOurs(codec, fork, db, ours, h);
    }
    hide OurHashAt;
    var corroborated := Corroborated(s.others);
    var permitted := Permitted(checkpoint, s.policy, corroborated);
    var found, probes;
    state, found, probes := Measure(ourHashAt, peer, tip, Some(peerHeight), permitted);
    if state == REORG {
      MeasuredPermitted(ourHashAt, peer, tip, Some(peerHeight), permitted, found);
      PermittedIs(checkpoint, s.policy, s.others, found.value);
    }
    if Honest(ours, peer, Some(peerHeight), theirs, d) {
      HonestMeasure(ourHashAt, ours, peer, theirs, d, permitted, state, found);
      PermittedIs(checkpoint, s.policy, s.others, d);
    }
    if NoRival(ours, peer, Some(peerHeight), theirs) {
      ExtendedMeasure(ourHashAt, ours, peer, theirs, permitted, state, found);
    }
    ancestor := if found.Some? then found.value else 0;
  }

  /** Measure the split and decide a tie; `note` is the verdict to remember. */
  method Split(codec: Codec, fork: Option<nat>, db: Db, checkpoint: int, s: Surroundings, peerHeight: int, peer: Peer,
               ghost ours: seq<Block>, ghost theirs: seq<Block>, ghost d: int)
    returns (state: Verdict, ancestor: nat, ancestorHash: Bytes, note: Option<Verdict>)
    requires Refines(codec, fork, db, ours) && ours != [] && ours[0].height == 1 && peerHeight >= |ours|
    ensures note != Some(REORG)
    ensures state == REORG ==> 1 <= ancestor < |ours| && |ours| - ancestor <= MAX_PROBE_DEPTH
    ensures state == REORG ==> CutAllowed(checkpoint, ancestor, s.policy, s.others)
    ensures state == REORG && peerHeight == |ours| ==>
      TieWinner(Some(ours[ancestor].hash), peer.hashAt(0, ancestor + 1)) == Theirs
    ensures Honest(ours, peer, Some(peerHeight), theirs, d) ==>
      && (Winning(ours, theirs, d, checkpoint, s) ==> state == REORG)
      && (state == REORG ==> ancestor == d && ancestorHash == theirs[d - 1].hash)
    ensures NoRival(ours, peer, Some(peerHeight), theirs) ==> state != REORG
  {
    hide NoRival, Refines, TieWinner, OurHashAt, Corroborates, Serves, Filled;
    var a: int;
    state, a := MeasurePeer(codec, fork, db, checkpoint, s, peerHeight, peer, ours, theirs, d);
    if state != REORG {
      return state, 0, [], Some(state);
    }
    if Honest(ours, peer, Some(peerHeight), theirs, d) {
      HonestAncestor(ours, peer, theirs, d);
    }
    hide Honest, SplitAt;
    TipStored(codec, fork, db, ours);
    var tip, _ := StoreTip(codec, fork, db, ours);
    hide Bodies;
    HashesOurs(codec, fork, db, ours, a);
    HashesOurs(codec, fork, db, ours, a + 1);
    var hash, ourNext := OurHashAt(db)(a), OurHashAt(db)(a + 1);
    if hash.None? || hash.value == [] {
      return UNKNOWN, 0, [], None;
    }
    if peerHeight == tip && TieWinner(ourNext, peer.hashAt(0, a + 1)) == Ours {
      return TIE_WIN, 0, [], Some(TIE_WIN);
    }
    ancestor, ancestorHash, note := a, hash.value, None;
  }

  /** A chain of this length is past our tip, or level with it where the peer stands at our height. */
  ghost predicate Reaches(length: nat, ours: seq<Block>, peerHeight: Option<int>) {
    length > |ours| || (length == |ours| && peerHeight == Some(|ours|))
  }

  /** Split, then hold the competing branch, before the ledger is touched. */
  method Examine(codec: Codec, fork: Option<nat>, db: Db, checkpoint: int, s: Surroundings, peerHeight: int, peer: Peer,
                 ghost ours: seq<Block>, ghost theirs: seq<Block>, ghost d: int)
    returns (state: Verdict, ancestor: nat, held: seq<seq<Tx>>, note: Option<Verdict>)
    requires Refines(codec, fork, db, ours) && ours != [] && ours[0].height == 1 && peerHeight >= |ours|
    ensures note != Some(REORG)
    ensures state == REORG ==> 1 <= ancestor < |ours| && |ours| - ancestor <= MAX_PROBE_DEPTH
    ensures state == REORG ==> CutAllowed(checkpoint, ancestor, s.policy, s.others)
    ensures state == REORG && peerHeight == |ours| ==>
      TieWinner(Some(ours[ancestor].hash), peer.hashAt(0, ancestor + 1)) == Theirs
    ensures state == REORG ==> Reaches(ancestor + |held|, ours, Some(peerHeight))
    ensures Honest(ours, peer, Some(peerHeight), theirs, d) ==>
      && (state == REORG ==> ancestor == d && OnBranch(held, theirs, d))
      && (Winning(ours, theirs, d, checkpoint, s) ==> state == REORG && |held| == Min(FETCH_CAP_BLOCKS, |theirs| - d))
    ensures NoRival(ours, peer, Some(peerHeight), theirs) ==> state != REORG
  {
    hide Refines, TieWinner, NoRival;
    held := [];
    ghost var honest := Honest(ours, peer, Some(peerHeight), theirs, d);
    var ancestorHash;
    state, ancestor, ancestorHash, note := Split(codec, fork, db, checkpoint, s, peerHeight, peer, ours, theirs, d);
    if state != REORG {
      return;
    }
    TipStored(codec, fork, db, ours);
    var tip, _ := StoreTip(codec, fork, db, ours);
    hide Consecutive, Bodies;
    if honest {
      assert Trusted(peer, theirs, d, ancestorHash);
      FetchReaches(ours, theirs, d, checkpoint, s);
    }
    hide Trusted, Serves, Filled, OnBranch;
    var branch, complete := FetchBranch(peer, ancestor, ancestorHash, FETCH_CAP_BLOCKS, s.expired, Some(peerHeight),
                                        theirs);
    if branch.None? || branch.value == [] {
      return UNKNOWN, 0, [], Some(UNKNOWN);
    }
    held := branch.value;
    var theirTip := ancestor + |held|;
    if !(theirTip > tip || (peerHeight == tip && theirTip == tip)) {
      return SYNCED, 0, [], Some(SYNCED);
    }
    if s.busyLater {
      return UNKNOWN, 0, [], None;
    }
  }

  /** The fetch cap exceeds the probe depth, so a winning branch is always held past our tip. */
  lemma {:induction false} FetchReaches(ours: seq<Block>, theirs: seq<Block>, d: int, checkpoint: int, s: Surroundings)
    requires SplitAt(ours, theirs, d)
    ensures var reach := d + Min(FETCH_CAP_BLOCKS, |theirs| - d);
      Winning(ours, theirs, d, checkpoint, s) ==> reach > |ours| || (|theirs| == |ours| && reach == |ours|)
    ensures Min(FETCH_CAP_BLOCKS, |theirs| - d) > 0
  {
  }

  /** What an honest rival says about the first blocks around the split. */
  lemma {:induction false} HonestAncestor(ours: seq<Block>, peer: Peer, theirs: seq<Block>, d: int)
    requires Serves(peer, theirs) && Filled(ours) && Filled(theirs) && SplitAt(ours, theirs, d)
    ensures ours[d - 1].hash == theirs[d - 1].hash && ours[d - 1].hash != []
    ensures |theirs| > d && peer.hashAt(0, d + 1) == Some(theirs[d].hash)
    ensures LexLess(theirs[d].hash, ours[d].hash) ==> TieWinner(Some(ours[d].hash), peer.hashAt(0, d + 1)) == Theirs
  {
    hide ServesAfter;
    if LexLess(theirs[d].hash, ours[d].hash) {
      TieWinnerStable(ours[d].hash, theirs[d].hash);
    }
  }

  /** An honest peer whose chain is fully valid under our rules and shares our blocks below the split. */
  ghost predicate HonestFor(node: Node, peerHeight: Option<int>, peer: Peer, theirs: seq<Block>, d: int)
    reads node, node.store
  {
    && Honest(node.store.chain, peer, peerHeight, theirs, d) && theirs[..d] == node.store.chain[..d]
    && Digested(node.rules, node.store.db.alloc, theirs) && TxidsFresh(node.rules.fork, Entries(theirs))
  }

  ghost predicate MustAdopt(node: Node, s: Surroundings, tipHash: Bytes, peerId: Bytes, peerHeight: Option<int>,
                            peer: Peer, theirs: seq<Block>, d: int)
    reads node, node.store
  {
    && Open(node, s, tipHash, peerId, peerHeight)
    && HonestFor(node, peerHeight, peer, theirs, d) && Winning(node.store.chain, theirs, d, node.checkpoint, s)
  }

  lemma {:induction false} HonestSplit(ours: seq<Block>, peer: Peer, peerHeight: Option<int>, theirs: seq<Block>,
                                       d: int)
    requires Honest(ours, peer, peerHeight, theirs, d)
    ensures SplitAt(ours, theirs, d) && peerHeight == Some(|theirs|)
  {
  }

  /** The index after the rollback knows nothing from above the split. */
  lemma {:induction false} KnownBelow(fork: Option<nat>, m: map<Txid, nat>, chain: seq<Block>, k: nat)
    requires TxidSound(fork, m, Entries(chain)) && k <= |chain|
    ensures m.Keys - Txids(fork, Entries(chain[k..])) <= Txids(fork, Entries(chain[..k]))
  {
    hide TxidSound, Txids, Entries;
    SoundKeys(fork, m, Entries(chain));
    EntriesSplit(chain, k);
    TxidsConcat(fork, Entries(chain[..k]), Entries(chain[k..]));
  }

  lemma {:induction false} HonestCandidate(rules: Rules, alloc: map<Address, int>, ours: seq<Block>, theirs: seq<Block>,
                                           d: nat, known: set<Txid>, held: seq<seq<Tx>>)
    requires Digested(rules, alloc, theirs) && TxidsFresh(rules.fork, Entries(theirs))
    requires 1 <= d <= |ours| && d <= |theirs| && theirs[..d] == ours[..d]
    requires known <= Txids(rules.fork, Entries(theirs[..d])) && OnBranch(held, theirs, d)
    ensures d + |held| <= |theirs| && Candidate(rules, alloc, ours, d, known, held) == theirs[..d + |held|]
  {
    hide Digested, DigestAll, TxidsFresh, Txids, Entries, Unknown, Replayable;
    var m := d + |held|;
    FreshRun(rules.fork, theirs, d, m);
    UnknownFewer(rules.fork, known, Txids(rules.fork, Entries(theirs[..d])), Entries(theirs[d..m]));
    ReplayableFrom(rules, alloc, theirs, d, m, known);
    DigestServed(rules, alloc, theirs, d, m, known);
  }

  /** Adopt the branch, or remember that it could not be adopted. */
  method Settle(node: Node, now: nat, key: (Bytes, Bytes), ancestor: nat, held: seq<seq<Tx>>, tie: bool)
    returns (o: Outcome, ghost tried: seq<Block>)
    requires node.Valid() && 1 <= ancestor < |node.store.chain|
    modifies node, node.store
    ensures node.Valid() && node.store.db.alloc == old(node.store.db.alloc)
    ensures tried == Attempt(node.rules, old(node.store.db), old(node.store.chain), ancestor, held)
    ensures o.rolled <==> |tried| > |old(node.store.chain)| || (tie && |tried| == |old(node.store.chain)|)
    ensures o.rolled ==> node.store.chain == tried && node.verdicts == map[]
    ensures o.rolled ==> CheckpointKept(old(node.checkpoint), node.checkpoint, tried)
    ensures !o.rolled ==>
      o.state != REORG && PutBack(node.rules.fork, old(node.store.chain), ancestor, node.store.chain)
    ensures old(node.Clean() && CoinbaseFresh(node.rules.fork, node.store.chain)) ==>
      CoinbaseFresh(node.rules.fork, tried) ==> node.Clean()
  {
    hide Refines, TxidSound, Digested, TxidExact, HashExact, Entries, Candidate, PutBack, TxidsFresh, Txids;
    hide CoinbaseFresh;
    var adopted;
    adopted, tried := Adopt(node, ancestor, held, tie);
    o := Outcome(true, REORG);
    if !adopted {
      node.verdicts := CachePut(node.verdicts, key, UNKNOWN, now);
      o := Outcome(false, UNKNOWN);
    }
  }

  /** Everything before the ledger lock: gates, measurement, fetch, and the verdict to remember. */
  method Decide(node: Node, s: Surroundings, tipHash: Bytes, peerId: Bytes, peerHeight: Option<int>, peer: Peer,
                ghost theirs: seq<Block>, ghost d: int)
    returns (state: Verdict, ancestor: nat, held: seq<seq<Tx>>)
    requires node.Valid()
    modifies node`verdicts
    ensures node.Valid()
    ensures state == REORG ==>
      peerHeight.Some? && 1 <= ancestor < |node.store.chain| && |node.store.chain| - ancestor <= MAX_PROBE_DEPTH
    ensures state == REORG ==> CutAllowed(node.checkpoint, ancestor, s.policy, s.others)
    ensures state == REORG && peerHeight == Some(|node.store.chain|) ==>
      TieWinner(Some(node.store.chain[ancestor].hash), peer.hashAt(0, ancestor + 1)) == Theirs
    ensures state == REORG ==> Reaches(ancestor + |held|, node.store.chain, peerHeight)
    ensures Honest(node.store.chain, peer, peerHeight, theirs, d) ==>
      && (state == REORG ==> ancestor == d && OnBranch(held, theirs, d))
      && (old(Open(node, s, tipHash, peerId, peerHeight)) ==>
            Winning(node.store.chain, theirs, d, node.checkpoint, s) ==>
            state == REORG && |held| == Min(FETCH_CAP_BLOCKS, |theirs| - d))
    ensures NoRival(node.store.chain, peer, peerHeight, theirs) ==> state != REORG
  {
    hide Refines, TxidSound, Digested, HashExact, TieWinner, Honest, Open, Winning, OnBranch, NoRival, Reaches;
    ghost var ours, alloc, rules := node.store.chain, node.store.db.alloc, node.rules;
    KeptAt(rules, alloc, ours, |ours|);
    DigestedStart(rules, alloc, ours);
    var blocked := Gate(node, s, tipHash, peerId, peerHeight);
    if blocked.Some? {
      return blocked.value, 0, [];
    }
    var note;
    state, ancestor, held, note := Examine(node.store.codec, node.store.fork, node.store.db, node.checkpoint, s,
                                           peerHeight.value, peer, ours, theirs, d);
    if note.Some? {
      node.verdicts := CachePut(node.verdicts, (tipHash, peerId), note.value, s.now);
    }
  }

  lemma {:induction false} AdoptedSafe(ours: seq<Block>, after: seq<Block>, a: nat, peer: Peer, peerHeight: Option<int>,
                                       tie: bool)
    requires 1 <= a < |ours| && |ours| - a <= MAX_PROBE_DEPTH && ours[..a] <= after
    requires |after| > |ours| || (tie && |after| == |ours|)
    requires tie ==> peerHeight == Some(|ours|) && TieWinner(Some(ours[a].hash), peer.hashAt(0, a + 1)) == Theirs
    ensures Safe(ours, after, a, peer, peerHeight)
  {
    hide TieWinner;
  }

  lemma {:induction false} Untouched(fork: Option<nat>, chain: seq<Block>)
    ensures PutBack(fork, chain, |chain|, chain)
  {
    TakeAll(chain);
  }

  /** What a chain and a branch from an honest, fully valid peer come to. */
  lemma {:induction false} HonestTried(rules: Rules, db: Db, ours: seq<Block>, peer: Peer, peerHeight: Option<int>,
                                       theirs: seq<Block>, d: nat, held: seq<seq<Tx>>, tried: seq<Block>)
    requires Honest(ours, peer, peerHeight, theirs, d) && theirs[..d] == ours[..d]
    requires Digested(rules, db.alloc, theirs) && TxidsFresh(rules.fork, Entries(theirs))
    requires TxidSound(rules.fork, db.index.txid, Entries(ours)) && OnBranch(held, theirs, d)
    requires 1 <= d <= |ours|
    requires tried == Attempt(rules, db, ours, d, held)
    ensures d + |held| <= |theirs| && tried == theirs[..d + |held|]
  {
    hide Digested, TxidsFresh, TxidSound, Txids, Entries, OnBranch, Candidate;
    KnownBelow(rules.fork, db.index.txid, ours, d);
    HonestSplit(ours, peer, peerHeight, theirs, d);
    HonestCandidate(rules, db.alloc, ours, theirs, d, db.index.txid.Keys - Txids(rules.fork, Entries(ours[d..])), held);
  }

  lemma {:induction false} NothingTried(rules: Rules, db: Db, ours: seq<Block>)
    requires ours != []
    ensures Attempt(rules, db, ours, |ours|, []) == ours
  {
    TakeAll(ours);
  }

  /** With an honest, fully valid peer a branch that reaches past our tip is always taken. */
  lemma {:induction false} HonestTaken(rules: Rules, db: Db, ours: seq<Block>, peer: Peer, peerHeight: Option<int>,
                                       theirs: seq<Block>, d: nat, held: seq<seq<Tx>>)
    requires Honest(ours, peer, peerHeight, theirs, d) && theirs[..d] == ours[..d]
    requires Digested(rules, db.alloc, theirs) && TxidsFresh(rules.fork, Entries(theirs))
    requires TxidSound(rules.fork, db.index.txid, Entries(ours)) && OnBranch(held, theirs, d)
    requires Reaches(d + |held|, ours, peerHeight) && 1 <= d <= |ours|
    ensures var tried := Attempt(rules, db, ours, d, held);
      tried <= theirs && |tried| == d + |held| && Reaches(|tried|, ours, peerHeight)
  {
    hide Honest, Digested, TxidsFresh, TxidSound, Txids, Entries, OnBranch, Candidate;
    HonestTried(rules, db, ours, peer, peerHeight, theirs, d, held, Attempt(rules, db, ours, d, held));
  }

  /**
   `_blocknf_measured`. Besides the outcome: the ancestor the chain was cut at (its whole length if it
   was not), the branch that was held, and the chain that was tried. `theirs` and `d` are the chain of
   an honest peer and the split, where there is one.
   */
  method Resolve(node: Node, s: Surroundings, tipHash: Bytes, peerId: Bytes, peerHeight: Option<int>, peer: Peer,
                 ghost theirs: seq<Block>, ghost d: int)
    returns (o: Outcome, ghost a: nat, ghost held: seq<seq<Tx>>, ghost tried: seq<Block>)
    requires node.Valid()
    modifies node, node.store
    ensures node.Valid() && node.store.db.alloc == old(node.store.db.alloc)
    ensures 1 <= a <= |old(node.store.chain)| && |old(node.store.chain)| - a <= 720
    ensures tried == Attempt(node.rules, old(node.store.db), old(node.store.chain), a, held)
    ensures o.rolled <==> a < |old(node.store.chain)| && Reaches(|tried|, old(node.store.chain), peerHeight)
    ensures a < |old(node.store.chain)| ==>
      || a + 1 >= old(node.checkpoint)
      || (&& Corroborates(s.others) && s.policy.recovery && s.policy.consensusSize >= s.policy.minPeers
          && s.policy.percentage >= s.policy.threshold && s.policy.reputable >= s.policy.minReputable)
    ensures a < |old(node.store.chain)| ==> Reaches(a + |held|, old(node.store.chain), peerHeight)
    ensures Honest(old(node.store.chain), peer, peerHeight, theirs, d) ==>
      && (a < |old(node.store.chain)| ==> a == d && OnBranch(held, theirs, d))
      && (old(Open(node, s, tipHash, peerId, peerHeight)) ==>
            Winning(old(node.store.chain), theirs, d, old(node.checkpoint), s) ==>
            a == d && |held| == Min(FETCH_CAP_BLOCKS, |theirs| - d))
    ensures old(HonestFor(node, peerHeight, peer, theirs, d)) ==>
      o.rolled || node.store.chain == old(node.store.chain)
    ensures o.rolled ==> node.verdicts == map[] && node.store.chain == tried
    ensures o.rolled ==> CheckpointKept(old(node.checkpoint), node.checkpoint, tried)
    ensures o.rolled ==> Safe(old(node.store.chain), node.store.chain, a, peer, peerHeight)
    ensures !o.rolled ==> o.state != REORG && PutBack(node.rules.fork, old(node.store.chain), a, node.store.chain)
    ensures old(node.Clean() && CoinbaseFresh(node.rules.fork, node.store.chain)) ==>
      CoinbaseFresh(node.rules.fork, tried) ==> node.Clean()
    ensures o.rolled && old(HonestFor(node, peerHeight, peer, theirs, d)) ==> a == d && node.store.chain <= theirs
    ensures old(MustAdopt(node, s, tipHash, peerId, peerHeight, peer, theirs, d)) ==>
      o.rolled && |node.store.chain| == d + Min(1000, |theirs| - d)
    ensures NoRival(old(node.store.chain), peer, peerHeight, theirs) ==>
      !o.rolled && node.store.chain == old(node.store.chain)
  {
    hide Refines, TxidSound, Digested, TxidExact, HashExact, TieWinner, DigestAll, Candidate, Honest, Open, Winning;
    hide PutBack, TxidsFresh, CoinbaseFresh, Entries, Txids, NoRival, Safe, OnBranch, CutAllowed, Corroborates;
    ghost var ours, alloc, rules, db := node.store.chain, node.store.db.alloc, node.rules, node.store.db;
    ghost var honest := HonestFor(node, peerHeight, peer, theirs, d);
    a, held, tried := |ours|, [], ours;
    KeptAt(rules, alloc, ours, |ours|);
    Untouched(rules.fork, ours);
    NothingTried(rules, db, ours);
    var state, ancestor, branch := Decide(node, s, tipHash, peerId, peerHeight, peer, theirs, d);
    if state != REORG {
      return Outcome(false, state), a, held, tried;
    }
    a, held := ancestor, branch;
    CutRule(node.checkpoint, ancestor, s.policy, s.others);
    if Honest(ours, peer, peerHeight, theirs, d) {
      HonestSplit(ours, peer, peerHeight, theirs, d);
    }
    hide SplitAt;
    if honest {
      HonestTaken(rules, db, ours, peer, peerHeight, theirs, d, held);
    }
    var tie := peerHeight.value == node.lastBlock;
    o, tried := Settle(node, s.now, (tipHash, peerId), ancestor, branch, tie);
    hide HonestFor, MustAdopt;
    if o.rolled {
      AdoptedSafe(ours, tried, a, peer, peerHeight, tie);
    }
  }

  lemma {:induction false} ClaimedRival(ours: seq<Block>, claimed: seq<Block>, d: nat)
    requires Filled(ours) && Filled(claimed) && SplitAt(ours, claimed, d)
    ensures Honest(ours, Serving(claimed), Some(|claimed|), claimed, d) && 1 <= d < |ours| <= |claimed|
  {
    hide Filled, Serving, Serves;
    ServingServes(claimed);
  }

  lemma {:induction false} WholeBranch(held: seq<seq<Tx>>, claimed: seq<Block>, d: nat)
    requires OnBranch(held, claimed, d) && d <= |claimed| && |held| == |claimed| - d
    ensures held == Wires(claimed[d..])
  {
    assert claimed[d..|claimed|] == claimed[d..];
  }

  /** A run with a peer that answers from one chain, valid or not: what it claims is what is tried. */
  method ResolveClaimed(node: Node, s: Surroundings, peerId: Bytes, claimed: seq<Block>, ghost d: nat)
    returns (o: Outcome, ghost tried: seq<Block>)
    requires node.Valid() && Calm(s) && Cached(node.verdicts, (node.lastBlockHash, peerId), s.now).None?
    requires Filled(node.store.chain) && Filled(claimed) && SplitAt(node.store.chain, claimed, d)
    requires Winning(node.store.chain, claimed, d, node.checkpoint, s) && |claimed| - d <= FETCH_CAP_BLOCKS
    modifies node, node.store
    ensures node.Valid() && node.store.db.alloc == old(node.store.db.alloc)
    ensures tried == Attempt(node.rules, old(node.store.db), old(node.store.chain), d, Wires(claimed[d..]))
    ensures o.rolled <==> Reaches(|tried|, old(node.store.chain), Some(|claimed|))
    ensures o.rolled ==> node.store.chain == tried && node.verdicts == map[]
    ensures o.rolled ==> CheckpointKept(old(node.checkpoint), node.checkpoint, tried)
    ensures !o.rolled ==> PutBack(node.rules.fork, old(node.store.chain), d, node.store.chain)
  {
    hide Refines, TxidSound, Digested, HashExact, TxidExact, Winning, PutBack, Safe, Filled, SplitAt, OnBranch, NoRival;
    hide Serving, Honest, HonestFor, MustAdopt, Attempt, CoinbaseFresh, TxidsFresh, Calm, Cached, Reaches, Corroborates;
    ghost var ours := node.store.chain;
    KeptAt(node.rules, node.store.db.alloc, ours, |ours|);
    ClaimedRival(ours, claimed, d);
    ghost var a, held;
    o, a, held, tried := Resolve(node, s, node.lastBlockHash, peerId, Some(|claimed|), Serving(claimed), claimed, d);
    WholeBranch(held, claimed, d);
  }
}
