/** Whole runs of a node: blocks delivered and chains contested, in any order, by anyone. */
module NodeRuns {
  import opened Wrappers
  import opened ByteStrings
  import opened Transactions
  import opened AddrBytes
  import opened Ledger
  import opened StoreIndex
  import opened StoreSpec
  import opened Consensus
  import opened Money
  import opened Supply
  import opened Replay
  import opened Nodes
  import opened ForkResolution
  import opened Reorg

  // ------------------------------------------------------------------ what a ledger guarantees

  /** No balance is negative, nor below the address's post-fork rewards that are not yet mature. */
  ghost predicate Solvent(rules: Rules, db: Db, chain: seq<Block>) {
    && (forall a: Address :: PartsAt(db.bal, a).Net() >= 0)
    && (forall a: Address, k :: 0 <= k <= |chain| && NotYetMature(rules, chain, k) ==>
          PartsAt(db.bal, a).Net() >= PartsOf(Entries(chain[k..]), a).reward)
  }

  /** The blocks from `k` on are post-fork and not yet `maturity` deep at the next height. */
  predicate NotYetMature(rules: Rules, chain: seq<Block>, k: int) {
    rules.fork.Some? && k + 1 >= rules.fork.value && |chain| < k + rules.maturity
  }

  ghost predicate Sound(rules: Rules, db: Db, chain: seq<Block>) {
    && chain != [] && Solvent(rules, db, chain)
    && TableSum(db.bal) == AllocationSum(db.alloc) + 100_000_000 + Subsidies(rules, chain)
    && SignaturesFresh(rules.fork, Entries(chain))
  }

  lemma {:induction false} BalanceStored(db: Db, es: seq<Entry>, a: Address)
    requires Balances(db.bal, db.alloc, es)
    ensures PartsAt(db.bal, a).Net() == Balance(db.alloc, es, a)
  {
    hide Balances, PartsAt, PartsOf, AllocationOf;
    BalancesAt(db.bal, db.alloc, es, a);
  }

  lemma {:induction false} LedgerSolvent(rules: Rules, db: Db, chain: seq<Block>)
    requires Digested(rules, db.alloc, chain) && AllocationsOk(db.alloc) && Balances(db.bal, db.alloc, Entries(chain))
    ensures chain != [] && Solvent(rules, db, chain)
  {
    hide Digested, Balances, Entries, PartsOf, PartsAt, Balance;
    DigestedStart(rules, db.alloc, chain);
    forall a: Address ensures PartsAt(db.bal, a).Net() >= 0 {
      BalanceStored(db, Entries(chain), a);
      NoOverspend(rules, db.alloc, chain, a);
    }
    forall a: Address, k | 0 <= k <= |chain| && NotYetMature(rules, chain, k)
      ensures PartsAt(db.bal, a).Net() >= PartsOf(Entries(chain[k..]), a).reward
    {
      BalanceStored(db, Entries(chain), a);
      ImmatureRewardsIntact(rules, db.alloc, chain, a, k);
    }
  }

  /** Every state a node can be in is sound, whatever its rollbacks did to the txid index. */
  lemma {:induction false} LedgerSound(codec: Codec, rules: Rules, db: Db, chain: seq<Block>)
    requires Refines(codec, rules.fork, db, chain) && Digested(rules, db.alloc, chain) && AllocationsOk(db.alloc)
    ensures Sound(rules, db, chain)
  {
    hide *;
    RefinesParts(codec, rules.fork, db, chain);
    LedgerSolvent(rules, db, chain);
    SupplyConserved(rules, db.alloc, chain, db.bal);
    ReplayFree(rules, db.alloc, chain);
    SoundParts(rules, db, chain);
  }

  lemma {:induction false} SoundParts(rules: Rules, db: Db, chain: seq<Block>)
    requires chain != [] && Solvent(rules, db, chain)
    requires TableSum(db.bal) == AllocationSum(db.alloc) + 100_000_000 + Subsidies(rules, chain)
    requires SignaturesFresh(rules.fork, Entries(chain))
    ensures Sound(rules, db, chain)
  {
    hide Solvent, TableSum, AllocationSum, Subsidies, SignaturesFresh, Entries;
  }

  // ------------------------------------------------------------------ runs

  /** A list of blocks from a peer, or a peer's report that it does not know our tip. */
  datatype Event =
    | Deliver(blocks: seq<seq<Tx>>)
    | Contest(s: Surroundings, tipHash: Bytes, peerId: Bytes, peerHeight: Option<int>, peer: Peer)

  /** No shorter than before, and the same up to at most 720 blocks below the old tip. */
  ghost predicate Holds(before: seq<Block>, after: seq<Block>) {
    |after| >= |before| && exists k :: 0 < k <= |before| && |before| - k <= 720 && before[..k] <= after
  }

  lemma {:induction false} HoldsExtended(before: seq<Block>, after: seq<Block>)
    requires before != [] && before <= after
    ensures Holds(before, after)
  {
    TakeAll(before);
    assert before[..|before|] <= after;
  }

  lemma {:induction false} HoldsSafe(before: seq<Block>, after: seq<Block>, a: nat, peer: Peer, peerHeight: Option<int>)
    requires Safe(before, after, a, peer, peerHeight)
    ensures Holds(before, after)
  {
    assert before[..a] <= after;
  }

  lemma {:induction false} KeptWhole(fork: Option<nat>, chain: seq<Block>, a: nat, after: seq<Block>)
    requires a <= |chain| && PutBack(fork, chain, a, after) && TxidsFresh(fork, Entries(chain))
    ensures after == chain
  {
    hide TxidsFresh, Entries, Unknown;
    assert chain[a..|chain|] == chain[a..];
    FreshRun(fork, chain, a, |chain|);
  }

  /** A contest that did not roll the chain leaves it whole, unless it already held a repeated txid. */
  lemma {:induction false} HoldsKept(fork: Option<nat>, before: seq<Block>, a: nat, after: seq<Block>)
    requires before != [] && a <= |before| && PutBack(fork, before, a, after)
    ensures TxidsFresh(fork, Entries(before)) ==> Holds(before, after)
    ensures CoinbaseFresh(fork, before) ==> CoinbaseFresh(fork, after)
  {
    hide TxidsFresh, Entries, Holds, CoinbaseFresh, PutBack;
    PutBackPart(fork, before, a, after);
    FreshPart(fork, before, |after|);
    if TxidsFresh(fork, Entries(before)) {
      KeptWhole(fork, before, a, after);
      HoldsExtended(before, after);
    }
  }

  lemma {:induction false} PutBackPart(fork: Option<nat>, before: seq<Block>, a: nat, after: seq<Block>)
    requires a <= |before| && PutBack(fork, before, a, after)
    ensures |after| <= |before| && before[..|after|] == after
  {
    hide TxidsFresh;
  }

  /** One event. The result is the chain that was digested in its course. */
  method Handle(node: Node, event: Event) returns (ghost tried: seq<Block>)
    requires node.Valid()
    modifies node, node.store
    ensures node.Valid() && node.store.db.alloc == old(node.store.db.alloc)
    ensures TxidsFresh(node.rules.fork, Entries(old(node.store.chain))) ==>
      Holds(old(node.store.chain), node.store.chain)
    ensures CoinbaseFresh(node.rules.fork, old(node.store.chain)) && CoinbaseFresh(node.rules.fork, tried) ==>
      CoinbaseFresh(node.rules.fork, node.store.chain) && (old(node.Clean()) ==> node.Clean())
  {
    hide Refines, TxidSound, Digested, TxidExact, HashExact, DigestAll, Safe, Holds, PutBack, TxidsFresh, CoinbaseFresh;
    hide Entries, Txids;
    ghost var before := node.store.chain;
    match event {
      case Deliver(blocks) =>
        var _ := node.ApplyBlocks(blocks);
        tried := node.store.chain;
        HoldsExtended(before, node.store.chain);
      case Contest(s, tipHash, peerId, peerHeight, peer) =>
        var o;
        ghost var a, held;
        o, a, held, tried := Resolve(node, s, tipHash, peerId, peerHeight, peer, [], 0);
        if o.rolled {
          HoldsSafe(before, node.store.chain, a, peer, peerHeight);
        } else {
          HoldsKept(node.rules.fork, before, a, node.store.chain);
        }
    }
  }

  /** Every chain digested in the course of a run has coinbases with txids of their own. */
  ghost predicate FreshRunOf(fork: Option<nat>, start: seq<Block>, tried: seq<seq<Block>>) {
    CoinbaseFresh(fork, start) && forall i :: 0 <= i < |tried| ==> CoinbaseFresh(fork, tried[i])
  }

  /**
   Whatever peers deliver and claim, in any order: the ledger stays solvent, conserves supply and
   repeats no signature, and the in-memory tip stays on it. A chain without repeated txids never
   gets shorter and loses at most 720 blocks in an event. Where no coinbase that was digested
   repeats a txid, none is ever repeated or lost from the index.
   */
  method RunNode(node: Node, events: seq<Event>) returns (ghost chains: seq<seq<Block>>, ghost tried: seq<seq<Block>>)
    requires node.Valid() && AllocationsOk(node.store.db.alloc)
    modifies node, node.store
    ensures node.Valid() && Sound(node.rules, node.store.db, node.store.chain)
    ensures |chains| == |events| + 1 && chains[0] == old(node.store.chain) && chains[|events|] == node.store.chain
    ensures forall i :: 0 <= i < |events| ==>
      TxidsFresh(node.rules.fork, Entries(chains[i])) ==> Holds(chains[i], chains[i + 1])
    ensures old(node.Clean()) && FreshRunOf(node.rules.fork, old(node.store.chain), tried) ==>
      && node.Clean() && AllTxidsDistinct(node.rules.fork, Entries(node.store.chain))
      && (forall i :: 0 <= i < |events| ==> Holds(chains[i], chains[i + 1]))
      && |node.store.chain| >= |old(node.store.chain)|
  {
    hide Refines, TxidSound, Digested, TxidExact, HashExact, Sound, Holds, TxidsFresh, CoinbaseFresh;
    hide AllTxidsDistinct, Entries;
    chains, tried := [node.store.chain], [];
    ghost var clean, fork := node.Clean(), node.rules.fork;
    var i := 0;
    while i < |events|
      invariant 0 <= i <= |events| && node.Valid() && node.store.db.alloc == old(node.store.db.alloc)
      invariant |chains| == i + 1 && chains[0] == old(node.store.chain) && chains[i] == node.store.chain
      invariant forall j :: 0 <= j < i ==> TxidsFresh(fork, Entries(chains[j])) ==> Holds(chains[j], chains[j + 1])
      invariant |tried| == i
      invariant clean && FreshRunOf(fork, chains[0], tried) ==>
        && node.Clean() && CoinbaseFresh(fork, node.store.chain)
        && (forall j :: 0 <= j < i ==> Holds(chains[j], chains[j + 1]))
        && |node.store.chain| >= |old(node.store.chain)|
    {
      ghost var before := tried;
      var digested := Handle(node, events[i]);
      FreshRunMore(fork, chains[0], before, digested);
      HoldsLength(chains[i], node.store.chain);
      chains, tried := chains + [node.store.chain], tried + [digested];
      i := i + 1;
    }
    LedgerSound(node.store.codec, node.rules, node.store.db, node.store.chain);
    if clean && FreshRunOf(fork, chains[0], tried) {
      TxidsDistinctIff(node.rules, node.store.db.alloc, node.store.chain);
    }
  }

  lemma {:induction false} FreshRunMore(fork: Option<nat>, start: seq<Block>, tried: seq<seq<Block>>, c: seq<Block>)
    ensures FreshRunOf(fork, start, tried + [c]) ==> FreshRunOf(fork, start, tried) && CoinbaseFresh(fork, c)
  {
    hide CoinbaseFresh;
    var all := tried + [c];
    assert all[|tried|] == c && forall i :: 0 <= i < |tried| ==> all[i] == tried[i];
  }

  lemma {:induction false} HoldsLength(before: seq<Block>, after: seq<Block>)
    ensures Holds(before, after) ==> |after| >= |before|
  {
  }
}
