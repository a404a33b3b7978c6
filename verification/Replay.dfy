/** Replay freedom of every accepted chain, and what rollbacks do to it. */
module Replay {
  import opened Wrappers
  import opened ByteStrings
  import opened Transactions
  import opened Ledger
  import opened StoreIndex
  import opened StoreSpec
  import opened Consensus

  /** The one row no replay check covers: a post-fork coinbase. */
  predicate Exempt(fork: Option<nat>, e: Entry) {
    PostFork(fork, e.height) && IsCoinbase(e.row)
  }

  /** A row whose txid the digester looks up. */
  predicate LookedUp(fork: Option<nat>, e: Entry) {
    PostFork(fork, e.height) && !IsCoinbase(e.row)
  }

  /**
   No row but a post-fork coinbase repeats the signature of any earlier row, where the signature is
   one: not empty, not "0", not "None".
   */
  ghost predicate SignaturesFresh(fork: Option<nat>, es: seq<Entry>) {
    forall i, j :: 0 <= i < j < |es| && es[i].row.signature == es[j].row.signature ==> RepeatAllowed(fork, es[j])
  }

  predicate RepeatAllowed(fork: Option<nat>, e: Entry) {
    || (e.row.reward != 0 && fork.Some? && e.height >= fork.value)
    || e.row.signature == [] || e.row.signature == [48] || e.row.signature == [78, 111, 110, 101]
  }

  /** No checked post-fork row repeats the txid of any earlier one. */
  ghost predicate TxidsFresh(fork: Option<nat>, es: seq<Entry>) {
    forall i, j :: 0 <= i < j < |es| && PostFork(fork, es[i].height) && LookedUp(fork, es[j])
      ==> TxidOf(es[i].row) != TxidOf(es[j].row)
  }

  ghost predicate AllTxidsDistinct(fork: Option<nat>, es: seq<Entry>) {
    forall i, j :: 0 <= i < j < |es| && PostFork(fork, es[i].height) && PostFork(fork, es[j].height)
      ==> TxidOf(es[i].row) != TxidOf(es[j].row)
  }

  /** No looked-up row has one of the `known` txids. */
  ghost predicate Unknown(fork: Option<nat>, known: set<Txid>, es: seq<Entry>) {
    forall e :: e in es && LookedUp(fork, e) ==> TxidOf(e.row) !in known
  }

  // ------------------------------------------------------------------ one accepted block

  /** Rows of an accepted block carry the signatures and txids of its transactions; only the last is a coinbase. */
  lemma {:induction false} RowIdentity(rules: Rules, chain: seq<Block>, txs: seq<Tx>, i: nat)
    requires chain != [] && i < |txs| && AmountsOk(txs)
    ensures var e := BlockEntries(NewBlock(rules, chain, txs))[i];
      && e.height == NextHeight(chain) && e.row.signature == txs[i].signature && TxidOf(e.row) == TxidOfTx(txs[i])
      && (IsCoinbase(e.row) <==> i == |txs| - 1)
  {
    hide NewBlock, HashFor;
    NewRow(rules, chain, txs, i);
  }

  /** What acceptance says about row `j` of the new block against every row below it. */
  lemma {:induction false} RowUnseen(rules: Rules, alloc: map<Address, int>, chain: seq<Block>, b: Block, j: nat)
    requires chain != [] && Accepted(rules, alloc, chain, b) && j < |b.rows|
    ensures var e := BlockEntries(b)[j];
      && e.height == NextHeight(chain)
      && (!Exempt(rules.fork, e) ==> Unseen(rules, chain, {}, WireTx(e.row)))
      && (IsCoinbase(e.row) <==> j == |b.rows| - 1)
  {
    hide NewBlock, Affordable, BlockFits, Unseen;
    var txs := WireTxs(b.rows);
    AcceptedIs(rules, alloc, chain, b);
    RowIdentity(rules, chain, txs, j);
  }

  lemma {:induction false} TxidOfWire(r: Row)
    ensures TxidOfTx(WireTx(r)) == TxidOf(r)
  {
  }

  lemma {:induction false} UnseenAgainst(rules: Rules, chain: seq<Block>, known: set<Txid>, e: Entry, f: Entry)
    requires chain != [] && e in Entries(chain) && Unseen(rules, chain, known, WireTx(f.row))
    ensures Indexable(f.row.signature) ==> e.row.signature != f.row.signature
  {
    hide Entries;
  }

  lemma {:induction false} RowsDistinct(rules: Rules, alloc: map<Address, int>, chain: seq<Block>, b: Block, i: nat,
                                        j: nat)
    requires chain != [] && Accepted(rules, alloc, chain, b) && i < j < |b.rows|
    ensures BlockEntries(b)[i].row.signature != BlockEntries(b)[j].row.signature
    ensures PostFork(rules.fork, b.height) ==> TxidOf(BlockEntries(b)[i].row) != TxidOf(BlockEntries(b)[j].row)
  {
    hide NewBlock, Affordable, BlockFits, Unseen;
    var txs := WireTxs(b.rows);
    AcceptedIs(rules, alloc, chain, b);
    RowIdentity(rules, chain, txs, i);
    RowIdentity(rules, chain, txs, j);
  }

  /** With the index at `known`, a block that could be accepted is accepted when its payments are unknown. */
  lemma {:induction false} AcceptsUnknown(rules: Rules, alloc: map<Address, int>, chain: seq<Block>, known: set<Txid>,
                                          txs: seq<Tx>)
    requires chain != [] && Accepts(rules, alloc, chain, {}, txs)
    ensures Accepts(rules, alloc, chain, known, txs) <==>
      Unknown(rules.fork, known, BlockEntries(NewBlock(rules, chain, txs)))
  {
    AcceptsKnown(rules, alloc, chain, known, txs);
    hide Accepts, NewBlock, TxidOf, TxidOfTx;
    AcceptsAmounts(rules, alloc, chain, txs);
    var es, n := BlockEntries(NewBlock(rules, chain, txs)), |txs| - 1;
    forall i | 0 <= i < |txs|
      ensures LookedUp(rules.fork, es[i]) <==> PostForkNext(rules, chain) && i < n
      ensures TxidOf(es[i].row) == TxidOfTx(txs[i])
    {
      RowIdentity(rules, chain, txs, i);
    }
    if Unknown(rules.fork, known, es) {
      assert forall i :: 0 <= i < n ==> es[i] in es;
    }
  }

  lemma {:induction false} AcceptsAmounts(rules: Rules, alloc: map<Address, int>, chain: seq<Block>, txs: seq<Tx>)
    requires chain != [] && Accepts(rules, alloc, chain, {}, txs)
    ensures txs != [] && AmountsOk(txs)
  {
  }

  // ------------------------------------------------------------------ whole chains

  lemma {:induction false} SignaturesSnoc(rules: Rules, alloc: map<Address, int>, chain: seq<Block>, b: Block)
    requires chain != [] && Accepted(rules, alloc, chain, b) && SignaturesFresh(rules.fork, Entries(chain))
    ensures SignaturesFresh(rules.fork, Entries(chain) + BlockEntries(b))
  {
    hide Accepted, Entries, Unseen, Indexable;
    var init, last := Entries(chain), BlockEntries(b);
    var es := init + last;
    forall i, j | 0 <= i < j < |es| && es[i].row.signature == es[j].row.signature
      ensures RepeatAllowed(rules.fork, es[j])
    {
      if i >= |init| {
        RowsDistinct(rules, alloc, chain, b, i - |init|, j - |init|);
      } else if j >= |init| {
        SignatureNew(rules, alloc, chain, b, es[i], j - |init|);
      }
    }
  }

  lemma {:induction false} SignatureNew(rules: Rules, alloc: map<Address, int>, chain: seq<Block>, b: Block, e: Entry,
                                        j: nat)
    requires chain != [] && Accepted(rules, alloc, chain, b) && e in Entries(chain) && j < |BlockEntries(b)|
    requires e.row.signature == BlockEntries(b)[j].row.signature
    ensures RepeatAllowed(rules.fork, BlockEntries(b)[j])
  {
    hide Accepted, Entries, Unseen, Indexable;
    var f := BlockEntries(b)[j];
    NotIndexable(f.row.signature);
    if !Exempt(rules.fork, f) && Indexable(f.row.signature) {
      RowUnseen(rules, alloc, chain, b, j);
      UnseenAgainst(rules, chain, {}, e, f);
    }
  }

  lemma {:induction false} NotIndexable(sig: Bytes)
    ensures Indexable(sig) || sig == [] || sig == [48] || sig == [78, 111, 110, 101]
  {
  }

  /** No row above genesis but a post-fork coinbase is without a signature. */
  lemma {:induction false} SignaturesPresent(rules: Rules, alloc: map<Address, int>, chain: seq<Block>, e: Entry)
    requires Digested(rules, alloc, chain) && e in Entries(chain) && e.height > 1
    requires e.row.reward == 0 || rules.fork.None? || e.height < rules.fork.value
    ensures e.row.signature != []
  {
    hide Accepted, Digested, Entries;
    DigestedWellFormed(rules, alloc, chain);
    EntryFits(rules.fork, chain, e);
    var k := e.height - 1;
    DigestedAt(rules, alloc, chain, k);
    RowUnseen(rules, alloc, chain[..k], chain[k], e.idx);
  }

  /** In every accepted chain no checked row repeats an earlier signature. */
  lemma {:induction false} ReplayFree(rules: Rules, alloc: map<Address, int>, chain: seq<Block>)
    requires Digested(rules, alloc, chain)
    ensures SignaturesFresh(rules.fork, Entries(chain))
  {
    hide Accepted, Digested, SignaturesFresh;
    var n := |chain| - 1;
    DigestedEnds(rules, alloc, chain);
    if n == 0 {
      GenesisFresh(rules.fork, chain);
    } else {
      ReplayFree(rules, alloc, chain[..n]);
      SignaturesSnoc(rules, alloc, chain[..n], chain[n]);
    }
  }

  lemma {:induction false} GenesisFresh(fork: Option<nat>, chain: seq<Block>)
    requires |chain| == 1 && IsGenesis(chain[0])
    ensures SignaturesFresh(fork, Entries(chain)) && TxidsFresh(fork, Entries(chain))
    ensures AllTxidsDistinct(fork, Entries(chain))
  {
    assert Entries(chain[..0]) == [];
    assert |Entries(chain)| == 1;
  }

  // ------------------------------------------------------------------ txids and the index

  /** A block adds no repeated txid exactly when its payments are not among the txids below. */
  lemma {:induction false} TxidsSnoc(rules: Rules, alloc: map<Address, int>, chain: seq<Block>, b: Block,
                                     es: seq<Entry>)
    requires chain != [] && Accepted(rules, alloc, chain, b)
    ensures TxidsFresh(rules.fork, es + BlockEntries(b)) <==>
      TxidsFresh(rules.fork, es) && Unknown(rules.fork, Txids(rules.fork, es), BlockEntries(b))
  {
    hide Accepted, TxidOf;
    AcceptedFits(rules, alloc, chain, b);
    var last := BlockEntries(b);
    var all := es + last;
    if TxidsFresh(rules.fork, es) && Unknown(rules.fork, Txids(rules.fork, es), last) {
      forall i, j | 0 <= i < j < |all| && PostFork(rules.fork, all[i].height) && LookedUp(rules.fork, all[j])
        ensures TxidOf(all[i].row) != TxidOf(all[j].row)
      {
        if i >= |es| {
          RowsDistinct(rules, alloc, chain, b, i - |es|, j - |es|);
        } else if j >= |es| {
          assert all[j] in last && all[i] in es;
        }
      }
    }
    if TxidsFresh(rules.fork, all) {
      assert forall i :: 0 <= i < |es| ==> all[i] == es[i];
      forall f | f in last && LookedUp(rules.fork, f) ensures TxidOf(f.row) !in Txids(rules.fork, es) {
        var j :| 0 <= j < |last| && last[j] == f;
        forall e | e in es && PostFork(rules.fork, e.height) ensures TxidOf(e.row) != TxidOf(f.row) {
          var i :| 0 <= i < |es| && es[i] == e;
          assert all[i] == e && all[|es| + j] == f;
        }
      }
    }
  }

  /** What is digested while the index knows every txid of the chain repeats none. */
  lemma {:induction false} DigestAllFresh(rules: Rules, alloc: map<Address, int>, chain: seq<Block>, known: set<Txid>,
                                          blocks: seq<seq<Tx>>)
    requires Digested(rules, alloc, chain) && TxidsFresh(rules.fork, Entries(chain))
    requires Txids(rules.fork, Entries(chain)) <= known
    ensures TxidsFresh(rules.fork, Entries(DigestAll(rules, alloc, chain, known, blocks)))
    decreases |blocks|
  {
    hide Digested, Accepted, Accepts, NewBlock, Entries, TxidsFresh, Txids, Unknown;
    DigestedEnds(rules, alloc, chain);
    if blocks != [] && Accepts(rules, alloc, chain, known, blocks[0]) {
      AcceptsKnown(rules, alloc, chain, known, blocks[0]);
      AcceptsAmounts(rules, alloc, chain, blocks[0]);
      var b := NewBlock(rules, chain, blocks[0]);
      AcceptsUnknown(rules, alloc, chain, known, blocks[0]);
      AcceptedNew(rules, alloc, chain, known, blocks[0]);
      DigestedSnoc(rules, alloc, chain, b);
      UnknownFewer(rules.fork, Txids(rules.fork, Entries(chain)), known, BlockEntries(b));
      TxidsSnoc(rules, alloc, chain, b, Entries(chain));
      EntriesSnoc(chain, b);
      TxidsConcat(rules.fork, Entries(chain), BlockEntries(b));
      DigestAllFresh(rules, alloc, chain + [b], known + BlockTxids(rules, b), blocks[1..]);
    }
  }

  lemma {:induction false} UnknownFewer(fork: Option<nat>, fewer: set<Txid>, known: set<Txid>, es: seq<Entry>)
    requires Unknown(fork, known, es) && fewer <= known
    ensures Unknown(fork, fewer, es)
  {
    hide TxidOf;
  }

  // ------------------------------------------------------------------ digesting known blocks again

  /** Digested one by one from `known`, no block repeats a txid the index then holds. */
  ghost predicate Replayable(rules: Rules, known: set<Txid>, blocks: seq<Block>)
    decreases |blocks|
  {
    blocks == [] || (
      Unknown(rules.fork, known, BlockEntries(blocks[0])) &&
      Replayable(rules, known + BlockTxids(rules, blocks[0]), blocks[1..]))
  }

  /** For blocks of an accepted chain that is: no known txid, and none twice among the blocks themselves. */
  lemma {:induction false} ReplayableIff(rules: Rules, alloc: map<Address, int>, chain: seq<Block>, k: nat, m: nat,
                                         n: nat, known: set<Txid>)
    requires Digested(rules, alloc, chain) && 1 <= k <= m <= n <= |chain|
    requires TxidsFresh(rules.fork, Entries(chain[k..m]))
    requires Unknown(rules.fork, known, Entries(chain[k..n]))
    ensures Replayable(rules, known + Txids(rules.fork, Entries(chain[k..m])), chain[m..n]) <==>
      TxidsFresh(rules.fork, Entries(chain[k..n]))
    decreases n - m
  {
    hide Digested, Accepted, Entries, TxidsFresh, Txids, Unknown, BlockTxids;
    if m < n {
      var b, es := chain[m], Entries(chain[k..m]);
      var seen := known + Txids(rules.fork, es);
      DigestedAt(rules, alloc, chain, m);
      TxidsSnoc(rules, alloc, chain[..m], b, es);
      StepEntries(chain, k, m, n);
      TxidsConcat(rules.fork, es, BlockEntries(b));
      UnknownUnion(rules.fork, known, Txids(rules.fork, es), chain, k, m, n);
      assert chain[m..n][0] == b && chain[m..n][1..] == chain[m + 1..n];
      SetsAssoc(known, Txids(rules.fork, es), Txids(rules.fork, BlockEntries(b)));
      if Unknown(rules.fork, seen, BlockEntries(b)) {
        ReplayableIff(rules, alloc, chain, k, m + 1, n, known);
        assert BlockTxids(rules, b) == Txids(rules.fork, BlockEntries(b)) by { BlockTxidsAre(rules, b); }
      } else if TxidsFresh(rules.fork, Entries(chain[k..n])) {
        FreshPrefix(rules.fork, chain, k, m + 1, n);
      }
    }
  }

  lemma {:induction false} BlockTxidsAre(rules: Rules, b: Block)
    ensures BlockTxids(rules, b) == Txids(rules.fork, BlockEntries(b))
  {
  }

  lemma {:induction false} SetsAssoc(a: set<Txid>, b: set<Txid>, c: set<Txid>)
    ensures a + b + c == a + (b + c)
  {
  }

  lemma {:induction false} StepEntries(chain: seq<Block>, k: nat, m: nat, n: nat)
    requires k <= m < n <= |chain|
    ensures Entries(chain[k..m + 1]) == Entries(chain[k..m]) + BlockEntries(chain[m])
  {
    assert chain[k..m + 1] == chain[k..m] + [chain[m]];
    EntriesSnoc(chain[k..m], chain[m]);
  }

  /** Against known and earlier txids together it is enough to look at the earlier ones. */
  lemma {:induction false} UnknownUnion(fork: Option<nat>, known: set<Txid>, earlier: set<Txid>, chain: seq<Block>,
                                        k: nat, m: nat, n: nat)
    requires k <= m < n <= |chain| && Unknown(fork, known, Entries(chain[k..n]))
    ensures Unknown(fork, known + earlier, BlockEntries(chain[m])) <==> Unknown(fork, earlier, BlockEntries(chain[m]))
  {
    hide TxidOf, Entries;
    forall e | e in BlockEntries(chain[m]) ensures e in Entries(chain[k..n]) {
      assert chain[k..n][m - k] == chain[m];
      BlockEntriesAre(chain[m], e);
      EntriesAre(chain[k..n], e);
    }
  }

  /** Both parts of a list without repeated txids have none, and the second repeats none of the first. */
  lemma {:induction false} FreshParts(fork: Option<nat>, es: seq<Entry>, fs: seq<Entry>)
    requires TxidsFresh(fork, es + fs)
    ensures TxidsFresh(fork, es) && TxidsFresh(fork, fs) && Unknown(fork, Txids(fork, es), fs)
  {
    hide TxidOf;
    var all := es + fs;
    assert forall i :: 0 <= i < |es| ==> all[i] == es[i];
    assert forall i :: 0 <= i < |fs| ==> all[|es| + i] == fs[i];
    forall f | f in fs && LookedUp(fork, f) ensures TxidOf(f.row) !in Txids(fork, es) {
      var j :| 0 <= j < |fs| && fs[j] == f;
      forall e | e in es && PostFork(fork, e.height) ensures TxidOf(e.row) != TxidOf(f.row) {
        var i :| 0 <= i < |es| && es[i] == e;
        assert all[i] == e && all[|es| + j] == f;
      }
    }
  }

  lemma {:induction false} FreshPrefix(fork: Option<nat>, chain: seq<Block>, k: nat, m: nat, n: nat)
    requires k <= m <= n <= |chain| && TxidsFresh(fork, Entries(chain[k..n]))
    ensures TxidsFresh(fork, Entries(chain[k..m]))
  {
    hide TxidsFresh, Entries;
    EntriesSplit(chain[k..n], m - k);
    assert chain[k..n][..m - k] == chain[k..m];
    FreshParts(fork, Entries(chain[k..m]), Entries(chain[k..n][m - k..]));
  }

  /** A run of blocks of a chain without repeated txids has none, and repeats none from below it. */
  lemma {:induction false} FreshRun(fork: Option<nat>, chain: seq<Block>, k: nat, n: nat)
    requires k <= n <= |chain| && TxidsFresh(fork, Entries(chain))
    ensures TxidsFresh(fork, Entries(chain[..k])) && TxidsFresh(fork, Entries(chain[k..n]))
    ensures Unknown(fork, Txids(fork, Entries(chain[..k])), Entries(chain[k..n]))
  {
    hide TxidsFresh, Entries, Txids, Unknown;
    EntriesSplit(chain, n);
    FreshParts(fork, Entries(chain[..n]), Entries(chain[n..]));
    EntriesSplit(chain[..n], k);
    assert chain[..n][..k] == chain[..k] && chain[..n][k..] == chain[k..n];
    FreshParts(fork, Entries(chain[..k]), Entries(chain[k..n]));
  }

  lemma {:induction false} UnknownApart(fork: Option<nat>, known: set<Txid>, es: seq<Entry>)
    requires known !! Txids(fork, es)
    ensures Unknown(fork, known, es)
  {
    hide TxidOf;
  }

  /** Blocks of an accepted chain can be digested again from `known` exactly when none repeats a txid of another. */
  lemma {:induction false} ReplayableFrom(rules: Rules, alloc: map<Address, int>, chain: seq<Block>, k: nat, n: nat,
                                          known: set<Txid>)
    requires Digested(rules, alloc, chain) && 1 <= k <= n <= |chain| && Unknown(rules.fork, known, Entries(chain[k..n]))
    ensures Replayable(rules, known, chain[k..n]) <==> TxidsFresh(rules.fork, Entries(chain[k..n]))
  {
    hide Digested, Unknown, Replayable;
    assert chain[k..k] == [] && Entries([]) == [] && Txids(rules.fork, []) == {};
    assert known + {} == known;
    ReplayableIff(rules, alloc, chain, k, k, n, known);
  }

  // ------------------------------------------------------------------ rollback

  lemma {:induction false} UnseenBelow(rules: Rules, chain: seq<Block>, k: nat, tx: Tx, known: set<Txid>)
    requires WellFormed(rules.fork, chain) && 1 <= k <= |chain| && Unseen(rules, chain, {}, tx)
    requires PostForkNext(rules, chain[..k]) ==> TxidOfTx(tx) !in known
    ensures Unseen(rules, chain[..k], known, tx)
  {
    EntriesSplit(chain, k);
    hide Entries, TxidOfTx;
    assert forall e :: e in Entries(chain[..k]) ==> e in Entries(chain);
  }

  /**
   A transaction whose block is rolled back passes the replay checks again: a rollback takes its
   txid out of the index, whatever else the index lacks.
   */
  lemma {:induction false} Readmissible(rules: Rules, alloc: map<Address, int>, chain: seq<Block>, k: nat,
                                        known: set<Txid>, e: Entry)
    requires Digested(rules, alloc, chain) && 1 <= k <= |chain| && known !! Txids(rules.fork, Entries(chain[k..]))
    requires e in Entries(chain[k..]) && !Exempt(rules.fork, e)
    ensures Unseen(rules, chain[..k], known, WireTx(e.row))
  {
    hide Accepted, Unseen, TxidOf, TxidOfTx;
    EntriesAre(chain[k..], e);
    var b :| b in chain[k..] && InBlock(b, e);
    var m :| k <= m < |chain| && chain[m] == b;
    DigestedAt(rules, alloc, chain, m);
    RowUnseen(rules, alloc, chain[..m], chain[m], e.idx);
    DigestedPrefix(rules, alloc, chain, m);
    DigestedWellFormed(rules, alloc, chain[..m]);
    TxidOfWire(e.row);
    assert chain[..m][..k] == chain[..k];
    UnseenBelow(rules, chain[..m], k, WireTx(e.row), known);
  }

  /** Block hashes never repeat, so a rollback always leaves the hash map exact. */
  lemma {:induction false} HashesDisjoint(rules: Rules, alloc: map<Address, int>, chain: seq<Block>, k: nat)
    requires Digested(rules, alloc, chain) && k <= |chain|
    ensures Hashes(chain[..k]) !! Hashes(chain[k..])
  {
    hide Accepted;
    forall i, j | 0 <= i < k <= j < |chain| ensures chain[i].hash != chain[j].hash {
      DigestedAt(rules, alloc, chain, j);
      AcceptedFits(rules, alloc, chain[..j], chain[j]);
      assert chain[..j][i] in chain[..j];
    }
  }

  // ------------------------------------------------------------------ the unchecked coinbase

  function LastRow(b: Block): Row
    requires b.rows != []
  {
    b.rows[|b.rows| - 1]
  }

  ghost predicate FreshAt(fork: Option<nat>, chain: seq<Block>, b: Block) {
    PostFork(fork, b.height) && b.rows != [] ==> TxidOf(LastRow(b)) !in Txids(fork, Entries(chain))
  }

  /** No post-fork coinbase repeats the txid of a row below it. */
  ghost predicate CoinbaseFresh(fork: Option<nat>, chain: seq<Block>) {
    forall k :: 1 <= k < |chain| ==> FreshAt(fork, chain[..k], chain[k])
  }

  lemma {:induction false} CoinbaseFreshSnoc(fork: Option<nat>, chain: seq<Block>)
    requires |chain| > 1
    ensures CoinbaseFresh(fork, chain) <==>
      CoinbaseFresh(fork, chain[..|chain| - 1]) && FreshAt(fork, chain[..|chain| - 1], chain[|chain| - 1])
  {
    hide FreshAt;
    var n := |chain| - 1;
    assert forall k :: 1 <= k < n ==> chain[..n][..k] == chain[..k];
    if CoinbaseFresh(fork, chain[..n]) && FreshAt(fork, chain[..n], chain[n]) {
      forall k | 1 <= k < |chain| ensures FreshAt(fork, chain[..k], chain[k]) {
        if k < n {
          assert FreshAt(fork, chain[..n][..k], chain[..n][k]);
        }
      }
    }
  }

  lemma {:induction false} DistinctSnoc(rules: Rules, alloc: map<Address, int>, chain: seq<Block>, b: Block)
    requires chain != [] && Accepted(rules, alloc, chain, b)
    requires Unknown(rules.fork, Txids(rules.fork, Entries(chain)), BlockEntries(b))
    ensures AllTxidsDistinct(rules.fork, Entries(chain) + BlockEntries(b)) <==>
      AllTxidsDistinct(rules.fork, Entries(chain)) && FreshAt(rules.fork, chain, b)
  {
    hide Accepted, Entries, TxidOf;
    AcceptedFits(rules, alloc, chain, b);
    var init, last := Entries(chain), BlockEntries(b);
    var es, n := init + last, |last| - 1;
    if AllTxidsDistinct(rules.fork, init) && FreshAt(rules.fork, chain, b) {
      forall i, j | 0 <= i < j < |es| && PostFork(rules.fork, es[i].height) && PostFork(rules.fork, es[j].height)
        ensures TxidOf(es[i].row) != TxidOf(es[j].row)
      {
        if j < |init| {
        } else if i >= |init| {
          RowsDistinct(rules, alloc, chain, b, i - |init|, j - |init|);
        } else {
          RowUnseen(rules, alloc, chain, b, j - |init|);
          assert es[i] in init && es[j] in last;
        }
      }
    }
    if AllTxidsDistinct(rules.fork, es) {
      assert forall i, j :: 0 <= i < j < |init| ==> es[i] == init[i] && es[j] == init[j];
      if PostFork(rules.fork, b.height) {
        assert es[|init| + n].row == LastRow(b);
        forall e | e in init && PostFork(rules.fork, e.height) ensures TxidOf(e.row) != TxidOf(LastRow(b)) {
          var i :| 0 <= i < |init| && init[i] == e;
          assert es[i] == e;
        }
      }
    }
  }

  /** All txids of a replay-free chain differ exactly when no coinbase repeats one. */
  lemma {:induction false} TxidsDistinctIff(rules: Rules, alloc: map<Address, int>, chain: seq<Block>)
    requires Digested(rules, alloc, chain) && TxidsFresh(rules.fork, Entries(chain))
    ensures AllTxidsDistinct(rules.fork, Entries(chain)) <==> CoinbaseFresh(rules.fork, chain)
  {
    hide Accepted, Digested, AllTxidsDistinct, FreshAt, TxidsFresh, Unknown;
    var n := |chain| - 1;
    DigestedEnds(rules, alloc, chain);
    if n == 0 {
      GenesisFresh(rules.fork, chain);
    } else {
      TxidsSnoc(rules, alloc, chain[..n], chain[n], Entries(chain[..n]));
      TxidsDistinctIff(rules, alloc, chain[..n]);
      DistinctSnoc(rules, alloc, chain[..n], chain[n]);
      CoinbaseFreshSnoc(rules.fork, chain);
    }
  }

  /** Every rollback leaves the txid index exact if and only if no coinbase repeats a txid. */
  lemma {:induction false} RollbacksExactIff(rules: Rules, alloc: map<Address, int>, chain: seq<Block>)
    requires Digested(rules, alloc, chain) && TxidsFresh(rules.fork, Entries(chain))
    ensures CoinbaseFresh(rules.fork, chain) <==>
      (forall k :: 1 <= k <= |chain| ==>
        Txids(rules.fork, Entries(chain[..k])) !! Txids(rules.fork, Entries(chain[k..])))
  {
    hide Accepted, Digested, Txids, Entries, PostFork, TxidsFresh;
    if CoinbaseFresh(rules.fork, chain) {
      forall k | 1 <= k <= |chain|
        ensures Txids(rules.fork, Entries(chain[..k])) !! Txids(rules.fork, Entries(chain[k..]))
      {
        FreshDisjoint(rules, alloc, chain, k);
      }
    }
    if forall k :: 1 <= k <= |chain| ==>
      Txids(rules.fork, Entries(chain[..k])) !! Txids(rules.fork, Entries(chain[k..])) {
      forall k | 1 <= k < |chain| ensures FreshAt(rules.fork, chain[..k], chain[k]) {
        DisjointFresh(rules.fork, chain, k);
      }
    }
  }

  lemma {:induction false} FreshDisjoint(rules: Rules, alloc: map<Address, int>, chain: seq<Block>, k: nat)
    requires Digested(rules, alloc, chain) && TxidsFresh(rules.fork, Entries(chain))
    requires CoinbaseFresh(rules.fork, chain) && 1 <= k <= |chain|
    ensures Txids(rules.fork, Entries(chain[..k])) !! Txids(rules.fork, Entries(chain[k..]))
  {
    hide *;
    TxidsDistinctIff(rules, alloc, chain);
    EntriesSplit(chain, k);
    DistinctDisjoint(rules.fork, Entries(chain[..k]), Entries(chain[k..]));
  }

  lemma {:induction false} DistinctDisjoint(fork: Option<nat>, es: seq<Entry>, fs: seq<Entry>)
    requires AllTxidsDistinct(fork, es + fs)
    ensures Txids(fork, es) !! Txids(fork, fs)
  {
    hide TxidOf;
    forall e, f | e in es && f in fs && PostFork(fork, e.height) && PostFork(fork, f.height)
      ensures TxidOf(e.row) != TxidOf(f.row)
    {
      var i :| 0 <= i < |es| && es[i] == e;
      var j :| 0 <= j < |fs| && fs[j] == f;
      assert (es + fs)[i] == e && (es + fs)[|es| + j] == f;
    }
  }

  lemma {:induction false} DisjointFresh(fork: Option<nat>, chain: seq<Block>, k: nat)
    requires 1 <= k < |chain| && Txids(fork, Entries(chain[..k])) !! Txids(fork, Entries(chain[k..]))
    ensures FreshAt(fork, chain[..k], chain[k])
  {
    hide TxidOf, Entries;
    var b := chain[k];
    if PostFork(fork, b.height) && b.rows != [] {
      var e := Entry(b.height, |b.rows| - 1, LastRow(b));
      assert chain[k..][0] == b;
      EntriesAre(chain[k..], e);
      assert InBlock(b, e);
      assert TxidOf(e.row) in Txids(fork, Entries(chain[k..]));
    }
  }
}
