/** Longer wins, else the smaller hash at the first divergent height: why reorgs cannot see-saw. */
module ChainOrder {
  import opened Wrappers
  import opened ByteStrings
  import opened Transactions
  import opened Serialize
  import opened Ledger
  import opened StoreSpec
  import opened Consensus
  import opened Replay
  import opened Nodes
  import opened ForkResolution
  import opened Reorg

  // ------------------------------------------------------------------ hashes link blocks

  /** Where the hashes of two chains agree at a height, so do the transactions and the parents they cover. */
  ghost predicate Linked(a: seq<Block>, b: seq<Block>) {
    forall i :: 1 <= i < |a| && i < |b| && a[i].hash == b[i].hash ==>
      WireTxs(a[i].rows) == WireTxs(b[i].rows) && a[i - 1].hash == b[i - 1].hash
  }

  /** Both chains can be held by a node, they start from one genesis block, and no two blocks collide. */
  ghost predicate OneRoot(rules: Rules, alloc: map<Address, int>, a: seq<Block>, b: seq<Block>) {
    Linked(a, b) && Digested(rules, alloc, a) && Digested(rules, alloc, b) && a[0] == b[0]
  }

  /** The hash of an accepted block, and what it covers. */
  lemma {:induction false} HashOfBlock(rules: Rules, alloc: map<Address, int>, chain: seq<Block>, i: nat)
    requires Digested(rules, alloc, chain) && 1 <= i < |chain|
    ensures chain[i].rows != [] && chain[i] == NewBlock(rules, chain[..i], WireTxs(chain[i].rows))
    ensures chain[i].hash == rules.hashOf(chain[i].height, WireTxs(chain[i].rows), chain[i - 1].hash)
  {
    hide Accepted, Accepts, Digested;
    DigestedAt(rules, alloc, chain, i);
    AcceptedIs(rules, alloc, chain[..i], chain[i]);
    AcceptedFits(rules, alloc, chain[..i], chain[i]);
  }

  /**
   The block hash of the code: after the fork a digest of the block pre-image, before it the legacy hash.
   Either one gives lower-case hexadecimal text, and a post-fork block without a pre-image is not valid.
   */
  ghost predicate SourceHash(rules: Rules, digest: Bytes -> Bytes, legacy: (seq<Tx>, Bytes) -> Bytes) {
    && (forall x :: IsParent(digest(x))) && (forall txs, parent :: IsParent(legacy(txs, parent)))
    && (forall h, txs, parent :: !PostFork(rules.fork, h) ==> rules.hashOf(h, txs, parent) == legacy(txs, parent))
    && (forall h, txs, parent :: PostFork(rules.fork, h) && BlockPreimage(txs, parent).Some? ==>
          rules.hashOf(h, txs, parent) == digest(BlockPreimage(txs, parent).value))
    && (forall chain, txs :: chain != [] && PostForkNext(rules, chain) && rules.valid(chain, txs) ==>
          BlockPreimage(txs, []).Some?)
  }

  /** The digest tells the pre-images of two post-fork blocks apart, the legacy hash those of two earlier ones. */
  ghost predicate NoCollision(rules: Rules, digest: Bytes -> Bytes, legacy: (seq<Tx>, Bytes) -> Bytes,
                              h: nat, txs: seq<Tx>, parent: Bytes, txs': seq<Tx>, parent': Bytes)
  {
    if PostFork(rules.fork, h) then
      var x, y := BlockPreimage(txs, parent), BlockPreimage(txs', parent');
      x.Some? && y.Some? && digest(x.value) == digest(y.value) ==> x == y
    else
      legacy(txs, parent) == legacy(txs', parent') ==> txs == txs' && parent == parent'
  }

  /** A block above genesis has a pre-image after the fork, and its hash and its parent's are hexadecimal text. */
  lemma {:induction false} SourceBlock(rules: Rules, alloc: map<Address, int>, chain: seq<Block>, i: nat,
                                       digest: Bytes -> Bytes, legacy: (seq<Tx>, Bytes) -> Bytes)
    requires Digested(rules, alloc, chain) && i < |chain| && IsParent(chain[0].hash)
    requires SourceHash(rules, digest, legacy)
    ensures IsParent(chain[i].hash) && chain[i].height == i + 1
    ensures var txs := WireTxs(chain[i].rows);
      i > 0 && PostFork(rules.fork, i + 1) ==> BlockPreimage(txs, chain[i - 1].hash).Some?
  {
    hide Accepted, Digested, NewBlock, BlockPreimage, IsParent;
    KeptAt(rules, alloc, chain, i + 1);
    if i > 0 {
      HashOfBlock(rules, alloc, chain, i);
      KeptAt(rules, alloc, chain, i);
      DigestedAt(rules, alloc, chain, i);
      AcceptedIs(rules, alloc, chain[..i], chain[i]);
    }
  }

  /** With that hash, two chains on whose blocks it has no collision are linked. */
  lemma {:induction false} SourceLinked(rules: Rules, alloc: map<Address, int>, a: seq<Block>, b: seq<Block>,
                                        digest: Bytes -> Bytes, legacy: (seq<Tx>, Bytes) -> Bytes)
    requires Digested(rules, alloc, a) && Digested(rules, alloc, b) && a[0] == b[0] && IsParent(a[0].hash)
    requires SourceHash(rules, digest, legacy)
    requires forall i :: 1 <= i < |a| && i < |b| ==>
      NoCollision(rules, digest, legacy, i + 1, WireTxs(a[i].rows), a[i - 1].hash, WireTxs(b[i].rows), b[i - 1].hash)
    ensures Linked(a, b)
  {
    hide Digested, NewBlock, BlockPreimage, IsParent;
    forall i | 1 <= i < |a| && i < |b| && a[i].hash == b[i].hash
      ensures WireTxs(a[i].rows) == WireTxs(b[i].rows) && a[i - 1].hash == b[i - 1].hash
    {
      SourceBlock(rules, alloc, a, i - 1, digest, legacy);
      SourceBlock(rules, alloc, b, i - 1, digest, legacy);
      SourceBlock(rules, alloc, a, i, digest, legacy);
      SourceBlock(rules, alloc, b, i, digest, legacy);
      HashOfBlock(rules, alloc, a, i);
      HashOfBlock(rules, alloc, b, i);
      if PostFork(rules.fork, i + 1) {
        BlockPreimageInjective(WireTxs(a[i].rows), a[i - 1].hash, WireTxs(b[i].rows), b[i - 1].hash);
      }
    }
  }

  lemma {:induction false} SourceFilled(rules: Rules, alloc: map<Address, int>, chain: seq<Block>,
                                        digest: Bytes -> Bytes, legacy: (seq<Tx>, Bytes) -> Bytes)
    requires Digested(rules, alloc, chain) && IsParent(chain[0].hash) && SourceHash(rules, digest, legacy)
    ensures Filled(chain)
  {
    hide Digested, SourceHash;
    DigestedRows(rules, alloc, chain);
    forall i | 0 <= i < |chain| ensures chain[i].hash != [] {
      SourceBlock(rules, alloc, chain, i, digest, legacy);
    }
  }

  lemma {:induction false} SameParents(rules: Rules, alloc: map<Address, int>, a: seq<Block>, b: seq<Block>, i: nat)
    requires OneRoot(rules, alloc, a, b) && 1 <= i < |a| && i < |b| && a[i].hash == b[i].hash
    ensures a[i - 1].hash == b[i - 1].hash && WireTxs(a[i].rows) == WireTxs(b[i].rows)
  {
    hide Digested, NewBlock;
    HashOfBlock(rules, alloc, a, i);
    HashOfBlock(rules, alloc, b, i);
  }

  /** Equal hashes at a height mean equal blocks up to it. */
  lemma {:induction false} HashDecides(rules: Rules, alloc: map<Address, int>, a: seq<Block>, b: seq<Block>, i: nat)
    requires OneRoot(rules, alloc, a, b) && i < |a| && i < |b| && a[i].hash == b[i].hash
    ensures a[..i + 1] == b[..i + 1]
  {
    hide Digested, NewBlock, Linked;
    if i == 0 {
      assert a[..1] == [a[0]] && b[..1] == [b[0]];
    } else {
      SameParents(rules, alloc, a, b, i);
      HashDecides(rules, alloc, a, b, i - 1);
      HashOfBlock(rules, alloc, a, i);
      HashOfBlock(rules, alloc, b, i);
      assert a[..i] == b[..i];
      assert a[..i + 1] == a[..i] + [a[i]] && b[..i + 1] == b[..i] + [b[i]];
    }
  }

  // ------------------------------------------------------------------ the order

  /** How many leading elements two sequences share. */
  ghost function Common<T>(a: seq<T>, b: seq<T>): (n: nat)
    ensures n <= |a| && n <= |b| && a[..n] == b[..n]
    ensures n < |a| && n < |b| ==> a[n] != b[n]
  {
    if a == [] || b == [] || a[0] != b[0] then 0 else
      var n := Common(a[1..], b[1..]);
      assert a[..n + 1] == [a[0]] + a[1..][..n] && b[..n + 1] == [b[0]] + b[1..][..n];
      n + 1
  }

  /** `a` displaces `b`. */
  ghost predicate Beats(a: seq<Block>, b: seq<Block>) {
    |a| > |b| || (|a| == |b| && var n := Common(a, b); n < |a| && LexLess(a[n].hash, b[n].hash))
  }

  lemma {:induction false} PrefixAgrees<T>(a: seq<T>, b: seq<T>, n: nat)
    requires n <= |a| && n <= |b| && a[..n] == b[..n]
    ensures forall i :: 0 <= i < n ==> a[i] == b[i]
  {
    assert forall i :: 0 <= i < n ==> a[i] == a[..n][i] && b[i] == b[..n][i];
  }

  lemma {:induction false} CommonIs<T>(a: seq<T>, b: seq<T>, n: nat)
    requires n < |a| && n < |b| && a[..n] == b[..n] && a[n] != b[n]
    ensures Common(a, b) == n
  {
    PrefixAgrees(a, b, n);
    PrefixAgrees(a, b, Common(a, b));
  }

  lemma {:induction false} SharedRoot(rules: Rules, alloc: map<Address, int>, a: seq<Block>, b: seq<Block>)
    requires OneRoot(rules, alloc, a, b)
    ensures Common(a, b) >= 1
  {
    hide Linked;
    assert a != [] && b != [];
  }

  lemma {:induction false} Irreflexive(a: seq<Block>)
    ensures !Beats(a, a)
  {
  }

  lemma {:induction false} Asymmetric(a: seq<Block>, b: seq<Block>)
    requires Beats(a, b)
    ensures !Beats(b, a)
  {
    if |a| == |b| {
      var n := Common(a, b);
      CommonIs(b, a, n);
      LexTotal(a[n].hash, b[n].hash);
    }
  }

  /** Chains from one root that differ at a height have different hashes there. */
  lemma {:induction false} DifferentHashes(rules: Rules, alloc: map<Address, int>, a: seq<Block>, b: seq<Block>, n: nat)
    requires OneRoot(rules, alloc, a, b) && n < |a| && n < |b| && a[n] != b[n]
    ensures a[n].hash != b[n].hash
  {
    hide Digested, Linked;
    if a[n].hash == b[n].hash {
      HashDecides(rules, alloc, a, b, n);
      PrefixAgrees(a, b, n + 1);
    }
  }

  /** Of two different chains from one root, one beats the other. */
  lemma {:induction false} Total(rules: Rules, alloc: map<Address, int>, a: seq<Block>, b: seq<Block>)
    requires OneRoot(rules, alloc, a, b) && a != b
    ensures Beats(a, b) || Beats(b, a)
  {
    hide OneRoot;
    var n := Common(a, b);
    TakeAll(a);
    TakeAll(b);
    if |a| == |b| && n < |a| {
      CommonIs(b, a, n);
      DifferentHashes(rules, alloc, a, b, n);
      LexTotal(a[n].hash, b[n].hash);
    }
  }

  lemma {:induction false} Transitive(a: seq<Block>, b: seq<Block>, c: seq<Block>)
    requires Beats(a, b) && Beats(b, c)
    ensures Beats(a, c)
  {
    if |a| == |b| == |c| {
      var m, n := Common(a, b), Common(b, c);
      var k := if m < n then m else n;
      PrefixAgrees(a, b, m);
      PrefixAgrees(b, c, n);
      if m == n {
        LexTransitive(a[k].hash, b[k].hash, c[k].hash);
      }
      LexTotal(a[k].hash, c[k].hash);
      assert a[..k] == c[..k];
      CommonIs(a, c, k);
    }
  }

  // ------------------------------------------------------------------ no cycles

  ghost predicate Climbs(cs: seq<seq<Block>>) {
    forall i :: 0 <= i < |cs| - 1 ==> Beats(cs[i + 1], cs[i])
  }

  lemma {:induction false} ClimbsTo(cs: seq<seq<Block>>, i: nat, j: nat)
    requires Climbs(cs) && i < j < |cs|
    ensures Beats(cs[j], cs[i])
    decreases j - i
  {
    hide Beats;
    if i + 1 < j {
      ClimbsTo(cs, i + 1, j);
      Transitive(cs[j], cs[i + 1], cs[i]);
    }
  }

  /** However many branches there are, a sequence of adoptions never comes back to a chain it left. */
  lemma {:induction false} NoCycle(cs: seq<seq<Block>>, i: nat, j: nat)
    requires Climbs(cs) && i < j < |cs|
    ensures cs[i] != cs[j]
  {
    hide Beats;
    ClimbsTo(cs, i, j);
    Irreflexive(cs[i]);
  }

  // ------------------------------------------------------------------ honest peers

  /** Two chains from one root split at one point. */
  lemma {:induction false} SplitExists(rules: Rules, alloc: map<Address, int>, ours: seq<Block>, theirs: seq<Block>)
    returns (d: nat)
    requires OneRoot(rules, alloc, ours, theirs) && |theirs| >= |ours| && !(ours <= theirs)
    ensures SplitAt(ours, theirs, d) && d == Common(ours, theirs) && theirs[..d] == ours[..d]
  {
    hide OneRoot, Common;
    d := Common(ours, theirs);
    PrefixAgrees(ours, theirs, d);
    TakeAll(ours);
    SharedRoot(rules, alloc, ours, theirs);
    forall i | d <= i < |ours| ensures ours[i].hash != theirs[i].hash {
      HashesStayApart(rules, alloc, ours, theirs, d, i);
    }
  }

  /** Once two chains differ, no later hash is shared. */
  lemma {:induction false} HashesStayApart(rules: Rules, alloc: map<Address, int>, a: seq<Block>, b: seq<Block>, d: nat,
                                           i: nat)
    requires OneRoot(rules, alloc, a, b) && d <= i < |a| && i < |b| && a[d] != b[d]
    ensures a[i].hash != b[i].hash
  {
    hide OneRoot;
    if a[i].hash == b[i].hash {
      HashDecides(rules, alloc, a, b, i);
      PrefixAgrees(a, b, i + 1);
    }
  }

  /** A rival at least as long as ours beats it exactly when it is longer or wins the tie-break at the split. */
  lemma {:induction false} RivalBeats(rules: Rules, alloc: map<Address, int>, ours: seq<Block>, theirs: seq<Block>,
                                      d: nat)
    requires OneRoot(rules, alloc, ours, theirs) && SplitAt(ours, theirs, d) && theirs[..d] == ours[..d]
    ensures Beats(theirs, ours) <==> |theirs| > |ours| || LexLess(theirs[d].hash, ours[d].hash)
  {
    CommonIs(theirs, ours, d);
  }

  /** What a run adopts from an honest peer beats what it held. */
  lemma {:induction false} AdoptionClimbs(ours: seq<Block>, after: seq<Block>, peer: Peer, peerHeight: Option<int>,
                                          theirs: seq<Block>, d: nat)
    requires Honest(ours, peer, peerHeight, theirs, d) && theirs[..d] == ours[..d]
    requires Safe(ours, after, d, peer, peerHeight) && after <= theirs
    ensures Beats(after, ours)
  {
    if |after| == |ours| {
      HonestAncestor(ours, peer, theirs, d);
      TieWinnerStable(ours[d].hash, theirs[d].hash);
      TakeAll(theirs);
      assert after == theirs;
      CommonIs(theirs, ours, d);
    }
  }

  /** The first held block that is not our own at that height has the smaller hash. */
  ghost predicate TakesTie(rules: Rules, ours: seq<Block>, a: nat, held: seq<seq<Tx>>)
    requires 1 <= a <= |ours|
  {
    var n := Common(held, Wires(ours[a..]));
    && n < |held| && a + n < |ours|
    && LexLess(rules.hashOf(a + n + 1, held[n], ours[a + n - 1].hash), ours[a + n].hash)
  }

  lemma {:induction false} TakesTieNext(rules: Rules, ours: seq<Block>, a: nat, held: seq<seq<Tx>>)
    requires 1 <= a < |ours| && held != [] && held[0] == WireTxs(ours[a].rows)
    ensures TakesTie(rules, ours, a, held) <==> TakesTie(rules, ours, a + 1, held[1..])
  {
    assert Wires(ours[a..])[1..] == Wires(ours[a + 1..]);
  }

  /** A held block that is our own at its height gives back our block; any other gives a different one. */
  lemma {:induction false} HeldBlock(rules: Rules, alloc: map<Address, int>, ours: seq<Block>, a: nat, known: set<Txid>,
                                     txs: seq<Tx>)
    requires Digested(rules, alloc, ours) && 1 <= a < |ours| && Accepts(rules, alloc, ours[..a], known, txs)
    ensures txs != []
    ensures NewBlock(rules, ours[..a], txs) == ours[a] <==> txs == WireTxs(ours[a].rows)
    ensures NewBlock(rules, ours[..a], txs).hash == rules.hashOf(a + 1, txs, ours[a - 1].hash)
  {
    hide Digested, Accepted, NoReplay, Affordable, BlockFits, Hashes;
    HashOfBlock(rules, alloc, ours, a);
    WireRoundTrip(rules, ours[..a], txs);
    KeptAt(rules, alloc, ours, a);
  }

  /**
   With any peer, and on what is held before our own branch comes off: a chain tried at equal length
   beats ours exactly when the first held block that is not ours has the smaller hash.
   */
  lemma {:induction false} TiedClimbs(rules: Rules, alloc: map<Address, int>, ours: seq<Block>, a: nat,
                                      known: set<Txid>, held: seq<seq<Tx>>)
    requires Digested(rules, alloc, ours) && 1 <= a <= |ours|
    requires |Candidate(rules, alloc, ours, a, known, held)| == |ours|
    ensures Beats(Candidate(rules, alloc, ours, a, known, held), ours) <==> TakesTie(rules, ours, a, held)
    decreases |held|
  {
    hide Digested, Accepts, NewBlock, BlockTxids, Beats, TakesTie, Wires;
    var after := Candidate(rules, alloc, ours, a, known, held);
    if a == |ours| {
      TakeAll(ours);
      TakeAll(after);
      NotTaken(rules, ours, held);
      Irreflexive(ours);
    } else {
      HeldBlock(rules, alloc, ours, a, known, held[0]);
      var b := NewBlock(rules, ours[..a], held[0]);
      if held[0] == WireTxs(ours[a].rows) {
        TakeNext(ours, a);
        TakesTieNext(rules, ours, a, held);
        TiedClimbs(rules, alloc, ours, a + 1, known + BlockTxids(rules, b), held[1..]);
      } else {
        FirstDiffers(rules, ours, a, held, after, b);
      }
    }
  }

  lemma {:induction false} NotTaken(rules: Rules, ours: seq<Block>, held: seq<seq<Tx>>)
    requires ours != []
    ensures !TakesTie(rules, ours, |ours|, held)
  {
  }

  lemma {:induction false} FirstDiffers(rules: Rules, ours: seq<Block>, a: nat, held: seq<seq<Tx>>, after: seq<Block>,
                                        b: Block)
    requires 1 <= a < |ours| == |after| && held != [] && held[0] != WireTxs(ours[a].rows)
    requires ours[..a] + [b] <= after && b != ours[a] && b.hash == rules.hashOf(a + 1, held[0], ours[a - 1].hash)
    ensures Beats(after, ours) <==> TakesTie(rules, ours, a, held)
  {
    assert after[a] == (ours[..a] + [b])[a] && after[..a] == (ours[..a] + [b])[..a];
    CommonIs(after, ours, a);
    CommonIs(held, Wires(ours[a..]), 0);
  }

  /** A peer that won the tie-break and serves the block it advertised takes the tie. */
  lemma {:induction false} AdvertisedTakes(rules: Rules, alloc: map<Address, int>, ours: seq<Block>, a: nat,
                                           held: seq<seq<Tx>>, advertised: Option<Bytes>)
    requires Digested(rules, alloc, ours) && 1 <= a < |ours| && held != []
    requires TieWinner(Some(ours[a].hash), advertised) == Theirs
    requires advertised == Some(rules.hashOf(a + 1, held[0], ours[a - 1].hash))
    ensures TakesTie(rules, ours, a, held)
  {
    hide Digested, NewBlock;
    TieWinnerStable(ours[a].hash, advertised.value);
    HashOfBlock(rules, alloc, ours, a);
    KeptAt(rules, alloc, ours, a + 1);
    LexTotal(ours[a].hash, ours[a].hash);
    assert held[0] != WireTxs(ours[a].rows);
    CommonIs(held, Wires(ours[a..]), 0);
  }

  /** A run with any peer: what is adopted beats what was held exactly when it is longer or takes the tie. */
  method ResolveAny(node: Node, s: Surroundings, tipHash: Bytes, peerId: Bytes, peerHeight: Option<int>, peer: Peer)
    returns (rolled: bool, ghost a: nat, ghost held: seq<seq<Tx>>)
    requires node.Valid()
    modifies node, node.store
    ensures node.Valid() && node.store.db.alloc == old(node.store.db.alloc)
    ensures 1 <= a <= |old(node.store.chain)|
    ensures rolled ==> Safe(old(node.store.chain), node.store.chain, a, peer, peerHeight)
    ensures !rolled ==> PutBack(node.rules.fork, old(node.store.chain), a, node.store.chain)
    ensures rolled ==>
      (Beats(node.store.chain, old(node.store.chain)) <==>
         |node.store.chain| > |old(node.store.chain)| || TakesTie(node.rules, old(node.store.chain), a, held))
  {
    hide Refines, TxidSound, Digested, HashExact, TieWinner, PutBack, Safe, Candidate, TakesTie, Entries, Txids;
    ghost var ours, db := node.store.chain, node.store.db;
    ghost var tried;
    var o;
    o, a, held, tried := Resolve(node, s, tipHash, peerId, peerHeight, peer, [], 0);
    rolled := o.rolled;
    if rolled && |tried| == |ours| {
      TiedClimbs(node.rules, db.alloc, ours, a, db.index.txid.Keys - Txids(node.rules.fork, Entries(ours[a..])), held);
    }
  }

  /** Of two nodes tied on different chains from one root, exactly one is told to reorg by the other. */
  lemma {:induction false} OneReorgs(rules: Rules, alloc: map<Address, int>, a: seq<Block>, b: seq<Block>)
    requires OneRoot(rules, alloc, a, b) && |a| == |b| && a != b && Filled(a) && Filled(b)
    ensures var n := Common(a, b);
      && 1 <= n < |a|
      && (TieWinner(Some(a[n].hash), Some(b[n].hash)) == Theirs <==> Beats(b, a))
      && (TieWinner(Some(b[n].hash), Some(a[n].hash)) == Theirs <==> Beats(a, b))
      && (Beats(a, b) <==> !Beats(b, a))
  {
    hide OneRoot, TieWinner, Common;
    var n := Common(a, b);
    SharedRoot(rules, alloc, a, b);
    TakeAll(a);
    TakeAll(b);
    CommonIs(b, a, n);
    DifferentHashes(rules, alloc, a, b, n);
    TieWinnerStable(a[n].hash, b[n].hash);
    TieWinnerStable(b[n].hash, a[n].hash);
    LexTotal(a[n].hash, b[n].hash);
  }

  // ------------------------------------------------------------------ any number of honest reports

  /** A peer's report that our tip is unknown to it, and the chain that peer answers from. */
  datatype Report = Report(s: Surroundings, tipHash: Bytes, peerId: Bytes, peer: Peer, theirs: seq<Block>)

  ghost predicate HonestReport(rules: Rules, alloc: map<Address, int>, root: Block, r: Report) {
    && Serves(r.peer, r.theirs) && Digested(rules, alloc, r.theirs) && TxidsFresh(rules.fork, Entries(r.theirs))
    && r.theirs[0] == root && Filled(r.theirs)
  }

  lemma {:induction false} ClimbsMore(cs: seq<seq<Block>>, c: seq<Block>)
    requires Climbs(cs) && (cs != [] ==> Beats(c, cs[|cs| - 1]))
    ensures Climbs(cs + [c])
  {
    hide Beats;
  }

  lemma {:induction false} LinkedPrefix(a: seq<Block>, b: seq<Block>, c: seq<Block>)
    requires Linked(a, b) && c <= a
    ensures Linked(c, b)
  {
    assert forall i :: 0 <= i < |c| ==> c[i] == a[i];
  }

  lemma {:induction false} FilledPrefix(a: seq<Block>, c: seq<Block>)
    requires Filled(a) && c <= a
    ensures Filled(c)
  {
    assert forall i :: 0 <= i < |c| ==> c[i] == a[i];
  }

  /** An honest report either changes nothing or moves the node strictly up, onto the peer's chain. */
  method ResolveHonest(node: Node, r: Report) returns (rolled: bool)
    requires node.Valid() && Filled(node.store.chain)
    requires HonestReport(node.rules, node.store.db.alloc, node.store.chain[0], r) && Linked(node.store.chain, r.theirs)
    modifies node, node.store
    ensures node.Valid() && node.store.db.alloc == old(node.store.db.alloc)
    ensures node.store.chain[0] == old(node.store.chain[0]) && Filled(node.store.chain)
    ensures !rolled ==> node.store.chain == old(node.store.chain)
    ensures rolled ==> Beats(node.store.chain, old(node.store.chain)) && node.store.chain <= r.theirs
  {
    hide Refines, TxidSound, Digested, HashExact, Linked, TieWinner, Beats, Serves, Filled;
    hide TxidsFresh, Entries, PutBack, CoinbaseFresh, Candidate, Txids;
    ghost var rules, alloc, ours, theirs := node.rules, node.store.db.alloc, node.store.chain, r.theirs;
    DigestedStart(rules, alloc, theirs);
    ghost var d := 0;
    ghost var rival := |theirs| >= |ours| && !(ours <= theirs);
    if rival {
      d := SplitExists(rules, alloc, ours, theirs);
    }
    hide SplitAt;
    var o, a, _, _ := Resolve(node, r.s, r.tipHash, r.peerId, Some(|r.theirs|), r.peer, theirs, d);
    rolled := o.rolled;
    if rolled {
      AdoptionClimbs(ours, node.store.chain, r.peer, Some(|theirs|), theirs, d);
      FilledPrefix(theirs, node.store.chain);
    }
  }

  /** The chain a node starts from and those its reports come from. */
  ghost function Sources(start: seq<Block>, reports: seq<Report>): set<seq<Block>> {
    {start} + set r | r in reports :: r.theirs
  }

  ghost predicate AllLinked(cs: set<seq<Block>>) {
    forall a, b :: a in cs && b in cs ==> Linked(a, b)
  }

  /** No sequence of honest reports, over any number of branches, brings a node back to a chain it left. */
  method ResolveMany(node: Node, reports: seq<Report>) returns (ghost held: seq<seq<Block>>)
    requires node.Valid() && Filled(node.store.chain)
    requires forall r :: r in reports ==> HonestReport(node.rules, node.store.db.alloc, node.store.chain[0], r)
    requires AllLinked(Sources(node.store.chain, reports))
    modifies node, node.store
    ensures node.Valid() && |held| >= 1 && held[0] == old(node.store.chain) && held[|held| - 1] == node.store.chain
    ensures Climbs(held) && forall i, j :: 0 <= i < j < |held| ==> held[i] != held[j]
  {
    hide Refines, TxidSound, Digested, HashExact, Linked, Filled, HonestReport, Beats, TxidsFresh, Entries;
    held := [node.store.chain];
    ghost var root, source := node.store.chain[0], node.store.chain;
    ghost var sources := Sources(node.store.chain, reports);
    var i := 0;
    while i < |reports|
      invariant 0 <= i <= |reports| && node.Valid() && |held| >= 1 && held[0] == old(node.store.chain)
      invariant held[|held| - 1] == node.store.chain && Climbs(held)
      invariant node.store.chain[0] == root && node.store.db.alloc == old(node.store.db.alloc)
      invariant Filled(node.store.chain)
      invariant source in sources && node.store.chain <= source
    {
      var r := reports[i];
      assert r in reports;
      LinkedPrefix(source, r.theirs, node.store.chain);
      var rolled := ResolveHonest(node, r);
      if rolled {
        ClimbsMore(held, node.store.chain);
        held, source := held + [node.store.chain], r.theirs;
      }
      i := i + 1;
    }
    forall i, j | 0 <= i < j < |held| ensures held[i] != held[j] {
      NoCycle(held, i, j);
    }
  }
}
