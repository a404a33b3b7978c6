/** `BlockStore`: the ledger as an object, and its agreement with a plain list of blocks. */
module BlockStores {
  import opened Wrappers
  import opened ByteStrings
  import opened KvStore
  import opened Transactions
  import opened Serialize
  import opened Ledger
  import opened IndexKeys
  import opened BlockBody
  import opened AddrBytes
  import opened StoreIndex
  import opened StoreSpec

  // ------------------------------------------------------------------ height-keyed scans

  const KEY_LIMIT: int := 0x1_0000_0000_0000_0000

  predicate HeightsFit(blocks: map<nat, Record>) {
    forall h :: h in blocks ==> h < KEY_LIMIT
  }

  function HeightKeys(blocks: map<nat, Record>): set<Bytes>
    requires HeightsFit(blocks)
  {
    set h | h in blocks :: HeightKey(h)
  }

  lemma {:induction false} HeightKeyOrder(a: nat, b: nat)
    requires a < KEY_LIMIT && b < KEY_LIMIT
    ensures LexLess(HeightKey(a), HeightKey(b)) <==> a < b
    ensures FromBigEndian(HeightKey(a)) == a
  {
    Pow256Values();
    BigEndianOrder(a, b, 8);
    BigEndianRoundTrip(a, 8);
  }

  /** The stored heights in `[start, end)` that exist, ascending. */
  ghost predicate Heights(blocks: map<nat, Record>, start: nat, end: Option<nat>, hs: seq<nat>) {
    && (forall i, j :: 0 <= i < j < |hs| ==> hs[i] < hs[j])
    && (forall h :: h in hs <==> h in blocks && start <= h && (end.Some? ==> h < end.value))
  }

  lemma {:induction false} KeyHeight(blocks: map<nat, Record>, k: Bytes)
    requires HeightsFit(blocks) && k in HeightKeys(blocks)
    ensures FromBigEndian(k) in blocks && HeightKey(FromBigEndian(k)) == k
  {
    var h :| h in blocks && HeightKey(h) == k;
    HeightKeyOrder(h, h);
  }

  /** `[_uh(k) for k in found]` */
  method DecodeHeights(blocks: map<nat, Record>, found: seq<Bytes>) returns (hs: seq<nat>)
    requires HeightsFit(blocks) && forall k :: k in found ==> k in HeightKeys(blocks)
    ensures |hs| == |found|
    ensures forall j :: 0 <= j < |hs| ==> hs[j] in blocks && HeightKey(hs[j]) == found[j]
  {
    hs := [];
    var i := 0;
    while i < |found|
      invariant 0 <= i <= |found| && |hs| == i
      invariant forall j :: 0 <= j < i ==> hs[j] in blocks && HeightKey(hs[j]) == found[j]
    {
      KeyHeight(blocks, found[i]);
      hs := hs + [FromBigEndian(found[i])];
      i := i + 1;
    }
  }

  /** The heights of `txn.range(blocks, start, end)` */
  method HeightsIn(blocks: map<nat, Record>, start: nat, end: Option<nat>) returns (hs: seq<nat>)
    requires HeightsFit(blocks) && start < KEY_LIMIT && (end.Some? ==> end.value < KEY_LIMIT)
    ensures Heights(blocks, start, end, hs)
  {
    var from, to := Some(HeightKey(start)), if end.Some? then Some(HeightKey(end.value)) else None;
    var keys := SortedKeys(HeightKeys(blocks));
    var found := Range(keys, from, to, false);
    BetweenAscending(keys, from, to);
    hs := DecodeHeights(blocks, found);
    HeightsOfKeys(blocks, start, end, found, hs);
  }

  lemma {:induction false} HeightsOfKeys(blocks: map<nat, Record>, start: nat, end: Option<nat>, found: seq<Bytes>,
                                         hs: seq<nat>)
    requires HeightsFit(blocks) && start < KEY_LIMIT && (end.Some? ==> end.value < KEY_LIMIT)
    requires Ascending(found) && |hs| == |found|
    requires forall j :: 0 <= j < |hs| ==> hs[j] in blocks && HeightKey(hs[j]) == found[j]
    requires forall k ::
      k in found <==>
        && k in HeightKeys(blocks)
        && Within(k, Some(HeightKey(start)), if end.Some? then Some(HeightKey(end.value)) else None)
    ensures Heights(blocks, start, end, hs)
  {
    forall i, j | 0 <= i < j < |hs| ensures hs[i] < hs[j] {
      HeightKeyOrder(hs[i], hs[j]);
      assert LexLess(found[i], found[j]);
    }
    forall h ensures h in hs <==> h in blocks && start <= h && (end.Some? ==> h < end.value) {
      if h in blocks {
        HeightKeyOrder(h, start);
        if end.Some? {
          HeightKeyOrder(h, end.value);
        }
        if HeightKey(h) in found {
          var j :| 0 <= j < |found| && found[j] == HeightKey(h);
          HeightKeyOrder(h, hs[j]);
          HeightKeyOrder(hs[j], h);
        }
        if h in hs {
          var j :| 0 <= j < |hs| && hs[j] == h;
          assert found[j] in found;
        }
      }
    }
  }

  /** Where the stored heights are a run, a scan returns a run. */
  lemma {:induction false} HeightsAreRun(blocks: map<nat, Record>, start: nat, end: Option<nat>, hs: seq<nat>, lo: nat,
                                         hi: nat)
    requires Heights(blocks, start, end, hs) && lo <= hi
    requires forall h :: h in hs <==> lo <= h < hi
    ensures |hs| == hi - lo && forall i :: 0 <= i < |hs| ==> hs[i] == lo + i
  {
    RunIndex(hs, lo, hi);
  }

  lemma {:induction false} RunIndex(hs: seq<nat>, lo: nat, hi: nat)
    requires forall i, j :: 0 <= i < j < |hs| ==> hs[i] < hs[j]
    requires lo <= hi && forall h :: h in hs <==> lo <= h < hi
    ensures |hs| == hi - lo && forall i :: 0 <= i < |hs| ==> hs[i] == lo + i
    decreases hi - lo
  {
    if lo < hi {
      assert lo in hs;
      var k :| 0 <= k < |hs| && hs[k] == lo;
      assert hs[0] in hs;
      assert k == 0;
      var tail := hs[1..];
      forall h ensures h in tail <==> lo + 1 <= h < hi {
        assert h in tail <==> h in hs && h != lo;
      }
      RunIndex(tail, lo + 1, hi);
      assert forall i :: 1 <= i < |hs| ==> hs[i] == tail[i - 1];
    } else {
      SomeElement(hs);
    }
  }

  // ------------------------------------------------------------------ transactions

  lemma {:induction false} StoredHeightsFit(codec: Codec, fork: Option<nat>, db: Db, chain: seq<Block>)
    requires Refines(codec, fork, db, chain)
    ensures HeightsFit(db.blocks)
  {
    if chain != [] {
      assert chain[|chain| - 1].height < HEIGHT_LIMIT;
    }
  }

  /** The last of the ascending height keys belongs to the highest block. */
  lemma {:induction false} LastKeyIsTip(blocks: map<nat, Record>, keys: seq<Bytes>, h: nat)
    requires HeightsFit(blocks) && Ascending(keys) && (forall k :: k in keys <==> k in HeightKeys(blocks))
    requires h in blocks
    ensures keys != [] && keys[|keys| - 1] in HeightKeys(blocks) && h <= FromBigEndian(keys[|keys| - 1])
  {
    hide HeightKey;
    assert HeightKey(h) in keys;
    var i :| 0 <= i < |keys| && keys[i] == HeightKey(h);
    var last := keys[|keys| - 1];
    assert last in keys;
    KeyHeight(blocks, last);
    HeightKeyOrder(h, FromBigEndian(last));
  }

  lemma {:induction false} AllKeys(blocks: map<nat, Record>)
    requires HeightsFit(blocks)
    ensures var keys := SortedKeys(HeightKeys(blocks));
      Ascending(keys) && Ascending(Between(keys, None, None)) &&
        forall k :: k in Between(keys, None, None) <==> k in HeightKeys(blocks)
  {
    BetweenAscending(SortedKeys(HeightKeys(blocks)), None, None);
  }

  /** `_tip_in`: the first key of a reverse scan */
  method TipOf(blocks: map<nat, Record>) returns (tip: Option<nat>)
    requires HeightsFit(blocks)
    ensures tip.None? <==> blocks == map[]
    ensures tip.Some? ==> tip.value in blocks && forall h :: h in blocks ==> h <= tip.value
  {
    hide HeightKeys, Between, SortedKeys, Reverse, HeightsFit, Ascending;
    AllKeys(blocks);
    var keys := SortedKeys(HeightKeys(blocks));
    var found := Range(keys, None, None, true);
    ghost var fwd := Between(keys, None, None);
    forall h | h in blocks
      ensures fwd != [] && fwd[|fwd| - 1] in HeightKeys(blocks) && h <= FromBigEndian(fwd[|fwd| - 1])
    {
      LastKeyIsTip(blocks, fwd, h);
    }
    if found == [] {
      assert forall h :: h !in blocks;
      return None;
    }
    assert found[0] == fwd[|fwd| - 1] && found[0] in fwd;
    KeyHeight(blocks, found[0]);
    tip := Some(FromBigEndian(found[0]));
  }

  /** A block extends the chain when it comes right after the tip and its keys can be written. */
  predicate Extends(fork: Option<nat>, chain: seq<Block>, b: Block) {
    BlockFits(fork, b) && (chain != [] ==> b.height == chain[|chain| - 1].height + 1)
  }

  lemma {:induction false} ReadBackFits(fork: Option<nat>, b: Block)
    requires BlockFits(fork, b)
    ensures BlockFits(fork, ReadBack(fork, b))
  {
    var b' := ReadBack(fork, b);
    if PostFork(fork, b.height) {
      forall r | r in b'.rows ensures Encodable(ContentOf(r)) {
        var i :| 0 <= i < |b'.rows| && b'.rows[i] == r;
        assert b.rows[i] in b.rows && ContentOf(r) == ContentOf(b.rows[i]);
      }
    }
  }

  /** The derived indexes after a commit are those of the longer chain. */
  lemma {:induction false} DerivedCommit(fork: Option<nat>, db: Db, db': Db, chain: seq<Block>, b: Block,
                                         acc: map<Address, Parts>)
    requires Derived(fork, db, chain) && db'.alloc == db.alloc
    requires db'.index == Filed(fork, db.index, BlockEntries(b))
    requires Moved(map[], acc, BlockEntries(b), false) && NoZeros(db'.bal)
    requires forall a: Address :: PartsAt(db'.bal, a) == PartsAt(db.bal, a).Plus(PartsAt(acc, a))
    requires db'.diff == if b.difficulty.Some? then db.diff[b.height := b.difficulty.value] else db.diff
    requires db'.txcount == db.txcount + |b.rows|
    ensures Derived(fork, db', chain + [b])
  {
    EntriesSnoc(chain, b);
    FiledMore(fork, db.index, Entries(chain), BlockEntries(b));
    BalancesMoved(db.bal, db'.bal, acc, db.alloc, Entries(chain), BlockEntries(b));
    DifficultySnoc(chain, b);
  }

  /** The sub-databases `commit_block` leaves, given what its loops computed. */
  function Committed(db: Db, b: Block, rec: Record, keys: Keys, ix: Index, bal: map<Address, Parts>): Db {
    Db(db.blocks[b.height := rec], db.hashes[b.hash := b.height], keys,
       if b.difficulty.Some? then db.diff[b.height := b.difficulty.value] else db.diff,
       ix, bal, db.txcount + |b.rows|, db.alloc)
  }

  lemma {:induction false} WellFormedSnoc(fork: Option<nat>, chain: seq<Block>, b: Block)
    requires WellFormed(fork, chain) && Extends(fork, chain, b)
    ensures WellFormed(fork, chain + [b])
  {
  }

  lemma {:induction false} CommitBodies(codec: Codec, fork: Option<nat>, db: Db, chain: seq<Block>, b: Block,
                     rec: Record, keys: Keys, ix: Index, bal: map<Address, Parts>)
    requires WellFormed(fork, chain) && Bodies(codec, db, chain) && Extends(fork, chain, b)
    requires Grows(db.keys, keys) && rec.hash == b.hash && Expand(codec, keys, rec) == Some(b.rows)
    ensures WellFormed(fork, chain + [b]) && Bodies(codec, Committed(db, b, rec, keys, ix, bal), chain + [b])
  {
    WellFormedSnoc(fork, chain, b);
    BodiesCommit(codec, db, chain, b, rec, keys);
    BodiesOnly(codec, db.(blocks := db.blocks[b.height := rec], keys := keys), Committed(db, b, rec, keys, ix, bal),
               chain + [b]);
  }

  lemma {:induction false} BodiesOnly(codec: Codec, db: Db, db': Db, chain: seq<Block>)
    requires Bodies(codec, db, chain) && db'.blocks == db.blocks && db'.keys == db.keys
    ensures Bodies(codec, db', chain)
  {
    forall i | 0 <= i < |chain| ensures Stored(codec, db', chain[i]) {
      assert Stored(codec, db, chain[i]);
    }
  }

  /** The write transaction of `commit_block`; None where it raises and nothing is written. */
  method CommitTxn(codec: Codec, fork: Option<nat>, db: Db, b: Block, ghost chain: seq<Block>) returns (r: Option<Db>)
    requires Refines(codec, fork, db, chain)
    ensures r.Some? <==> Extends(fork, chain, b)
    ensures r.Some? ==> Refines(codec, fork, r.value, chain + [ReadBack(fork, b)])
    ensures r.Some? ==> r.value.alloc == db.alloc && r.value.hashes == db.hashes[b.hash := b.height]
    ensures r.Some? ==> r.value.index.txid == PutTxids(db.index.txid, fork, BlockEntries(ReadBack(fork, b)))
  {
    hide Derived, Balances, Expand, PutTxids, PutPubkeys, SigKeys, AddrKeys, Entries, KeysOk;
    RefinesParts(codec, fork, db, chain);
    StoredHeightsFit(codec, fork, db, chain);
    var tip := TipOf(db.blocks);
    TipIsLast(codec, db, chain, tip);
    if (tip.Some? && b.height != tip.value + 1) || !BlockFits(fork, b) {
      return None;
    }
    var rec, keys := PutBody(codec, fork, db.keys, b);
    // Rows are filed as they will be read back: no index looks at a row's block hash.
    var read := ReadBack(fork, b);
    ReadBackFits(fork, b);
    var ix, acc := IndexRows(fork, db.index, read, map[]);
    var bal := ApplyBalances(db.bal, acc);
    var db' := Committed(db, read, rec, keys, ix, bal);
    CommitBodies(codec, fork, db, chain, read, rec, keys, ix, bal);
    DerivedCommit(fork, db, db', chain, read, acc);
    r := Some(db');
  }

  lemma {:induction false} TipIsLast(codec: Codec, db: Db, chain: seq<Block>, tip: Option<nat>)
    requires Bodies(codec, db, chain) && Consecutive(chain)
    requires tip.None? <==> db.blocks == map[]
    requires tip.Some? ==> tip.value in db.blocks && forall h :: h in db.blocks ==> h <= tip.value
    ensures tip == if chain == [] then None else Some(chain[|chain| - 1].height)
  {
    if chain != [] {
      assert chain[|chain| - 1].height in db.blocks;
    } else {
      assert forall h :: h !in db.blocks;
    }
  }

  // ------------------------------------------------------------------ rollback

  ghost function HeightSet(chain: seq<Block>): set<nat> {
    set b | b in chain :: b.height
  }

  /** The transaction of `rollback` after the blocks from `k` on have been taken off. */
  ghost predicate Unwound(fork: Option<nat>, db: Db, chain: seq<Block>, k: nat, txn: Db, acc: map<Address, Parts>)
    requires k <= |chain|
  {
    && UnwoundIndex(fork, db.index, chain, k, txn.index)
    && Moved(map[], acc, Entries(chain[k..]), true)
    && UnwoundMaps(db, chain, k, txn)
  }

  ghost predicate UnwoundMaps(db: Db, chain: seq<Block>, k: nat, txn: Db)
    requires k <= |chain|
  {
    && txn.blocks == db.blocks - HeightSet(chain[k..])
    && txn.hashes == db.hashes - Hashes(chain[k..])
    && txn.diff == DifficultyMap(chain[..k])
    && txn.txcount == |Entries(chain[..k])|
    && txn.keys == db.keys && txn.bal == db.bal && txn.alloc == db.alloc
  }

  ghost predicate UnwoundIndex(fork: Option<nat>, ix: Index, chain: seq<Block>, k: nat, ix': Index)
    requires k <= |chain|
  {
    && ix'.sig == SigKeys(Entries(chain[..k])) && ix'.addr == AddrKeys(Entries(chain[..k]))
    && ix'.txid == ix.txid - Txids(fork, Entries(chain[k..])) && ix'.pkref == ix.pkref
  }

  /** Cutting one more block off the end, seen from the front and from the back. */
  lemma {:induction false} CutOne(chain: seq<Block>, k: nat, j: nat)
    requires k < j == k + 1 <= |chain|
    ensures Entries(chain[..j]) == Entries(chain[..k]) + BlockEntries(chain[k])
    ensures Entries(chain[k..]) == BlockEntries(chain[k]) + Entries(chain[j..])
    ensures chain[..j] == chain[..k] + [chain[k]] && chain[k..] == [chain[k]] + chain[j..]
  {
    TakeNext(chain, k);
    EntriesSnoc(chain[..k], chain[k]);
    assert chain[k..] == [chain[k]] + chain[j..];
    EntriesConcat([chain[k]], chain[j..]);
    EntriesSnoc([], chain[k]);
    assert [] + [chain[k]] == [chain[k]];
    assert [] + BlockEntries(chain[k]) == BlockEntries(chain[k]);
  }

  lemma {:induction false} UnwindIndex(fork: Option<nat>, ix: Index, chain: seq<Block>, k: nat, j: nat, ix': Index)
    requires WellFormed(fork, chain) && k < j == k + 1 <= |chain| && UnwoundIndex(fork, ix, chain, j, ix')
    ensures UnwoundIndex(fork, ix, chain, k, Unfiled(fork, ix', BlockEntries(chain[k])))
  {
    CutOne(chain, k, j);
    var es, fs := Entries(chain[..k]), BlockEntries(chain[k]);
    forall e, f | e in es && f in fs ensures e.height < f.height {
      EntryFits(fork, chain[..k], e);
    }
    KeysDelete(es, fs);
    TxidsConcat(fork, fs, Entries(chain[j..]));
    MinusTwice(ix.txid, Txids(fork, Entries(chain[j..])), Txids(fork, fs));
  }

  lemma {:induction false} MinusTwice<K, V>(m: map<K, V>, a: set<K>, b: set<K>)
    ensures (m - a) - b == m - (b + a)
  {
  }

  lemma {:induction false} MovedMore(acc: map<Address, Parts>, acc': map<Address, Parts>, es: seq<Entry>,
                                     fs: seq<Entry>)
    requires Moved(map[], acc, fs, true) && Moved(acc, acc', es, true)
    ensures Moved(map[], acc', es + fs, true)
  {
    forall a: Address ensures PartsAt(acc', a) == ZERO.Plus(PartsOf(es + fs, a).Signed(true)) {
      PartsConcat(es, fs, a);
      PlusSwap(PartsOf(es, a), PartsOf(fs, a));
    }
  }

  lemma {:induction false} PlusSwap(x: Parts, y: Parts)
    ensures ZERO.Plus(y.Signed(true)).Plus(x.Signed(true)) == ZERO.Plus(x.Plus(y).Signed(true))
  {
  }

  lemma {:induction false} SetsCons(b: Block, rest: seq<Block>)
    ensures Hashes([b] + rest) == {b.hash} + Hashes(rest)
    ensures HeightSet([b] + rest) == {b.height} + HeightSet(rest)
  {
    assert forall x :: x in [b] + rest <==> x == b || x in rest;
  }

  lemma {:induction false} DifficultyHeights(chain: seq<Block>, h: nat)
    requires h in DifficultyMap(chain)
    ensures exists b :: b in chain && b.height == h
  {
    var n := |chain| - 1;
    assert chain == chain[..n] + [chain[n]];
    if h in DifficultyMap(chain[..n]) {
      DifficultyHeights(chain[..n], h);
    }
  }

  lemma {:induction false} DifficultyCut(fork: Option<nat>, chain: seq<Block>, k: nat, j: nat)
    requires WellFormed(fork, chain) && k < j == k + 1 <= |chain|
    ensures DifficultyMap(chain[..j]) - {chain[k].height} == DifficultyMap(chain[..k])
  {
    TakeNext(chain, k);
    DifficultySnoc(chain[..k], chain[k]);
    if chain[k].height in DifficultyMap(chain[..k]) {
      DifficultyHeights(chain[..k], chain[k].height);
    }
  }

  /** The deletions `rollback` makes for one block, on top of its index rows. */
  function TakenOff(txn: Db, h: nat, rec: Record, n: nat, ix: Index): Db {
    txn.(blocks := txn.blocks - {h}, hashes := txn.hashes - {rec.hash}, diff := txn.diff - {h}, index := ix,
         txcount := if txn.txcount < n then 0 else txn.txcount - n)
  }

  lemma {:induction false} UnwindOne(fork: Option<nat>, db: Db, chain: seq<Block>, k: nat, j: nat, txn: Db,
                                     acc: map<Address, Parts>, rec: Record, acc': map<Address, Parts>)
    requires WellFormed(fork, chain) && k < j == k + 1 <= |chain| && Unwound(fork, db, chain, j, txn, acc)
    requires rec.hash == chain[k].hash && Moved(acc, acc', BlockEntries(chain[k]), true)
    ensures Unwound(fork, db, chain, k,
      TakenOff(txn, chain[k].height, rec, |chain[k].rows|, Unfiled(fork, txn.index, BlockEntries(chain[k]))), acc')
  {
    UnwindIndex(fork, db.index, chain, k, j, txn.index);
    CutOne(chain, k, j);
    MovedMore(acc, acc', BlockEntries(chain[k]), Entries(chain[j..]));
    SetsCons(chain[k], chain[j..]);
    MinusTwice(db.blocks, HeightSet(chain[j..]), {chain[k].height});
    MinusTwice(db.hashes, Hashes(chain[j..]), {chain[k].hash});
    DifficultyCut(fork, chain, k, j);
  }

  lemma {:induction false} UnwindNone(fork: Option<nat>, db: Db, chain: seq<Block>)
    requires Derived(fork, db, chain)
    ensures Unwound(fork, db, chain, |chain|, db, map[])
  {
    TakeAll(chain);
    MovedNone(map[]);
    assert Entries(chain[|chain|..]) == [];
    assert Txids(fork, []) == {} && Hashes([]) == {} && HeightSet([]) == {};
    MinusNone(db.index.txid);
    MinusNone(db.blocks);
    MinusNone(db.hashes);
  }

  lemma {:induction false} MinusNone<K, V>(m: map<K, V>)
    ensures m - {} == m
  {
  }

  /** The end of the `rollback` transaction: balances applied, registry and txids pruned by height. */
  function Finished(txn: Db, bal: map<Address, Parts>, to: int): Db {
    txn.(bal := bal,
      index := txn.index.(pkref := PrunePubkeys(txn.index.pkref, to), txid := PruneTxids(txn.index.txid, to)))
  }

  lemma {:induction false} FinishBodies(codec: Codec, fork: Option<nat>, db: Db, chain: seq<Block>, k: nat, txn: Db)
    requires WellFormed(fork, chain) && Bodies(codec, db, chain) && k <= |chain|
    requires txn.blocks == db.blocks - HeightSet(chain[k..]) && txn.keys == db.keys
    ensures WellFormed(fork, chain[..k]) && Bodies(codec, txn, chain[..k])
  {
    forall i | k <= i < |chain| ensures chain[i].height in HeightSet(chain[k..]) {
      assert chain[k..][i - k] == chain[i];
    }
    forall h | h in HeightSet(chain[k..]) ensures h >= chain[0].height + k {
      var b :| b in chain[k..] && b.height == h;
    }
    forall i | 0 <= i < k ensures Stored(codec, txn, chain[..k][i]) {
      assert Stored(codec, db, chain[i]);
    }
    forall h | h in db.blocks && h >= chain[0].height + k ensures h in HeightSet(chain[k..]) {
      assert chain[h - chain[0].height].height == h;
    }
  }

  lemma {:induction false} FinishDerived(fork: Option<nat>, db: Db, chain: seq<Block>, to: int, txn: Db,
                                         acc: map<Address, Parts>, bal: map<Address, Parts>)
    requires WellFormed(fork, chain) && Derived(fork, db, chain)
    requires Unwound(fork, db, chain, KeptCount(chain, to), txn, acc) && NoZeros(bal)
    requires forall a: Address :: PartsAt(bal, a) == PartsAt(db.bal, a).Plus(PartsAt(acc, a))
    ensures Derived(fork, Finished(txn, bal, to), Kept(chain, to))
  {
    var k := KeptCount(chain, to);
    var es, fs := Entries(chain[..k]), Entries(chain[k..]);
    EntriesSplit(chain, k);
    BalancesMovedBack(db.bal, bal, acc, db.alloc, es, fs);
    KeptHeights(fork, chain, to);
    PubkeysPruned(fork, es, fs, to);
  }

  /** Exact before: then exact after if and only if no key is shared with a kept block. */
  ghost predicate ExactIff(fork: Option<nat>, db: Db, db': Db, chain: seq<Block>, k: nat)
    requires k <= |chain|
  {
    && (TxidExact(fork, db, chain) ==>
          (TxidExact(fork, db', chain[..k]) <==> Txids(fork, Entries(chain[..k])) !! Txids(fork, Entries(chain[k..]))))
    && (HashExact(db, chain) ==>
          (HashExact(db', chain[..k]) <==> Hashes(chain[..k]) !! Hashes(chain[k..])))
  }

  lemma {:induction false} FinishMaps(fork: Option<nat>, db: Db, db': Db, chain: seq<Block>, to: int)
    requires WellFormed(fork, chain)
    requires db'.index.txid == PruneTxids(db.index.txid - Txids(fork, Entries(chain[KeptCount(chain, to)..])), to)
    requires db'.hashes == db.hashes - Hashes(chain[KeptCount(chain, to)..])
    ensures ExactIff(fork, db, db', chain, KeptCount(chain, to))
    ensures TxidCut(fork, db.index.txid, db'.index.txid,
      Entries(chain[..KeptCount(chain, to)]), Entries(chain[KeptCount(chain, to)..]))
  {
    hide Txids, TxidMap, HashMap, Hashes, Entries, PruneTxids, WellFormed, KeptCount;
    var k := KeptCount(chain, to);
    EntriesSplit(chain, k);
    KeptHeights(fork, chain, to);
    TxidRollback(fork, Entries(chain[..k]), Entries(chain[k..]), to);
    hide TxidSound;
    if TxidSound(fork, db.index.txid, Entries(chain[..k]) + Entries(chain[k..])) {
      SoundCut(fork, db.index.txid, Entries(chain[..k]), Entries(chain[k..]), to);
    }
    assert chain[..k] + chain[k..] == chain;
    HashRollback(chain[..k], chain[k..]);
  }

  lemma {:induction false} FinishRollback(codec: Codec, fork: Option<nat>, db: Db, db': Db, chain: seq<Block>, to: int,
                                          k: nat, txn: Db, acc: map<Address, Parts>, bal: map<Address, Parts>)
    requires k <= |chain| && k == KeptCount(chain, to) && db' == Finished(txn, bal, to) && NoZeros(bal)
    requires Refines(codec, fork, db, chain) && Unwound(fork, db, chain, k, txn, acc)
    requires forall a: Address :: PartsAt(bal, a) == PartsAt(db.bal, a).Plus(PartsAt(acc, a))
    ensures Refines(codec, fork, db', chain[..k]) && db'.alloc == db.alloc
  {
    hide Derived, KeptCount, WellFormed, Bodies, KeysOk, Moved, PruneTxids, PrunePubkeys;
    FinishDerived(fork, db, chain, to, txn, acc, bal);
    FinishBodies(codec, fork, db, chain, k, db');
  }

  lemma {:induction false} FinishLookups(fork: Option<nat>, db: Db, db': Db, chain: seq<Block>, to: int, k: nat,
                                         txn: Db, acc: map<Address, Parts>, bal: map<Address, Parts>)
    requires k <= |chain| && k == KeptCount(chain, to) && db' == Finished(txn, bal, to)
    requires WellFormed(fork, chain) && Unwound(fork, db, chain, k, txn, acc)
    ensures ExactIff(fork, db, db', chain, k)
    ensures TxidCut(fork, db.index.txid, db'.index.txid, Entries(chain[..k]), Entries(chain[k..]))
  {
    hide ExactIff, TxidCut, Entries, KeptCount, WellFormed, Moved, PruneTxids, PrunePubkeys;
    FinishMaps(fork, db, db', chain, to);
  }

  lemma {:induction false} UnwoundBalances(fork: Option<nat>, db: Db, chain: seq<Block>, k: nat,
                                           txn: Db, acc: map<Address, Parts>)
    requires k <= |chain| && Derived(fork, db, chain) && Unwound(fork, db, chain, k, txn, acc)
    ensures txn.bal == db.bal && NoZeros(db.bal)
  {
    hide UnwoundIndex, Moved;
  }

  lemma {:induction false} NothingRemoved(fork: Option<nat>, db: Db, chain: seq<Block>)
    ensures chain[..|chain|] == chain && chain[|chain|..] == [] && Entries([]) == []
    ensures ExactIff(fork, db, db, chain, |chain|)
    ensures TxidCut(fork, db.index.txid, db.index.txid, Entries(chain), [])
  {
    assert chain[..|chain|] == chain && chain[|chain|..] == [];
    assert Txids(fork, []) == {} && Hashes([]) == {};
    assert Entries(chain) + [] == Entries(chain);
  }

  /** The loop of `rollback`: blocks come off from the tip down. */
  method UnwindBlocks(codec: Codec, fork: Option<nat>, db: Db, hs: seq<nat>, ghost chain: seq<Block>, ghost k: nat)
    returns (txn: Db, acc: map<Address, Parts>, removed: seq<Entry>)
    requires WellFormed(fork, chain) && Bodies(codec, db, chain) && k <= |chain|
    requires Unwound(fork, db, chain, |chain|, db, map[])
    requires |hs| == |chain| - k && forall i :: 0 <= i < |hs| ==> hs[i] == chain[k + i].height
    ensures Unwound(fork, db, chain, k, txn, acc) && removed == Entries(chain[k..])
  {
    TakeAll(chain);
    txn, acc, removed := db, map[], [];
    var i := |hs|;
    ghost var j := |chain|;
    while i > 0
      invariant 0 <= i <= |hs| && k <= j <= |chain| && j == k + i
      invariant Unwound(fork, db, chain, j, txn, acc)
      invariant removed == Entries(chain[j..])
    {
      i := i - 1;
      ghost var next := j - 1;
      txn, acc, removed := UnwindBlock(codec, fork, db, hs[i], chain, next, j, txn, acc, removed);
      j := next;
    }
    assert j == k;
  }

  method UnwindBlock(codec: Codec, fork: Option<nat>, ghost db: Db, h: nat, ghost chain: seq<Block>, ghost k: nat,
                     ghost j: nat, txn: Db, acc: map<Address, Parts>, removed: seq<Entry>)
    returns (txn': Db, acc': map<Address, Parts>, removed': seq<Entry>)
    requires WellFormed(fork, chain) && Bodies(codec, db, chain) && k < j == k + 1 <= |chain| && h == chain[k].height
    requires Unwound(fork, db, chain, j, txn, acc) && removed == Entries(chain[j..])
    ensures Unwound(fork, db, chain, k, txn', acc') && removed' == Entries(chain[k..])
  {
    StillStored(codec, db, chain, k, j, txn);
    var rec := txn.blocks[h];
    var rows := Expand(codec, txn.keys, rec).value;
    var read := Block(h, rec.hash, rows, None);
    assert BlockEntries(read) == BlockEntries(chain[k]);
    var ix;
    ix, acc' := UnindexRows(fork, txn.index, read, acc);
    UnwindOne(fork, db, chain, k, j, txn, acc, rec, acc');
    txn' := TakenOff(txn, h, rec, |rows|, ix);
    CutOne(chain, k, j);
    removed' := BlockEntries(read) + removed;
  }

  /** The write transaction of `rollback`. */
  method RollbackTxn(codec: Codec, fork: Option<nat>, db: Db, to: int, ghost chain: seq<Block>)
    returns (db': Db, removed: seq<Entry>)
    requires Refines(codec, fork, db, chain) && -1 <= to < HEIGHT_LIMIT
    ensures Refines(codec, fork, db', Kept(chain, to)) && db'.alloc == db.alloc
    ensures removed == Entries(chain[KeptCount(chain, to)..])
    ensures ExactIff(fork, db, db', chain, KeptCount(chain, to))
    ensures TxidCut(fork, db.index.txid, db'.index.txid, Entries(Kept(chain, to)), removed)
  {
    hide Refines, Derived, Balances, Unwound, ExactIff, TxidCut, Finished, Entries;
    RefinesBodies(codec, fork, db, chain);
    RefinesParts(codec, fork, db, chain);
    ghost var k := KeptCount(chain, to);
    StoredHeightsFit(codec, fork, db, chain);
    var hs := HeightsIn(db.blocks, to + 1, None);
    HeightsAbove(codec, db, chain, to, hs);
    if hs == [] {
      NothingRemoved(fork, db, chain);
      return db, [];
    }
    UnwindNone(fork, db, chain);
    var txn, acc;
    txn, acc, removed := UnwindBlocks(codec, fork, db, hs, chain, k);
    UnwoundBalances(fork, db, chain, k, txn, acc);
    var bal := ApplyBalances(txn.bal, acc);
    db' := Finished(txn, bal, to);
    FinishRollback(codec, fork, db, db', chain, to, k, txn, acc, bal);
    FinishLookups(fork, db, db', chain, to, k, txn, acc, bal);
  }

  lemma {:induction false} HeightsAbove(codec: Codec, db: Db, chain: seq<Block>, to: int, hs: seq<nat>)
    requires Bodies(codec, db, chain) && Consecutive(chain) && to >= -1 && Heights(db.blocks, to + 1, None, hs)
    ensures var k := KeptCount(chain, to);
      |hs| == |chain| - k && forall i :: 0 <= i < |hs| ==> hs[i] == chain[k + i].height
  {
    var k := KeptCount(chain, to);
    if chain == [] {
      SomeElement(hs);
    } else {
      HeightsAreRun(db.blocks, to + 1, None, hs, chain[0].height + k, chain[0].height + |chain|);
    }
  }

  lemma {:induction false} StillStored(codec: Codec, db: Db, chain: seq<Block>, k: nat, j: nat, txn: Db)
    requires Bodies(codec, db, chain) && Consecutive(chain) && k < j == k + 1 <= |chain|
    requires txn.blocks == db.blocks - HeightSet(chain[j..]) && txn.keys == db.keys
    ensures Stored(codec, txn, chain[k])
  {
    assert Stored(codec, db, chain[k]);
    forall b | b in chain[j..] ensures b.height != chain[k].height {
      var i :| 0 <= i < |chain[j..]| && chain[j..][i] == b;
    }
  }

  // ------------------------------------------------------------------ allocations

  /** The balance deltas of `set_allocations`. */
  method AllocationDeltas(old_: map<Address, int>, alloc: map<Address, int>) returns (acc: map<Address, Parts>)
    ensures forall a: Address :: PartsAt(acc, a) == Parts(0, AllocationOf(alloc, a) - AllocationOf(old_, a), 0, 0)
  {
    acc := map[];
    var todo := old_.Keys + alloc.Keys;
    while todo != {}
      invariant todo <= old_.Keys + alloc.Keys
      invariant forall a: Address :: a in todo ==> a !in acc
      invariant forall a: Address ::
        a !in todo ==> PartsAt(acc, a) == Parts(0, AllocationOf(alloc, a) - AllocationOf(old_, a), 0, 0)
      decreases todo
    {
      var a :| a in todo;
      var d := AllocationOf(alloc, a) - AllocationOf(old_, a);
      if d != 0 {
        acc := acc[a := Parts(0, d, 0, 0)];
      }
      todo := todo - {a};
    }
  }

  lemma {:induction false} AllocationsMoved(bal: map<Address, Parts>, bal': map<Address, Parts>,
                                            acc: map<Address, Parts>,
                         old_: map<Address, int>, alloc: map<Address, int>, es: seq<Entry>)
    requires Balances(bal, old_, es) && NoZeros(bal')
    requires forall a: Address :: PartsAt(acc, a) == Parts(0, AllocationOf(alloc, a) - AllocationOf(old_, a), 0, 0)
    requires forall a: Address :: PartsAt(bal', a) == PartsAt(bal, a).Plus(PartsAt(acc, a))
    ensures Balances(bal', alloc, es)
  {
    hide PartsAt, AllocationOf, PartsOf;
    forall a: Address ensures PartsAt(bal', a) == Total(alloc, es, a) {
      assert PartsAt(bal, a) == Total(old_, es, a);
    }
  }

  lemma {:induction false} BalancesNoZeros(bal: map<Address, Parts>, alloc: map<Address, int>, es: seq<Entry>)
    requires Balances(bal, alloc, es)
    ensures NoZeros(bal)
  {
  }

  /** The write transaction of `set_allocations`. */
  method AllocationTxn(codec: Codec, fork: Option<nat>, db: Db, alloc: map<Address, int>, ghost chain: seq<Block>)
    returns (db': Db)
    requires Refines(codec, fork, db, chain)
    ensures Refines(codec, fork, db', chain)
    ensures db' == db.(alloc := alloc, bal := db'.bal)
  {
    hide Refines, Derived, WellFormed, Balances, Entries, PartsAt, AllocationOf;
    RefinesParts(codec, fork, db, chain);
    BalancesNoZeros(db.bal, db.alloc, Entries(chain));
    var acc := AllocationDeltas(db.alloc, alloc);
    var bal := ApplyBalances(db.bal, acc);
    AllocationsMoved(db.bal, bal, acc, db.alloc, alloc, Entries(chain));
    Rebalanced(codec, fork, db, alloc, bal, chain);
    db' := db.(alloc := alloc, bal := bal);
  }

  lemma {:induction false} Rebalanced(codec: Codec, fork: Option<nat>, db: Db, alloc: map<Address, int>,
                                      bal: map<Address, Parts>, chain: seq<Block>)
    requires Refines(codec, fork, db, chain) && Balances(bal, alloc, Entries(chain))
    ensures Refines(codec, fork, db.(alloc := alloc, bal := bal), chain)
  {
    BodiesOnly(codec, db, db.(alloc := alloc, bal := bal), chain);
  }

  // ------------------------------------------------------------------ reindex

  /** The blocks `reindex` visits: it starts at height 1. */
  function AboveZero(chain: seq<Block>): seq<Block> {
    if chain != [] && chain[0].height == 0 then chain[1..] else chain
  }

  ghost predicate Rebuilt(fork: Option<nat>, sub: seq<Block>, ix: Index, acc: map<Address, Parts>, ntx: nat) {
    && ix == Filed(fork, NO_INDEX, Entries(sub))
    && Moved(map[], acc, Entries(sub), false)
    && ntx == |Entries(sub)|
  }

  lemma {:induction false} RebuiltNone(fork: Option<nat>)
    ensures Rebuilt(fork, [], NO_INDEX, map[], 0)
  {
    assert SigKeys([]) == {} && AddrKeys([]) == {};
    MovedNone(map[]);
  }

  lemma {:induction false} FiledConcat(fork: Option<nat>, ix: Index, es: seq<Entry>, fs: seq<Entry>)
    ensures Filed(fork, Filed(fork, ix, es), fs) == Filed(fork, ix, es + fs)
  {
    KeysConcat(es, fs);
    PutTxidsConcat(ix.txid, fork, es, fs);
    PutPubkeysConcat(ix.pkref, fork, es, fs);
  }

  lemma {:induction false} RebuiltNext(fork: Option<nat>, sub: seq<Block>, b: Block, ix: Index,
                                       acc: map<Address, Parts>, ntx: nat, acc': map<Address, Parts>)
    requires Rebuilt(fork, sub, ix, acc, ntx) && Moved(acc, acc', BlockEntries(b), false)
    ensures Rebuilt(fork, sub + [b], Filed(fork, ix, BlockEntries(b)), acc', ntx + |b.rows|)
  {
    EntriesSnoc(sub, b);
    FiledConcat(fork, NO_INDEX, Entries(sub), BlockEntries(b));
    forall a: Address ensures PartsAt(acc', a) == ZERO.Plus(PartsOf(Entries(sub) + BlockEntries(b), a).Signed(false)) {
      PartsConcat(Entries(sub), BlockEntries(b), a);
      PlusAssoc(ZERO, PartsOf(Entries(sub), a), PartsOf(BlockEntries(b), a));
    }
  }

  /** How many blocks of a consecutive list lie below height `h`. */
  ghost function CountBelow(sub: seq<Block>, h: nat): (n: nat)
    ensures n <= |sub|
  {
    if sub == [] || h <= sub[0].height then 0
    else if h - sub[0].height < |sub| then h - sub[0].height
    else |sub|
  }

  /** One batch of `reindex`: the blocks of a height range, in order. */
  method ReindexBatch(codec: Codec, fork: Option<nat>, db: Db, hs: seq<nat>, ix: Index, acc: map<Address, Parts>,
                      ntx: nat, ghost sub: seq<Block>, ghost n: nat)
    returns (ix': Index, acc': map<Address, Parts>, ntx': nat)
    requires WellFormed(fork, sub) && n + |hs| <= |sub|
    requires forall i :: 0 <= i < |sub| ==> Stored(codec, db, sub[i])
    requires forall i :: 0 <= i < |hs| ==> hs[i] == sub[n + i].height
    requires Rebuilt(fork, sub[..n], ix, acc, ntx)
    ensures Rebuilt(fork, sub[..n + |hs|], ix', acc', ntx')
  {
    hide Filed, Moved;
    ix', acc', ntx' := ix, acc, ntx;
    var i := 0;
    ghost var m := n;
    while i < |hs|
      invariant 0 <= i <= |hs| && m == n + i
      invariant Rebuilt(fork, sub[..m], ix', acc', ntx')
    {
      var rec := db.blocks[hs[i]];
      var rows := Expand(codec, db.keys, rec).value;
      var read := Block(hs[i], rec.hash, rows, None);
      assert BlockEntries(read) == BlockEntries(sub[m]);
      ghost var ix0, acc0, ntx0 := ix', acc', ntx';
      ix', acc' := IndexRows(fork, ix', read, acc');
      RebuiltNext(fork, sub[..m], sub[m], ix0, acc0, ntx0, acc');
      TakeNext(sub, m);
      ntx' := ntx' + |rows|;
      i := i + 1;
      m := m + 1;
    }
    assert m == n + |hs|;
  }

  lemma {:induction false} AboveZeroOk(codec: Codec, fork: Option<nat>, db: Db, chain: seq<Block>)
    requires Refines(codec, fork, db, chain)
    ensures Rebuildable(codec, fork, db, AboveZero(chain))
  {
    hide Refines, Stored, BlockFits;
    RefinesBodies(codec, fork, db, chain);
    var sub := AboveZero(chain);
    var k := |chain| - |sub|;
    assert forall i :: 0 <= i < |sub| ==> sub[i] == chain[k + i];
  }

  lemma {:induction false} BatchHeights(blocks: map<nat, Record>, sub: seq<Block>, h: nat, hi: nat, hs: seq<nat>)
    requires Consecutive(sub) && 1 <= h <= hi && Heights(blocks, h, Some(hi), hs)
    requires forall x :: 1 <= x ==> (x in blocks <==> sub != [] && sub[0].height <= x < sub[0].height + |sub|)
    ensures CountBelow(sub, h) + |hs| == CountBelow(sub, hi)
    ensures forall i :: 0 <= i < |hs| ==> hs[i] == sub[CountBelow(sub, h) + i].height
  {
    if sub == [] {
      SomeElement(hs);
    } else {
      var n, m := CountBelow(sub, h), CountBelow(sub, hi);
      HeightsAreRun(blocks, h, Some(hi), hs, sub[0].height + n, sub[0].height + m);
    }
  }

  /** The last write of `reindex`: allocations are added as rewards. */
  method AddAllocations(acc: map<Address, Parts>, alloc: map<Address, int>) returns (acc': map<Address, Parts>)
    ensures forall a: Address :: PartsAt(acc', a) == Parts(0, AllocationOf(alloc, a), 0, 0).Plus(PartsAt(acc, a))
  {
    acc' := acc;
    var todo := alloc.Keys;
    while todo != {}
      invariant todo <= alloc.Keys
      invariant forall a: Address :: a in todo ==> PartsAt(acc', a) == PartsAt(acc, a)
      invariant forall a: Address ::
        a !in todo ==> PartsAt(acc', a) == Parts(0, AllocationOf(alloc, a), 0, 0).Plus(PartsAt(acc, a))
      decreases todo
    {
      var a :| a in todo;
      acc' := acc'[a := Parts(0, alloc[a], 0, 0).Plus(PartsAt(acc', a))];
      todo := todo - {a};
    }
  }

  lemma {:induction false} RebuiltBalances(es: seq<Entry>, acc: map<Address, Parts>, alloc: map<Address, int>,
                                           acc': map<Address, Parts>, bal: map<Address, Parts>)
    requires Moved(map[], acc, es, false) && NoZeros(bal)
    requires forall a: Address :: PartsAt(acc', a) == Parts(0, AllocationOf(alloc, a), 0, 0).Plus(PartsAt(acc, a))
    requires forall a: Address :: PartsAt(bal, a) == ZERO.Plus(PartsAt(acc', a))
    ensures Balances(bal, alloc, es)
  {
    forall a: Address ensures PartsAt(bal, a) == Total(alloc, es, a) {
      PlusZero(Parts(0, AllocationOf(alloc, a), 0, 0), PartsOf(es, a));
    }
  }

  lemma {:induction false} PlusZero(x: Parts, y: Parts)
    ensures ZERO.Plus(x.Plus(ZERO.Plus(y.Signed(false)))) == x.Plus(y)
  {
  }

  method FreshBalances(acc: map<Address, Parts>, alloc: map<Address, int>, ghost es: seq<Entry>)
    returns (bal: map<Address, Parts>)
    requires Moved(map[], acc, es, false)
    ensures Balances(bal, alloc, es)
  {
    var acc' := AddAllocations(acc, alloc);
    bal := ApplyBalances(map[], acc');
    RebuiltBalances(es, acc, alloc, acc', bal);
  }

  /** The part of the chain a rebuild sees is stored, and nothing else is from height 1 on. */
  ghost predicate Rebuildable(codec: Codec, fork: Option<nat>, db: Db, sub: seq<Block>) {
    && WellFormed(fork, sub) && (sub != [] ==> sub[0].height >= 1)
    && (forall i :: 0 <= i < |sub| ==> Stored(codec, db, sub[i]))
    && (forall h :: 1 <= h ==> (h in db.blocks <==> sub != [] && sub[0].height <= h < sub[0].height + |sub|))
  }

  /** The batches of `reindex`, up to the tip. */
  method RebuildTo(codec: Codec, fork: Option<nat>, db: Db, batch: nat, tip: nat, ghost sub: seq<Block>)
    returns (ix: Index, acc: map<Address, Parts>, ntx: nat)
    requires HeightsFit(db.blocks) && Rebuildable(codec, fork, db, sub) && batch >= 1 && tip < KEY_LIMIT - 1
    ensures Rebuilt(fork, sub[..CountBelow(sub, tip + 1)], ix, acc, ntx)
  {
    hide Rebuilt, Stored, BlockFits;
    ix, acc, ntx := NO_INDEX, map[], 0;
    RebuiltNone(fork);
    var h := 1;
    ghost var n := 0;
    TakeAll(sub);
    while h <= tip
      invariant 1 <= h <= tip + 1 && n == CountBelow(sub, h)
      invariant Rebuilt(fork, sub[..n], ix, acc, ntx)
      decreases tip + 1 - h
    {
      var hi := if tip < h + batch - 1 then tip else h + batch - 1;
      var hs := HeightsIn(db.blocks, h, Some(hi + 1));
      BatchHeights(db.blocks, sub, h, hi + 1, hs);
      ix, acc, ntx := ReindexBatch(codec, fork, db, hs, ix, acc, ntx, sub, n);
      n := n + |hs|;
      h := hi + 1;
    }
  }

  lemma {:induction false} AllCounted(codec: Codec, fork: Option<nat>, db: Db, sub: seq<Block>, last: Option<nat>)
    requires Rebuildable(codec, fork, db, sub)
    requires last.None? <==> db.blocks == map[]
    requires last.Some? ==> last.value in db.blocks && forall h :: h in db.blocks ==> h <= last.value
    ensures CountBelow(sub, (if last.Some? then last.value else 0) + 1) == |sub|
  {
    hide Stored, WellFormed;
    assert sub != [] ==> sub[0].height + |sub| - 1 in db.blocks;
  }

  /** `reindex`: every derived index rebuilt from the stored blocks, in batches. */
  method ReindexTxn(codec: Codec, fork: Option<nat>, db: Db, batch: nat, ghost chain: seq<Block>) returns (db': Db)
    requires Refines(codec, fork, db, chain) && batch >= 1
    ensures db'.index == Filed(fork, NO_INDEX, Entries(AboveZero(chain)))
    ensures Balances(db'.bal, db.alloc, Entries(AboveZero(chain))) && db'.txcount == |Entries(AboveZero(chain))|
    ensures db' == db.(index := db'.index, bal := db'.bal, txcount := db'.txcount)
  {
    hide Refines, Rebuilt, Moved, Filed, Balances, Rebuildable, CountBelow, Entries;
    ghost var sub := AboveZero(chain);
    StoredHeightsFit(codec, fork, db, chain);
    AboveZeroOk(codec, fork, db, chain);
    TipBelow(codec, fork, db, chain);
    var last := TipOf(db.blocks);
    var tip := if last.Some? then last.value else 0;
    AllCounted(codec, fork, db, sub, last);
    var ix, acc, ntx := RebuildTo(codec, fork, db, batch, tip, sub);
    TakeAll(sub);
    RebuiltIs(fork, sub, ix, acc, ntx);
    var bal := FreshBalances(acc, db.alloc, Entries(sub));
    db' := db.(index := ix, bal := bal, txcount := ntx);
  }

  lemma {:induction false} RebuiltIs(fork: Option<nat>, sub: seq<Block>, ix: Index, acc: map<Address, Parts>, ntx: nat)
    requires Rebuilt(fork, sub, ix, acc, ntx)
    ensures ix == Filed(fork, NO_INDEX, Entries(sub)) && ntx == |Entries(sub)| && Moved(map[], acc, Entries(sub), false)
  {
  }

  lemma {:induction false} TipBelow(codec: Codec, fork: Option<nat>, db: Db, chain: seq<Block>)
    requires Refines(codec, fork, db, chain)
    ensures forall h :: h in db.blocks ==> h < HEIGHT_LIMIT
  {
    if chain != [] {
      assert chain[|chain| - 1].height < HEIGHT_LIMIT;
    }
  }

  /** Where no block sits at height 0, a rebuild restores every index; only a lossy txid index can change. */
  lemma {:induction false} ReindexRefines(codec: Codec, fork: Option<nat>, db: Db, db': Db, chain: seq<Block>)
    requires Refines(codec, fork, db, chain) && AboveZero(chain) == chain
    requires db'.index == Filed(fork, NO_INDEX, Entries(chain))
    requires Balances(db'.bal, db.alloc, Entries(chain)) && db'.txcount == |Entries(chain)|
    requires db' == db.(index := db'.index, bal := db'.bal, txcount := db'.txcount)
    ensures db' == db.(index := db.index.(txid := TxidMap(fork, Entries(chain))))
    ensures Refines(codec, fork, db', chain) && TxidExact(fork, db', chain)
  {
    assert Derived(fork, db', chain);
    DerivedUnique(fork, db, db', chain);
    BodiesOnly(codec, db, db', chain);
  }

  lemma {:induction false} EmptyRefines(codec: Codec, fork: Option<nat>)
    ensures Refines(codec, fork, EMPTY, []) && TxidExact(fork, EMPTY, []) && HashExact(EMPTY, [])
  {
    assert SigKeys([]) == {} && AddrKeys([]) == {};
    assert Balances(map[], map[], []);
  }

  // ------------------------------------------------------------------ the store

  class BlockStore {
    const codec: Codec
    const fork: Option<nat>
    var db: Db
    ghost var chain: seq<Block>

    /** The store is that of its chain; only the txid index may have gaps. */
    ghost predicate Valid()
      reads this
    {
      Refines(codec, fork, db, chain) && TxidSound(fork, db.index.txid, Entries(chain))
    }

    /** The hash and txid maps hold exactly the hashes and txids of the chain. */
    ghost predicate Exact()
      reads this
    {
      TxidExact(fork, db, chain) && HashExact(db, chain)
    }

    /** The txids a lookup finds. */
    ghost function Known(): set<Txid>
      reads this
    {
      db.index.txid.Keys
    }

    constructor (codec: Codec, fork: Option<nat>)
      ensures Valid() && Exact() && chain == [] && db.alloc == map[]
      ensures this.codec == codec && this.fork == fork
    {
      this.codec, this.fork, db, chain := codec, fork, EMPTY, [];
      new;
      EmptyRefines(codec, fork);
    }

    /** `commit_block` */
    method CommitBlock(height: nat, hash: Bytes, rows: seq<Row>, difficulty: Option<Bytes>) returns (ok: bool)
      requires Valid()
      modifies this
      ensures Valid() && db.alloc == old(db.alloc)
      ensures ok <==> Extends(fork, old(chain), Block(height, hash, rows, difficulty))
      ensures !ok ==> db == old(db) && chain == old(chain)
      ensures ok ==> chain == old(chain) + [ReadBack(fork, Block(height, hash, rows, difficulty))]
      ensures ok ==>
        Known() == old(Known()) + Txids(fork, BlockEntries(ReadBack(fork, Block(height, hash, rows, difficulty))))
      ensures old(TxidExact(fork, db, chain)) ==> TxidExact(fork, db, chain)
      ensures old(HashExact(db, chain)) ==> HashExact(db, chain)
    {
      hide Refines, TxidSound, TxidExact, Txids, Entries, PutTxids;
      var b := Block(height, hash, rows, difficulty);
      var r := CommitTxn(codec, fork, db, b, chain);
      ok := r.Some?;
      if ok {
        var read := ReadBack(fork, b);
        DifficultySnoc(chain, read);
        EntriesSnoc(chain, read);
        SoundFiled(fork, db.index.txid, Entries(chain), BlockEntries(read));
        ExactFiled(fork, db, r.value, chain, read);
        db := r.value;
        chain := chain + [read];
      }
    }

    /** `rollback` */
    method Rollback(to: int) returns (removed: seq<Entry>)
      requires Valid() && -1 <= to < HEIGHT_LIMIT
      modifies this
      ensures Valid() && chain == Kept(old(chain), to) && db.alloc == old(db.alloc)
      ensures removed == Entries(old(chain)[KeptCount(old(chain), to)..])
      ensures Known() == old(Known()) - Txids(fork, removed)
      ensures ExactIff(fork, old(db), db, old(chain), KeptCount(old(chain), to))
    {
      hide Refines, TxidSound, Entries, Txids, ExactIff;
      ghost var k := KeptCount(chain, to);
      EntriesSplit(chain, k);
      db, removed := RollbackTxn(codec, fork, db, to, chain);
      chain := chain[..k];
    }

    /** `set_allocations` */
    method SetAllocations(alloc: map<Address, int>)
      requires Valid()
      modifies this
      ensures Valid() && chain == old(chain)
      ensures db == old(db).(alloc := alloc, bal := db.bal)
    {
      hide Refines, TxidSound;
      db := AllocationTxn(codec, fork, db, alloc, chain);
    }

    /** `reindex`: a block at height 0 loses its place in the indexes, and nothing else changes. */
    method Reindex(batch: nat)
      requires Valid() && batch >= 1
      modifies this
      ensures chain == old(chain)
      ensures db == old(db).(index := db.index, bal := db.bal, txcount := db.txcount)
      ensures db.index == Filed(fork, NO_INDEX, Entries(AboveZero(chain)))
      ensures Balances(db.bal, db.alloc, Entries(AboveZero(chain))) && db.txcount == |Entries(AboveZero(chain))|
      ensures AboveZero(chain) == chain ==> Valid() && TxidExact(fork, db, chain)
      ensures AboveZero(chain) == chain ==>
        db == old(db).(index := old(db.index).(txid := TxidMap(fork, Entries(chain))))
    {
      hide Refines, TxidSound, Filed, Balances, Entries, AboveZero;
      var db' := ReindexTxn(codec, fork, db, batch, chain);
      if AboveZero(chain) == chain {
        ReindexRefines(codec, fork, db, db', chain);
        ExactIsSound(fork, Entries(chain));
      }
      db := db';
    }
  }

  lemma {:induction false} ExactFiled(fork: Option<nat>, db: Db, db': Db, chain: seq<Block>, b: Block)
    requires db'.index.txid == PutTxids(db.index.txid, fork, BlockEntries(b))
    ensures TxidExact(fork, db, chain) ==> TxidExact(fork, db', chain + [b])
  {
    hide PutTxids, Entries;
    EntriesSnoc(chain, b);
    PutTxidsConcat(map[], fork, Entries(chain), BlockEntries(b));
  }

  // ------------------------------------------------------------------ runs

  datatype Op =
    | Commit(height: nat, hash: Bytes, rows: seq<Row>, difficulty: Option<Bytes>)
    | RollbackTo(to: int)
    | Allocate(alloc: map<Address, int>)
    | Rebuild(batch: nat)

  /** The ledger as a caller thinks of it: a list of blocks and the fixed allocations. */
  datatype Book = Book(chain: seq<Block>, alloc: map<Address, int>)

  function Step(fork: Option<nat>, book: Book, op: Op): Book {
    match op
    case Commit(height, hash, rows, difficulty) =>
      var b := Block(height, hash, rows, difficulty);
      if Extends(fork, book.chain, b) then book.(chain := book.chain + [ReadBack(fork, b)]) else book
    case RollbackTo(to) => book.(chain := Kept(book.chain, to))
    case Allocate(alloc) => book.(alloc := alloc)
    case Rebuild(_) => book
  }

  function Steps(fork: Option<nat>, book: Book, ops: seq<Op>): Book {
    if ops == [] then book else Step(fork, Steps(fork, book, ops[..|ops| - 1]), ops[|ops| - 1])
  }

  predicate Sensible(op: Op) {
    match op
    case Commit(height, _, _, _) => height >= 1
    case RollbackTo(to) => -1 <= to < HEIGHT_LIMIT
    case Allocate(_) => true
    case Rebuild(batch) => batch >= 1
  }

  /** No operation leaves a block at height 0 when none is committed there. */
  lemma {:induction false} StepFromOne(fork: Option<nat>, book: Book, op: Op)
    requires Sensible(op) && AboveZero(book.chain) == book.chain
    ensures AboveZero(Step(fork, book, op).chain) == Step(fork, book, op).chain
  {
    if book.chain != [] {
      assert book.chain[0].height >= 1;
    }
  }

  /** A rollback to `to` removes no hash and no txid that a kept block carries too. */
  ghost predicate CutApart(fork: Option<nat>, chain: seq<Block>, to: int) {
    var k := KeptCount(chain, to);
    Hashes(chain[..k]) !! Hashes(chain[k..]) && Txids(fork, Entries(chain[..k])) !! Txids(fork, Entries(chain[k..]))
  }

  /** Every rollback of the run is of that kind. */
  ghost predicate RunApart(fork: Option<nat>, book: Book, ops: seq<Op>) {
    forall i :: 0 <= i < |ops| && ops[i].RollbackTo? ==> CutApart(fork, Steps(fork, book, ops[..i]).chain, ops[i].to)
  }

  /** One operation of a run. */
  method RunOp(store: BlockStore, op: Op)
    requires store.Valid() && AboveZero(store.chain) == store.chain && Sensible(op)
    modifies store
    ensures store.Valid() && AboveZero(store.chain) == store.chain
    ensures Book(store.chain, store.db.alloc) == Step(store.fork, old(Book(store.chain, store.db.alloc)), op)
    ensures old(store.Exact()) && (op.RollbackTo? ==> CutApart(store.fork, old(store.chain), op.to)) ==> store.Exact()
  {
    hide Refines, TxidSound, Entries, Txids, Hashes, TxidMap, HashMap;
    StepFromOne(store.fork, Book(store.chain, store.db.alloc), op);
    match op {
      case Commit(height, hash, rows, difficulty) =>
        var _ := store.CommitBlock(height, hash, rows, difficulty);
      case RollbackTo(to) =>
        var _ := store.Rollback(to);
      case Allocate(alloc) =>
        store.SetAllocations(alloc);
      case Rebuild(batch) =>
        store.Reindex(batch);
    }
  }

  /**
   Any run of the store refines the same run of the plain book, and no run leaves anything behind in an
   index. The hash and txid maps stay exact if no rollback removes a key that a kept block shares.
   */
  method RunOps(store: BlockStore, ops: seq<Op>)
    requires store.Valid() && AboveZero(store.chain) == store.chain
    requires forall op :: op in ops ==> Sensible(op)
    modifies store
    ensures store.Valid()
    ensures old(store.Exact()) && RunApart(store.fork, old(Book(store.chain, store.db.alloc)), ops) ==> store.Exact()
    ensures Book(store.chain, store.db.alloc) == Steps(store.fork, old(Book(store.chain, store.db.alloc)), ops)
    ensures Derived(store.fork, store.db, store.chain)
  {
    hide Refines, TxidSound, Step, CutApart, AboveZero, TxidExact, HashExact;
    ghost var start := Book(store.chain, store.db.alloc);
    ghost var fork := store.fork;
    ghost var exact := store.Exact() && RunApart(fork, start, ops);
    TakeAll(ops);
    var i := 0;
    while i < |ops|
      invariant 0 <= i <= |ops| && store.Valid() && AboveZero(store.chain) == store.chain
      invariant Book(store.chain, store.db.alloc) == Steps(fork, start, ops[..i])
      invariant exact ==> store.Exact()
    {
      assert ops[..i + 1][..i] == ops[..i];
      RunOp(store, ops[i]);
      i := i + 1;
    }
    RefinesParts(store.codec, fork, store.db, store.chain);
  }
}
