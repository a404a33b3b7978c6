/**
 What the ledger store must hold for a given block list, and why commit and
 rollback keep it.
 */
module StoreSpec {
  import opened Wrappers
  import opened ByteStrings
  import opened Transactions
  import opened Ledger
  import opened IndexKeys
  import opened BlockBody
  import opened AddrBytes
  import opened StoreIndex

  // ------------------------------------------------------------------ specification

  /** Every block of the chain, and nothing else, is stored and expands to its rows. */
  ghost predicate Bodies(codec: Codec, db: Db, chain: seq<Block>) {
    && (forall h :: h in db.blocks <==> chain != [] && chain[0].height <= h < chain[0].height + |chain|)
    && (forall i :: 0 <= i < |chain| ==> Stored(codec, db, chain[i]))
  }

  ghost predicate Stored(codec: Codec, db: Db, b: Block) {
    && b.height in db.blocks && db.blocks[b.height].hash == b.hash
    && Expand(codec, db.keys, db.blocks[b.height]) == Some(b.rows)
  }

  /** The indexes whose contents follow from the block list and the allocations alone. */
  ghost predicate Derived(fork: Option<nat>, db: Db, chain: seq<Block>) {
    var es := Entries(chain);
    && db.index.sig == SigKeys(es)
    && db.index.addr == AddrKeys(es)
    && db.index.pkref == PubkeyMap(fork, es)
    && Balances(db.bal, db.alloc, es)
    && db.diff == DifficultyMap(chain)
    && db.txcount == |es|
  }

  ghost predicate Refines(codec: Codec, fork: Option<nat>, db: Db, chain: seq<Block>) {
    && WellFormed(fork, chain)
    && KeysOk(db.keys)
    && Bodies(codec, db, chain)
    && Derived(fork, db, chain)
  }

  /** The two maps with one entry per key; a shared key makes a rollback lose the kept one. */
  ghost predicate TxidExact(fork: Option<nat>, db: Db, chain: seq<Block>) {
    db.index.txid == TxidMap(fork, Entries(chain))
  }

  /** A row of the list carries txid `t` at height `h`. */
  ghost predicate Carried(fork: Option<nat>, es: seq<Entry>, t: Txid, h: nat) {
    exists e :: e in es && PostFork(fork, e.height) && TxidOf(e.row) == t && e.height == h
  }

  /** Every entry of a txid index points at a row that carries it; entries may be missing. */
  ghost predicate TxidSound(fork: Option<nat>, m: map<Txid, nat>, es: seq<Entry>) {
    forall t :: t in m ==> Carried(fork, es, t, m[t])
  }

  ghost predicate HashExact(db: Db, chain: seq<Block>) {
    db.hashes == HashMap(chain)
  }

  ghost function Hashes(chain: seq<Block>): set<Bytes> {
    set b | b in chain :: b.hash
  }

  lemma {:induction false} RefinesParts(codec: Codec, fork: Option<nat>, db: Db, chain: seq<Block>)
    requires Refines(codec, fork, db, chain)
    ensures WellFormed(fork, chain) && Derived(fork, db, chain) && Balances(db.bal, db.alloc, Entries(chain))
  {
  }

  lemma {:induction false} RefinesBodies(codec: Codec, fork: Option<nat>, db: Db, chain: seq<Block>)
    requires Refines(codec, fork, db, chain)
    ensures WellFormed(fork, chain) && Bodies(codec, db, chain)
  {
  }

  lemma {:induction false} RefinesStored(codec: Codec, fork: Option<nat>, db: Db, chain: seq<Block>, i: nat)
    requires Refines(codec, fork, db, chain) && i < |chain|
    ensures Stored(codec, db, chain[i])
  {
  }

  /** A block list fixes the derived contents, whatever happened before. */
  lemma {:induction false} DerivedUnique(fork: Option<nat>, db: Db, db': Db, chain: seq<Block>)
    requires Derived(fork, db, chain) && Derived(fork, db', chain) && db.alloc == db'.alloc
    ensures db.index.sig == db'.index.sig && db.index.addr == db'.index.addr && db.index.pkref == db'.index.pkref
    ensures db.bal == db'.bal && db.diff == db'.diff && db.txcount == db'.txcount
  {
    forall a: Address ensures a in db.bal <==> a in db'.bal {
      assert PartsAt(db.bal, a) == PartsAt(db'.bal, a);
    }
    forall a: Address | a in db.bal ensures db.bal[a] == db'.bal[a] {
      assert PartsAt(db.bal, a) == PartsAt(db'.bal, a);
    }
  }

  // ------------------------------------------------------------------ commit

  lemma {:induction false} BalancesMoved(bal: map<Address, Parts>, bal': map<Address, Parts>, acc: map<Address, Parts>,
                                         alloc: map<Address, int>, es: seq<Entry>, fs: seq<Entry>)
    requires Balances(bal, alloc, es) && NoZeros(bal') && Moved(map[], acc, fs, false)
    requires forall a: Address :: PartsAt(bal', a) == PartsAt(bal, a).Plus(PartsAt(acc, a))
    ensures Balances(bal', alloc, es + fs)
  {
    forall a: Address ensures PartsAt(bal', a) == Total(alloc, es + fs, a) {
      PartsConcat(es, fs, a);
      PlusAssoc(Parts(0, AllocationOf(alloc, a), 0, 0), PartsOf(es, a), PartsOf(fs, a));
    }
  }

  lemma {:induction false} BalancesMovedBack(bal: map<Address, Parts>, bal': map<Address, Parts>,
                                             acc: map<Address, Parts>,
                          alloc: map<Address, int>, es: seq<Entry>, fs: seq<Entry>)
    requires Balances(bal, alloc, es + fs) && NoZeros(bal') && Moved(map[], acc, fs, true)
    requires forall a: Address :: PartsAt(bal', a) == PartsAt(bal, a).Plus(PartsAt(acc, a))
    ensures Balances(bal', alloc, es)
  {
    forall a: Address ensures PartsAt(bal', a) == Total(alloc, es, a) {
      PartsConcat(es, fs, a);
      PlusCancel(Parts(0, AllocationOf(alloc, a), 0, 0), PartsOf(es, a), PartsOf(fs, a));
    }
  }

  lemma {:induction false} PlusCancel(x: Parts, y: Parts, z: Parts)
    ensures x.Plus(y.Plus(z)).Plus(ZERO.Plus(z.Signed(true))) == x.Plus(y)
  {
  }

  lemma {:induction false} DifficultySnoc(chain: seq<Block>, b: Block)
    ensures DifficultyMap(chain + [b]) ==
      if b.difficulty.Some? then DifficultyMap(chain)[b.height := b.difficulty.value] else DifficultyMap(chain)
    ensures HashMap(chain + [b]) == HashMap(chain)[b.hash := b.height]
  {
    assert (chain + [b])[..|chain|] == chain;
  }

  lemma {:induction false} FiledMore(fork: Option<nat>, ix: Index, es: seq<Entry>, fs: seq<Entry>)
    requires ix.sig == SigKeys(es) && ix.addr == AddrKeys(es) && ix.pkref == PubkeyMap(fork, es)
    ensures var ix' := Filed(fork, ix, fs);
      ix'.sig == SigKeys(es + fs) && ix'.addr == AddrKeys(es + fs) && ix'.pkref == PubkeyMap(fork, es + fs)
    ensures ix.txid == TxidMap(fork, es) ==> Filed(fork, ix, fs).txid == TxidMap(fork, es + fs)
  {
    KeysConcat(es, fs);
    PutPubkeysConcat(map[], fork, es, fs);
    PutTxidsConcat(map[], fork, es, fs);
  }

  /** Stored blocks stay stored when keys are interned and another height is written. */
  lemma {:induction false} BodiesCommit(codec: Codec, db: Db, chain: seq<Block>, b: Block, rec: Record, keys: Keys)
    requires Bodies(codec, db, chain) && Consecutive(chain)
    requires chain != [] ==> b.height == chain[0].height + |chain|
    requires Grows(db.keys, keys) && rec.hash == b.hash && Expand(codec, keys, rec) == Some(b.rows)
    ensures Consecutive(chain + [b])
    ensures Bodies(codec, db.(blocks := db.blocks[b.height := rec], keys := keys), chain + [b])
  {
    var chain', db' := chain + [b], db.(blocks := db.blocks[b.height := rec], keys := keys);
    forall i | 0 <= i < |chain'| ensures Stored(codec, db', chain'[i]) {
      if i < |chain| {
        assert Stored(codec, db, chain[i]);
        ExpandGrows(codec, db.keys, keys, db.blocks[chain[i].height]);
      }
    }
  }

  // ------------------------------------------------------------------ rollback

  /** How many blocks stay when everything above `to` goes. */
  function KeptCount(chain: seq<Block>, to: int): (k: nat)
    ensures k <= |chain|
  {
    if chain == [] || to < chain[0].height then 0
    else if to - chain[0].height + 1 < |chain| then to - chain[0].height + 1
    else |chain|
  }

  function Kept(chain: seq<Block>, to: int): seq<Block> {
    chain[..KeptCount(chain, to)]
  }

  lemma {:induction false} KeptHeights(fork: Option<nat>, chain: seq<Block>, to: int)
    requires WellFormed(fork, chain)
    ensures var k := KeptCount(chain, to);
      && (forall e :: e in Entries(chain[..k]) ==> e.height <= to)
      && (forall e :: e in Entries(chain[k..]) ==> e.height > to)
  {
    var k := KeptCount(chain, to);
    forall e | e in Entries(chain[..k]) ensures e.height <= to {
      EntryFits(fork, chain[..k], e);
    }
    forall e | e in Entries(chain[k..]) ensures e.height > to {
      EntryFits(fork, chain[k..], e);
    }
  }

  /** Drop what was first seen above `to`. */
  function PrunePubkeys(m: map<Address, (nat, Bytes)>, to: int): map<Address, (nat, Bytes)> {
    map a | a in m && m[a].0 <= to :: m[a]
  }

  /** Drop what sits above `to`. */
  function PruneTxids(m: map<Txid, nat>, to: int): map<Txid, nat> {
    map t | t in m && m[t] <= to :: m[t]
  }

  ghost predicate SeenBy(m: map<Address, (nat, Bytes)>, to: int) {
    forall a :: a in m ==> m[a].0 <= to
  }

  /** Pruning by first-seen height gives the registry of the kept entries. */
  lemma {:induction false} PubkeysPruned(fork: Option<nat>, es: seq<Entry>, fs: seq<Entry>, to: int)
    requires forall e :: e in es ==> e.height <= to
    requires forall e :: e in fs ==> e.height > to
    ensures PubkeyMap(fork, es) == PrunePubkeys(PubkeyMap(fork, es + fs), to)
  {
    PutPubkeysConcat(map[], fork, es, fs);
    PubkeysSeen(map[], fork, es, to);
    PubkeysAbove(PubkeyMap(fork, es), fork, fs, to);
  }

  lemma {:induction false} PubkeysSeen(m: map<Address, (nat, Bytes)>, fork: Option<nat>, es: seq<Entry>, to: int)
    requires SeenBy(m, to) && forall e :: e in es ==> e.height <= to
    ensures SeenBy(PutPubkeys(m, fork, es), to)
  {
    if es != [] {
      assert es[|es| - 1] in es;
      PubkeysSeen(m, fork, es[..|es| - 1], to);
    }
  }

  lemma {:induction false} PubkeysAbove(m: map<Address, (nat, Bytes)>, fork: Option<nat>, fs: seq<Entry>, to: int)
    requires forall e :: e in fs ==> e.height > to
    ensures forall a :: a in m ==> a in PutPubkeys(m, fork, fs) && PutPubkeys(m, fork, fs)[a] == m[a]
    ensures forall a :: a in PutPubkeys(m, fork, fs) && a !in m ==> PutPubkeys(m, fork, fs)[a].0 > to
  {
    if fs != [] {
      assert fs[|fs| - 1] in fs;
      PubkeysAbove(m, fork, fs[..|fs| - 1], to);
    }
  }

  lemma {:induction false} PutTxidsOther(m: map<Txid, nat>, fork: Option<nat>, fs: seq<Entry>, t: Txid)
    requires t !in Txids(fork, fs)
    ensures t in PutTxids(m, fork, fs) <==> t in m
    ensures t in m ==> PutTxids(m, fork, fs)[t] == m[t]
  {
    if fs != [] {
      var n := |fs| - 1;
      assert fs == fs[..n] + [fs[n]];
      PutTxidsOther(m, fork, fs[..n], t);
    }
  }

  // ------------------------------------------------------------------ a txid index that may have gaps

  lemma {:induction false} CarriedMore(fork: Option<nat>, es: seq<Entry>, fs: seq<Entry>, t: Txid, h: nat)
    requires Carried(fork, es, t, h) && es <= fs
    ensures Carried(fork, fs, t, h)
  {
    var e :| e in es && PostFork(fork, e.height) && TxidOf(e.row) == t && e.height == h;
    assert e in fs;
  }

  lemma {:induction false} SoundKeys(fork: Option<nat>, m: map<Txid, nat>, es: seq<Entry>)
    requires TxidSound(fork, m, es)
    ensures m.Keys <= Txids(fork, es)
  {
    hide TxidOf;
    forall t | t in m ensures t in Txids(fork, es) {
      assert Carried(fork, es, t, m[t]);
    }
  }

  lemma {:induction false} ExactIsSound(fork: Option<nat>, es: seq<Entry>)
    ensures TxidSound(fork, TxidMap(fork, es), es) && TxidMap(fork, es).Keys == Txids(fork, es)
  {
    hide TxidOf, TxidMap;
    forall t ensures t in TxidMap(fork, es) <==> t in Txids(fork, es) {
      TxidMapKeys(fork, es, t);
    }
    forall t | t in TxidMap(fork, es) ensures Carried(fork, es, t, TxidMap(fork, es)[t]) {
      TxidMapKeys(fork, es, t);
    }
  }

  lemma {:induction false} ExactKeys(fork: Option<nat>, db: Db, chain: seq<Block>)
    requires TxidExact(fork, db, chain)
    ensures db.index.txid.Keys == Txids(fork, Entries(chain)) && TxidSound(fork, db.index.txid, Entries(chain))
  {
    hide TxidMap, Txids, Entries;
    ExactIsSound(fork, Entries(chain));
  }

  /** Filing more rows adds exactly their txids. */
  lemma {:induction false} SoundFiled(fork: Option<nat>, m: map<Txid, nat>, es: seq<Entry>, fs: seq<Entry>)
    requires TxidSound(fork, m, es)
    ensures TxidSound(fork, PutTxids(m, fork, fs), es + fs)
    ensures PutTxids(m, fork, fs).Keys == m.Keys + Txids(fork, fs)
  {
    hide TxidOf;
    if fs == [] {
      assert es + fs == es;
      assert Txids(fork, fs) == {};
    } else {
      var n := |fs| - 1;
      var init, e := fs[..n], fs[n];
      SoundFiled(fork, m, es, init);
      Snoc(es, fs);
      var m' := PutTxids(m, fork, init);
      assert Txids(fork, fs) == Txids(fork, init) + if PostFork(fork, e.height) then {TxidOf(e.row)} else {} by {
        assert fs == init + [e];
      }
      forall t | t in m' ensures Carried(fork, es + fs, t, m'[t]) {
        CarriedMore(fork, es + init, es + fs, t, m'[t]);
      }
      if PostFork(fork, e.height) {
        assert e in es + fs;
        assert Carried(fork, es + fs, TxidOf(e.row), e.height);
      }
    }
  }

  /** A rollback takes exactly the removed txids out, and what is left points at kept rows. */
  lemma {:induction false} SoundCut(fork: Option<nat>, m: map<Txid, nat>, es: seq<Entry>, fs: seq<Entry>, to: int)
    requires TxidSound(fork, m, es + fs) && (forall e :: e in es ==> e.height <= to)
    ensures var m' := PruneTxids(m - Txids(fork, fs), to);
      TxidSound(fork, m', es) && m'.Keys == m.Keys - Txids(fork, fs)
  {
    hide TxidOf;
    forall t | t in m && t !in Txids(fork, fs) ensures m[t] <= to && Carried(fork, es, t, m[t]) {
      assert Carried(fork, es + fs, t, m[t]);
      var e :| e in es + fs && PostFork(fork, e.height) && TxidOf(e.row) == t && e.height == m[t];
      assert e !in fs;
    }
  }

  /** What a rollback does to a txid index without stale entries. */
  ghost predicate TxidCut(fork: Option<nat>, m: map<Txid, nat>, m': map<Txid, nat>, es: seq<Entry>, fs: seq<Entry>) {
    TxidSound(fork, m, es + fs) ==> TxidSound(fork, m', es) && m'.Keys == m.Keys - Txids(fork, fs)
  }

  /**
   A rollback leaves the txid index exact if and only if no removed row shares its
   txid with a kept one.
   */
  lemma {:induction false} TxidRollback(fork: Option<nat>, es: seq<Entry>, fs: seq<Entry>, to: int)
    requires forall e :: e in es ==> e.height <= to
    ensures PruneTxids(TxidMap(fork, es + fs) - Txids(fork, fs), to) == TxidMap(fork, es) <==>
      Txids(fork, es) !! Txids(fork, fs)
  {
    hide PutTxids, Txids;
    var all, want := TxidMap(fork, es + fs), TxidMap(fork, es);
    var pruned := PruneTxids(all - Txids(fork, fs), to);
    PutTxidsConcat(map[], fork, es, fs);
    forall t | t !in Txids(fork, fs) ensures (t in all <==> t in want) && (t in want ==> all[t] == want[t] <= to) {
      PutTxidsOther(want, fork, fs, t);
      TxidMapKeys(fork, es, t);
    }
    forall t ensures t in want <==> t in Txids(fork, es) {
      TxidMapKeys(fork, es, t);
    }
    if Txids(fork, es) !! Txids(fork, fs) {
      assert pruned == want;
    } else {
      var t :| t in Txids(fork, es) && t in Txids(fork, fs);
      assert t in want && t !in pruned;
    }
  }

  lemma {:induction false} HashMapOther(a: seq<Block>, b: seq<Block>, h: Bytes)
    requires h !in Hashes(b)
    ensures h in HashMap(a + b) <==> h in HashMap(a)
    ensures h in HashMap(a) ==> HashMap(a + b)[h] == HashMap(a)[h]
  {
    if b == [] {
      assert a + b == a;
    } else {
      var n := |b| - 1;
      Snoc(a, b);
      HashMapOther(a, b[..n], h);
      DifficultySnoc(a + b[..n], b[n]);
      assert b[n] in b;
    }
  }

  /** The same for block hashes. */
  lemma {:induction false} HashRollback(a: seq<Block>, b: seq<Block>)
    ensures HashMap(a + b) - Hashes(b) == HashMap(a) <==> Hashes(a) !! Hashes(b)
  {
    forall h | h !in Hashes(b)
      ensures (h in HashMap(a + b) <==> h in HashMap(a)) &&
        (h in HashMap(a) ==> HashMap(a + b)[h] == HashMap(a)[h])
    {
      HashMapOther(a, b, h);
    }
    forall h ensures h in HashMap(a) <==> h in Hashes(a) {
      HashMapKeys(a, h);
    }
    if Hashes(a) !! Hashes(b) {
      assert HashMap(a + b) - Hashes(b) == HashMap(a);
    } else {
      var h :| h in Hashes(a) && h in Hashes(b);
      assert h in HashMap(a) && h !in HashMap(a + b) - Hashes(b);
    }
  }
}
