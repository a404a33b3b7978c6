/**
 The derived indexes of `block_store.py` and the loops that maintain them. The
 sub-databases of the one LMDB environment are the fields of a value `Db`: a write
 transaction works on a copy and puts it back when it commits.
 */
module StoreIndex {
  import opened Wrappers
  import opened ByteStrings
  import opened Transactions
  import opened Ledger
  import opened IndexKeys
  import opened BlockBody

  /** The indexes that are filed row by row. */
  datatype Index = Index(
    sig: set<Bytes>, addr: set<Bytes>, txid: map<Txid, nat>, pkref: map<Address, (nat, Bytes)>)

  datatype Db = Db(
    blocks: map<nat, Record>, hashes: map<Bytes, nat>, keys: Keys, diff: map<nat, Bytes>,
    index: Index, bal: map<Address, Parts>, txcount: nat, alloc: map<Address, int>)

  const NO_INDEX := Index({}, {}, map[], map[])
  const EMPTY := Db(map[], map[], Keys(map[], map[]), map[], NO_INDEX, map[], 0, map[])

  // ------------------------------------------------------------------ balances

  function PartsAt(m: map<Address, Parts>, a: Bytes): Parts {
    if a in m then m[a] else ZERO
  }

  /** The balance table holds no entry that is zero in all four parts. */
  ghost predicate NoZeros(bal: map<Address, Parts>) {
    forall a :: a in bal ==> bal[a] != ZERO
  }

  ghost predicate Balances(bal: map<Address, Parts>, alloc: map<Address, int>, es: seq<Entry>) {
    NoZeros(bal) && forall a: Address :: PartsAt(bal, a) == Total(alloc, es, a)
  }

  /** `_fold` */
  method FoldRow(acc: map<Address, Parts>, r: Row, undo: bool) returns (acc': map<Address, Parts>)
    ensures forall a: Address :: PartsAt(acc', a) == PartsAt(acc, a).Plus(Effect(r, a).Signed(undo))
  {
    var credited := Parts(r.amount, r.reward, 0, 0).Signed(undo);
    var debited := Parts(0, 0, r.amount, r.fee).Signed(undo);
    acc' := acc[r.recipient := PartsAt(acc, r.recipient).Plus(credited)];
    acc' := acc'[r.address := PartsAt(acc', r.address).Plus(debited)];
  }

  /** One balance entry moved by a delta; an entry that becomes zero is deleted. */
  function MoveEntry(bal: map<Address, Parts>, a: Address, d: Parts): (bal': map<Address, Parts>)
    requires NoZeros(bal)
    ensures NoZeros(bal')
    ensures PartsAt(bal', a) == PartsAt(bal, a).Plus(d)
    ensures forall x: Address :: x != a ==> PartsAt(bal', x) == PartsAt(bal, x)
  {
    var next := PartsAt(bal, a).Plus(d);
    if d == ZERO then bal else if next != ZERO then bal[a := next] else bal - {a}
  }

  /** `_apply_balances` */
  method ApplyBalances(bal: map<Address, Parts>, acc: map<Address, Parts>) returns (bal': map<Address, Parts>)
    requires NoZeros(bal)
    ensures NoZeros(bal')
    ensures forall a: Address :: PartsAt(bal', a) == PartsAt(bal, a).Plus(PartsAt(acc, a))
  {
    bal' := bal;
    var todo := acc.Keys;
    while todo != {}
      invariant todo <= acc.Keys && NoZeros(bal')
      invariant forall a: Address :: a in todo ==> PartsAt(bal', a) == PartsAt(bal, a)
      invariant forall a: Address :: a !in todo ==> PartsAt(bal', a) == PartsAt(bal, a).Plus(PartsAt(acc, a))
      decreases todo
    {
      var a :| a in todo;
      bal' := MoveEntry(bal', a, acc[a]);
      todo := todo - {a};
    }
  }

  // ------------------------------------------------------------------ rows of one block

  /** `acc'` is `acc` moved by the entries, or moved back by them. */
  ghost predicate Moved(acc: map<Address, Parts>, acc': map<Address, Parts>, es: seq<Entry>, undo: bool) {
    forall a: Address :: PartsAt(acc', a) == PartsAt(acc, a).Plus(PartsOf(es, a).Signed(undo))
  }

  lemma {:induction false} MovedSnoc(acc0: map<Address, Parts>, acc: map<Address, Parts>, acc': map<Address, Parts>,
                                     es: seq<Entry>, e: Entry, undo: bool)
    requires Moved(acc0, acc, es, undo)
    requires forall a: Address :: PartsAt(acc', a) == PartsAt(acc, a).Plus(Effect(e.row, a).Signed(undo))
    ensures Moved(acc0, acc', es + [e], undo)
  {
    forall a: Address ensures PartsAt(acc', a) == PartsAt(acc0, a).Plus(PartsOf(es + [e], a).Signed(undo)) {
      PartsSnoc(es, e, a);
      SignedPlus(PartsOf(es, a), Effect(e.row, a), undo);
      PlusAssoc(PartsAt(acc0, a), PartsOf(es, a).Signed(undo), Effect(e.row, a).Signed(undo));
    }
  }

  lemma {:induction false} MovedNone(acc: map<Address, Parts>)
    ensures Moved(acc, acc, [], false) && Moved(acc, acc, [], true)
  {
  }

  lemma {:induction false} SignedPlus(x: Parts, y: Parts, undo: bool)
    ensures x.Plus(y).Signed(undo) == x.Signed(undo).Plus(y.Signed(undo))
  {
  }

  /** The keys one entry adds. */
  lemma {:induction false} EntryKeys(e: Entry)
    requires Keyable(e)
    ensures SigKeys([e]) == if Indexable(e.row.signature) then {SigKey(e.row.signature, e.height, e.idx)} else {}
    ensures AddrKeys([e]) ==
      {AddrKey(ROLE_SENDER, e.row.address, e.height, e.idx), AddrKey(ROLE_RECIPIENT, e.row.recipient, e.height, e.idx)}
  {
    assert forall x :: x in [e] <==> x == e;
    assert RoleKeys(ROLE_SENDER, [e]) == {AddrKey(ROLE_SENDER, e.row.address, e.height, e.idx)};
    assert RoleKeys(ROLE_RECIPIENT, [e]) == {AddrKey(ROLE_RECIPIENT, e.row.recipient, e.height, e.idx)};
  }

  /** The indexes after filing entries. */
  function Filed(fork: Option<nat>, ix: Index, es: seq<Entry>): Index {
    Index(ix.sig + SigKeys(es), ix.addr + AddrKeys(es), PutTxids(ix.txid, fork, es), PutPubkeys(ix.pkref, fork, es))
  }

  /** The indexes after deleting what entries were filed under; the registry is pruned separately. */
  ghost function Unfiled(fork: Option<nat>, ix: Index, es: seq<Entry>): Index {
    Index(ix.sig - SigKeys(es), ix.addr - AddrKeys(es), ix.txid - Txids(fork, es), ix.pkref)
  }

  lemma {:induction false} TxidsConcat(fork: Option<nat>, es: seq<Entry>, fs: seq<Entry>)
    ensures Txids(fork, es + fs) == Txids(fork, es) + Txids(fork, fs)
  {
    assert forall e :: e in es + fs <==> e in es || e in fs;
  }

  lemma {:induction false} EntryTxids(fork: Option<nat>, txid: map<Txid, nat>, e: Entry)
    ensures PutTxids(txid, fork, [e]) == if PostFork(fork, e.height) then txid[TxidOf(e.row) := e.height] else txid
    ensures Txids(fork, [e]) == if PostFork(fork, e.height) then {TxidOf(e.row)} else {}
  {
    assert PutTxids(txid, fork, [e][..0]) == txid;
    assert forall x :: x in [e] <==> x == e;
  }

  /** The puts of one row into the signature, address and txid indexes. */
  method IndexRow(fork: Option<nat>, sig: set<Bytes>, addr: set<Bytes>, txid: map<Txid, nat>, e: Entry)
    returns (sig': set<Bytes>, addr': set<Bytes>, txid': map<Txid, nat>)
    requires Keyable(e)
    ensures sig' == sig + SigKeys([e]) && addr' == addr + AddrKeys([e]) && txid' == PutTxids(txid, fork, [e])
  {
    EntryKeys(e);
    EntryTxids(fork, txid, e);
    var r := e.row;
    sig', txid' := sig, txid;
    if Indexable(r.signature) {
      sig' := sig + {SigKey(r.signature, e.height, e.idx)};
    }
    addr' := addr + {AddrKey(ROLE_SENDER, r.address, e.height, e.idx),
                     AddrKey(ROLE_RECIPIENT, r.recipient, e.height, e.idx)};
    if PostFork(fork, e.height) {
      txid' := txid[TxidOf(r) := e.height];
    }
  }

  /** The same keys deleted. */
  method UnindexRow(fork: Option<nat>, sig: set<Bytes>, addr: set<Bytes>, txid: map<Txid, nat>, e: Entry)
    returns (sig': set<Bytes>, addr': set<Bytes>, txid': map<Txid, nat>)
    requires Keyable(e)
    ensures sig' == sig - SigKeys([e]) && addr' == addr - AddrKeys([e]) && txid' == txid - Txids(fork, [e])
  {
    EntryKeys(e);
    EntryTxids(fork, txid, e);
    var r := e.row;
    sig', txid' := sig, txid;
    if Indexable(r.signature) {
      sig' := sig - {SigKey(r.signature, e.height, e.idx)};
    }
    addr' := addr - {AddrKey(ROLE_SENDER, r.address, e.height, e.idx),
                     AddrKey(ROLE_RECIPIENT, r.recipient, e.height, e.idx)};
    if PostFork(fork, e.height) {
      txid' := txid - {TxidOf(r)};
    }
  }

  lemma {:induction false} PubkeysSnoc(pkref: map<Address, (nat, Bytes)>, fork: Option<nat>, es: seq<Entry>, e: Entry)
    ensures PutPubkeys(pkref, fork, es + [e]) ==
      var m := PutPubkeys(pkref, fork, es);
      if Teaches(fork, e) && e.row.address !in m then m[e.row.address := (e.height, e.row.pubkey)] else m
  {
    assert (es + [e])[..|es|] == es;
  }

  /** The registry loop of `_index_rows`: only a sender not seen before is filed. */
  method TeachKeys(fork: Option<nat>, pkref: map<Address, (nat, Bytes)>, b: Block)
    returns (pkref': map<Address, (nat, Bytes)>)
    ensures pkref' == PutPubkeys(pkref, fork, BlockEntries(b))
  {
    ghost var es := BlockEntries(b);
    TakeAll(es);
    pkref' := pkref;
    var idx := 0;
    while idx < |b.rows|
      invariant 0 <= idx <= |b.rows|
      invariant pkref' == PutPubkeys(pkref, fork, es[..idx])
    {
      var r := b.rows[idx];
      TakeNext(es, idx);
      PubkeysSnoc(pkref, fork, es[..idx], es[idx]);
      if PostFork(fork, b.height) && !IsCoinbase(r) && !Blank(r.pubkey) && r.address !in pkref' {
        pkref' := pkref'[r.address := (b.height, r.pubkey)];
      }
      idx := idx + 1;
    }
  }

  /** The row loop so far: `ix` is the index it started from, `acc` the deltas. */
  ghost predicate IndexedUpTo(fork: Option<nat>, ix: Index, es: seq<Entry>, sig: set<Bytes>, addr: set<Bytes>,
                              txid: map<Txid, nat>)
  {
    sig == ix.sig + SigKeys(es) && addr == ix.addr + AddrKeys(es) && txid == PutTxids(ix.txid, fork, es)
  }

  ghost predicate UnindexedUpTo(fork: Option<nat>, ix: Index, es: seq<Entry>, sig: set<Bytes>, addr: set<Bytes>,
                                txid: map<Txid, nat>)
  {
    sig == ix.sig - SigKeys(es) && addr == ix.addr - AddrKeys(es) && txid == ix.txid - Txids(fork, es)
  }

  lemma {:induction false} UpToNone(fork: Option<nat>, ix: Index)
    ensures IndexedUpTo(fork, ix, [], ix.sig, ix.addr, ix.txid)
    ensures UnindexedUpTo(fork, ix, [], ix.sig, ix.addr, ix.txid)
  {
    assert SigKeys([]) == {} && AddrKeys([]) == {} && Txids(fork, []) == {};
    assert ix.txid - {} == ix.txid;
  }

  lemma {:induction false} IndexedNext(fork: Option<nat>, ix: Index, es: seq<Entry>, e: Entry, sig: set<Bytes>,
                                       addr: set<Bytes>, txid: map<Txid, nat>)
    requires IndexedUpTo(fork, ix, es, sig, addr, txid)
    ensures IndexedUpTo(fork, ix, es + [e], sig + SigKeys([e]), addr + AddrKeys([e]), PutTxids(txid, fork, [e]))
  {
    hide SigKeys, AddrKeys, PutTxids;
    KeysConcat(es, [e]);
    PutTxidsConcat(ix.txid, fork, es, [e]);
  }

  lemma {:induction false} UnindexedNext(fork: Option<nat>, ix: Index, es: seq<Entry>, e: Entry, sig: set<Bytes>,
                                         addr: set<Bytes>, txid: map<Txid, nat>)
    requires UnindexedUpTo(fork, ix, es, sig, addr, txid)
    ensures UnindexedUpTo(fork, ix, es + [e], sig - SigKeys([e]), addr - AddrKeys([e]), txid - Txids(fork, [e]))
  {
    hide SigKeys, AddrKeys, Txids;
    KeysConcat(es, [e]);
    TxidsConcat(fork, es, [e]);
  }

  /** `_index_rows` */
  method IndexRows(fork: Option<nat>, ix: Index, b: Block, acc: map<Address, Parts>)
    returns (ix': Index, acc': map<Address, Parts>)
    requires BlockFits(fork, b)
    ensures ix' == Filed(fork, ix, BlockEntries(b))
    ensures Moved(acc, acc', BlockEntries(b), false)
  {
    ghost var es := BlockEntries(b);
    TakeAll(es);
    UpToNone(fork, ix);
    MovedNone(acc);
    var sig, addr, txid := ix.sig, ix.addr, ix.txid;
    acc' := acc;
    var idx := 0;
    while idx < |b.rows|
      invariant 0 <= idx <= |b.rows|
      invariant IndexedUpTo(fork, ix, es[..idx], sig, addr, txid)
      invariant Moved(acc, acc', es[..idx], false)
    {
      ghost var acc0 := acc';
      TakeNext(es, idx);
      IndexedNext(fork, ix, es[..idx], es[idx], sig, addr, txid);
      sig, addr, txid := IndexRow(fork, sig, addr, txid, Entry(b.height, idx, b.rows[idx]));
      acc' := FoldRow(acc', b.rows[idx], false);
      MovedSnoc(acc, acc0, acc', es[..idx], es[idx], false);
      idx := idx + 1;
    }
    var pkref := TeachKeys(fork, ix.pkref, b);
    ix' := Index(sig, addr, txid, pkref);
  }

  /** `_index_rows` with `delete=True` */
  method UnindexRows(fork: Option<nat>, ix: Index, b: Block, acc: map<Address, Parts>)
    returns (ix': Index, acc': map<Address, Parts>)
    requires BlockFits(fork, b)
    ensures ix' == Unfiled(fork, ix, BlockEntries(b))
    ensures Moved(acc, acc', BlockEntries(b), true)
  {
    ghost var es := BlockEntries(b);
    TakeAll(es);
    UpToNone(fork, ix);
    MovedNone(acc);
    var sig, addr, txid := ix.sig, ix.addr, ix.txid;
    acc' := acc;
    var idx := 0;
    while idx < |b.rows|
      invariant 0 <= idx <= |b.rows|
      invariant UnindexedUpTo(fork, ix, es[..idx], sig, addr, txid)
      invariant Moved(acc, acc', es[..idx], true)
    {
      ghost var acc0 := acc';
      TakeNext(es, idx);
      UnindexedNext(fork, ix, es[..idx], es[idx], sig, addr, txid);
      sig, addr, txid := UnindexRow(fork, sig, addr, txid, Entry(b.height, idx, b.rows[idx]));
      acc' := FoldRow(acc', b.rows[idx], true);
      MovedSnoc(acc, acc0, acc', es[..idx], es[idx], true);
      idx := idx + 1;
    }
    ix' := Index(sig, addr, txid, ix.pkref);
  }
}
