/**
 Stored block bodies: public keys interned in an append-only table, and after the
 fork a per-block address dictionary in place of the address strings.
 */
module BlockBody {
  import opened Wrappers
  import opened ByteStrings
  import opened Transactions
  import opened Ledger
  import opened AddrBytes

  // ------------------------------------------------------------------ public-key table

  /** `pk` and `pkr`: key to id (through a collision-free digest of the key) and id to key. */
  datatype Keys = Keys(ids: map<Bytes, nat>, keys: map<nat, Bytes>)

  /** Ids are dense from 0, and the two directions are inverse to each other. */
  ghost predicate KeysOk(t: Keys) {
    && (forall i: nat :: i in t.keys <==> i < |t.ids|)
    && (forall k :: k in t.ids ==> t.ids[k] in t.keys && t.keys[t.ids[k]] == k)
    && (forall i :: i in t.keys ==> t.keys[i] in t.ids && t.ids[t.keys[i]] == i)
  }

  /** Everything once interned keeps its id. */
  ghost predicate Grows(t: Keys, t': Keys) {
    forall i :: i in t.keys ==> i in t'.keys && t'.keys[i] == t.keys[i]
  }

  ghost predicate CacheOk(t: Keys, cache: map<Bytes, nat>) {
    forall k :: k in cache ==> cache[k] in t.keys && t.keys[cache[k]] == k
  }

  /** The next free id is the number of keys. */
  lemma {:induction false} InternNew(t: Keys, pk: Bytes)
    requires KeysOk(t) && pk !in t.ids
    ensures var t' := Keys(t.ids[pk := |t.ids|], t.keys[|t.ids| := pk]); KeysOk(t') && Grows(t, t')
  {
    var n := |t.ids|;
    var t' := Keys(t.ids[pk := n], t.keys[n := pk]);
    assert n !in t.keys && |t'.ids| == n + 1;
    assert forall k :: k in t.ids ==> t.ids[k] != n;
    assert forall i :: i in t.keys ==> t.keys[i] != pk;
  }

  /** `_pubkey_id` */
  method PubkeyId(t: Keys, pk: Bytes, cache: map<Bytes, nat>) returns (id: nat, t': Keys, cache': map<Bytes, nat>)
    requires KeysOk(t) && CacheOk(t, cache)
    ensures KeysOk(t') && Grows(t, t') && CacheOk(t', cache')
    ensures id in t'.keys && t'.keys[id] == pk
    ensures pk in t.ids ==> t' == t
  {
    t', cache' := t, cache;
    if pk in cache {
      id := cache[pk];
      return;
    }
    if pk in t.ids {
      id := t.ids[pk];
    } else {
      id := |t.ids|;
      t' := Keys(t.ids[pk := id], t.keys[id := pk]);
      InternNew(t, pk);
    }
    cache' := cache'[pk := id];
  }

  // ------------------------------------------------------------------ records

  /** A row as stored: fields held elsewhere are blank. */
  datatype StoredRow =
    | Listed(row: Row, pubkeyId: nat)
    | Packed(row: Row, sender: nat, recipient: nat, pubkeyId: nat)

  /** `{"h": hash, "a": address dictionary, "t": rows}`; the dictionary is empty before the fork. */
  datatype Record = Record(hash: Bytes, addrs: seq<Bytes>, rows: seq<StoredRow>)

  function ToAddress(b: Option<Bytes>): Option<Address> {
    if b.Some? && |b.value| <= 255 then Some(b.value) else None
  }

  /** One row of `_expand`; None where it raises. */
  function ExpandRow(codec: Codec, t: Keys, hash: Bytes, addrs: seq<Bytes>, s: StoredRow): Option<Row> {
    if s.pubkeyId !in t.keys then None
    else match s
      case Listed(row, id) => Some(row.(pubkey := t.keys[id]))
      case Packed(row, si, ri, id) =>
        if si >= |addrs| || ri >= |addrs| then None else
          var a :- ToAddress(Unpack(codec, addrs[si]));
          var r :- ToAddress(Unpack(codec, addrs[ri]));
          Some(row.(address := a, recipient := r, pubkey := t.keys[id], blockHash := hash))
  }

  /** `_expand` */
  function Expand(codec: Codec, t: Keys, rec: Record): Option<seq<Row>> {
    if forall s :: s in rec.rows ==> ExpandRow(codec, t, rec.hash, rec.addrs, s).Some?
    then Some(seq(|rec.rows|, i requires 0 <= i < |rec.rows| =>
      assert rec.rows[i] in rec.rows;
      ExpandRow(codec, t, rec.hash, rec.addrs, rec.rows[i]).value))
    else None
  }

  /** What reading a committed row gives: after the fork the row's hash is the block's. */
  function ReadRow(fork: Option<nat>, height: nat, hash: Bytes, r: Row): Row {
    if PostFork(fork, height) then r.(blockHash := hash) else r
  }

  function ReadBack(fork: Option<nat>, b: Block): (b': Block)
    ensures b'.height == b.height && b'.hash == b.hash && b'.difficulty == b.difficulty
    ensures |b'.rows| == |b.rows|
    ensures forall i :: 0 <= i < |b.rows| ==> b'.rows[i] == ReadRow(fork, b.height, b.hash, b.rows[i])
  {
    b.(rows := seq(|b.rows|, i requires 0 <= i < |b.rows| => ReadRow(fork, b.height, b.hash, b.rows[i])))
  }

  /** A block reads back as committed exactly when it is pre-fork or its rows carry its hash. */
  lemma {:induction false} ReadBackExact(fork: Option<nat>, b: Block)
    ensures ReadBack(fork, b) == b <==> !PostFork(fork, b.height) || forall r :: r in b.rows ==> r.blockHash == b.hash
  {
    var b' := ReadBack(fork, b);
    if !PostFork(fork, b.height) || forall r :: r in b.rows ==> r.blockHash == b.hash {
      assert forall i :: 0 <= i < |b.rows| ==> b.rows[i] in b.rows && b'.rows[i] == b.rows[i];
      assert b'.rows == b.rows;
    }
    if b' == b && PostFork(fork, b.height) {
      forall r | r in b.rows ensures r.blockHash == b.hash {
        var i :| 0 <= i < |b.rows| && b.rows[i] == r;
        assert b'.rows[i].blockHash == b.hash;
      }
    }
  }

  // ------------------------------------------------------------------ address dictionary

  ghost predicate DictionaryOk(codec: Codec, addrs: seq<Bytes>, index: map<Address, nat>) {
    forall a :: a in index ==> index[a] < |addrs| && Unpack(codec, addrs[index[a]]) == Some(a)
  }

  /** `_addr_ref` */
  method AddrRef(codec: Codec, a: Address, addrs: seq<Bytes>, index: map<Address, nat>)
    returns (j: nat, addrs': seq<Bytes>, index': map<Address, nat>)
    requires DictionaryOk(codec, addrs, index)
    ensures DictionaryOk(codec, addrs', index') && addrs <= addrs'
    ensures j < |addrs'| && Unpack(codec, addrs'[j]) == Some(a)
  {
    addrs', index' := addrs, index;
    if a in index {
      j := index[a];
    } else {
      j := |addrs|;
      index' := index[a := j];
      addrs' := addrs + [Pack(codec, a)];
      PackRoundTrip(codec, a);
    }
  }

  /** A row expands the same under a larger table and a longer dictionary. */
  lemma {:induction false} ExpandRowGrows(codec: Codec, t: Keys, t': Keys, hash: Bytes, addrs: seq<Bytes>,
                                          addrs': seq<Bytes>, s: StoredRow)
    requires Grows(t, t') && addrs <= addrs' && ExpandRow(codec, t, hash, addrs, s).Some?
    ensures ExpandRow(codec, t', hash, addrs', s) == ExpandRow(codec, t, hash, addrs, s)
  {
  }

  /** Interning more keys changes no stored block. */
  lemma {:induction false} ExpandGrows(codec: Codec, t: Keys, t': Keys, rec: Record)
    requires Grows(t, t') && Expand(codec, t, rec).Some?
    ensures Expand(codec, t', rec) == Expand(codec, t, rec)
  {
    forall s | s in rec.rows
      ensures ExpandRow(codec, t', rec.hash, rec.addrs, s) == ExpandRow(codec, t, rec.hash, rec.addrs, s)
    {
      ExpandRowGrows(codec, t, t', rec.hash, rec.addrs, rec.addrs, s);
    }
    assert forall i :: 0 <= i < |rec.rows| ==> rec.rows[i] in rec.rows;
    assert Expand(codec, t', rec).value == Expand(codec, t, rec).value;
  }

  /** The rows stored so far expand to what will be read back. */
  ghost predicate BuiltRows(codec: Codec, t: Keys, hash: Bytes, addrs: seq<Bytes>, stored: seq<StoredRow>,
                            want: seq<Row>)
  {
    && |stored| <= |want|
    && forall i :: 0 <= i < |stored| ==> ExpandRow(codec, t, hash, addrs, stored[i]) == Some(want[i])
  }

  lemma {:induction false} BuiltRowsNext(codec: Codec, t: Keys, t': Keys, hash: Bytes, addrs: seq<Bytes>,
                                         addrs': seq<Bytes>,
                      stored: seq<StoredRow>, s: StoredRow, want: seq<Row>)
    requires BuiltRows(codec, t, hash, addrs, stored, want) && Grows(t, t') && addrs <= addrs'
    requires |stored| < |want| && ExpandRow(codec, t', hash, addrs', s) == Some(want[|stored|])
    ensures BuiltRows(codec, t', hash, addrs', stored + [s], want)
  {
    forall i | 0 <= i < |stored| ensures ExpandRow(codec, t', hash, addrs', stored[i]) == Some(want[i]) {
      ExpandRowGrows(codec, t, t', hash, addrs, addrs', stored[i]);
    }
  }

  lemma {:induction false} BuiltRowsExpand(codec: Codec, t: Keys, rec: Record, want: seq<Row>)
    requires BuiltRows(codec, t, rec.hash, rec.addrs, rec.rows, want) && |rec.rows| == |want|
    ensures Expand(codec, t, rec) == Some(want)
  {
    forall s | s in rec.rows ensures ExpandRow(codec, t, rec.hash, rec.addrs, s).Some? {
      var i :| 0 <= i < |rec.rows| && rec.rows[i] == s;
    }
    assert Expand(codec, t, rec).value == want;
  }

  /** The body of the row loop: intern the key, and after the fork the two addresses. */
  method StoreRow(codec: Codec, fork: Option<nat>, height: nat, hash: Bytes, r: Row,
                  t: Keys, cache: map<Bytes, nat>, addrs: seq<Bytes>, index: map<Address, nat>)
    returns (s: StoredRow, t': Keys, cache': map<Bytes, nat>, addrs': seq<Bytes>, index': map<Address, nat>)
    requires KeysOk(t) && CacheOk(t, cache) && DictionaryOk(codec, addrs, index)
    ensures KeysOk(t') && Grows(t, t') && CacheOk(t', cache')
    ensures DictionaryOk(codec, addrs', index') && addrs <= addrs'
    ensures ExpandRow(codec, t', hash, addrs', s) == Some(ReadRow(fork, height, hash, r))
  {
    var id;
    id, t', cache' := PubkeyId(t, r.pubkey, cache);
    addrs', index' := addrs, index;
    if PostFork(fork, height) {
      var ai, ri;
      ai, addrs', index' := AddrRef(codec, r.address, addrs', index');
      ri, addrs', index' := AddrRef(codec, r.recipient, addrs', index');
      s := Packed(r.(address := [], recipient := [], pubkey := [], blockHash := []), ai, ri, id);
    } else {
      s := Listed(r.(pubkey := []), id);
    }
  }

  /** `_put_body`: the record it writes expands to the block as it will be read back. */
  method PutBody(codec: Codec, fork: Option<nat>, t: Keys, b: Block) returns (rec: Record, t': Keys)
    requires KeysOk(t)
    ensures KeysOk(t') && Grows(t, t')
    ensures rec.hash == b.hash && Expand(codec, t', rec) == Some(ReadBack(fork, b).rows)
  {
    ghost var want := ReadBack(fork, b).rows;
    t' := t;
    var stored: seq<StoredRow> := [];
    var addrs: seq<Bytes> := [];
    var index: map<Address, nat> := map[];
    var cache: map<Bytes, nat> := map[];
    var i := 0;
    while i < |b.rows|
      invariant 0 <= i == |stored| <= |b.rows| == |want|
      invariant KeysOk(t') && Grows(t, t') && CacheOk(t', cache)
      invariant DictionaryOk(codec, addrs, index)
      invariant BuiltRows(codec, t', b.hash, addrs, stored, want)
    {
      ghost var t0, addrs0 := t', addrs;
      var s;
      s, t', cache, addrs, index := StoreRow(codec, fork, b.height, b.hash, b.rows[i], t', cache, addrs, index);
      BuiltRowsNext(codec, t0, t', b.hash, addrs0, addrs, stored, s, want);
      stored := stored + [s];
      i := i + 1;
    }
    rec := Record(b.hash, addrs, stored);
    BuiltRowsExpand(codec, t', rec, want);
  }
}
