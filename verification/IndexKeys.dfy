/** The signature and address index keys of `block_store.py`. */
module IndexKeys {
  import opened ByteStrings
  import opened Transactions
  import opened Ledger

  const ROLE_SENDER: Byte := 0
  const ROLE_RECIPIENT: Byte := 1
  const SIG_KEY_LEN: nat := 56

  predicate Keyable(e: Entry) {
    e.height < HEIGHT_LIMIT && e.idx < ROW_LIMIT
  }

  /** `_sh`: the height offset by 2^63, so that signed heights sort */
  function SignedHeight(h: int): (b: Bytes)
    requires -HEIGHT_LIMIT <= h < HEIGHT_LIMIT
    ensures |b| == 8
  {
    Pow256Values();
    BigEndian(h + HEIGHT_LIMIT, 8)
  }

  /** The ten bytes every index key ends in. */
  function Position(h: int, idx: nat): (b: Bytes)
    requires -HEIGHT_LIMIT <= h < HEIGHT_LIMIT && idx < ROW_LIMIT
    ensures |b| == 10
  {
    Pow256Values();
    SignedHeight(h) + BigEndian(idx, 2)
  }

  /** `_split_pos` */
  function SplitPos(key: Bytes): (int, nat)
    requires |key| >= 10
  {
    (FromBigEndian(key[|key| - 10..|key| - 2]) - HEIGHT_LIMIT, FromBigEndian(key[|key| - 2..]))
  }

  /** `_addr_prefix` */
  function AddrPrefix(role: Byte, a: Address): Bytes {
    [role, |a|] + a
  }

  /** `_addr_key` */
  function AddrKey(role: Byte, a: Address, h: int, idx: nat): Bytes
    requires -HEIGHT_LIMIT <= h < HEIGHT_LIMIT && idx < ROW_LIMIT
  {
    AddrPrefix(role, a) + Position(h, idx)
  }

  /** What a signature lookup scans: the first 56 bytes and a terminator. */
  function SigPrefix(sig: Bytes): Bytes {
    (if |sig| <= SIG_KEY_LEN then sig else sig[..SIG_KEY_LEN]) + [0]
  }

  /** `_sig_key` */
  function SigKey(sig: Bytes, h: int, idx: nat): Bytes
    requires -HEIGHT_LIMIT <= h < HEIGHT_LIMIT && idx < ROW_LIMIT
  {
    SigPrefix(sig) + Position(h, idx)
  }

  /** Whatever precedes it, a position reads back from the end of a key. */
  lemma {:induction false} SplitPosition(p: Bytes, h: int, idx: nat)
    requires -HEIGHT_LIMIT <= h < HEIGHT_LIMIT && idx < ROW_LIMIT
    ensures SplitPos(p + Position(h, idx)) == (h, idx)
  {
    Pow256Values();
    var key := p + Position(h, idx);
    assert key[|key| - 10..|key| - 2] == SignedHeight(h);
    assert key[|key| - 2..] == BigEndian(idx, 2);
    BigEndianRoundTrip(h + HEIGHT_LIMIT, 8);
    BigEndianRoundTrip(idx, 2);
  }

  /** Positions sort by height, then by row. */
  lemma {:induction false} PositionOrder(h: int, i: nat, h': int, i': nat)
    requires -HEIGHT_LIMIT <= h < HEIGHT_LIMIT && i < ROW_LIMIT
    requires -HEIGHT_LIMIT <= h' < HEIGHT_LIMIT && i' < ROW_LIMIT
    ensures LexLess(Position(h, i), Position(h', i')) <==> h < h' || (h == h' && i < i')
  {
    Pow256Values();
    LexHeadFirst(SignedHeight(h), BigEndian(i, 2), SignedHeight(h'), BigEndian(i', 2));
    BigEndianOrder(h + HEIGHT_LIMIT, h' + HEIGHT_LIMIT, 8);
    BigEndianOrder(i, i', 2);
    BigEndianRoundTrip(h + HEIGHT_LIMIT, 8);
    BigEndianRoundTrip(h' + HEIGHT_LIMIT, 8);
  }

  /** The stored length byte makes address prefixes prefix-free. */
  lemma {:induction false} AddrPrefixFree(r: Byte, a: Address, r': Byte, a': Address, tail: Bytes)
    requires AddrPrefix(r, a) <= AddrPrefix(r', a') + tail
    ensures r == r' && a == a'
  {
    var p, q := AddrPrefix(r, a), AddrPrefix(r', a') + tail;
    assert p[0] == q[0] && p[1] == q[1];
    assert a == p[2..] == q[2..2 + |a|] == a';
  }

  // ------------------------------------------------------------------ index contents

  function SigKeys(es: seq<Entry>): set<Bytes> {
    set e | e in es && Keyable(e) && Indexable(e.row.signature) :: SigKey(e.row.signature, e.height, e.idx)
  }

  function RoleKeys(role: Byte, es: seq<Entry>): set<Bytes> {
    set e | e in es && Keyable(e) :: AddrKey(role, Party(role, e.row), e.height, e.idx)
  }

  /** The address a row is filed under in a role. */
  function Party(role: Byte, r: Row): Address {
    if role == ROLE_SENDER then r.address else r.recipient
  }

  function AddrKeys(es: seq<Entry>): set<Bytes> {
    RoleKeys(ROLE_SENDER, es) + RoleKeys(ROLE_RECIPIENT, es)
  }

  lemma {:induction false} KeysConcat(es: seq<Entry>, fs: seq<Entry>)
    ensures SigKeys(es + fs) == SigKeys(es) + SigKeys(fs)
    ensures AddrKeys(es + fs) == AddrKeys(es) + AddrKeys(fs)
  {
    assert forall e :: e in es + fs <==> e in es || e in fs;
    RoleKeysConcat(ROLE_SENDER, es, fs);
    RoleKeysConcat(ROLE_RECIPIENT, es, fs);
  }

  lemma {:induction false} RoleKeysConcat(role: Byte, es: seq<Entry>, fs: seq<Entry>)
    ensures RoleKeys(role, es + fs) == RoleKeys(role, es) + RoleKeys(role, fs)
  {
    assert forall e :: e in es + fs <==> e in es || e in fs;
  }

  /** Every key ends in the position of the entry it stands for. */
  lemma {:induction false} KeyHeights(es: seq<Entry>, k: Bytes)
    requires k in SigKeys(es) || k in AddrKeys(es)
    ensures |k| >= 10 && exists e :: e in es && SplitPos(k) == (e.height, e.idx)
  {
    if k in SigKeys(es) {
      var e :| e in es && Keyable(e) && Indexable(e.row.signature) && k == SigKey(e.row.signature, e.height, e.idx);
      SplitPosition(SigPrefix(e.row.signature), e.height, e.idx);
    } else {
      var role := if k in RoleKeys(ROLE_SENDER, es) then ROLE_SENDER else ROLE_RECIPIENT;
      var e :| e in es && Keyable(e) && k == AddrKey(role, Party(role, e.row), e.height, e.idx);
      SplitPosition(AddrPrefix(role, Party(role, e.row)), e.height, e.idx);
    }
  }

  /** Deleting the keys of later blocks leaves exactly the keys of the earlier ones. */
  lemma {:induction false} KeysDelete(es: seq<Entry>, fs: seq<Entry>)
    requires forall e, f :: e in es && f in fs ==> e.height < f.height
    ensures SigKeys(es + fs) - SigKeys(fs) == SigKeys(es)
    ensures AddrKeys(es + fs) - AddrKeys(fs) == AddrKeys(es)
  {
    KeysConcat(es, fs);
    forall k | k in SigKeys(es) ensures k !in SigKeys(fs) {
      NotShared(es, fs, k);
    }
    forall k | k in AddrKeys(es) ensures k !in AddrKeys(fs) {
      NotShared(es, fs, k);
    }
  }

  lemma {:induction false} NotShared(es: seq<Entry>, fs: seq<Entry>, k: Bytes)
    requires forall e, f :: e in es && f in fs ==> e.height < f.height
    requires k in SigKeys(es) || k in AddrKeys(es)
    ensures k !in SigKeys(fs) && k !in AddrKeys(fs)
  {
    KeyHeights(es, k);
    if k in SigKeys(fs) || k in AddrKeys(fs) {
      KeyHeights(fs, k);
    }
  }
}
