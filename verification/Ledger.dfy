/**
 The ledger's data model and the reference meaning of every derived index: each
 one is a fold over the entries of the current block list.
 */
module Ledger {
  import opened Wrappers
  import opened ByteStrings
  import opened Transactions
  import opened Serialize

  /** One stored row; the height it belongs to is its block's. */
  datatype Row = Row(
    timestamp: int, address: Address, recipient: Address, amount: int,
    signature: Bytes, pubkey: Bytes, blockHash: Bytes, fee: int, reward: int,
    operation: Bytes, openfield: Bytes)

  datatype Block = Block(height: nat, hash: Bytes, rows: seq<Row>, difficulty: Option<Bytes>)

  /** A row at its position in the chain. */
  datatype Entry = Entry(height: nat, idx: nat, row: Row)

  /** A content txid. The hash is taken as collision-free, so it is identified with its pre-image. */
  datatype Txid = Txid(preimage: Option<Bytes>)

  const HEIGHT_LIMIT: int := 0x8000_0000_0000_0000
  const ROW_LIMIT: nat := 0x1_0000

  predicate PostFork(fork: Option<nat>, height: nat) {
    fork.Some? && height >= fork.value
  }

  function ContentOf(r: Row): Content {
    Content(r.timestamp, r.amount, r.address, r.recipient, Some(r.operation), Some(r.openfield))
  }

  /** `txid_of` for a post-fork row */
  function TxidOf(r: Row): Txid {
    Txid(SignatureBuffer(ContentOf(r)))
  }

  /** Two rows have one txid exactly when they agree on the six signed fields; signature and key do not matter. */
  lemma {:induction false} TxidFields(r: Row, s: Row)
    requires TxidOf(r).preimage.Some?
    ensures TxidOf(r) == TxidOf(s) <==>
      && r.timestamp == s.timestamp && r.amount == s.amount && r.address == s.address && r.recipient == s.recipient
      && r.operation == s.operation && r.openfield == s.openfield
  {
    hide SignatureBuffer;
    if TxidOf(r) == TxidOf(s) {
      SignatureBufferInjective(ContentOf(r), ContentOf(s));
    }
  }

  /** `is_coinbase_row` */
  predicate IsCoinbase(r: Row) {
    r.reward != 0
  }

  /** `_indexable_sig`: not empty, not "0", not "None" */
  predicate Indexable(sig: Bytes) {
    sig != [] && sig != [48] && sig != [78, 111, 110, 101]
  }

  /**
   What the key widths of the indexes can hold: a signed 64-bit height that leaves room
   for the scan bound above it, and a 16-bit row number.
   */
  predicate BlockFits(fork: Option<nat>, b: Block) {
    && b.height < HEIGHT_LIMIT - 1
    && |b.rows| <= ROW_LIMIT
    && (PostFork(fork, b.height) ==> forall r :: r in b.rows ==> Encodable(ContentOf(r)))
  }

  ghost predicate Consecutive(chain: seq<Block>) {
    forall i :: 0 <= i < |chain| ==> chain[i].height == chain[0].height + i
  }

  ghost predicate WellFormed(fork: Option<nat>, chain: seq<Block>) {
    Consecutive(chain) && forall i :: 0 <= i < |chain| ==> BlockFits(fork, chain[i])
  }

  // ------------------------------------------------------------------ entries

  function BlockEntries(b: Block): (es: seq<Entry>)
    ensures |es| == |b.rows|
    ensures forall i :: 0 <= i < |es| ==> es[i] == Entry(b.height, i, b.rows[i])
  {
    seq(|b.rows|, i requires 0 <= i < |b.rows| => Entry(b.height, i, b.rows[i]))
  }

  function Entries(chain: seq<Block>): seq<Entry> {
    if chain == [] then [] else Entries(chain[..|chain| - 1]) + BlockEntries(chain[|chain| - 1])
  }

  lemma {:induction false} EntriesSnoc(chain: seq<Block>, b: Block)
    ensures Entries(chain + [b]) == Entries(chain) + BlockEntries(b)
  {
    assert (chain + [b])[..|chain|] == chain;
  }

  lemma {:induction false} EntriesConcat(a: seq<Block>, b: seq<Block>)
    ensures Entries(a + b) == Entries(a) + Entries(b)
  {
    if b == [] {
      assert a + b == a;
    } else {
      var n := |b| - 1;
      EntriesConcat(a, b[..n]);
      assert a + b == (a + b[..n]) + [b[n]];
      EntriesSnoc(a + b[..n], b[n]);
      Assoc(Entries(a), Entries(b[..n]), BlockEntries(b[n]));
      assert Entries(b) == Entries(b[..n]) + BlockEntries(b[n]);
    }
  }

  lemma {:induction false} EntriesSplit(chain: seq<Block>, k: nat)
    requires k <= |chain|
    ensures Entries(chain) == Entries(chain[..k]) + Entries(chain[k..])
  {
    EntriesConcat(chain[..k], chain[k..]);
    assert chain == chain[..k] + chain[k..];
  }

  predicate InBlock(b: Block, e: Entry) {
    e.height == b.height && e.idx < |b.rows| && e.row == b.rows[e.idx]
  }

  /** An entry names a row of a block of the chain. */
  ghost predicate At(chain: seq<Block>, e: Entry) {
    exists b :: b in chain && InBlock(b, e)
  }

  lemma {:induction false} BlockEntriesAre(b: Block, e: Entry)
    ensures e in BlockEntries(b) <==> InBlock(b, e)
  {
    if InBlock(b, e) {
      assert e == BlockEntries(b)[e.idx];
    }
  }

  lemma {:induction false} EntriesAre(chain: seq<Block>, e: Entry)
    ensures e in Entries(chain) <==> At(chain, e)
  {
    if chain != [] {
      var n := |chain| - 1;
      EntriesAre(chain[..n], e);
      BlockEntriesAre(chain[n], e);
      assert e in Entries(chain) <==> e in Entries(chain[..n]) || e in BlockEntries(chain[n]);
      assert chain == chain[..n] + [chain[n]];
    }
  }

  lemma {:induction false} EntryFits(fork: Option<nat>, chain: seq<Block>, e: Entry)
    requires WellFormed(fork, chain) && e in Entries(chain)
    ensures e.height < HEIGHT_LIMIT - 1 && e.idx < ROW_LIMIT
    ensures PostFork(fork, e.height) ==> Encodable(ContentOf(e.row))
    ensures chain[0].height <= e.height < chain[0].height + |chain|
    ensures e.idx < |chain[e.height - chain[0].height].rows|
    ensures e.row == chain[e.height - chain[0].height].rows[e.idx]
  {
    EntriesAre(chain, e);
    var b :| b in chain && InBlock(b, e);
    var i :| 0 <= i < |chain| && chain[i] == b;
  }

  datatype Pos = Pos(height: int, idx: nat) {
    /** Chain order: by height, then by position in the block. */
    predicate Precedes(that: Pos) {
      height < that.height || (height == that.height && idx < that.idx)
    }
  }

  function PosOf(e: Entry): Pos {
    Pos(e.height, e.idx)
  }

  predicate Before(a: Entry, b: Entry) {
    PosOf(a).Precedes(PosOf(b))
  }

  ghost predicate InOrder(es: seq<Entry>) {
    forall i, j :: 0 <= i < j < |es| ==> Before(es[i], es[j])
  }

  lemma {:induction false} EntriesInOrder(fork: Option<nat>, chain: seq<Block>)
    requires WellFormed(fork, chain)
    ensures InOrder(Entries(chain))
  {
    if chain != [] {
      var n := |chain| - 1;
      EntriesInOrder(fork, chain[..n]);
      var init, last := Entries(chain[..n]), BlockEntries(chain[n]);
      forall i | 0 <= i < |init| ensures init[i].height < chain[n].height {
        EntryFits(fork, chain[..n], init[i]);
      }
    }
  }

  // ------------------------------------------------------------------ balances

  /** Credited amount, rewards, debited amount, fees, in atomic units. */
  datatype Parts = Parts(credit: int, reward: int, debit: int, fee: int) {
    function Plus(o: Parts): Parts {
      Parts(credit + o.credit, reward + o.reward, debit + o.debit, fee + o.fee)
    }

    /** The same deltas applied, or taken back. */
    function Signed(undo: bool): Parts {
      if undo then Parts(-credit, -reward, -debit, -fee) else this
    }

    function Net(): int {
      credit + reward - debit - fee
    }
  }

  const ZERO := Parts(0, 0, 0, 0)

  /** What one row does to one address; a self-send touches both sides. */
  function Effect(r: Row, a: Bytes): Parts {
    Parts(
      if r.recipient == a then r.amount else 0,
      if r.recipient == a then r.reward else 0,
      if r.address == a then r.amount else 0,
      if r.address == a then r.fee else 0)
  }

  function PartsOf(es: seq<Entry>, a: Bytes): Parts {
    if es == [] then ZERO else PartsOf(es[..|es| - 1], a).Plus(Effect(es[|es| - 1].row, a))
  }

  lemma {:induction false} PlusAssoc(x: Parts, y: Parts, z: Parts)
    ensures x.Plus(y).Plus(z) == x.Plus(y.Plus(z))
  {
  }

  lemma {:induction false} PartsSnoc(es: seq<Entry>, e: Entry, a: Bytes)
    ensures PartsOf(es + [e], a) == PartsOf(es, a).Plus(Effect(e.row, a))
  {
    assert (es + [e])[..|es|] == es;
  }

  lemma {:induction false} PartsSingle(e: Entry, a: Bytes)
    ensures PartsOf([e], a) == Effect(e.row, a)
  {
    assert [e][..0] == [];
    assert ZERO.Plus(Effect(e.row, a)) == Effect(e.row, a);
  }

  lemma {:induction false} PartsConcat(es: seq<Entry>, fs: seq<Entry>, a: Bytes)
    ensures PartsOf(es + fs, a) == PartsOf(es, a).Plus(PartsOf(fs, a))
  {
    if fs == [] {
      assert es + fs == es;
    } else {
      var n := |fs| - 1;
      Snoc(es, fs);
      PartsConcat(es, fs[..n], a);
      PartsSnoc(es + fs[..n], fs[n], a);
      PartsSnoc(fs[..n], fs[n], a);
      PlusAssoc(PartsOf(es, a), PartsOf(fs[..n], a), Effect(fs[n].row, a));
    }
  }

  function AllocationOf(alloc: map<Address, int>, a: Bytes): int {
    if a in alloc then alloc[a] else 0
  }

  /** Allocations count as rewards that no row carries. */
  function Total(alloc: map<Address, int>, es: seq<Entry>, a: Bytes): Parts {
    Parts(0, AllocationOf(alloc, a), 0, 0).Plus(PartsOf(es, a))
  }

  // ------------------------------------------------------------------ keyed indexes

  /** File the content txids of post-fork entries; a later entry overwrites. */
  function PutTxids(m: map<Txid, nat>, fork: Option<nat>, es: seq<Entry>): map<Txid, nat> {
    if es == [] then m else
      var e, m' := es[|es| - 1], PutTxids(m, fork, es[..|es| - 1]);
      if PostFork(fork, e.height) then m'[TxidOf(e.row) := e.height] else m'
  }

  /** Content txid to the height of the last block that carries it. */
  function TxidMap(fork: Option<nat>, es: seq<Entry>): map<Txid, nat> {
    PutTxids(map[], fork, es)
  }

  ghost function Txids(fork: Option<nat>, es: seq<Entry>): set<Txid> {
    set e | e in es && PostFork(fork, e.height) :: TxidOf(e.row)
  }

  /** `pub.strip() == ""` */
  predicate Blank(s: Bytes) {
    forall c :: c in s ==> c == 32 || 9 <= c <= 13 || 28 <= c <= 31
  }

  /** Does the row teach the registry a public key? */
  predicate Teaches(fork: Option<nat>, e: Entry) {
    PostFork(fork, e.height) && !IsCoinbase(e.row) && !Blank(e.row.pubkey)
  }

  /** File the keys of senders not seen before; the first entry stays. */
  function PutPubkeys(m: map<Address, (nat, Bytes)>, fork: Option<nat>, es: seq<Entry>): map<Address, (nat, Bytes)> {
    if es == [] then m else
      var e, m' := es[|es| - 1], PutPubkeys(m, fork, es[..|es| - 1]);
      if Teaches(fork, e) && e.row.address !in m' then m'[e.row.address := (e.height, e.row.pubkey)] else m'
  }

  /** Sender to the height and key of the first row that teaches it. */
  function PubkeyMap(fork: Option<nat>, es: seq<Entry>): map<Address, (nat, Bytes)> {
    PutPubkeys(map[], fork, es)
  }

  /** The row is post-fork, pays no reward, and shows a key with a visible character for `a`. */
  ghost predicate ShowsKey(fork: Option<nat>, e: Entry, a: Address) {
    && fork.Some? && e.height >= fork.value && e.row.reward == 0 && e.row.address == a
    && exists c :: c in e.row.pubkey && c != 32 && !(9 <= c <= 13) && !(28 <= c <= 31)
  }

  ghost predicate FirstShown(fork: Option<nat>, es: seq<Entry>, a: Address, i: int) {
    0 <= i < |es| && ShowsKey(fork, es[i], a) && forall j :: 0 <= j < i ==> !ShowsKey(fork, es[j], a)
  }

  lemma {:induction false} PubkeyMapNext(fork: Option<nat>, es: seq<Entry>, a: Address)
    ensures es == [] ==> a !in PubkeyMap(fork, es)
    ensures es != [] ==>
      var last, m, m' := es[|es| - 1], PubkeyMap(fork, es[..|es| - 1]), PubkeyMap(fork, es);
      && (a in m' <==> a in m || ShowsKey(fork, last, a))
      && (a in m' ==> m'[a] == if a in m then m[a] else (last.height, last.row.pubkey))
  {
    hide ShowsKey, Teaches;
    if es != [] {
      TeachesIs(fork, es[|es| - 1]);
    }
  }

  /** The registry knows exactly the senders that showed a key, each by the first one it showed. */
  lemma {:induction false} PubkeyMapIs(fork: Option<nat>, es: seq<Entry>, a: Address)
    ensures a in PubkeyMap(fork, es) <==> exists e :: e in es && ShowsKey(fork, e, a)
    ensures forall i :: FirstShown(fork, es, a, i) ==>
      a in PubkeyMap(fork, es) && PubkeyMap(fork, es)[a] == (es[i].height, es[i].row.pubkey)
  {
    hide ShowsKey, PubkeyMap;
    PubkeyMapNext(fork, es, a);
    if es != [] {
      var n := |es| - 1;
      var init := es[..n];
      PubkeyMapIs(fork, init, a);
      assert es == init + [es[n]];
      forall i | FirstShown(fork, es, a, i)
        ensures a in PubkeyMap(fork, es) && PubkeyMap(fork, es)[a] == (es[i].height, es[i].row.pubkey)
      {
        if i < n {
          assert FirstShown(fork, init, a, i);
        } else {
          NoneShown(fork, es, a, n);
        }
      }
    }
  }

  lemma {:induction false} NoneShown(fork: Option<nat>, es: seq<Entry>, a: Address, n: nat)
    requires FirstShown(fork, es, a, n)
    ensures !exists e :: e in es[..n] && ShowsKey(fork, e, a)
  {
    hide ShowsKey;
    assert forall j :: 0 <= j < n ==> es[..n][j] == es[j];
  }

  lemma {:induction false} TeachesIs(fork: Option<nat>, e: Entry)
    ensures Teaches(fork, e) <==> ShowsKey(fork, e, e.row.address)
    ensures forall a :: ShowsKey(fork, e, a) ==> a == e.row.address
  {
  }

  function DifficultyMap(chain: seq<Block>): map<nat, Bytes> {
    if chain == [] then map[] else
      var b, m := chain[|chain| - 1], DifficultyMap(chain[..|chain| - 1]);
      if b.difficulty.Some? then m[b.height := b.difficulty.value] else m
  }

  /** Block hash to the last height that carries it. */
  function HashMap(chain: seq<Block>): map<Bytes, nat> {
    if chain == [] then map[] else
      HashMap(chain[..|chain| - 1])[chain[|chain| - 1].hash := chain[|chain| - 1].height]
  }

  lemma {:induction false} PutTxidsConcat(m: map<Txid, nat>, fork: Option<nat>, es: seq<Entry>, fs: seq<Entry>)
    ensures PutTxids(m, fork, es + fs) == PutTxids(PutTxids(m, fork, es), fork, fs)
  {
    if fs == [] {
      assert es + fs == es;
    } else {
      Snoc(es, fs);
      PutTxidsConcat(m, fork, es, fs[..|fs| - 1]);
    }
  }

  lemma {:induction false} PutPubkeysConcat(m: map<Address, (nat, Bytes)>, fork: Option<nat>, es: seq<Entry>,
                                            fs: seq<Entry>)
    ensures PutPubkeys(m, fork, es + fs) == PutPubkeys(PutPubkeys(m, fork, es), fork, fs)
  {
    if fs == [] {
      assert es + fs == es;
    } else {
      Snoc(es, fs);
      PutPubkeysConcat(m, fork, es, fs[..|fs| - 1]);
    }
  }

  lemma {:induction false} TxidMapKeys(fork: Option<nat>, es: seq<Entry>, t: Txid)
    ensures t in TxidMap(fork, es) <==> t in Txids(fork, es)
    ensures t in TxidMap(fork, es) ==>
      exists e :: e in es && PostFork(fork, e.height) && TxidOf(e.row) == t && TxidMap(fork, es)[t] == e.height
  {
    if es != [] {
      var n := |es| - 1;
      TxidMapKeys(fork, es[..n], t);
      assert es == es[..n] + [es[n]];
    }
  }

  /** The txid index holds the height of the last row that carries a txid. */
  lemma {:induction false} TxidMapLast(fork: Option<nat>, es: seq<Entry>, i: nat)
    requires i < |es| && fork.Some? && es[i].height >= fork.value
    requires forall j :: i < j < |es| && es[j].height >= fork.value ==> TxidOf(es[j].row) != TxidOf(es[i].row)
    ensures TxidOf(es[i].row) in TxidMap(fork, es) && TxidMap(fork, es)[TxidOf(es[i].row)] == es[i].height
    decreases |es|
  {
    hide TxidOf;
    var n := |es| - 1;
    if i < n {
      TxidMapLast(fork, es[..n], i);
    }
  }

  /** The hash map holds the height of the last block with a hash. */
  lemma {:induction false} HashMapLast(chain: seq<Block>, i: nat)
    requires i < |chain| && forall j :: i < j < |chain| ==> chain[j].hash != chain[i].hash
    ensures chain[i].hash in HashMap(chain) && HashMap(chain)[chain[i].hash] == chain[i].height
    decreases |chain|
  {
    var n := |chain| - 1;
    if i < n {
      HashMapLast(chain[..n], i);
    }
  }

  lemma {:induction false} HashMapKeys(chain: seq<Block>, h: Bytes)
    ensures h in HashMap(chain) <==> exists b :: b in chain && b.hash == h
    ensures h in HashMap(chain) ==> exists b :: b in chain && b.hash == h && HashMap(chain)[h] == b.height
  {
    if chain != [] {
      var n := |chain| - 1;
      HashMapKeys(chain[..n], h);
      assert forall b :: b in chain <==> b in chain[..n] || b == chain[n];
    }
  }
}
