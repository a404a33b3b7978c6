/** The read side of `block_store.py`: every query is a filter or a fold over the chain's entries. */
module StoreQueries {
  import opened Wrappers
  import opened ByteStrings
  import opened KvStore
  import opened Ledger
  import opened IndexKeys
  import opened BlockBody
  import opened AddrBytes
  import opened StoreIndex
  import opened StoreSpec

  // ------------------------------------------------------------------ ordered lists

  ghost predicate Sorted<T(!new)>(s: seq<T>, less: (T, T) -> bool) {
    forall i, j :: 0 <= i < j < |s| ==> less(s[i], s[j])
  }

  ghost predicate Asymmetric<T(!new)>(less: (T, T) -> bool) {
    forall x, y :: less(x, y) ==> !less(y, x)
  }

  /** A strictly ordered list is determined by its elements. */
  lemma {:induction false} SortedUnique<T(!new)>(a: seq<T>, b: seq<T>, less: (T, T) -> bool)
    requires Asymmetric(less) && Sorted(a, less) && Sorted(b, less)
    requires forall x :: x in a <==> x in b
    ensures a == b
  {
    if a == [] || b == [] {
      SomeElement(a);
      SomeElement(b);
    } else {
      assert a[0] in b && b[0] in a;
      assert a[0] == b[0];
      forall x ensures x in a[1..] <==> x in b[1..] {
        assert x in a[1..] <==> x in a && x != a[0];
        assert x in b[1..] <==> x in b && x != b[0];
      }
      SortedUnique(a[1..], b[1..], less);
    }
  }

  // ------------------------------------------------------------------ reading rows

  /** `_row_at` */
  function RowAt(codec: Codec, db: Db, h: int, idx: nat): Option<Row> {
    if h < 0 || h !in db.blocks then None else
      var rows :- Expand(codec, db.keys, db.blocks[h]);
      if idx < |rows| then Some(rows[idx]) else None
  }

  lemma {:induction false} RowAtEntry(codec: Codec, fork: Option<nat>, db: Db, chain: seq<Block>, e: Entry)
    requires Refines(codec, fork, db, chain) && e in Entries(chain)
    ensures RowAt(codec, db, e.height, e.idx) == Some(e.row) && Keyable(e)
  {
    hide Refines, Derived, Balances, Expand;
    RefinesParts(codec, fork, db, chain);
    EntryFits(fork, chain, e);
    RefinesStored(codec, fork, db, chain, e.height - chain[0].height);
  }

  /** Two entries at one position are one entry. */
  lemma {:induction false} EntryAtPosition(fork: Option<nat>, chain: seq<Block>, e: Entry, f: Entry)
    requires WellFormed(fork, chain) && e in Entries(chain) && f in Entries(chain)
    requires e.height == f.height && e.idx == f.idx
    ensures e == f
  {
    EntryFits(fork, chain, e);
    EntryFits(fork, chain, f);
  }

  // ------------------------------------------------------------------ signatures

  /** The rows that carry a signature, up to a height. */
  predicate Carries(sig: Bytes, max: Option<int>, e: Entry) {
    e.row.signature == sig && (max.Some? ==> e.height <= max.value)
  }

  /** The reference answer: scan every row of the chain. */
  function Carriers(sig: Bytes, max: Option<int>, es: seq<Entry>): (r: seq<Entry>)
    ensures forall e :: e in r <==> e in es && Carries(sig, max, e)
  {
    if es == [] then [] else
      var init := Carriers(sig, max, es[..|es| - 1]);
      assert es == es[..|es| - 1] + [es[|es| - 1]];
      if Carries(sig, max, es[|es| - 1]) then init + [es[|es| - 1]] else init
  }

  lemma {:induction false} CarriersInOrder(sig: Bytes, max: Option<int>, es: seq<Entry>)
    requires InOrder(es)
    ensures Sorted(Carriers(sig, max, es), Before)
  {
    if es != [] {
      var n := |es| - 1;
      CarriersInOrder(sig, max, es[..n]);
      var init := Carriers(sig, max, es[..n]);
      forall i | 0 <= i < |init| ensures Before(init[i], es[n]) {
        assert init[i] in init;
        var j :| 0 <= j < n && es[..n][j] == init[i];
      }
    }
  }

  /** The entry behind an index key, if its row carries the signature. */
  function Hit(codec: Codec, db: Db, sig: Bytes, max: Option<int>, k: Bytes): Option<Entry> {
    if |k| < 10 then None else
      var (h, idx) := SplitPos(k);
      if h < 0 || (max.Some? && h > max.value) then None else
        var r :- RowAt(codec, db, h, idx);
        if r.signature == sig then Some(Entry(h, idx, r)) else None
  }

  /** What the lookup collects from a list of keys. */
  function Hits(codec: Codec, db: Db, sig: Bytes, max: Option<int>, ks: seq<Bytes>): seq<Entry> {
    if ks == [] then [] else
      var init, last := Hits(codec, db, sig, max, ks[..|ks| - 1]), Hit(codec, db, sig, max, ks[|ks| - 1]);
      if last.Some? then init + [last.value] else init
  }

  lemma {:induction false} HitsAre(codec: Codec, db: Db, sig: Bytes, max: Option<int>, ks: seq<Bytes>, e: Entry)
    ensures e in Hits(codec, db, sig, max, ks) <==> exists k :: k in ks && Hit(codec, db, sig, max, k) == Some(e)
  {
    hide Hit;
    if ks != [] {
      var n := |ks| - 1;
      HitsAre(codec, db, sig, max, ks[..n], e);
      assert ks == ks[..n] + [ks[n]];
    }
  }

  /** A key of the signature index is a hit exactly when its row carries the signature. */
  lemma {:induction false} HitOfKey(codec: Codec, fork: Option<nat>, db: Db, chain: seq<Block>, sig: Bytes,
                                    max: Option<int>, k: Bytes) returns (e: Entry)
    requires Refines(codec, fork, db, chain) && k in SigKeys(Entries(chain))
    ensures e in Entries(chain) && Keyable(e) && Indexable(e.row.signature)
    ensures k == SigKey(e.row.signature, e.height, e.idx)
    ensures Hit(codec, db, sig, max, k) == if Carries(sig, max, e) then Some(e) else None
  {
    hide Refines, Entries, RowAt, SplitPos;
    e :| e in Entries(chain) && Keyable(e) && Indexable(e.row.signature)
      && k == SigKey(e.row.signature, e.height, e.idx);
    SplitPosition(SigPrefix(e.row.signature), e.height, e.idx);
    RowAtEntry(codec, fork, db, chain, e);
  }

  /** Keys of one signature sort as their positions do. */
  lemma {:induction false} SigKeyOrder(e: Entry, f: Entry)
    requires Keyable(e) && Keyable(f) && e.row.signature == f.row.signature
    ensures LexLess(SigKey(e.row.signature, e.height, e.idx), SigKey(f.row.signature, f.height, f.idx)) <==>
      Before(e, f)
  {
    LexCommonPrefix(SigPrefix(e.row.signature), Position(e.height, e.idx), Position(f.height, f.idx));
    PositionOrder(e.height, e.idx, f.height, f.idx);
  }

  /** The keys a lookup scans. */
  ghost function ScannedKeys(db: Db, sig: Bytes): seq<Bytes> {
    WithPrefix(SortedKeys(db.index.sig), SigPrefix(sig))
  }

  /** Hits come out in chain order. */
  lemma {:induction false} HitsInOrder(codec: Codec, fork: Option<nat>, db: Db, chain: seq<Block>, sig: Bytes,
                                       max: Option<int>, ks: seq<Bytes>)
    requires Refines(codec, fork, db, chain) && Ascending(ks)
    requires forall k :: k in ks ==> k in SigKeys(Entries(chain))
    ensures Sorted(Hits(codec, db, sig, max, ks), Before)
  {
    hide Refines, Hit, SigKeys, Entries;
    if ks != [] {
      var n := |ks| - 1;
      HitsInOrder(codec, fork, db, chain, sig, max, ks[..n]);
      var init, last := Hits(codec, db, sig, max, ks[..n]), Hit(codec, db, sig, max, ks[n]);
      if last.Some? {
        forall i | 0 <= i < |init| ensures Before(init[i], last.value) {
          HitsAre(codec, db, sig, max, ks[..n], init[i]);
          var k :| k in ks[..n] && Hit(codec, db, sig, max, k) == Some(init[i]);
          HitBefore(codec, fork, db, chain, sig, max, k, ks[n]);
        }
      }
    }
  }

  lemma {:induction false} HitBefore(codec: Codec, fork: Option<nat>, db: Db, chain: seq<Block>, sig: Bytes,
                                     max: Option<int>, k: Bytes, k': Bytes)
    requires Refines(codec, fork, db, chain) && k in SigKeys(Entries(chain)) && k' in SigKeys(Entries(chain))
    requires LexLess(k, k')
    requires Hit(codec, db, sig, max, k).Some? && Hit(codec, db, sig, max, k').Some?
    ensures Before(Hit(codec, db, sig, max, k).value, Hit(codec, db, sig, max, k').value)
  {
    hide Refines, Hit, SigKeys, Entries;
    var e := HitOfKey(codec, fork, db, chain, sig, max, k);
    var f := HitOfKey(codec, fork, db, chain, sig, max, k');
    SigKeyOrder(e, f);
  }

  /** The truncated-key lookup finds exactly the rows a scan of the whole chain finds, in chain order. */
  lemma {:induction false} LookupIsScan(codec: Codec, fork: Option<nat>, db: Db, chain: seq<Block>, sig: Bytes,
                                        max: Option<int>)
    requires Refines(codec, fork, db, chain)
    ensures Hits(codec, db, sig, max, ScannedKeys(db, sig)) ==
      if Indexable(sig) then Carriers(sig, max, Entries(chain)) else []
  {
    hide Refines, Entries, SigKeys, Hits, Hit, Carriers;
    RefinesParts(codec, fork, db, chain);
    var ks, es := ScannedKeys(db, sig), Entries(chain);
    WithPrefixAscending(SortedKeys(db.index.sig), SigPrefix(sig));
    HitsInOrder(codec, fork, db, chain, sig, max, ks);
    EntriesInOrder(fork, chain);
    CarriersInOrder(sig, max, es);
    var want := if Indexable(sig) then Carriers(sig, max, es) else [];
    forall e ensures e in Hits(codec, db, sig, max, ks) <==> e in want {
      LookupFinds(codec, fork, db, chain, sig, max, e);
    }
    SortedUnique(Hits(codec, db, sig, max, ks), want, Before);
  }

  lemma {:induction false} LookupFinds(codec: Codec, fork: Option<nat>, db: Db, chain: seq<Block>, sig: Bytes,
                                       max: Option<int>, e: Entry)
    requires Refines(codec, fork, db, chain)
    ensures e in Hits(codec, db, sig, max, ScannedKeys(db, sig)) <==>
      Indexable(sig) && e in Entries(chain) && Carries(sig, max, e)
  {
    hide Refines, Entries, Hits, Hit;
    RefinesParts(codec, fork, db, chain);
    var ks := ScannedKeys(db, sig);
    HitsAre(codec, db, sig, max, ks, e);
    if e in Hits(codec, db, sig, max, ks) {
      var k :| k in ks && Hit(codec, db, sig, max, k) == Some(e);
      var f := HitOfKey(codec, fork, db, chain, sig, max, k);
    }
    if Indexable(sig) && e in Entries(chain) && Carries(sig, max, e) {
      RowAtEntry(codec, fork, db, chain, e);
      var k := SigKey(sig, e.height, e.idx);
      assert k in SigKeys(Entries(chain));
      var f := HitOfKey(codec, fork, db, chain, sig, max, k);
      SplitPosition(SigPrefix(sig), e.height, e.idx);
      SplitPosition(SigPrefix(f.row.signature), f.height, f.idx);
      EntryAtPosition(fork, chain, e, f);
      assert SigPrefix(sig) <= k;
    }
  }

  function Limited<T>(s: seq<T>, limit: nat): seq<T> {
    if limit == 0 || |s| <= limit then s else s[..limit]
  }

  lemma {:induction false} HitsPrefix(codec: Codec, db: Db, sig: Bytes, max: Option<int>, ks: seq<Bytes>, n: nat)
    requires n <= |ks|
    ensures Hits(codec, db, sig, max, ks[..n]) <= Hits(codec, db, sig, max, ks)
    decreases |ks|
  {
    hide Hit;
    if n < |ks| {
      HitsPrefix(codec, db, sig, max, ks[..|ks| - 1], n);
      assert ks[..|ks| - 1][..n] == ks[..n];
    } else {
      TakeAll(ks);
    }
  }

  lemma {:induction false} HitsNone(codec: Codec, db: Db, sig: Bytes, max: Option<int>)
    ensures Hits(codec, db, sig, max, []) == []
  {
  }

  lemma {:induction false} HitsNext(codec: Codec, db: Db, sig: Bytes, max: Option<int>, ks: seq<Bytes>, i: nat)
    requires i < |ks|
    ensures var hit, got := Hit(codec, db, sig, max, ks[i]), Hits(codec, db, sig, max, ks[..i]);
      Hits(codec, db, sig, max, ks[..i + 1]) == if hit.Some? then got + [hit.value] else got
    ensures Hits(codec, db, sig, max, ks[..i + 1]) <= Hits(codec, db, sig, max, ks)
  {
    hide Hit;
    assert ks[..i + 1][..i] == ks[..i];
    HitsPrefix(codec, db, sig, max, ks, i + 1);
  }

  /** `signature_rows`; a limit of 0 means no limit. */
  method SignatureRows(codec: Codec, fork: Option<nat>, db: Db, sig: Bytes, max: Option<int>, limit: nat,
                       ghost chain: seq<Block>)
    returns (out: seq<Entry>)
    requires Refines(codec, fork, db, chain)
    ensures out == Limited(if Indexable(sig) then Carriers(sig, max, Entries(chain)) else [], limit)
  {
    hide Refines, Hits, Hit, Entries, Carriers;
    LookupIsScan(codec, fork, db, chain, sig, max);
    var ks := Iterate(SortedKeys(db.index.sig), SigPrefix(sig));
    TakeAll(ks);
    out := [];
    var i := 0;
    HitsNone(codec, db, sig, max);
    while i < |ks|
      invariant 0 <= i <= |ks| && out == Hits(codec, db, sig, max, ks[..i])
      invariant limit == 0 || |out| < limit
    {
      HitsNext(codec, db, sig, max, ks, i);
      var hit := Hit(codec, db, sig, max, ks[i]);
      if hit.Some? {
        out := out + [hit.value];
        if limit != 0 && |out| >= limit {
          return;
        }
      }
      i := i + 1;
    }
  }

  /** The answer to a signature query: rows of the chain that carry it up to the height, the first `limit` of them. */
  lemma {:induction false} CarriersAnswer(fork: Option<nat>, chain: seq<Block>, sig: Bytes, max: Option<int>,
                                          limit: nat)
    requires WellFormed(fork, chain)
    ensures var out := Limited(Carriers(sig, max, Entries(chain)), limit);
      && InOrder(out) && (limit > 0 ==> |out| <= limit)
      && (forall e :: e in out ==>
            e in Entries(chain) && e.row.signature == sig && (max.Some? ==> e.height <= max.value))
      && (forall e :: e in Entries(chain) && e.row.signature == sig && (max.Some? ==> e.height <= max.value) ==>
            e in out || (|out| == limit && forall f :: f in out ==> Before(f, e)))
  {
    hide Entries, Before;
    var all := Carriers(sig, max, Entries(chain));
    EntriesInOrder(fork, chain);
    CarriersInOrder(sig, max, Entries(chain));
    var out := Limited(all, limit);
    forall e | e in all && e !in out ensures |out| == limit && forall f :: f in out ==> Before(f, e) {
      var i :| 0 <= i < |all| && all[i] == e;
      assert i >= limit;
    }
  }

  /** `signature_exists` */
  method SignatureExists(codec: Codec, fork: Option<nat>, db: Db, sig: Bytes, max: Option<int>, ghost chain: seq<Block>)
    returns (found: bool)
    requires Refines(codec, fork, db, chain)
    ensures found <==> Indexable(sig) && exists e :: e in Entries(chain) && Carries(sig, max, e)
    ensures found <==>
      && sig != [] && sig != [48] && sig != [78, 111, 110, 101]
      && exists e :: e in Entries(chain) && e.row.signature == sig && (max.Some? ==> e.height <= max.value)
  {
    hide Refines, Entries;
    var rows := SignatureRows(codec, fork, db, sig, max, 1, chain);
    SomeElement(Carriers(sig, max, Entries(chain)));
    found := rows != [];
  }
}
