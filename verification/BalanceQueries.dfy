/** Balance reads: the maintained entry, recent rewards, and the balance as of a past height. */
module BalanceQueries {
  import opened Wrappers
  import opened ByteStrings
  import opened KvStore
  import opened Transactions
  import opened Ledger
  import opened IndexKeys
  import opened AddrBytes
  import opened StoreIndex
  import opened StoreSpec
  import opened BlockStores
  import opened StoreQueries
  import opened AddressHistory

  /** `balance_parts`: the maintained entry is the fold over the whole chain. */
  method BalanceParts(codec: Codec, fork: Option<nat>, db: Db, a: Address, ghost chain: seq<Block>)
    returns (parts: Parts)
    requires Refines(codec, fork, db, chain)
    ensures parts == Total(db.alloc, Entries(chain), a)
  {
    hide Refines, Entries, Total;
    RefinesParts(codec, fork, db, chain);
    parts := PartsAt(db.bal, a);
  }

  // ------------------------------------------------------------------ recent rewards

  /** Rewards credited to an address above a height. */
  function RewardAbove(es: seq<Entry>, a: Bytes, above: int): int {
    if es == [] then 0 else
      var e := es[|es| - 1];
      RewardAbove(es[..|es| - 1], a, above) + (if e.row.recipient == a && e.height > above then e.row.reward else 0)
  }

  lemma {:induction false} RewardConcat(es: seq<Entry>, fs: seq<Entry>, a: Bytes, above: int)
    ensures RewardAbove(es + fs, a, above) == RewardAbove(es, a, above) + RewardAbove(fs, a, above)
  {
    if fs == [] {
      assert es + fs == es;
    } else {
      Snoc(es, fs);
      assert (es + fs)[..|es + fs| - 1] == es + fs[..|fs| - 1];
      RewardConcat(es, fs[..|fs| - 1], a, above);
    }
  }

  lemma {:induction false} RewardNone(es: seq<Entry>, a: Bytes, above: int)
    requires forall e :: e in es ==> e.height <= above
    ensures RewardAbove(es, a, above) == 0
  {
    if es != [] {
      assert es[|es| - 1] in es;
      RewardNone(es[..|es| - 1], a, above);
    }
  }

  lemma {:induction false} RewardAll(es: seq<Entry>, a: Bytes, above: int)
    requires forall e :: e in es ==> e.height > above
    ensures RewardAbove(es, a, above) == PartsOf(es, a).reward
  {
    if es != [] {
      assert es[|es| - 1] in es;
      RewardAll(es[..|es| - 1], a, above);
    }
  }

  /** The rewards above a height are those that the blocks above it pay. */
  lemma {:induction false} RewardAboveIs(fork: Option<nat>, chain: seq<Block>, a: Bytes, above: int)
    requires WellFormed(fork, chain)
    ensures RewardAbove(Entries(chain), a, above) == PartsOf(Entries(chain[KeptCount(chain, above)..]), a).reward
  {
    hide Entries, PartsOf, RewardAbove, KeptCount;
    var k := KeptCount(chain, above);
    KeptHeights(fork, chain, above);
    EntriesSplit(chain, k);
    RewardConcat(Entries(chain[..k]), Entries(chain[k..]), a, above);
    RewardNone(Entries(chain[..k]), a, above);
    RewardAll(Entries(chain[k..]), a, above);
  }

  lemma {:induction false} RewardFrom(fork: Option<nat>, chain: seq<Block>, a: Bytes, k: nat)
    requires WellFormed(fork, chain) && chain != [] && chain[0].height == 1 && k <= |chain|
    ensures RewardAbove(Entries(chain), a, k) == PartsOf(Entries(chain[k..]), a).reward
  {
    hide Entries, PartsOf, RewardAbove, BlockFits;
    assert KeptCount(chain, k) == k;
    RewardAboveIs(fork, chain, a, k);
  }

  function SumRewards(es: seq<Entry>): int {
    if es == [] then 0 else SumRewards(es[..|es| - 1]) + es[|es| - 1].row.reward
  }

  function RewardQuery(a: Address, above: int): Query {
    Query(Recipient, a, Some(above + 1), None)
  }

  lemma {:induction false} RewardAboveIsSum(es: seq<Entry>, a: Address, above: int)
    ensures SumRewards(Select(RewardQuery(a, above), es)) == RewardAbove(es, a, above)
  {
    if es != [] {
      var n := |es| - 1;
      RewardAboveIsSum(es[..n], a, above);
      var init := Select(RewardQuery(a, above), es[..n]);
      assert (init + [es[n]])[..|init|] == init;
    }
  }

  lemma {:induction false} NoRewards(es: seq<Entry>)
    ensures SumRewards(es[..0]) == 0
  {
  }

  lemma {:induction false} SumRewardsNext(es: seq<Entry>, i: nat)
    requires i < |es|
    ensures SumRewards(es[..i + 1]) == SumRewards(es[..i]) + es[i].row.reward
  {
    assert es[..i + 1][..i] == es[..i];
  }

  /** The rows of a reverse scan, last one first. */
  ghost predicate Backwards(codec: Codec, db: Db, ps: seq<Pos>, want: seq<Entry>) {
    && |ps| == |want|
    && forall i :: 0 <= i < |ps| ==> RowAt(codec, db, ps[i].height, ps[i].idx) == Some(want[|want| - 1 - i].row)
  }

  lemma {:induction false} BackwardsRead(codec: Codec, db: Db, ps: seq<Pos>, want: seq<Entry>)
    requires ps == Reverse(Positions(want)) && Readable(codec, db, want)
    ensures Backwards(codec, db, ps, want)
  {
    hide RowAt;
    forall i | 0 <= i < |ps| ensures RowAt(codec, db, ps[i].height, ps[i].idx) == Some(want[|want| - 1 - i].row) {
      assert ps[i] == PosOf(want[|want| - 1 - i]) && want[|want| - 1 - i] in want;
    }
  }

  lemma {:induction false} RewardStored(codec: Codec, fork: Option<nat>, db: Db, chain: seq<Block>, a: Bytes,
                                        above: int)
    requires Refines(codec, fork, db, chain)
    ensures RewardAbove(Entries(chain), a, above) == PartsOf(Entries(chain[KeptCount(chain, above)..]), a).reward
  {
    hide Derived, PartsOf, RewardAbove, Entries, KeptCount;
    RewardAboveIs(fork, chain, a, above);
  }

  /** `reward_units_since` */
  method RewardUnitsSince(codec: Codec, fork: Option<nat>, db: Db, a: Address, above: int, ghost chain: seq<Block>)
    returns (total: int)
    requires Refines(codec, fork, db, chain) && -HEIGHT_LIMIT - 1 <= above < HEIGHT_LIMIT - 1
    ensures total == RewardAbove(Entries(chain), a, above)
    ensures total == PartsOf(Entries(chain[KeptCount(chain, above)..]), a).reward
  {
    hide Refines, WellFormed, Entries, Select, Scannable, RowAt, AddrKeys, RewardAbove, SumRewards, Positions, Reverse;
    hide PartsOf, KeptCount;
    RewardStored(codec, fork, db, chain, a, above);
    var q := RewardQuery(a, above);
    ScannableChain(codec, fork, db, chain);
    RewardAboveIsSum(Entries(chain), a, above);
    SelectReadable(codec, fork, db, chain, q);
    ghost var want := Select(q, Entries(chain));
    TakeAll(want);
    NoRewards(want);
    var ps := AddrIter(db.index.addr, q, true, Entries(chain));
    BackwardsRead(codec, db, ps, want);
    total := 0;
    var i := 0;
    ghost var n := |want|;
    while i < |ps|
      invariant 0 <= n <= |want| == |ps| && i == |ps| - n
      invariant total + SumRewards(want[..n]) == SumRewards(want)
    {
      n := n - 1;
      SumRewardsNext(want, n);
      var r := RowAt(codec, db, ps[i].height, ps[i].idx).value;
      if r.reward != 0 {
        total := total + r.reward;
      }
      i := i + 1;
    }
  }

  lemma {:induction false} SelectReadable(codec: Codec, fork: Option<nat>, db: Db, chain: seq<Block>, q: Query)
    requires Refines(codec, fork, db, chain)
    ensures Readable(codec, db, Select(q, Entries(chain)))
  {
    hide Refines, RowAt, Entries;
    var sel := Select(q, Entries(chain));
    forall i | 0 <= i < |sel| ensures RowAt(codec, db, sel[i].height, sel[i].idx) == Some(sel[i].row) {
      assert sel[i] in sel;
      RowAtEntry(codec, fork, db, chain, sel[i]);
    }
  }

  // ------------------------------------------------------------------ balance as of a height

  function AboveQuery(a: Address, h: int): Query {
    Query(Any, a, Some(h + 1), None)
  }

  /** Rows that do not touch the address do nothing to it. */
  lemma {:induction false} SelectParts(es: seq<Entry>, a: Address, h: int)
    requires forall e :: e in es ==> e.height > h
    ensures PartsOf(Select(AboveQuery(a, h), es), a) == PartsOf(es, a)
  {
    if es != [] {
      var n := |es| - 1;
      assert es[n] in es;
      SelectParts(es[..n], a, h);
      PartsSnoc(Select(AboveQuery(a, h), es[..n]), es[n], a);
    }
  }

  lemma {:induction false} SelectNothing(es: seq<Entry>, a: Address, h: int)
    requires forall e :: e in es ==> e.height <= h
    ensures Select(AboveQuery(a, h), es) == []
  {
    SomeElement(Select(AboveQuery(a, h), es));
  }

  /** The entries above a height, from the last block and from the blocks before it. */
  lemma {:induction false} AboveSnoc(fork: Option<nat>, chain: seq<Block>, h: int)
    requires WellFormed(fork, chain) && chain != []
    ensures var n := |chain| - 1;
      Entries(chain[KeptCount(chain, h)..]) ==
        if KeptCount(chain, h) == |chain| then []
          else Entries(chain[..n][KeptCount(chain[..n], h)..]) + BlockEntries(chain[n])
    ensures KeptCount(chain, h) == |chain| ==> KeptCount(chain[..|chain| - 1], h) == |chain| - 1
  {
    var n, k := |chain| - 1, KeptCount(chain, h);
    if k == |chain| {
      assert chain[k..] == [];
    } else {
      assert KeptCount(chain[..n], h) == k;
      assert chain[k..] == chain[..n][k..] + [chain[n]];
      EntriesSnoc(chain[..n][k..], chain[n]);
    }
  }

  /** The rows above a height, newest block first, add up to the blocks above it. */
  lemma {:induction false} NewestFirstParts(fork: Option<nat>, chain: seq<Block>, a: Address, h: int)
    requires WellFormed(fork, chain)
    ensures PartsOf(SelectNewestFirst(AboveQuery(a, h), chain), a) == PartsOf(Entries(chain[KeptCount(chain, h)..]), a)
  {
    hide Select, PartsOf, Entries, KeptCount;
    if chain == [] {
      TakeAll(chain);
      assert Entries([]) == [] by { EntriesNone(); }
    } else {
      var n := |chain| - 1;
      var q, last := AboveQuery(a, h), BlockEntries(chain[n]);
      var init := Entries(chain[..n][KeptCount(chain[..n], h)..]);
      NewestFirstParts(fork, chain[..n], a, h);
      PartsConcat(Select(q, last), SelectNewestFirst(q, chain[..n]), a);
      AboveSnoc(fork, chain, h);
      if KeptCount(chain, h) == |chain| {
        LastKept(fork, chain, h);
        SelectNothing(last, a, h);
        TakeAll(chain[..n]);
        EntriesNone();
        PlusNone(a);
      } else {
        LastRemoved(fork, chain, h);
        SelectParts(last, a, h);
        PartsConcat(init, last, a);
        PlusCommutes(PartsOf(init, a), PartsOf(last, a));
      }
    }
  }

  lemma {:induction false} LastKept(fork: Option<nat>, chain: seq<Block>, h: int)
    requires WellFormed(fork, chain) && chain != [] && KeptCount(chain, h) == |chain|
    ensures chain[|chain| - 1].height <= h
  {
  }

  lemma {:induction false} LastRemoved(fork: Option<nat>, chain: seq<Block>, h: int)
    requires WellFormed(fork, chain) && chain != [] && KeptCount(chain, h) != |chain|
    ensures chain[|chain| - 1].height > h
  {
  }

  lemma {:induction false} EntriesNone()
    ensures Entries([]) == []
  {
  }

  lemma {:induction false} PlusNone(a: Bytes)
    ensures PartsOf([], a) == ZERO && ZERO.Plus(ZERO) == ZERO
  {
  }

  lemma {:induction false} PlusCommutes(x: Parts, y: Parts)
    ensures x.Plus(y) == y.Plus(x)
  {
  }

  /** `_parts_upto` */
  method PartsUpto(codec: Codec, fork: Option<nat>, db: Db, a: Address, h: int, ghost chain: seq<Block>)
    returns (parts: Parts)
    requires Refines(codec, fork, db, chain)
    ensures parts == if chain == [] || h < 1 then ZERO else Total(db.alloc, Entries(Kept(chain, h)), a)
  {
    hide Refines, WellFormed, Entries, Total, History, PartsOf;
    RefinesParts(codec, fork, db, chain);
    parts := BalanceParts(codec, fork, db, a, chain);
    StoredHeightsFit(codec, fork, db, chain);
    var tip := TipOf(db.blocks);
    TipOfChain(codec, fork, db, chain, tip);
    TipBelow(codec, fork, db, chain);
    if tip.None? || h < 1 {
      return ZERO;
    }
    if h < tip.value {
      var rows := AddressRows(codec, fork, db, AboveQuery(a, h), true, 0, 0, chain);
      parts := SubtractRows(parts, rows, a);
      PartsBelow(fork, db.alloc, chain, a, h);
    } else {
      KeptAll(fork, chain, h);
    }
  }

  lemma {:induction false} TipOfChain(codec: Codec, fork: Option<nat>, db: Db, chain: seq<Block>, tip: Option<nat>)
    requires Refines(codec, fork, db, chain)
    requires tip.None? <==> db.blocks == map[]
    requires tip.Some? ==> tip.value in db.blocks && forall h :: h in db.blocks ==> h <= tip.value
    ensures tip == if chain == [] then None else Some(chain[|chain| - 1].height)
  {
    TipIsLast(codec, db, chain, tip);
  }

  lemma {:induction false} KeptAll(fork: Option<nat>, chain: seq<Block>, h: int)
    requires WellFormed(fork, chain) && chain != [] && h >= chain[|chain| - 1].height
    ensures Kept(chain, h) == chain
  {
    TakeAll(chain);
  }

  /** Taking the rows above a height off the whole-chain total leaves the total up to it. */
  lemma {:induction false} PartsBelow(fork: Option<nat>, alloc: map<Address, int>, chain: seq<Block>, a: Address,
                                      h: int)
    requires WellFormed(fork, chain)
    ensures var above := Page(History(AboveQuery(a, h), true, chain), 0, 0);
      Without(Total(alloc, Entries(chain), a), above, a) == Total(alloc, Entries(Kept(chain, h)), a)
  {
    hide PartsOf, Entries, SelectNewestFirst, Total, Without, WellFormed;
    var k, above := KeptCount(chain, h), SelectNewestFirst(AboveQuery(a, h), chain);
    NewestFirstParts(fork, chain, a, h);
    EntriesSplit(chain, k);
    TakeAll(above);
    TotalWithout(alloc, Entries(chain[..k]), Entries(chain[k..]), above, a);
  }

  lemma {:induction false} TotalWithout(alloc: map<Address, int>, es: seq<Entry>, fs: seq<Entry>, above: seq<Entry>,
                                        a: Address)
    requires PartsOf(above, a) == PartsOf(fs, a)
    ensures Without(Total(alloc, es + fs, a), above, a) == Total(alloc, es, a)
  {
    hide PartsOf;
    PartsConcat(es, fs, a);
  }

  lemma {:induction false} MinusSnoc(p: Parts, x: Parts, y: Parts)
    ensures p.Plus(x.Plus(y).Signed(true)) == p.Plus(x.Signed(true)).Plus(y.Signed(true))
  {
  }

  /** The body of the loop of `_parts_upto`: a self-send is taken off both sides. */
  method SubtractRow(parts: Parts, r: Row, a: Address) returns (left: Parts)
    ensures left == parts.Plus(Effect(r, a).Signed(true))
  {
    left := parts;
    if r.recipient == a {
      left := left.(credit := left.credit - r.amount, reward := left.reward - r.reward);
    }
    if r.address == a {
      left := left.(debit := left.debit - r.amount, fee := left.fee - r.fee);
    }
  }

  method SubtractRows(parts: Parts, rows: seq<Entry>, a: Address) returns (left: Parts)
    ensures left == Without(parts, rows, a)
  {
    hide Without;
    left := parts;
    TakeAll(rows);
    WithoutNone(parts, a);
    var i := 0;
    while i < |rows|
      invariant 0 <= i <= |rows| && left == Without(parts, rows[..i], a)
    {
      TakeNext(rows, i);
      WithoutSnoc(parts, rows[..i], rows[i], a);
      left := SubtractRow(left, rows[i].row, a);
      i := i + 1;
    }
  }

  /** A total with what some rows did taken back. */
  ghost function Without(parts: Parts, rows: seq<Entry>, a: Address): Parts {
    parts.Plus(PartsOf(rows, a).Signed(true))
  }

  lemma {:induction false} WithoutNone(parts: Parts, a: Address)
    ensures Without(parts, [], a) == parts
  {
  }

  lemma {:induction false} WithoutSnoc(parts: Parts, rows: seq<Entry>, e: Entry, a: Address)
    ensures Without(parts, rows + [e], a) == Without(parts, rows, a).Plus(Effect(e.row, a).Signed(true))
  {
    hide Effect;
    PartsSnoc(rows, e, a);
    MinusSnoc(parts, PartsOf(rows, a), Effect(e.row, a));
  }
}
