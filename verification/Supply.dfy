/** Sums of an integer function over a finite set. */
module Sums {
  ghost function SumBy<T(!new)>(s: set<T>, f: T -> int): int
    decreases |s|
  {
    if s == {} then 0 else
      var x :| x in s;
      f(x) + SumBy(s - {x}, f)
  }

  /** The order in which a set is summed does not matter. */
  lemma {:induction false} SumByTake<T(!new)>(s: set<T>, f: T -> int, x: T)
    requires x in s
    ensures SumBy(s, f) == f(x) + SumBy(s - {x}, f)
    decreases |s|
  {
    var y :| y in s && SumBy(s, f) == f(y) + SumBy(s - {y}, f);
    if y != x {
      SumByTake(s - {y}, f, x);
      SumByTake(s - {x}, f, y);
      assert s - {y} - {x} == s - {x} - {y};
    }
  }

  lemma {:induction false} SumByAdd<T(!new)>(s: set<T>, f: T -> int, g: T -> int, h: T -> int)
    requires forall a :: a in s ==> h(a) == f(a) + g(a)
    ensures SumBy(s, h) == SumBy(s, f) + SumBy(s, g)
    decreases |s|
  {
    if s != {} {
      var x :| x in s;
      SumByTake(s, f, x);
      SumByTake(s, g, x);
      SumByTake(s, h, x);
      SumByAdd(s - {x}, f, g, h);
    }
  }

  lemma {:induction false} SumBySame<T(!new)>(s: set<T>, f: T -> int, g: T -> int)
    requires forall a :: a in s ==> f(a) == g(a)
    ensures SumBy(s, f) == SumBy(s, g)
    decreases |s|
  {
    if s != {} {
      var x :| x in s;
      SumByTake(s, f, x);
      SumByTake(s, g, x);
      SumBySame(s - {x}, f, g);
    }
  }

  /** Addresses that contribute nothing can be left out of the set. */
  lemma {:induction false} SumBySubset<T(!new)>(s: set<T>, t: set<T>, f: T -> int)
    requires t <= s && forall a :: a in s && a !in t ==> f(a) == 0
    ensures SumBy(s, f) == SumBy(t, f)
    decreases |s|
  {
    if exists x :: x in s && x !in t {
      var x :| x in s && x !in t;
      SumByTake(s, f, x);
      SumBySubset(s - {x}, t, f);
    } else {
      assert s == t;
    }
  }

  ghost function Point<T(!new)>(x: T, v: int): T -> int {
    (a: T) => if a == x then v else 0
  }

  lemma {:induction false} SumByPoint<T(!new)>(s: set<T>, x: T, v: int)
    requires x in s
    ensures SumBy(s, Point(x, v)) == v
  {
    SumBySubset(s, {x}, Point(x, v));
    SumByTake({x}, Point(x, v), x);
  }
}

/** Supply conservation: the balance table sums to allocations, genesis and subsidies. */
module Supply {
  import opened Wrappers
  import opened Sums
  import opened ByteStrings
  import opened Transactions
  import opened AddrBytes
  import opened BlockBody
  import opened Ledger
  import opened StoreIndex
  import opened StoreSpec
  import opened BlockStores
  import opened Consensus
  import opened Money

  // ------------------------------------------------------------------ rows

  /** Rewards minus fees of a list of entries. */
  function Minted(es: seq<Entry>): int {
    if es == [] then 0 else Minted(es[..|es| - 1]) + es[|es| - 1].row.reward - es[|es| - 1].row.fee
  }

  lemma {:induction false} MintedConcat(es: seq<Entry>, fs: seq<Entry>)
    ensures Minted(es + fs) == Minted(es) + Minted(fs)
  {
    if fs == [] {
      assert es + fs == es;
    } else {
      Snoc(es, fs);
      assert (es + fs)[..|es + fs| - 1] == es + fs[..|fs| - 1];
      MintedConcat(es, fs[..|fs| - 1]);
    }
  }

  ghost function Touched(es: seq<Entry>): set<Address> {
    (set e | e in es :: e.row.address) + (set e | e in es :: e.row.recipient)
  }

  lemma {:induction false} TouchedSnoc(es: seq<Entry>)
    requires es != []
    ensures Touched(es[..|es| - 1]) <= Touched(es)
    ensures es[|es| - 1].row.address in Touched(es) && es[|es| - 1].row.recipient in Touched(es)
  {
    assert es[|es| - 1] in es && forall x :: x in es[..|es| - 1] ==> x in es;
  }

  function Flow(p: Parts): int {
    p.credit - p.debit
  }

  function Issued(p: Parts): int {
    p.reward - p.fee
  }

  ghost function FlowOf(es: seq<Entry>): Address -> int {
    (a: Address) => Flow(PartsOf(es, a))
  }

  ghost function IssuedOf(es: seq<Entry>): Address -> int {
    (a: Address) => Issued(PartsOf(es, a))
  }

  ghost function RowFlow(r: Row): Address -> int {
    (a: Address) => Flow(Effect(r, a))
  }

  ghost function RowIssued(r: Row): Address -> int {
    (a: Address) => Issued(Effect(r, a))
  }

  lemma {:induction false} RowFlowAt(r: Row, a: Address)
    ensures RowFlow(r)(a) == Point<Address>(r.recipient, r.amount)(a) + Point<Address>(r.address, -r.amount)(a)
  {
  }

  lemma {:induction false} RowIssuedAt(r: Row, a: Address)
    ensures RowIssued(r)(a) == Point<Address>(r.recipient, r.reward)(a) + Point<Address>(r.address, -r.fee)(a)
  {
  }

  /** A payment adds to the recipient what it takes from the sender. */
  lemma {:induction false} RowFlowSum(s: set<Address>, r: Row)
    requires r.address in s && r.recipient in s
    ensures SumBy(s, RowFlow(r)) == 0
  {
    hide *;
    SumByPoint(s, r.recipient, r.amount);
    SumByPoint(s, r.address, -r.amount);
    forall a | a in s
      ensures RowFlow(r)(a) == Point<Address>(r.recipient, r.amount)(a) + Point<Address>(r.address, -r.amount)(a)
    {
      RowFlowAt(r, a);
    }
    SumByAdd(s, Point(r.recipient, r.amount), Point(r.address, -r.amount), RowFlow(r));
  }

  lemma {:induction false} RowIssuedSum(s: set<Address>, r: Row)
    requires r.address in s && r.recipient in s
    ensures SumBy(s, RowIssued(r)) == r.reward - r.fee
  {
    hide *;
    SumByPoint(s, r.recipient, r.reward);
    SumByPoint(s, r.address, -r.fee);
    forall a | a in s
      ensures RowIssued(r)(a) == Point<Address>(r.recipient, r.reward)(a) + Point<Address>(r.address, -r.fee)(a)
    {
      RowIssuedAt(r, a);
    }
    SumByAdd(s, Point(r.recipient, r.reward), Point(r.address, -r.fee), RowIssued(r));
  }

  /** Transfers cancel over any set that holds every address named in the rows. */
  lemma {:induction false} EntriesFlow(s: set<Address>, es: seq<Entry>)
    requires Touched(es) <= s
    ensures SumBy(s, FlowOf(es)) == 0
  {
    hide Effect, Touched;
    if es == [] {
      SumBySubset(s, {}, FlowOf(es));
    } else {
      var n := |es| - 1;
      TouchedSnoc(es);
      EntriesFlow(s, es[..n]);
      RowFlowSum(s, es[n].row);
      SumByAdd(s, FlowOf(es[..n]), RowFlow(es[n].row), FlowOf(es));
    }
  }

  lemma {:induction false} EntriesIssued(s: set<Address>, es: seq<Entry>)
    requires Touched(es) <= s
    ensures SumBy(s, IssuedOf(es)) == Minted(es)
  {
    hide Effect, Touched;
    if es == [] {
      SumBySubset(s, {}, IssuedOf(es));
    } else {
      var n := |es| - 1;
      TouchedSnoc(es);
      EntriesIssued(s, es[..n]);
      RowIssuedSum(s, es[n].row);
      SumByAdd(s, IssuedOf(es[..n]), RowIssued(es[n].row), IssuedOf(es));
    }
  }

  // ------------------------------------------------------------------ the balance table

  ghost function Fixed(alloc: map<Address, int>): Address -> int {
    (a: Address) => AllocationOf(alloc, a)
  }

  ghost function FlowIn(bal: map<Address, Parts>): Address -> int {
    (a: Address) => Flow(PartsAt(bal, a))
  }

  ghost function IssuedIn(bal: map<Address, Parts>): Address -> int {
    (a: Address) => Issued(PartsAt(bal, a))
  }

  ghost function NetIn(bal: map<Address, Parts>): Address -> int {
    (a: Address) => PartsAt(bal, a).Net()
  }

  ghost function AllocationSum(alloc: map<Address, int>): int {
    SumBy(alloc.Keys, Fixed(alloc))
  }

  /** The sum of all balances in a table. */
  ghost function TableSum(bal: map<Address, Parts>): int {
    SumBy(bal.Keys, NetIn(bal))
  }

  lemma {:induction false} BalancesAt(bal: map<Address, Parts>, alloc: map<Address, int>, es: seq<Entry>, a: Address)
    requires Balances(bal, alloc, es)
    ensures PartsAt(bal, a) == Total(alloc, es, a)
  {
    hide PartsAt, Total;
  }

  lemma {:induction false} TableFlowAt(bal: map<Address, Parts>, alloc: map<Address, int>, es: seq<Entry>, a: Address)
    requires Balances(bal, alloc, es)
    ensures FlowIn(bal)(a) == FlowOf(es)(a)
  {
    hide Balances, PartsAt, PartsOf, AllocationOf;
    BalancesAt(bal, alloc, es, a);
  }

  lemma {:induction false} TableIssuedAt(bal: map<Address, Parts>, alloc: map<Address, int>, es: seq<Entry>, a: Address)
    requires Balances(bal, alloc, es)
    ensures IssuedIn(bal)(a) == Fixed(alloc)(a) + IssuedOf(es)(a)
  {
    hide Balances, PartsAt, PartsOf, AllocationOf;
    BalancesAt(bal, alloc, es, a);
  }

  lemma {:induction false} TableFlow(bal: map<Address, Parts>, alloc: map<Address, int>, es: seq<Entry>)
    requires Balances(bal, alloc, es)
    ensures SumBy(bal.Keys, FlowIn(bal)) == 0
  {
    var s := bal.Keys + Touched(es);
    SumBySubset(s, bal.Keys, FlowIn(bal));
    hide *;
    EntriesFlow(s, es);
    forall a | a in s ensures FlowIn(bal)(a) == FlowOf(es)(a) {
      TableFlowAt(bal, alloc, es, a);
    }
    SumBySame(s, FlowIn(bal), FlowOf(es));
  }

  lemma {:induction false} IssuedSubset(bal: map<Address, Parts>, s: set<Address>)
    requires bal.Keys <= s
    ensures SumBy(s, IssuedIn(bal)) == SumBy(bal.Keys, IssuedIn(bal))
  {
    SumBySubset(s, bal.Keys, IssuedIn(bal));
  }

  lemma {:induction false} AllocationSubset(alloc: map<Address, int>, s: set<Address>)
    requires alloc.Keys <= s
    ensures SumBy(s, Fixed(alloc)) == AllocationSum(alloc)
  {
    SumBySubset(s, alloc.Keys, Fixed(alloc));
  }

  lemma {:induction false} TableIssued(bal: map<Address, Parts>, alloc: map<Address, int>, es: seq<Entry>)
    requires Balances(bal, alloc, es)
    ensures SumBy(bal.Keys, IssuedIn(bal)) == AllocationSum(alloc) + Minted(es)
  {
    hide *;
    var s := bal.Keys + alloc.Keys + Touched(es);
    IssuedSubset(bal, s);
    AllocationSubset(alloc, s);
    EntriesIssued(s, es);
    forall a | a in s ensures IssuedIn(bal)(a) == Fixed(alloc)(a) + IssuedOf(es)(a) {
      TableIssuedAt(bal, alloc, es, a);
    }
    SumByAdd(s, Fixed(alloc), IssuedOf(es), IssuedIn(bal));
  }

  /** All balances together are the allocations plus rewards minus fees, for any block list whatever. */
  lemma {:induction false} BalancesSum(bal: map<Address, Parts>, alloc: map<Address, int>, es: seq<Entry>)
    requires Balances(bal, alloc, es)
    ensures TableSum(bal) == AllocationSum(alloc) + Minted(es)
  {
    hide Balances, AllocationSum, Minted;
    TableFlow(bal, alloc, es);
    TableIssued(bal, alloc, es);
    SumByAdd(bal.Keys, FlowIn(bal), IssuedIn(bal), NetIn(bal));
  }

  // ------------------------------------------------------------------ accepted blocks

  function Subsidies(rules: Rules, chain: seq<Block>): int {
    if |chain| <= 1 then 0 else Subsidies(rules, chain[..|chain| - 1]) + rules.subsidy(chain[|chain| - 1].height)
  }

  lemma {:induction false} PaymentsMinted(rules: Rules, chain: seq<Block>, txs: seq<Tx>, i: nat)
    requires chain != [] && txs != [] && i < |txs|
    ensures Minted(BlockEntries(NewBlock(rules, chain, txs))[..i]) + FeeSum(rules, chain, txs[..i]) == 0
  {
    hide NewBlock, HashFor;
    var es := BlockEntries(NewBlock(rules, chain, txs));
    if i == 0 {
      TakeAll(es);
      TakeAll(txs);
    } else {
      var j := i - 1;
      PaymentsMinted(rules, chain, txs, j);
      NewRow(rules, chain, txs, j);
      assert es[..i][..j] == es[..j] && txs[..i][..j] == txs[..j];
    }
  }

  /** A block mints its subsidy: the coinbase collects exactly the fees the payments give up. */
  lemma {:induction false} BlockMinted(rules: Rules, chain: seq<Block>, txs: seq<Tx>)
    requires chain != [] && txs != []
    ensures Minted(BlockEntries(NewBlock(rules, chain, txs))) == rules.subsidy(NextHeight(chain))
  {
    hide NewBlock, HashFor;
    var n := |txs| - 1;
    PaymentsMinted(rules, chain, txs, n);
    NewRow(rules, chain, txs, n);
  }

  lemma {:induction false} ChainMinted(rules: Rules, alloc: map<Address, int>, chain: seq<Block>)
    requires Digested(rules, alloc, chain)
    ensures Minted(Entries(chain)) == GENESIS_REWARD + Subsidies(rules, chain)
  {
    hide Accepted, Digested, Accepts, NewBlock;
    var n := |chain| - 1;
    DigestedEnds(rules, alloc, chain);
    if n == 0 {
      assert chain == [chain[0]];
      GenesisEntries(chain[0]);
      assert Minted([]) == 0;
    } else {
      AcceptedIs(rules, alloc, chain[..n], chain[n]);
      ChainMinted(rules, alloc, chain[..n]);
      BlockMinted(rules, chain[..n], WireTxs(chain[n].rows));
      MintedConcat(Entries(chain[..n]), BlockEntries(chain[n]));
    }
  }

  /** On every accepted chain the balances sum to allocations, genesis reward and subsidies. */
  lemma {:induction false} SupplyConserved(rules: Rules, alloc: map<Address, int>, chain: seq<Block>,
                                           bal: map<Address, Parts>)
    requires Digested(rules, alloc, chain) && Balances(bal, alloc, Entries(chain))
    ensures TableSum(bal) == AllocationSum(alloc) + 100_000_000 + Subsidies(rules, chain)
  {
    hide *;
    BalancesSum(bal, alloc, Entries(chain));
    ChainMinted(rules, alloc, chain);
    OneCoin();
  }

  lemma {:induction false} OneCoin()
    ensures GENESIS_REWARD == 100_000_000
  {
  }

  // ------------------------------------------------------------------ the supply figure

  /** `supply_units_total`: rewards minus fees, added up over the balance table. */
  method SupplyTotal(bal: map<Address, Parts>, ghost alloc: map<Address, int>, ghost es: seq<Entry>)
    returns (total: int)
    requires Balances(bal, alloc, es)
    ensures total == AllocationSum(alloc) + Minted(es) == TableSum(bal)
  {
    hide Balances, AllocationSum, Minted, TableSum;
    total := 0;
    var todo := bal.Keys;
    while todo != {}
      invariant todo <= bal.Keys && total + SumBy(todo, IssuedIn(bal)) == SumBy(bal.Keys, IssuedIn(bal))
      decreases todo
    {
      var a :| a in todo;
      SumByTake(todo, IssuedIn(bal), a);
      total := total + bal[a].reward - bal[a].fee;
      todo := todo - {a};
    }
    TableIssued(bal, alloc, es);
    BalancesSum(bal, alloc, es);
  }

  /** Rewards minus fees of one block's rows. */
  method BlockIssued(rows: seq<Row>, ghost b: Block) returns (total: int)
    requires rows == b.rows
    ensures total == Minted(BlockEntries(b))
  {
    total := 0;
    ghost var es := BlockEntries(b);
    TakeAll(es);
    var i := 0;
    while i < |rows|
      invariant 0 <= i <= |rows| && total == Minted(es[..i])
    {
      assert es[..i + 1][..i] == es[..i];
      total := total + rows[i].reward - rows[i].fee;
      i := i + 1;
    }
  }

  lemma {:induction false} RangeNext(sub: seq<Block>, n: nat, m: nat)
    requires n <= m < |sub|
    ensures Minted(Entries(sub[n..m + 1])) == Minted(Entries(sub[n..m])) + Minted(BlockEntries(sub[m]))
  {
    hide Minted, Entries;
    assert sub[n..m + 1] == sub[n..m] + [sub[m]];
    EntriesSnoc(sub[n..m], sub[m]);
    MintedConcat(Entries(sub[n..m]), BlockEntries(sub[m]));
  }

  lemma {:induction false} RangeNone(sub: seq<Block>, n: nat)
    requires n <= |sub|
    ensures Minted(Entries(sub[n..n])) == 0
  {
    assert sub[n..n] == [];
  }

  lemma {:induction false} EmptyRange(sub: seq<Block>, lo: nat, hi: nat)
    requires hi < lo
    ensures var from, to := CountBelow(sub, lo + 1), CountBelow(sub, hi + 1);
      to <= from && (from == to ==> Minted(Entries(sub[from..to])) == 0)
  {
    var n := CountBelow(sub, hi + 1);
    RangeNone(sub, n);
  }

  /** Rewards minus fees of the blocks above `lo` up to `hi`, from height 1 on. */
  ghost function RangeIssued(chain: seq<Block>, lo: nat, hi: nat): int {
    var sub := AboveZero(chain);
    var from, to := CountBelow(sub, lo + 1), CountBelow(sub, hi + 1);
    if from <= to then Minted(Entries(sub[from..to])) else 0
  }

  /** `supply_units_range`: the figure over the blocks above `lo` up to `hi`. */
  method SupplyRange(codec: Codec, fork: Option<nat>, db: Db, lo: nat, hi: nat, ghost chain: seq<Block>)
    returns (total: int)
    requires Refines(codec, fork, db, chain) && lo < KEY_LIMIT - 1 && hi < KEY_LIMIT - 1
    ensures total == RangeIssued(chain, lo, hi)
  {
    hide Refines, Minted, Entries, CountBelow, BlockFits, Expand;
    ghost var sub := AboveZero(chain);
    StoredHeightsFit(codec, fork, db, chain);
    AboveZeroOk(codec, fork, db, chain);
    var hs := HeightsIn(db.blocks, lo + 1, Some(hi + 1));
    if lo > hi {
      SomeElement(hs);
      EmptyRange(sub, lo, hi);
      return 0;
    }
    BatchHeights(db.blocks, sub, lo + 1, hi + 1, hs);
    ghost var n := CountBelow(sub, lo + 1);
    RangeNone(sub, n);
    total := 0;
    var i := 0;
    ghost var m := n;
    while i < |hs|
      invariant 0 <= i <= |hs| && m == n + i && total == Minted(Entries(sub[n..m]))
    {
      assert Stored(codec, db, sub[m]);
      var rows := Expand(codec, db.keys, db.blocks[hs[i]]).value;
      var issued := BlockIssued(rows, sub[m]);
      RangeNext(sub, n, m);
      total := total + issued;
      i, m := i + 1, m + 1;
    }
  }

  /** The blocks above the height of block `k - 1` are those from `k` on. */
  lemma {:induction false} BlocksAbove(fork: Option<nat>, chain: seq<Block>, k: nat)
    requires WellFormed(fork, chain) && 1 <= k <= |chain|
    ensures var sub := AboveZero(chain);
      var from, to := CountBelow(sub, chain[k - 1].height + 1), CountBelow(sub, chain[|chain| - 1].height + 1);
      from <= to && sub[from..to] == chain[k..]
  {
    hide WellFormed, Consecutive, AboveZero, CountBelow;
    var z := OffGround(fork, chain);
    CountTo(chain, z, k);
    CountTo(chain, z, |chain|);
    SliceOfSlice(chain, z, k);
  }

  /** How many blocks sit at height 0: one or none. */
  lemma {:induction false} OffGround(fork: Option<nat>, chain: seq<Block>) returns (z: nat)
    requires WellFormed(fork, chain) && chain != []
    ensures z <= 1 && AboveZero(chain) == chain[z..] && Consecutive(chain)
  {
    hide BlockFits;
    z := if chain[0].height == 0 then 1 else 0;
  }

  lemma {:induction false} SliceOfSlice<T>(s: seq<T>, z: nat, k: nat)
    requires z <= k <= |s|
    ensures s[z..][k - z..|s| - z] == s[k..]
  {
  }

  lemma {:induction false} CountTo(chain: seq<Block>, z: nat, k: nat)
    requires Consecutive(chain) && z <= k && 1 <= k <= |chain|
    ensures CountBelow(chain[z..], chain[k - 1].height + 1) == k - z
  {
    assert chain[k - 1].height == chain[0].height + k - 1;
    assert z < |chain| ==> chain[z..][0].height == chain[0].height + z;
  }

  /**
   On an append-only chain the figure at the higher tip is the figure at the lower tip plus the range
   between the two tips.
   */
  lemma {:induction false} SupplyAppends(codec: Codec, fork: Option<nat>, low: Db, high: Db, chain: seq<Block>, k: nat)
    requires 1 <= k <= |chain| && low.alloc == high.alloc
    requires Refines(codec, fork, low, chain[..k]) && Refines(codec, fork, high, chain)
    ensures TableSum(high.bal) ==
      TableSum(low.bal) + RangeIssued(chain, chain[k - 1].height, chain[|chain| - 1].height)
  {
    hide Refines, TableSum, Minted, Entries, Balances, WellFormed, Derived, AllocationSum, AboveZero, CountBelow;
    RefinesParts(codec, fork, low, chain[..k]);
    RefinesParts(codec, fork, high, chain);
    BalancesSum(low.bal, low.alloc, Entries(chain[..k]));
    BalancesSum(high.bal, high.alloc, Entries(chain));
    EntriesSplit(chain, k);
    MintedConcat(Entries(chain[..k]), Entries(chain[k..]));
    BlocksAbove(fork, chain, k);
  }
}
