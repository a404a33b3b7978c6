/** Address history: ordered key scans, the two-stream merge, grouping and paging. */
module AddressHistory {
  import opened Wrappers
  import opened ByteStrings
  import opened KvStore
  import opened Transactions
  import opened Ledger
  import opened IndexKeys
  import opened AddrBytes
  import opened StoreIndex
  import opened StoreSpec
  import opened StoreQueries

  datatype Role = Sender | Recipient | Any

  /** What `address_rows` is asked for. */
  datatype Query = Query(role: Role, address: Address, lo: Option<int>, hi: Option<int>)

  predicate InRole(role: Role, a: Address, r: Row) {
    (role != Recipient && r.address == a) || (role != Sender && r.recipient == a)
  }

  predicate Touches(q: Query, e: Entry) {
    && InRole(q.role, q.address, e.row)
    && (q.lo.Some? ==> q.lo.value <= e.height)
    && (q.hi.Some? ==> e.height <= q.hi.value)
  }

  /** The bounds a scan can turn into keys. */
  predicate BoundsFit(q: Query) {
    && (q.lo.Some? ==> -HEIGHT_LIMIT <= q.lo.value < HEIGHT_LIMIT)
    && (q.hi.Some? ==> -HEIGHT_LIMIT - 1 <= q.hi.value < HEIGHT_LIMIT - 1)
  }

  /** The reference answer, oldest first: keep the entries that touch the address. */
  function Select(q: Query, es: seq<Entry>): (r: seq<Entry>)
    ensures forall e :: e in r <==> e in es && Touches(q, e)
  {
    if es == [] then [] else
      var init := Select(q, es[..|es| - 1]);
      assert es == es[..|es| - 1] + [es[|es| - 1]];
      if Touches(q, es[|es| - 1]) then init + [es[|es| - 1]] else init
  }

  /** The reference answer, newest block first; rows of one block keep their order. */
  function SelectNewestFirst(q: Query, chain: seq<Block>): seq<Entry> {
    if chain == [] then [] else
      Select(q, BlockEntries(chain[|chain| - 1])) + SelectNewestFirst(q, chain[..|chain| - 1])
  }

  lemma {:induction false} SelectInOrder(q: Query, es: seq<Entry>)
    requires InOrder(es)
    ensures InOrder(Select(q, es))
  {
    if es != [] {
      var n := |es| - 1;
      SelectInOrder(q, es[..n]);
      var init := Select(q, es[..n]);
      forall i | 0 <= i < |init| ensures Before(init[i], es[n]) {
        assert init[i] in init;
        var j :| 0 <= j < n && es[..n][j] == init[i];
      }
    }
  }

  lemma {:induction false} SelectConcat(q: Query, es: seq<Entry>, fs: seq<Entry>)
    ensures Select(q, es + fs) == Select(q, es) + Select(q, fs)
  {
    if fs == [] {
      assert es + fs == es;
    } else {
      var n := |fs| - 1;
      Snoc(es, fs);
      SelectConcat(q, es, fs[..n]);
      assert (es + fs)[..|es + fs| - 1] == es + fs[..n];
    }
  }

  // ------------------------------------------------------------------ one role: a key range

  function Positions(es: seq<Entry>): (ps: seq<Pos>)
    ensures |ps| == |es| && forall i :: 0 <= i < |es| ==> ps[i] == PosOf(es[i])
  {
    seq(|es|, i requires 0 <= i < |es| => PosOf(es[i]))
  }

  function RoleByte(role: Role): Byte {
    if role == Sender then ROLE_SENDER else ROLE_RECIPIENT
  }

  const LAST: Bytes := [255, 255, 255, 255, 255, 255, 255, 255, 255, 255]

  function StartKey(q: Query): Bytes
    requires BoundsFit(q)
  {
    AddrPrefix(RoleByte(q.role), q.address) + (if q.lo.Some? then SignedHeight(q.lo.value) else [])
  }

  function EndKey(q: Query): Bytes
    requires BoundsFit(q)
  {
    AddrPrefix(RoleByte(q.role), q.address) + (if q.hi.Some? then SignedHeight(q.hi.value + 1) else LAST)
  }

  lemma {:induction false} HeightBound(h: int, idx: nat, bound: int)
    requires -HEIGHT_LIMIT <= h < HEIGHT_LIMIT && idx < ROW_LIMIT && -HEIGHT_LIMIT <= bound < HEIGHT_LIMIT
    ensures LexLess(Position(h, idx), SignedHeight(bound)) <==> h < bound
  {
    Pow256Values();
    assert SignedHeight(bound) + [] == SignedHeight(bound);
    LexHeadFirst(SignedHeight(h), BigEndian(idx, 2), SignedHeight(bound), []);
    BigEndianOrder(h + HEIGHT_LIMIT, bound + HEIGHT_LIMIT, 8);
  }

  lemma {:induction false} AllOnes(w: nat)
    ensures BigEndian(Pow256(w) - 1, w) == seq(w, _ => 255)
  {
    if w != 0 {
      AllOnes(w - 1);
      assert (Pow256(w) - 1) / 256 == Pow256(w - 1) - 1 && (Pow256(w) - 1) % 256 == 255;
      assert seq(w, _ => 255) == seq(w - 1, _ => 255) + [255];
    }
  }

  lemma {:induction false} BelowLast(h: int, idx: nat)
    requires -HEIGHT_LIMIT <= h < HEIGHT_LIMIT - 1 && idx < ROW_LIMIT
    ensures LexLess(Position(h, idx), LAST)
  {
    Pow256Values();
    var ones := SignedHeight(HEIGHT_LIMIT - 1);
    AllOnes(8);
    assert ones == [255, 255, 255, 255, 255, 255, 255, 255];
    assert LAST == ones + [255, 255];
    LexHeadFirst(SignedHeight(h), BigEndian(idx, 2), ones, [255, 255]);
    BigEndianOrder(h + HEIGHT_LIMIT, HEIGHT_LIMIT - 1 + HEIGHT_LIMIT, 8);
  }

  /** A key of the role lies in the range exactly when its height lies within the bounds. */
  lemma {:induction false} KeyInRange(q: Query, e: Entry)
    requires BoundsFit(q) && Keyable(e) && e.height < HEIGHT_LIMIT - 1
    ensures Within(AddrKey(RoleByte(q.role), q.address, e.height, e.idx), Some(StartKey(q)), Some(EndKey(q)))
      <==> (q.lo.Some? ==> q.lo.value <= e.height) && (q.hi.Some? ==> e.height <= q.hi.value)
  {
    var p, pos := AddrPrefix(RoleByte(q.role), q.address), Position(e.height, e.idx);
    if q.lo.Some? {
      LexCommonPrefix(p, pos, SignedHeight(q.lo.value));
      HeightBound(e.height, e.idx, q.lo.value);
    } else {
      LexCommonPrefix(p, pos, []);
    }
    if q.hi.Some? {
      LexCommonPrefix(p, pos, SignedHeight(q.hi.value + 1));
      HeightBound(e.height, e.idx, q.hi.value + 1);
    } else {
      LexCommonPrefix(p, pos, LAST);
      BelowLast(e.height, e.idx);
    }
  }

  function RoleKeyOf(q: Query, e: Entry): Bytes
    requires Keyable(e)
  {
    AddrKey(RoleByte(q.role), q.address, e.height, e.idx)
  }

  function RoleKeysOf(q: Query, es: seq<Entry>): (ks: seq<Bytes>)
    requires forall e :: e in es ==> Keyable(e)
    ensures |ks| == |es| && forall i :: 0 <= i < |es| ==> ks[i] == RoleKeyOf(q, es[i])
  {
    seq(|es|, i requires 0 <= i < |es| => assert es[i] in es; RoleKeyOf(q, es[i]))
  }

  /** Every entry's keys can be written, and none sits at the very last height. */
  ghost predicate Scannable(es: seq<Entry>) {
    InOrder(es) && forall e :: e in es ==> Keyable(e) && e.height < HEIGHT_LIMIT - 1
  }

  /** An address key within the range belongs to an entry that touches the address in that role. */
  lemma {:induction false} RangeSound(q: Query, es: seq<Entry>, k: Bytes)
    requires BoundsFit(q) && q.role != Any && Scannable(es)
    requires k in AddrKeys(es) && Within(k, Some(StartKey(q)), Some(EndKey(q)))
    ensures exists e :: e in es && Touches(q, e) && k == RoleKeyOf(q, e)
  {
    hide Position, InOrder, SignedHeight, Touches, RoleKeyOf, StartKey, EndKey, AddrKey, Within;
    var role := if k in RoleKeys(ROLE_SENDER, es) then ROLE_SENDER else ROLE_RECIPIENT;
    var e :| e in es && Keyable(e) && k == AddrKey(role, Party(role, e.row), e.height, e.idx);
    FoundInRange(q, e, role, k);
  }

  lemma {:induction false} FoundInRange(q: Query, e: Entry, role: Byte, k: Bytes)
    requires BoundsFit(q) && q.role != Any && Keyable(e) && e.height < HEIGHT_LIMIT - 1
    requires role == ROLE_SENDER || role == ROLE_RECIPIENT
    requires k == AddrKey(role, Party(role, e.row), e.height, e.idx) && Within(k, Some(StartKey(q)), Some(EndKey(q)))
    ensures Touches(q, e) && k == RoleKeyOf(q, e)
  {
    hide Position, SignedHeight;
    var p := AddrPrefix(RoleByte(q.role), q.address);
    var lo := if q.lo.Some? then SignedHeight(q.lo.value) else [];
    var hi := if q.hi.Some? then SignedHeight(q.hi.value + 1) else LAST;
    LexBetweenExtensions(p, lo, hi, k);
    AddrPrefixFree(RoleByte(q.role), q.address, role, Party(role, e.row), Position(e.height, e.idx));
    KeyInRange(q, e);
  }

  lemma {:induction false} RangeComplete(q: Query, es: seq<Entry>, e: Entry)
    requires BoundsFit(q) && q.role != Any && Scannable(es) && e in es && Touches(q, e)
    ensures RoleKeyOf(q, e) in AddrKeys(es) && Within(RoleKeyOf(q, e), Some(StartKey(q)), Some(EndKey(q)))
  {
    hide Position, InOrder, Within;
    KeyInRange(q, e);
    var role := RoleByte(q.role);
    assert Party(role, e.row) == q.address;
    assert RoleKeyOf(q, e) in RoleKeys(role, es);
  }

  lemma {:induction false} RoleKeysAscending(q: Query, es: seq<Entry>)
    requires Scannable(es)
    ensures Ascending(RoleKeysOf(q, es))
  {
    hide Position;
    forall i, j | 0 <= i < j < |es| ensures LexLess(RoleKeyOf(q, es[i]), RoleKeyOf(q, es[j])) {
      assert es[i] in es && es[j] in es;
      LexCommonPrefix(AddrPrefix(RoleByte(q.role), q.address), Position(es[i].height, es[i].idx),
                      Position(es[j].height, es[j].idx));
      PositionOrder(es[i].height, es[i].idx, es[j].height, es[j].idx);
    }
  }

  /** The key range of a role holds exactly the keys of the entries to be found, in chain order. */
  lemma {:induction false} RangeIsSelect(q: Query, es: seq<Entry>)
    requires BoundsFit(q) && q.role != Any && Scannable(es)
    ensures Scannable(Select(q, es))
    ensures Between(SortedKeys(AddrKeys(es)), Some(StartKey(q)), Some(EndKey(q))) == RoleKeysOf(q, Select(q, es))
  {
    hide RoleKeyOf, AddrKeys, StartKey, EndKey, Touches;
    SelectInOrder(q, es);
    var found, want := Between(SortedKeys(AddrKeys(es)), Some(StartKey(q)), Some(EndKey(q))),
      RoleKeysOf(q, Select(q, es));
    BetweenAscending(SortedKeys(AddrKeys(es)), Some(StartKey(q)), Some(EndKey(q)));
    RoleKeysAscending(q, Select(q, es));
    forall k | k in found ensures k in want {
      RangeSound(q, es, k);
      var e :| e in es && Touches(q, e) && k == RoleKeyOf(q, e);
      var i :| 0 <= i < |Select(q, es)| && Select(q, es)[i] == e;
      assert want[i] == k;
    }
    forall k | k in want ensures k in found {
      var i :| 0 <= i < |want| && want[i] == k;
      RangeComplete(q, es, Select(q, es)[i]);
    }
    AscendingUnique(found, want);
  }

  function PosOfKey(k: Bytes): Pos
    requires |k| >= 10
  {
    Pos(SplitPos(k).0, SplitPos(k).1)
  }

  /** `_split_pos` of every scanned key */
  method DecodePositions(ks: seq<Bytes>) returns (ps: seq<Pos>)
    requires forall k :: k in ks ==> |k| >= 10
    ensures |ps| == |ks| && forall i :: 0 <= i < |ks| ==> ps[i] == PosOfKey(ks[i])
  {
    hide PosOfKey;
    ps := [];
    var i := 0;
    while i < |ks|
      invariant 0 <= i <= |ks| && |ps| == i
      invariant forall j :: 0 <= j < i ==> ps[j] == PosOfKey(ks[j])
    {
      ps := ps + [PosOfKey(ks[i])];
      i := i + 1;
    }
  }

  lemma {:induction false} KeysDecode(q: Query, want: seq<Entry>)
    requires Scannable(want)
    ensures forall i ::
      0 <= i < |want| ==> |RoleKeysOf(q, want)[i]| >= 10 && PosOfKey(RoleKeysOf(q, want)[i]) == Positions(want)[i]
  {
    hide RoleKeyOf;
    forall i | 0 <= i < |want|
      ensures |RoleKeysOf(q, want)[i]| >= 10 && PosOfKey(RoleKeysOf(q, want)[i]) == Positions(want)[i]
    {
      KeyPosition(q, want, want[i]);
    }
  }

  lemma {:induction false} KeysLong(q: Query, want: seq<Entry>, ks: seq<Bytes>, reverse: bool)
    requires Scannable(want) && ks == if reverse then Reverse(RoleKeysOf(q, want)) else RoleKeysOf(q, want)
    ensures forall k :: k in ks ==> |k| >= 10
  {
    hide RoleKeyOf, PosOfKey;
    KeysDecode(q, want);
  }

  lemma {:induction false} DecodedInOrder(keys: seq<Bytes>, want: seq<Pos>, ps: seq<Pos>)
    requires |keys| == |want| && forall i :: 0 <= i < |keys| ==> |keys[i]| >= 10 && PosOfKey(keys[i]) == want[i]
    requires |ps| == |keys| && forall i :: 0 <= i < |keys| ==> ps[i] == PosOfKey(keys[i])
    ensures ps == want
  {
    hide PosOfKey;
  }

  lemma {:induction false} DecodedReversed(keys: seq<Bytes>, want: seq<Pos>, ps: seq<Pos>)
    requires |keys| == |want| && forall i :: 0 <= i < |keys| ==> |keys[i]| >= 10 && PosOfKey(keys[i]) == want[i]
    requires (forall k :: k in Reverse(keys) ==> |k| >= 10)
    requires |ps| == |keys| && forall i :: 0 <= i < |keys| ==> ps[i] == PosOfKey(Reverse(keys)[i])
    ensures ps == Reverse(want)
  {
    hide PosOfKey, Reverse;
    var n := |keys|;
    forall i | 0 <= i < n ensures ps[i] == Reverse(want)[i] {
      assert Reverse(keys)[i] == keys[n - 1 - i] && Reverse(want)[i] == want[n - 1 - i];
    }
  }

  lemma {:induction false} DecodedPositions(q: Query, want: seq<Entry>, ks: seq<Bytes>, reverse: bool, ps: seq<Pos>)
    requires Scannable(want) && ks == if reverse then Reverse(RoleKeysOf(q, want)) else RoleKeysOf(q, want)
    requires (forall k :: k in ks ==> |k| >= 10) && |ps| == |ks|
    requires forall i :: 0 <= i < |ks| ==> ps[i] == PosOfKey(ks[i])
    ensures ps == if reverse then Reverse(Positions(want)) else Positions(want)
  {
    hide RoleKeyOf, PosOfKey, PosOf, RoleKeysOf, Positions, Reverse;
    KeysDecode(q, want);
    if reverse {
      DecodedReversed(RoleKeysOf(q, want), Positions(want), ps);
    } else {
      DecodedInOrder(RoleKeysOf(q, want), Positions(want), ps);
    }
  }

  /** `_addr_iter` */
  method AddrIter(addr: set<Bytes>, q: Query, reverse: bool, ghost es: seq<Entry>) returns (ps: seq<Pos>)
    requires BoundsFit(q) && q.role != Any && Scannable(es) && addr == AddrKeys(es)
    ensures ps == if reverse then Reverse(Positions(Select(q, es))) else Positions(Select(q, es))
  {
    hide AddrKeys, StartKey, EndKey, Select, RoleKeyOf, PosOfKey, Scannable, SortedKeys, Between, Positions;
    hide Reverse, RoleKeysOf;
    RangeIsSelect(q, es);
    var ks := Range(SortedKeys(addr), Some(StartKey(q)), Some(EndKey(q)), reverse);
    KeysLong(q, Select(q, es), ks, reverse);
    ps := DecodePositions(ks);
    DecodedPositions(q, Select(q, es), ks, reverse, ps);
  }

  lemma {:induction false} KeyPosition(q: Query, es: seq<Entry>, e: Entry)
    requires Scannable(es) && e in es
    ensures |RoleKeyOf(q, e)| >= 10 && SplitPos(RoleKeyOf(q, e)) == (e.height, e.idx)
  {
    SplitPosition(AddrPrefix(RoleByte(q.role), q.address), e.height, e.idx);
  }

  // ------------------------------------------------------------------ both roles: a merge

  predicate Ahead(reverse: bool, a: Pos, b: Pos) {
    if reverse then b.Precedes(a) else a.Precedes(b)
  }

  ghost predicate Stream(reverse: bool, ps: seq<Pos>) {
    forall i, j :: 0 <= i < j < |ps| ==> Ahead(reverse, ps[i], ps[j])
  }

  /** Nothing emitted lies behind the rest of a stream; at most the last emission equals its head. */
  ghost predicate UpTo(reverse: bool, out: seq<Pos>, ps: seq<Pos>, i: nat) {
    i < |ps| ==> forall p :: p in out ==> p == ps[i] || Ahead(reverse, p, ps[i])
  }

  lemma {:induction false} MergeEmit(reverse: bool, out: seq<Pos>, pos: Pos)
    requires Stream(reverse, out)
    requires forall p :: p in out ==> p == pos || Ahead(reverse, p, pos)
    ensures var out' := if out != [] && out[|out| - 1] == pos then out else out + [pos];
      Stream(reverse, out') && forall p :: p in out' <==> p in out || p == pos
  {
    if out == [] || out[|out| - 1] != pos {
      forall i | 0 <= i < |out| ensures Ahead(reverse, out[i], pos) {
        assert out[i] in out && out[|out| - 1] in out;
      }
    }
  }

  lemma {:induction false} MergeAdvance(reverse: bool, out: seq<Pos>, pos: Pos, out': seq<Pos>, ps: seq<Pos>, i: nat)
    requires Stream(reverse, ps) && i < |ps|
    requires forall p :: p in out' ==> p in out || p == pos
    requires UpTo(reverse, out, ps, i) && (pos == ps[i] || Ahead(reverse, pos, ps[i]))
    ensures UpTo(reverse, out', ps, i)
    ensures pos == ps[i] ==> UpTo(reverse, out', ps, i + 1)
  {
    if i + 1 < |ps| {
      assert Ahead(reverse, ps[i], ps[i + 1]);
    }
  }

  /** The merge loop of `address_positions`: self-sends come once. */
  method MergeStreams(s: seq<Pos>, r: seq<Pos>, reverse: bool) returns (out: seq<Pos>)
    requires Stream(reverse, s) && Stream(reverse, r)
    ensures Stream(reverse, out) && forall p :: p in out <==> p in s || p in r
  {
    out := [];
    var i, j := 0, 0;
    while i < |s| || j < |r|
      invariant 0 <= i <= |s| && 0 <= j <= |r|
      invariant Stream(reverse, out) && UpTo(reverse, out, s, i) && UpTo(reverse, out, r, j)
      invariant forall p :: p in out <==> p in s[..i] || p in r[..j]
      decreases |s| + |r| - i - j
    {
      var fromS := j == |r| || (i < |s| && Ahead(reverse, s[i], r[j]));
      var pos := if fromS then s[i] else r[j];
      ghost var out0 := out;
      MergeEmit(reverse, out, pos);
      if out == [] || out[|out| - 1] != pos {
        out := out + [pos];
      }
      if i < |s| {
        MergeAdvance(reverse, out0, pos, out, s, i);
      }
      if j < |r| {
        MergeAdvance(reverse, out0, pos, out, r, j);
      }
      if fromS {
        TakeNext(s, i);
        i := i + 1;
      } else {
        TakeNext(r, j);
        j := j + 1;
      }
    }
    TakeAll(s);
    TakeAll(r);
  }

  lemma {:induction false} StreamUnique(reverse: bool, a: seq<Pos>, b: seq<Pos>)
    requires Stream(reverse, a) && Stream(reverse, b)
    requires forall p :: p in a <==> p in b
    ensures a == b
  {
    SortedUnique(a, b, (x: Pos, y: Pos) => Ahead(reverse, x, y));
  }

  lemma {:induction false} PositionsStream(es: seq<Entry>)
    requires InOrder(es)
    ensures Stream(false, Positions(es)) && Stream(true, Reverse(Positions(es)))
  {
  }

  /** The positions of either role are those of the two roles together. */
  lemma {:induction false} AnyRole(q: Query, es: seq<Entry>, p: Pos)
    requires q.role == Any
    ensures p in Positions(Select(q, es)) <==>
      p in Positions(Select(q.(role := Sender), es)) || p in Positions(Select(q.(role := Recipient), es))
  {
    PositionsOf(q, es, p);
    PositionsOf(q.(role := Sender), es, p);
    PositionsOf(q.(role := Recipient), es, p);
  }

  lemma {:induction false} PositionsOf(q: Query, es: seq<Entry>, p: Pos)
    ensures p in Positions(Select(q, es)) <==> exists e :: e in es && Touches(q, e) && PosOf(e) == p
  {
    hide Touches;
    var sel := Select(q, es);
    if p in Positions(sel) {
      var i :| 0 <= i < |sel| && Positions(sel)[i] == p;
      assert sel[i] in sel;
    }
    if exists e :: e in es && Touches(q, e) && PosOf(e) == p {
      var e :| e in es && Touches(q, e) && PosOf(e) == p;
      var i :| 0 <= i < |sel| && sel[i] == e;
      assert Positions(sel)[i] == p;
    }
  }

  lemma {:induction false} ReverseElements<T>(s: seq<T>, x: T)
    ensures x in Reverse(s) <==> x in s
  {
    if x in s {
      var i :| 0 <= i < |s| && s[i] == x;
      assert Reverse(s)[|s| - 1 - i] == x;
    }
  }

  /** `address_positions` */
  method AddressPositions(addr: set<Bytes>, q: Query, reverse: bool, ghost es: seq<Entry>) returns (ps: seq<Pos>)
    requires BoundsFit(q) && Scannable(es) && addr == AddrKeys(es)
    ensures ps == if reverse then Reverse(Positions(Select(q, es))) else Positions(Select(q, es))
  {
    hide AddrKeys, Select;
    if q.role != Any {
      ps := AddrIter(addr, q, reverse, es);
      return;
    }
    ghost var asS, asR := q.(role := Sender), q.(role := Recipient);
    var s := AddrIter(addr, q.(role := Sender), reverse, es);
    var r := AddrIter(addr, q.(role := Recipient), reverse, es);
    SelectInOrder(q, es);
    SelectInOrder(asS, es);
    SelectInOrder(asR, es);
    PositionsStream(Select(q, es));
    PositionsStream(Select(asS, es));
    PositionsStream(Select(asR, es));
    ps := MergeStreams(s, r, reverse);
    ghost var want := if reverse then Reverse(Positions(Select(q, es))) else Positions(Select(q, es));
    forall p ensures p in ps <==> p in want {
      AnyRole(q, es, p);
      ReverseElements(Positions(Select(q, es)), p);
      ReverseElements(Positions(Select(asS, es)), p);
      ReverseElements(Positions(Select(asR, es)), p);
    }
    StreamUnique(reverse, ps, want);
  }

  // ------------------------------------------------------------------ grouping and paging

  /** The leading positions of one height. */
  function GroupLength(ps: seq<Pos>): (n: nat)
    requires ps != []
    ensures 0 < n <= |ps|
    ensures forall i :: 0 <= i < n ==> ps[i].height == ps[0].height
    ensures n < |ps| ==> ps[n].height != ps[0].height
  {
    if |ps| == 1 || ps[1].height != ps[0].height then 1 else
      var n := GroupLength(ps[1..]);
      assert forall i :: 1 <= i < n + 1 ==> ps[i] == ps[1..][i - 1];
      1 + n
  }

  function Turned(reverse: bool, group: seq<Pos>): seq<Pos> {
    if reverse then Reverse(group) else group
  }

  /** Positions with each block's group put back into row order. */
  function Regroup(reverse: bool, ps: seq<Pos>): seq<Pos> {
    if ps == [] then [] else
      var n := GroupLength(ps);
      Turned(reverse, ps[..n]) + Regroup(reverse, ps[n..])
  }

  lemma {:induction false} RegroupForward(ps: seq<Pos>)
    ensures Regroup(false, ps) == ps
    decreases |ps|
  {
    if ps != [] {
      var n := GroupLength(ps);
      RegroupForward(ps[n..]);
      assert ps == ps[..n] + ps[n..];
    }
  }

  lemma {:induction false} RegroupFirst(reverse: bool, group: seq<Pos>, rest: seq<Pos>)
    requires group != [] && forall i :: 0 <= i < |group| ==> group[i].height == group[0].height
    requires rest != [] ==> rest[0].height != group[0].height
    ensures Regroup(reverse, group + rest) == Turned(reverse, group) + Regroup(reverse, rest)
  {
    hide Turned;
    var ps := group + rest;
    var n := GroupLength(ps);
    assert forall i :: 0 <= i < |group| ==> ps[i] == group[i];
    assert forall i :: 0 <= i < |rest| ==> ps[|group| + i] == rest[i];
    assert ps[0] == group[0];
    assert n == |group|;
    assert ps[..n] == group && ps[n..] == rest;
  }

  lemma {:induction false} ReverseConcat<T>(a: seq<T>, b: seq<T>)
    ensures Reverse(a + b) == Reverse(b) + Reverse(a)
  {
  }

  lemma {:induction false} ReverseTwice<T>(a: seq<T>)
    ensures Reverse(Reverse(a)) == a
  {
  }

  lemma {:induction false} PositionsConcat(es: seq<Entry>, fs: seq<Entry>)
    ensures Positions(es + fs) == Positions(es) + Positions(fs)
  {
  }

  /** A newest-first scan, regrouped, lists the blocks from the newest with their rows in order. */
  lemma {:induction false} RegroupReverse(q: Query, fork: Option<nat>, chain: seq<Block>)
    requires WellFormed(fork, chain)
    ensures Regroup(true, Reverse(Positions(Select(q, Entries(chain))))) == Positions(SelectNewestFirst(q, chain))
  {
    hide Regroup, Select, Reverse;
    if chain == [] {
      RegroupEmpty(q);
    } else {
      var n := |chain| - 1;
      var init, last := Select(q, Entries(chain[..n])), Select(q, BlockEntries(chain[n]));
      RegroupReverse(q, fork, chain[..n]);
      SelectConcat(q, Entries(chain[..n]), BlockEntries(chain[n]));
      PositionsConcat(init, last);
      ReverseConcat(Positions(init), Positions(last));
      PositionsConcat(last, SelectNewestFirst(q, chain[..n]));
      RegroupBlock(q, fork, chain, init, last);
    }
  }

  lemma {:induction false} RegroupEmpty(q: Query)
    ensures Regroup(true, Reverse(Positions(Select(q, Entries([]))))) == Positions(SelectNewestFirst(q, []))
  {
  }

  lemma {:induction false} RegroupBlock(q: Query, fork: Option<nat>, chain: seq<Block>, init: seq<Entry>,
                                        last: seq<Entry>)
    requires WellFormed(fork, chain) && chain != []
    requires init == Select(q, Entries(chain[..|chain| - 1])) && last == Select(q, BlockEntries(chain[|chain| - 1]))
    ensures Regroup(true, Reverse(Positions(last)) + Reverse(Positions(init))) ==
      Positions(last) + Regroup(true, Reverse(Positions(init)))
  {
    hide Regroup, Select, Entries;
    var n := |chain| - 1;
    var group, rest := Reverse(Positions(last)), Reverse(Positions(init));
    if last == [] {
      assert group + rest == rest && Positions(last) + Regroup(true, rest) == Regroup(true, rest);
    } else {
      forall i | 0 <= i < |group| ensures group[i].height == chain[n].height {
        assert last[|last| - 1 - i] in last;
      }
      if rest != [] {
        assert init[|init| - 1] in init;
        EntryFits(fork, chain[..n], init[|init| - 1]);
      }
      RegroupFirst(true, group, rest);
      ReverseTwice(Positions(last));
    }
  }

  /** `skip` and `limit` applied to a list; a limit of 0 means no limit. */
  function Page(es: seq<Entry>, skip: nat, limit: nat): seq<Entry> {
    Limited(if |es| <= skip then [] else es[skip..], limit)
  }

  lemma {:induction false} PageIs(es: seq<Entry>, skip: nat, limit: nat)
    ensures var from := if skip < |es| then skip else |es|;
      Page(es, skip, limit) == if limit == 0 || |es| - from <= limit then es[from..] else es[from..from + limit]
  {
  }

  lemma {:induction false} PageNext(es: seq<Entry>, n: nat, skip: nat, limit: nat)
    requires n < |es| && (limit == 0 || |Page(es[..n], skip, limit)| < limit)
    ensures Page(es[..n + 1], skip, limit) ==
      if n < skip then Page(es[..n], skip, limit) else Page(es[..n], skip, limit) + [es[n]]
  {
    if n >= skip {
      assert es[..n + 1][skip..] == es[..n][skip..] + [es[n]];
    }
  }

  lemma {:induction false} PageFull(es: seq<Entry>, n: nat, skip: nat, limit: nat)
    requires n <= |es| && limit > 0 && |Page(es[..n], skip, limit)| == limit
    ensures Page(es, skip, limit) == Page(es[..n], skip, limit)
  {
    assert es[..n][skip..][..limit] == es[skip..][..limit];
  }

  /** `emit`: hand one group to the page. */
  method Emit(codec: Codec, db: Db, group: seq<Pos>, left: nat, limit: nat, out: seq<Entry>,
              ghost want: seq<Entry>, ghost n: nat, ghost skip: nat)
    returns (left': nat, out': seq<Entry>, full: bool)
    requires n + |group| <= |want|
    requires forall i ::
      0 <= i < |group| ==>
        group[i] == PosOf(want[n + i]) && RowAt(codec, db, group[i].height, group[i].idx) == Some(want[n + i].row)
    requires out == Page(want[..n], skip, limit) && (limit == 0 || |out| < limit)
    requires left == if n < skip then skip - n else 0
    ensures full ==> out' == Page(want, skip, limit)
    ensures !full ==> out' == Page(want[..n + |group|], skip, limit) && (limit == 0 || |out'| < limit)
    ensures !full ==> left' == if n + |group| < skip then skip - (n + |group|) else 0
  {
    hide Page, RowAt;
    left', out', full := left, out, false;
    var i := 0;
    ghost var m := n;
    while i < |group|
      invariant 0 <= i <= |group| && m == n + i
      invariant out' == Page(want[..m], skip, limit) && (limit == 0 || |out'| < limit)
      invariant left' == if m < skip then skip - m else 0
    {
      PageNext(want, m, skip, limit);
      if left' > 0 {
        left' := left' - 1;
      } else {
        var r := RowAt(codec, db, group[i].height, group[i].idx);
        out' := out' + [Entry(group[i].height, group[i].idx, r.value)];
        if limit > 0 && |out'| >= limit {
          PageFull(want, m + 1, skip, limit);
          full := true;
          return;
        }
      }
      i := i + 1;
      m := m + 1;
    }
    assert m == n + |group|;
  }

  /** The reference answer in either direction. */
  function History(q: Query, reverse: bool, chain: seq<Block>): seq<Entry> {
    if reverse then SelectNewestFirst(q, chain) else Select(q, Entries(chain))
  }

  lemma {:induction false} RegroupHistory(q: Query, reverse: bool, fork: Option<nat>, chain: seq<Block>)
    requires WellFormed(fork, chain)
    ensures var ps := Positions(Select(q, Entries(chain)));
      Regroup(reverse, if reverse then Reverse(ps) else ps) == Positions(History(q, reverse, chain))
  {
    if reverse {
      RegroupReverse(q, fork, chain);
    } else {
      RegroupForward(Positions(Select(q, Entries(chain))));
    }
  }

  lemma {:induction false} NewestFirstElements(q: Query, chain: seq<Block>, e: Entry)
    ensures e in SelectNewestFirst(q, chain) <==> e in Entries(chain) && Touches(q, e)
  {
    hide Touches;
    if chain != [] {
      NewestFirstElements(q, chain[..|chain| - 1], e);
    }
  }

  /** Which rows are in an address history. */
  lemma {:induction false} HistoryElements(q: Query, reverse: bool, chain: seq<Block>, e: Entry)
    ensures e in History(q, reverse, chain) <==>
      && e in Entries(chain)
      && (match q.role
          case Sender => e.row.address == q.address
          case Recipient => e.row.recipient == q.address
          case Any => e.row.address == q.address || e.row.recipient == q.address)
      && (q.lo.Some? ==> e.height >= q.lo.value) && (q.hi.Some? ==> e.height <= q.hi.value)
  {
    hide Entries, Select, SelectNewestFirst;
    if reverse {
      NewestFirstElements(q, chain, e);
    }
  }

  lemma {:induction false} NewestFirstOrder(q: Query, fork: Option<nat>, chain: seq<Block>, i: nat, j: nat)
    requires WellFormed(fork, chain) && i < j < |SelectNewestFirst(q, chain)|
    ensures var x, y := SelectNewestFirst(q, chain)[i], SelectNewestFirst(q, chain)[j];
      x.height > y.height || (x.height == y.height && x.idx < y.idx)
    decreases |chain|
  {
    hide Touches, Entries, BlockFits, Select, SelectNewestFirst;
    NoHistory(q);
    var n := |chain| - 1;
    var top, below := Select(q, BlockEntries(chain[n])), SelectNewestFirst(q, chain[..n]);
    NewestFirstIs(q, chain);
    var k := |top|;
    if i >= k {
      NewestFirstOrder(q, fork, chain[..n], i - k, j - k);
    } else if j < k {
      SelectInOrder(q, BlockEntries(chain[n]));
      assert top[i] in top && top[j] in top && Before(top[i], top[j]);
    } else {
      assert top[i] in top && below[j - k] in below;
      NewestFirstElements(q, chain[..n], below[j - k]);
      EntryFits(fork, chain[..n], below[j - k]);
    }
  }

  lemma {:induction false} NoHistory(q: Query)
    ensures SelectNewestFirst(q, []) == []
  {
  }

  lemma {:induction false} NewestFirstIs(q: Query, chain: seq<Block>)
    requires chain != []
    ensures SelectNewestFirst(q, chain) ==
      Select(q, BlockEntries(chain[|chain| - 1])) + SelectNewestFirst(q, chain[..|chain| - 1])
  {
  }

  /** In which order, and each once: oldest first, or newest block first with its rows in block order. */
  lemma {:induction false} HistoryOrder(q: Query, reverse: bool, fork: Option<nat>, chain: seq<Block>, i: nat, j: nat)
    requires WellFormed(fork, chain) && i < j < |History(q, reverse, chain)|
    ensures var x, y := History(q, reverse, chain)[i], History(q, reverse, chain)[j];
      (if reverse then x.height > y.height else x.height < y.height) || (x.height == y.height && x.idx < y.idx)
  {
    hide WellFormed, Entries, Select, SelectNewestFirst;
    if reverse {
      NewestFirstOrder(q, fork, chain, i, j);
    } else {
      EntriesInOrder(fork, chain);
      SelectInOrder(q, Entries(chain));
    }
  }

  lemma {:induction false} HistoryRows(codec: Codec, fork: Option<nat>, db: Db, chain: seq<Block>, q: Query,
                                       reverse: bool)
    requires Refines(codec, fork, db, chain)
    ensures Readable(codec, db, History(q, reverse, chain))
  {
    hide Refines, RowAt, Entries;
    forall e | e in History(q, reverse, chain) ensures RowAt(codec, db, e.height, e.idx) == Some(e.row) {
      HistoryElements(q, reverse, chain, e);
      RowAtEntry(codec, fork, db, chain, e);
    }
  }

  /** Closing a group: what it turns into is the next stretch of the answer. */
  lemma {:induction false} GroupCloses(reverse: bool, ps: seq<Pos>, n: nat, m: nat, target: seq<Pos>)
    requires n < m <= |ps| == |target| && target[n..] == Regroup(reverse, ps[n..])
    requires forall i :: n <= i < m ==> ps[i].height == ps[n].height
    requires m < |ps| ==> ps[m].height != ps[n].height
    ensures target[n..m] == Turned(reverse, ps[n..m]) && target[m..] == Regroup(reverse, ps[m..])
  {
    hide Regroup;
    assert ps[n..] == ps[n..m] + ps[m..];
    RegroupFirst(reverse, ps[n..m], ps[m..]);
    assert |Turned(reverse, ps[n..m])| == m - n;
    SplitEqual(target[n..m], target[m..], Turned(reverse, ps[n..m]), Regroup(reverse, ps[m..]));
  }

  lemma {:induction false} HistoryPositions(es: seq<Entry>, n: nat, m: nat, group: seq<Pos>)
    requires n <= m <= |es| && Positions(es)[n..m] == group
    ensures |group| == m - n && forall i :: 0 <= i < |group| ==> group[i] == PosOf(es[n + i])
  {
    assert forall i :: 0 <= i < |group| ==> group[i] == Positions(es)[n + i];
  }

  /** The rows behind a list of positions can be read. */
  ghost predicate Readable(codec: Codec, db: Db, want: seq<Entry>) {
    forall i :: 0 <= i < |want| ==> RowAt(codec, db, want[i].height, want[i].idx) == Some(want[i].row)
  }

  /** Emit the group `ps[n..m]`, which the next position (or the end) closes. */
  method CloseGroup(codec: Codec, db: Db, group: seq<Pos>, reverse: bool, left: nat, limit: nat, out: seq<Entry>,
                    ghost ps: seq<Pos>, ghost want: seq<Entry>, ghost n: nat, ghost m: nat, ghost skip: nat)
    returns (left': nat, out': seq<Entry>, full: bool)
    requires n < m <= |ps| == |want| && group == ps[n..m] && Readable(codec, db, want)
    requires Positions(want)[n..] == Regroup(reverse, ps[n..])
    requires forall i :: n <= i < m ==> ps[i].height == ps[n].height
    requires m < |ps| ==> ps[m].height != ps[n].height
    requires out == Page(want[..n], skip, limit) && (limit == 0 || |out| < limit)
    requires left == if n < skip then skip - n else 0
    ensures Positions(want)[m..] == Regroup(reverse, ps[m..])
    ensures full ==> out' == Page(want, skip, limit)
    ensures !full ==> out' == Page(want[..m], skip, limit) && (limit == 0 || |out'| < limit)
    ensures !full ==> left' == if m < skip then skip - m else 0
  {
    hide Regroup, Page, RowAt;
    GroupCloses(reverse, ps, n, m, Positions(want));
    HistoryPositions(want, n, m, Turned(reverse, group));
    left', out', full := Emit(codec, db, Turned(reverse, group), left, limit, out, want, n, skip);
    assert n + |group| == m;
  }

  /** The loop of `address_rows` over the scanned positions. */
  method PageGroups(codec: Codec, db: Db, ps: seq<Pos>, reverse: bool, limit: nat, skip: nat, ghost want: seq<Entry>)
    returns (out: seq<Entry>)
    requires |ps| == |want| && Positions(want) == Regroup(reverse, ps) && Readable(codec, db, want)
    ensures out == Page(want, skip, limit)
  {
    hide Regroup, Page, Readable;
    TakeAll(ps);
    TakeAll(want);
    TakeAll(Positions(want));
    PageNone(skip, limit);
    out := [];
    var left, full, group := skip, false, [];
    var i := 0;
    ghost var n := 0;
    while i < |ps|
      invariant 0 <= n <= i <= |ps| && group == ps[n..i] && (n < i || i == 0)
      invariant forall j :: n <= j < i ==> ps[j].height == ps[n].height
      invariant Positions(want)[n..] == Regroup(reverse, ps[n..])
      invariant out == Page(want[..n], skip, limit) && (limit == 0 || |out| < limit)
      invariant left == if n < skip then skip - n else 0
    {
      if group != [] && ps[i].height != group[0].height {
        left, out, full := CloseGroup(codec, db, group, reverse, left, limit, out, ps, want, n, i, skip);
        if full {
          return;
        }
        group := [];
        n := i;
      }
      group := group + [ps[i]];
      i := i + 1;
    }
    if group != [] {
      left, out, full := CloseGroup(codec, db, group, reverse, left, limit, out, ps, want, n, i, skip);
    }
  }

  /** `address_rows` */
  method AddressRows(codec: Codec, fork: Option<nat>, db: Db, q: Query, reverse: bool, limit: nat, skip: nat,
                     ghost chain: seq<Block>)
    returns (out: seq<Entry>)
    requires Refines(codec, fork, db, chain) && BoundsFit(q)
    ensures out == Page(History(q, reverse, chain), skip, limit)
    ensures var all := History(q, reverse, chain);
      var from := if skip < |all| then skip else |all|;
      out == if limit == 0 || |all| - from <= limit then all[from..] else all[from..from + limit]
  {
    hide Refines, WellFormed, Entries, Select, History, Page, Regroup, Scannable, RowAt, AddrKeys;
    PageIs(History(q, reverse, chain), skip, limit);
    ScannableChain(codec, fork, db, chain);
    RegroupHistory(q, reverse, fork, chain);
    HistoryRows(codec, fork, db, chain, q, reverse);
    var ps := AddressPositions(db.index.addr, q, reverse, Entries(chain));
    RegroupLength(reverse, ps);
    out := PageGroups(codec, db, ps, reverse, limit, skip, History(q, reverse, chain));
  }

  lemma {:induction false} PageNone(skip: nat, limit: nat)
    ensures Page([], skip, limit) == []
  {
  }

  lemma {:induction false} RegroupLength(reverse: bool, ps: seq<Pos>)
    ensures |Regroup(reverse, ps)| == |ps|
    decreases |ps|
  {
    if ps != [] {
      RegroupLength(reverse, ps[GroupLength(ps)..]);
    }
  }

  lemma {:induction false} ScannableChain(codec: Codec, fork: Option<nat>, db: Db, chain: seq<Block>)
    requires Refines(codec, fork, db, chain)
    ensures WellFormed(fork, chain) && Scannable(Entries(chain)) && db.index.addr == AddrKeys(Entries(chain))
  {
    hide Refines;
    RefinesParts(codec, fork, db, chain);
    EntriesInOrder(fork, chain);
    forall e | e in Entries(chain) ensures Keyable(e) && e.height < HEIGHT_LIMIT - 1 {
      EntryFits(fork, chain, e);
    }
  }
}
