/** Signal-activated fork scheduling (`fork.py`) and the height the digester caches. */
module Activation {
  import opened Wrappers
  import opened Arithmetic
  import opened ByteStrings
  import opened Transactions
  import opened Ledger
  import opened Consensus

  type Size = n: int | n >= 1 witness 1

  /** Window, boundary and burial depth. */
  datatype Schedule = Schedule(window: Size, boundary: Size, bury: nat)

  // ------------------------------------------------------------------ boundaries

  /** `next_fork_boundary` */
  function NextBoundary(height: int, boundary: Size): int {
    (height / boundary + 1) * boundary
  }

  /** The least multiple of the boundary strictly above a height. */
  lemma {:induction false} NextBoundaryIs(height: int, boundary: Size)
    ensures height < NextBoundary(height, boundary) <= height + boundary
    ensures NextBoundary(height, boundary) % boundary == 0
    ensures forall m: int :: m * boundary > height ==> m * boundary >= NextBoundary(height, boundary)
  {
    var b: int, q := boundary, height / boundary;
    assert height == q * b + height % b;
    MultipleIs(q + 1, b);
    forall m: int | m * b > height ensures m * b >= (q + 1) * b {
      if m <= q {
        MultiplesOrder(m, q, b);
      } else {
        MultiplesOrder(q + 1, m, b);
      }
    }
  }

  // ------------------------------------------------------------------ the reference

  /** A full window of signalled blocks, none below `start`, closes at `h`. */
  ghost predicate Full(read: int -> bool, window: Size, start: int, h: int) {
    start <= h - window + 1 && forall i :: h - window < i <= h ==> read(i)
  }

  /** The earliest height up to `tip` that closes a full window. */
  ghost function LockIn(read: int -> bool, window: Size, start: int, tip: int): (r: Option<int>)
    ensures r.Some? ==> start <= r.value <= tip && Full(read, window, start, r.value)
    ensures forall h :: h <= tip && Full(read, window, start, h) ==> r.Some? && r.value <= h
    decreases tip - start
  {
    if tip < start then None else
      var below := LockIn(read, window, start, tip - 1);
      if below.Some? then below else if Full(read, window, start, tip) then Some(tip) else None
  }

  /** Every height of the window that closes at the lock-in signals, and no earlier window does. */
  lemma {:induction false} LockInIs(read: int -> bool, window: Size, start: int, tip: int, h: int)
    ensures var r := LockIn(read, window, start, tip);
      r.Some? ==>
        && start <= r.value - window + 1 <= r.value <= tip
        && forall i :: r.value - window < i <= r.value ==> read(i)
    ensures start <= h - window + 1 <= h <= tip && (forall i :: h - window < i <= h ==> read(i)) ==>
      LockIn(read, window, start, tip).Some? && LockIn(read, window, start, tip).value <= h
  {
    hide LockIn;
    assert start <= h - window + 1 && (forall i :: h - window < i <= h ==> read(i)) ==> Full(read, window, start, h);
  }

  ghost function ActivationHeight(read: int -> bool, sch: Schedule, tip: int): Option<int> {
    var h := LockIn(read, sch.window, 1, tip);
    if h.None? then None else Some(NextBoundary(h.value + sch.bury, sch.boundary))
  }

  /** Once fixed, a lock-in is the same at every higher tip and under any change of signals above it. */
  lemma {:induction false} LockInStays(read: int -> bool, read': int -> bool, window: Size, start: int, tip: int,
                                       tip': int)
    requires LockIn(read, window, start, tip).Some? && LockIn(read, window, start, tip).value <= tip'
    requires forall i :: i <= LockIn(read, window, start, tip).value ==> read(i) == read'(i)
    ensures LockIn(read', window, start, tip') == LockIn(read, window, start, tip)
  {
    var h := LockIn(read, window, start, tip).value;
    assert Full(read', window, start, h);
    var h' := LockIn(read', window, start, tip').value;
    assert Full(read, window, start, h');
  }

  /** So is the activation height; it is a boundary within one boundary of the buried lock-in. */
  lemma {:induction false} ActivationDeterministic(read: int -> bool, read': int -> bool, sch: Schedule, tip: int,
                                                   tip': int)
    requires var h := LockIn(read, sch.window, 1, tip);
      h.Some? && h.value <= tip' && forall i :: i <= h.value ==> read(i) == read'(i)
    ensures ActivationHeight(read', sch, tip') == ActivationHeight(read, sch, tip)
    ensures var h, v := LockIn(read, sch.window, 1, tip).value, ActivationHeight(read, sch, tip).value;
      h + sch.bury < v <= h + sch.bury + sch.boundary && v % sch.boundary == 0
  {
    LockInStays(read, read', sch.window, 1, tip, tip');
    NextBoundaryIs(LockIn(read, sch.window, 1, tip).value + sch.bury, sch.boundary);
  }

  // ------------------------------------------------------------------ the two ways to compute it

  /** `dynamic_fork_height`: one forward scan with a running count. */
  method DynamicForkHeight(read: int -> bool, tip: Option<int>, window: Size, boundary: Size, bury: nat, floor: int)
    returns (r: Option<int>)
    ensures var start := if floor >= 1 then floor else 1;
      var h := if tip.None? then None else LockIn(read, window, start, tip.value);
      r == if h.None? then None else Some(NextBoundary(h.value + bury, boundary))
  {
    var start := if floor >= 1 then floor else 1;
    if tip.None? || tip.value < window {
      return None;
    }
    var run, h := 0, start;
    while h <= tip.value
      invariant start <= h && (h <= tip.value + 1 || h == start)
      invariant 0 <= run < window && run <= h - start && (forall i :: h - run <= i < h ==> read(i))
      invariant run < h - start ==> !read(h - run - 1)
      invariant LockIn(read, window, start, h - 1).None?
    {
      if read(h) {
        run := run + 1;
        if run >= window {
          LockInAt(read, window, start, h, tip.value);
          return Some(NextBoundary(h + bury, boundary));
        }
      } else {
        run := 0;
      }
      h := h + 1;
    }
    if tip.value < start {
      assert LockIn(read, window, start, tip.value).None?;
    }
    r := None;
  }

  lemma {:induction false} LockInAt(read: int -> bool, window: Size, start: int, h: int, tip: int)
    requires start <= h <= tip && LockIn(read, window, start, h - 1).None? && Full(read, window, start, h)
    ensures LockIn(read, window, start, tip) == Some(h)
  {
    LockInStays(read, read, window, start, h, tip);
  }

  /** `lockin_at_tip`: does a full window close exactly at the tip? */
  method LockinAtTip(read: int -> bool, tip: Option<int>, window: Size, boundary: Size, bury: nat)
    returns (r: Option<int>)
    ensures r ==
      if tip.Some? && Full(read, window, 1, tip.value) then Some(NextBoundary(tip.value + bury, boundary)) else None
  {
    if tip.None? || tip.value < window {
      return None;
    }
    var h := tip.value - window + 1;
    while h < tip.value + 1
      invariant tip.value - window + 1 <= h <= tip.value + 1 && forall i :: tip.value - window < i < h ==> read(i)
    {
      if !read(h) {
        return None;
      }
      h := h + 1;
    }
    r := Some(NextBoundary(tip.value + bury, boundary));
  }

  /** Checked block by block, the trailing window first fires at the scan's lock-in, with the scan's value. */
  lemma {:induction false} HotPathAgrees(read: int -> bool, sch: Schedule, tip: int)
    requires forall t :: 1 <= t < tip ==> !Full(read, sch.window, 1, t)
    ensures Full(read, sch.window, 1, tip) <==> LockIn(read, sch.window, 1, tip) == Some(tip)
    ensures !Full(read, sch.window, 1, tip) <==> LockIn(read, sch.window, 1, tip) == None
  {
    assert LockIn(read, sch.window, 1, tip - 1).None?;
  }

  // ------------------------------------------------------------------ the digester's cached height

  const KEY: string := "hf2"

  /** `save_locked_height`: the first writer wins. */
  function SaveLocked(sidecar: map<string, int>, key: string, height: Option<int>): (r: map<string, int>)
    ensures key in sidecar ==> r == sidecar
    ensures height.Some? && key !in sidecar ==> key in r && r[key] == height.value
    ensures r - {key} == sidecar - {key}
  {
    if height.None? || key in sidecar then sidecar else sidecar[key := height.value]
  }

  /** Did the coinbase at a height carry the marker? Height h is position h - 1. */
  function Reader(signals: seq<bool>): int -> bool {
    (h: int) => 1 <= h <= |signals| && signals[h - 1]
  }

  /** What a full scan of the whole chain gives. */
  ghost function Scan(sch: Schedule, signals: seq<bool>): Option<int> {
    ActivationHeight(Reader(signals), sch, |signals|)
  }

  /** The height that closed the first full window, if any. */
  ghost function LockedAt(sch: Schedule, signals: seq<bool>): Option<int> {
    LockIn(Reader(signals), sch.window, 1, |signals|)
  }

  /** A lock-in survives appending blocks and rolling back to it or above. */
  lemma {:induction false} ScanStays(sch: Schedule, signals: seq<bool>, signals': seq<bool>)
    requires LockedAt(sch, signals).Some? && LockedAt(sch, signals).value <= |signals'|
    requires signals[..LockedAt(sch, signals).value] == signals'[..LockedAt(sch, signals).value]
    ensures Scan(sch, signals') == Scan(sch, signals) && LockedAt(sch, signals') == LockedAt(sch, signals)
  {
    var h := LockedAt(sch, signals).value;
    forall i | i <= h ensures Reader(signals)(i) == Reader(signals')(i) {
      if 1 <= i {
        assert signals[i - 1] == signals[..h][i - 1] && signals'[i - 1] == signals'[..h][i - 1];
      }
    }
    ActivationDeterministic(Reader(signals), Reader(signals'), sch, |signals|, |signals'|);
    LockInStays(Reader(signals), Reader(signals'), sch.window, 1, |signals|, |signals'|);
  }

  /** Without a lock-in there is none on any part of the chain. */
  lemma {:induction false} NoScanBelow(sch: Schedule, signals: seq<bool>, k: nat)
    requires LockedAt(sch, signals).None? && k <= |signals|
    ensures LockedAt(sch, signals[..k]).None?
  {
    if LockedAt(sch, signals[..k]).Some? {
      var h := LockedAt(sch, signals[..k]).value;
      assert signals[..k][..h] == signals[..h];
      ScanStays(sch, signals[..k], signals);
    }
  }

  lemma {:induction false} FullBelow(sch: Schedule, signals: seq<bool>, n: nat, t: int)
    requires t <= n <= |signals| && Full(Reader(signals), sch.window, 1, t)
    ensures Full(Reader(signals[..n]), sch.window, 1, t)
  {
    forall i | t - sch.window < i <= t ensures Reader(signals[..n])(i) {
      assert Reader(signals)(i);
    }
  }

  /** The trailing-window check decides a chain whose shorter prefix has no lock-in. */
  lemma {:induction false} TailDecides(sch: Schedule, signals: seq<bool>)
    requires signals != [] ==> LockedAt(sch, signals[..|signals| - 1]).None?
    ensures Full(Reader(signals), sch.window, 1, |signals|) <==> LockedAt(sch, signals) == Some(|signals|)
    ensures !Full(Reader(signals), sch.window, 1, |signals|) <==> LockedAt(sch, signals) == None
  {
    var n := |signals|;
    forall t | 1 <= t < n ensures !Full(Reader(signals), sch.window, 1, t) {
      if Full(Reader(signals), sch.window, 1, t) {
        FullBelow(sch, signals, n - 1, t);
      }
    }
    HotPathAgrees(Reader(signals), sch, n);
  }

  class ForkTracker {
    const sch: Schedule
    /** The confirmed chain, as far as signals go. */
    var signals: seq<bool>
    var forkHeight: Option<int>
    var caughtUp: bool
    var sidecar: map<string, int>

    /** What is cached or persisted is what a full scan gives; after the first scan only the tip is undecided. */
    ghost predicate Valid()
      reads this
    {
      && (forkHeight.Some? ==> Scan(sch, signals) == forkHeight)
      && (KEY in sidecar ==> Scan(sch, signals) == Some(sidecar[KEY]))
      && (forkHeight.None? && caughtUp && signals != [] ==> LockedAt(sch, signals[..|signals| - 1]).None?)
    }

    constructor (sch: Schedule, signals: seq<bool>)
      ensures Valid() && this.sch == sch && this.signals == signals && sidecar == map[]
    {
      this.sch, this.signals, forkHeight, caughtUp, sidecar := sch, signals, None, false, map[];
    }

    /** The detection that runs before a block is judged. */
    method Detect()
      requires Valid()
      modifies `forkHeight, `caughtUp, `sidecar
      ensures Valid() && caughtUp
      ensures forkHeight == Scan(sch, signals)
    {
      if forkHeight.None? {
        TailDecides'(sch, signals, caughtUp);
        var tip := |signals|;
        var found;
        if !caughtUp {
          found := DynamicForkHeight(Reader(signals), Some(tip), sch.window, sch.boundary, sch.bury, 1);
        } else {
          found := LockinAtTip(Reader(signals), Some(tip), sch.window, sch.boundary, sch.bury);
        }
        if found.Some? {
          forkHeight := found;
          sidecar := SaveLocked(sidecar, KEY, found);
        } else if signals != [] {
          NoScanBelow(sch, signals, |signals| - 1);
        }
      }
      caughtUp := true;
    }

    /** A block is judged and appended; the height is looked up first. */
    method Append(signal: bool)
      requires Valid()
      modifies this
      ensures Valid() && caughtUp && signals == old(signals) + [signal]
    {
      Detect();
      assert (signals + [signal])[..|signals|] == signals;
      if LockedAt(sch, signals).Some? {
        assert (signals + [signal])[..LockedAt(sch, signals).value] == signals[..LockedAt(sch, signals).value];
        ScanStays(sch, signals, signals + [signal]);
      }
      signals := signals + [signal];
    }

    /** A rollback that, once a height is cached or persisted, stays at or above the lock-in. */
    method Rollback(k: nat)
      requires Valid() && k <= |signals|
      requires forkHeight.Some? || KEY in sidecar ==> LockedAt(sch, signals).value <= k
      modifies `signals
      ensures Valid() && signals == old(signals)[..k]
    {
      ghost var locked := LockedAt(sch, signals);
      if forkHeight.Some? || KEY in sidecar {
        assert signals[..k][..locked.value] == signals[..locked.value];
        ScanStays(sch, signals, signals[..k]);
      }
      assert signals[..|signals|] == signals;
      if forkHeight.None? && caughtUp && 0 < k < |signals| {
        var n := |signals| - 1;
        NoScanBelow(sch, signals[..n], k - 1);
        assert signals[..n][..k - 1] == signals[..k][..k - 1];
      }
      signals := signals[..k];
    }

    /** A restart reads the persisted height; the sidecar may have been lost. */
    method Restart(lost: bool)
      requires Valid()
      modifies `forkHeight, `caughtUp, `sidecar
      ensures Valid() && !caughtUp && sidecar == if lost then map[] else old(sidecar)
    {
      if lost {
        sidecar := map[];
      }
      caughtUp := false;
      forkHeight := if KEY in sidecar then Some(sidecar[KEY]) else None;
    }
  }

  lemma {:induction false} TailDecides'(sch: Schedule, signals: seq<bool>, caughtUp: bool)
    requires caughtUp && signals != [] ==> LockedAt(sch, signals[..|signals| - 1]).None?
    ensures caughtUp ==>
      (Full(Reader(signals), sch.window, 1, |signals|) <==> LockedAt(sch, signals) == Some(|signals|))
    ensures caughtUp ==> (!Full(Reader(signals), sch.window, 1, |signals|) <==> LockedAt(sch, signals) == None)
  {
    if caughtUp {
      TailDecides(sch, signals);
    }
  }

  // ------------------------------------------------------------------ runs over a chain

  /** `has_fork_signal`: the openfield holds the marker "hf2". */
  predicate HasForkSignal(openfield: Bytes) {
    exists i :: 0 <= i <= |openfield| && [104, 102, 50] <= openfield[i..]
  }

  /** The marker may stand anywhere in the text, and stands in every text that signals. */
  lemma {:induction false} SignalIs(openfield: Bytes) returns (before: Bytes, after: Bytes)
    ensures HasForkSignal(openfield) ==> openfield == before + [104, 102, 50] + after
    ensures forall x, y :: openfield == x + [104, 102, 50] + y ==> HasForkSignal(openfield)
  {
    before, after := [], [];
    if HasForkSignal(openfield) {
      var i :| 0 <= i <= |openfield| && [104, 102, 50] <= openfield[i..];
      before, after := openfield[..i], openfield[i + 3..];
      assert openfield == openfield[..i] + openfield[i..];
    }
    forall x, y | openfield == x + [104, 102, 50] + y ensures HasForkSignal(openfield) {
      assert openfield[|x|..] == [104, 102, 50] + y;
    }
  }

  /** Whether each block's last row, its coinbase, carries the marker; position h - 1 is height h. */
  function Signals(chain: seq<Block>): (s: seq<bool>)
    ensures |s| == |chain|
    ensures forall i :: 0 <= i < |chain| ==> s[i] == Signalled(chain[i])
  {
    seq(|chain|, i requires 0 <= i < |chain| => Signalled(chain[i]))
  }

  predicate Signalled(b: Block) {
    b.rows != [] && HasForkSignal(b.rows[|b.rows| - 1].openfield)
  }

  /** A new block signals exactly when its coinbase, the last transaction, does. */
  lemma {:induction false} CoinbaseSignals(rules: Rules, chain: seq<Block>, txs: seq<Tx>)
    requires chain != [] && txs != []
    ensures Signalled(NewBlock(rules, chain, txs)) <==> HasForkSignal(txs[|txs| - 1].openfield)
  {
    hide HasForkSignal;
    NewRow(rules, chain, txs, |txs| - 1);
  }

  /** A block is judged, and appended if it is accepted; the chain is cut to `k` blocks; the node restarts. */
  datatype TrackOp = Judge(block: Block, accepted: bool) | Undo(k: nat) | Reboot(lost: bool)

  function ChainStep(chain: seq<Block>, op: TrackOp): seq<Block> {
    match op
    case Judge(block, accepted) => if accepted then chain + [block] else chain
    case Undo(k) => if k <= |chain| then chain[..k] else chain
    case Reboot(_) => chain
  }

  function ChainAfter(chain: seq<Block>, ops: seq<TrackOp>): seq<Block> {
    if ops == [] then chain else ChainStep(ChainAfter(chain, ops[..|ops| - 1]), ops[|ops| - 1])
  }

  /** Every rollback of the run stays at or above the lock-in of the chain it cuts, if there is one. */
  ghost predicate Above(sch: Schedule, chain: seq<Block>, ops: seq<TrackOp>) {
    forall i :: 0 <= i < |ops| && ops[i].Undo? ==>
      var locked := LockedAt(sch, Signals(ChainAfter(chain, ops[..i])));
      locked.Some? ==> locked.value <= ops[i].k
  }

  /** One step of a run. */
  method Track(tracker: ForkTracker, op: TrackOp, ghost chain: seq<Block>)
    requires tracker.Valid() && tracker.signals == Signals(chain)
    requires op.Undo? ==> var locked := LockedAt(tracker.sch, Signals(chain)); locked.Some? ==> locked.value <= op.k
    modifies tracker
    ensures tracker.Valid() && tracker.signals == Signals(ChainStep(chain, op))
  {
    hide Scan, LockedAt, Signalled;
    match op {
      case Judge(block, accepted) =>
        if accepted {
          tracker.Append(Signalled(block));
          assert Signals(chain + [block]) == Signals(chain) + [Signalled(block)];
        } else {
          tracker.Detect();
        }
      case Undo(k) =>
        if k <= |tracker.signals| {
          ScanLocked(tracker.sch, tracker.signals);
          tracker.Rollback(k);
          assert Signals(chain[..k]) == Signals(chain)[..k];
        }
      case Reboot(lost) =>
        tracker.Restart(lost);
    }
  }

  lemma {:induction false} ScanLocked(sch: Schedule, signals: seq<bool>)
    ensures Scan(sch, signals).Some? <==> LockedAt(sch, signals).Some?
  {
  }

  /**
   In every run whose rollbacks stay at or above the lock-in, whatever restarts and lost sidecars it
   has, the height found by the next detection is what a full scan of the chain gives.
   */
  method RunTracker(tracker: ForkTracker, ops: seq<TrackOp>, ghost chain: seq<Block>)
    requires tracker.Valid() && tracker.signals == Signals(chain) && Above(tracker.sch, chain, ops)
    modifies tracker
    ensures tracker.Valid() && tracker.signals == Signals(ChainAfter(chain, ops))
    ensures tracker.forkHeight == Scan(tracker.sch, Signals(ChainAfter(chain, ops)))
  {
    hide Scan, LockedAt, Signals, ChainStep;
    TakeAll(ops);
    var i := 0;
    while i < |ops|
      invariant 0 <= i <= |ops| && tracker.Valid() && tracker.signals == Signals(ChainAfter(chain, ops[..i]))
    {
      assert ops[..i + 1][..i] == ops[..i];
      Track(tracker, ops[i], ChainAfter(chain, ops[..i]));
      i := i + 1;
    }
    tracker.Detect();
  }
}
