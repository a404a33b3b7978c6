/** The measurements of `fork_resolution.py`: ancestor search, verdicts, fetching a branch. */
module ForkResolution {
  import opened Wrappers
  import opened ByteStrings
  import opened Transactions
  import opened Ledger
  import opened Consensus
  import opened Nodes

  const LINEAR_PROBES: nat := 6
  const MAX_PROBE_DEPTH: nat := 720
  const FETCH_CAP_BLOCKS: nat := 1000
  const MIN_ANSWERS_DEEP: nat := 2

  /** Our block hash at a height, if there is one. */
  type HashAt = int -> Option<Bytes>

  /** Does the peer hold our block with a hash at a height? The first argument counts requests. */
  type Knows = (nat, int, Bytes) -> Option<bool>

  /**
   What a peer says. Every answer may depend on when it is asked (the first argument counts
   requests), so nothing is assumed about consistency; None is no answer.
   */
  datatype Peer = Peer(
    alive: bool,
    knows: Knows,
    hashAt: (nat, int) -> Option<Bytes>,
    blocksAfter: (nat, int, Bytes) -> Option<seq<seq<Tx>>>)

  // ------------------------------------------------------------------ tie-break

  datatype Side = Ours | Theirs

  /** `tie_winner`; a missing hash is None or empty. */
  function TieWinner(ours: Option<Bytes>, theirs: Option<Bytes>): Side {
    if ours.None? || ours.value == [] || theirs.None? || theirs.value == [] || ours == theirs then Ours
    else if LexLess(ours.value, theirs.value) then Ours else Theirs
  }

  /** The peer wins exactly with two hashes to compare and the smaller one on its side. */
  lemma {:induction false} TieWinnerIs(ours: Option<Bytes>, theirs: Option<Bytes>)
    ensures TieWinner(ours, theirs) == Theirs <==>
      && ours.Some? && theirs.Some? && ours.value != [] && theirs.value != []
      && LexLess(theirs.value, ours.value)
  {
    if ours.Some? && theirs.Some? {
      LexTotal(ours.value, theirs.value);
    }
  }

  /** A stable choice: swap the sides and the answer swaps; no evidence never switches. */
  lemma {:induction false} TieWinnerStable(a: Bytes, b: Bytes)
    requires a != [] && b != [] && a != b
    ensures TieWinner(Some(a), Some(b)) == Ours <==> TieWinner(Some(b), Some(a)) == Theirs
    ensures TieWinner(Some(a), Some(b)) == Theirs <==> LexLess(b, a)
  {
    LexTotal(a, b);
  }

  // ------------------------------------------------------------------ ancestor search

  /** One probe: `agrees`. Without a hash of our own there is nothing to ask. */
  function Probe(ourHashAt: HashAt, knows: Knows, step: nat, h: int): Option<bool> {
    if ourHashAt(h).None? || ourHashAt(h).value == [] then None else knows(step, h, ourHashAt(h).value)
  }

  /** Height `h` was probed and got answer `a`. */
  ghost predicate Said(ourHashAt: HashAt, knows: Knows, asked: seq<int>, h: int, a: Option<bool>) {
    exists s :: 0 <= s < |asked| && asked[s] == h && Probe(ourHashAt, knows, s, h) == a
  }

  /** What a result of the search means. */
  ghost predicate Boundary(ourHashAt: HashAt, knows: Knows, asked: seq<int>, floor: int, tip: int, a: int) {
    || (a == tip && Said(ourHashAt, knows, asked, tip, Some(true)))
    || (floor <= a < tip && Said(ourHashAt, knows, asked, a, Some(true))
      && Said(ourHashAt, knows, asked, a + 1, Some(false)))
    || (a == floor - 1 && Said(ourHashAt, knows, asked, if floor <= tip then floor else tip, Some(false)))
  }

  ghost predicate AllAnswered(ourHashAt: HashAt, knows: Knows, asked: seq<int>) {
    forall s :: 0 <= s < |asked| ==> Probe(ourHashAt, knows, s, asked[s]).Some?
  }

  /** Every probe so far lies at or above `hi`, or at or below `lo`, and no height was asked twice. */
  ghost predicate Asked(asked: seq<int>, lo: int, hi: int) {
    && (forall s :: 0 <= s < |asked| ==> asked[s] <= lo || asked[s] >= hi)
    && (forall s, t :: 0 <= s < t < |asked| ==> asked[s] != asked[t])
  }

  /** Only the tip and heights between the floor and the tip are probed. */
  ghost predicate InRange(asked: seq<int>, floor: int, tip: int) {
    forall s :: 0 <= s < |asked| ==> asked[s] == tip || floor <= asked[s] <= tip
  }

  function CeilLog2(n: nat): nat {
    if n <= 1 then 0 else 1 + CeilLog2((n + 1) / 2)
  }

  lemma {:induction false} CeilLog2Monotone(m: nat, n: nat)
    requires m <= n
    ensures CeilLog2(m) <= CeilLog2(n)
  {
    if m > 1 {
      CeilLog2Monotone((m + 1) / 2, (n + 1) / 2);
    }
  }

  lemma {:induction false} CeilLog2Halves(gap: nat, gap': nat)
    requires gap > 1 && gap' <= (gap + 1) / 2
    ensures CeilLog2(gap') + 1 <= CeilLog2(gap)
  {
    CeilLog2Monotone(gap', (gap + 1) / 2);
  }

  function Max(a: int, b: int): int {
    if a >= b then a else b
  }

  /** Most probes a search can take: the tip, the linear walk, the floor, and the halving. */
  function ProbeLimit(depth: int, linear: int): nat {
    2 + Max(0, linear) + CeilLog2(Max(0, depth - Max(0, linear)))
  }

  lemma {:induction false} SaidLast(ourHashAt: HashAt, knows: Knows, asked: seq<int>, h: int)
    ensures Said(ourHashAt, knows, asked + [h], h, Probe(ourHashAt, knows, |asked|, h))
    ensures forall g, a :: Said(ourHashAt, knows, asked, g, a) ==> Said(ourHashAt, knows, asked + [h], g, a)
    ensures AllAnswered(ourHashAt, knows, asked) && Probe(ourHashAt, knows, |asked|, h).Some? ==>
      AllAnswered(ourHashAt, knows, asked + [h])
    ensures Probe(ourHashAt, knows, |asked|, h).None? ==> !AllAnswered(ourHashAt, knows, asked + [h])
  {
    hide Probe;
    var more := asked + [h];
    assert more[|asked|] == h;
    forall g, a | Said(ourHashAt, knows, asked, g, a) ensures Said(ourHashAt, knows, more, g, a) {
      var s :| 0 <= s < |asked| && asked[s] == g && Probe(ourHashAt, knows, s, g) == a;
      assert more[s] == g;
    }
  }

  /** A finished search: which heights were probed, in order, and why the result follows from the answers. */
  ghost predicate Trace(ourHashAt: HashAt, knows: Knows, tip: int, floor: int, ancestor: Option<int>, probes: nat,
                        asked: seq<int>)
  {
    && probes == |asked| && InRange(asked, floor, tip)
    && (forall s, t :: 0 <= s < t < |asked| ==> asked[s] != asked[t])
    && (ancestor.None? <==> !AllAnswered(ourHashAt, knows, asked))
    && (ancestor.Some? ==> Boundary(ourHashAt, knows, asked, floor, tip, ancestor.value))
  }

  ghost predicate Searched(ourHashAt: HashAt, knows: Knows, tip: int, floor: int, ancestor: Option<int>, probes: nat) {
    exists asked :: Trace(ourHashAt, knows, tip, floor, ancestor, probes, asked)
  }

  /** A search under way: no agreement at `hi`, agreement at `lo` unless below the floor, nothing asked between. */
  ghost predicate Gap(ourHashAt: HashAt, knows: Knows, tip: int, floor: int, asked: seq<int>, lo: int, hi: int) {
    && floor - 1 <= lo < hi <= tip
      && Asked(asked, lo, hi) && InRange(asked, floor, tip) && AllAnswered(ourHashAt, knows, asked)
    && (lo >= floor ==> Said(ourHashAt, knows, asked, lo, Some(true))) && Said(ourHashAt, knows, asked, hi, Some(false))
  }

  /** The first probe, at the tip. */
  lemma {:induction false} TipProbe(ourHashAt: HashAt, knows: Knows, tip: int, floor: int)
    ensures match Probe(ourHashAt, knows, 0, tip)
      case None => Trace(ourHashAt, knows, tip, floor, None, 1, [tip])
      case Some(true) => Trace(ourHashAt, knows, tip, floor, Some(tip), 1, [tip])
      case Some(false) =>
        if floor <= tip then Gap(ourHashAt, knows, tip, floor, [tip], floor - 1, tip)
        else Trace(ourHashAt, knows, tip, floor, Some(floor - 1), 1, [tip])
  {
    hide Probe, Said, AllAnswered;
    SaidLast(ourHashAt, knows, [], tip);
    assert [] + [tip] == [tip];
    assert AllAnswered(ourHashAt, knows, []) by { NoneAsked(ourHashAt, knows); }
  }

  lemma {:induction false} NoneAsked(ourHashAt: HashAt, knows: Knows)
    ensures AllAnswered(ourHashAt, knows, [])
  {
  }

  /** A probe inside the gap ends the search or narrows it. */
  lemma {:induction false} GapProbe(ourHashAt: HashAt, knows: Knows, tip: int, floor: int, asked: seq<int>, lo: int,
                                    hi: int, mid: int)
    requires Gap(ourHashAt, knows, tip, floor, asked, lo, hi) && lo < mid < hi
    ensures var more := asked + [mid];
      match Probe(ourHashAt, knows, |asked|, mid)
      case None => Trace(ourHashAt, knows, tip, floor, None, |more|, more)
      case Some(true) => Gap(ourHashAt, knows, tip, floor, more, mid, hi)
      case Some(false) => Gap(ourHashAt, knows, tip, floor, more, lo, mid)
  {
    hide Probe, Said, AllAnswered;
    SaidLast(ourHashAt, knows, asked, mid);
  }

  /** A gap of one is a boundary. */
  lemma {:induction false} GapCloses(ourHashAt: HashAt, knows: Knows, tip: int, floor: int, asked: seq<int>, lo: int,
                                     hi: int)
    requires Gap(ourHashAt, knows, tip, floor, asked, lo, hi) && hi == lo + 1
    ensures Trace(ourHashAt, knows, tip, floor, Some(lo), |asked|, asked)
  {
    hide Probe, Said, AllAnswered;
  }

  /** The linear walk: at most `linear` heights below the tip, one by one. A result, or a gap from `hi` down. */
  method WalkBack(ourHashAt: HashAt, knows: Knows, tip: int, floor: int, linear: int)
    returns (found: Option<Option<int>>, hi: int, probes: nat, ghost asked: seq<int>)
    requires Gap(ourHashAt, knows, tip, floor, [tip], floor - 1, tip)
    ensures probes == |asked| && probes <= 1 + Max(0, linear)
    ensures found.Some? ==> Trace(ourHashAt, knows, tip, floor, found.value, probes, asked)
    ensures found.None? ==> hi == tip - Max(0, linear) && Gap(ourHashAt, knows, tip, floor, asked, floor - 1, hi)
  {
    hide Probe, Gap, Trace;
    hi, probes, asked := tip, 1, [tip];
    var i := 0;
    while i < linear
      invariant 0 <= i <= Max(0, linear) && hi == tip - i && probes == |asked| == i + 1
      invariant Gap(ourHashAt, knows, tip, floor, asked, floor - 1, hi)
    {
      GapBounds(ourHashAt, knows, tip, floor, asked, floor - 1, hi);
      var h := hi - 1;
      if h < floor {
        GapCloses(ourHashAt, knows, tip, floor, asked, floor - 1, hi);
        return Some(Some(floor - 1)), hi, probes, asked;
      }
      var a := Probe(ourHashAt, knows, probes, h);
      GapProbe(ourHashAt, knows, tip, floor, asked, floor - 1, hi, h);
      probes, asked := probes + 1, asked + [h];
      if a.None? {
        return Some(None), h, probes, asked;
      }
      if a.value {
        GapCloses(ourHashAt, knows, tip, floor, asked, h, hi);
        return Some(Some(h)), h, probes, asked;
      }
      hi, i := h, i + 1;
    }
    found := None;
  }

  lemma {:induction false} GapBounds(ourHashAt: HashAt, knows: Knows, tip: int, floor: int, asked: seq<int>, lo: int,
                                     hi: int)
    requires Gap(ourHashAt, knows, tip, floor, asked, lo, hi)
    ensures floor - 1 <= lo < hi <= tip
  {
  }

  /** The binary search between a height that agrees and one that does not. */
  method Bisect(ourHashAt: HashAt, knows: Knows, tip: int, floor: int, bottom: int, top: int, start: nat,
                ghost before: seq<int>)
    returns (ancestor: Option<int>, probes: nat)
    requires Gap(ourHashAt, knows, tip, floor, before, bottom, top) && start == |before| && bottom < top
    ensures probes <= start + CeilLog2(top - bottom)
    ensures Searched(ourHashAt, knows, tip, floor, ancestor, probes)
  {
    hide Probe, Gap, Trace, CeilLog2;
    var lo, hi := bottom, top;
    probes := start;
    ghost var asked := before;
    while hi - lo > 1
      invariant lo < hi && probes == |asked| && probes + CeilLog2(hi - lo) <= start + CeilLog2(top - bottom)
      invariant Gap(ourHashAt, knows, tip, floor, asked, lo, hi)
    {
      var mid := (lo + hi) / 2;
      CeilLog2Halves(hi - lo, mid - lo);
      CeilLog2Halves(hi - lo, hi - mid);
      var a := Probe(ourHashAt, knows, probes, mid);
      GapProbe(ourHashAt, knows, tip, floor, asked, lo, hi, mid);
      probes, asked := probes + 1, asked + [mid];
      if a.None? {
        return None, probes;
      }
      if a.value {
        lo := mid;
      } else {
        hi := mid;
      }
    }
    GapCloses(ourHashAt, knows, tip, floor, asked, lo, hi);
    ancestor := Some(lo);
  }

  /** `find_common_ancestor` */
  method FindCommonAncestor(ourHashAt: HashAt, knows: Knows, tip: int, floor: int, linear: int)
    returns (ancestor: Option<int>, probes: nat)
    ensures Searched(ourHashAt, knows, tip, floor, ancestor, probes) && probes <= ProbeLimit(tip - floor, linear)
  {
    hide Probe, Gap, Trace, CeilLog2;
    var top := Probe(ourHashAt, knows, 0, tip);
    TipProbe(ourHashAt, knows, tip, floor);
    if top.None? {
      return None, 1;
    }
    if top.value {
      return Some(tip), 1;
    }
    if floor > tip {
      return Some(floor - 1), 1;
    }
    var found, hi;
    ghost var asked;
    found, hi, probes, asked := WalkBack(ourHashAt, knows, tip, floor, linear);
    if found.Some? {
      return found.value, probes;
    }
    GapBounds(ourHashAt, knows, tip, floor, asked, floor - 1, hi);
    if hi <= floor {
      GapCloses(ourHashAt, knows, tip, floor, asked, floor - 1, hi);
      return Some(floor - 1), probes;
    }
    var bottom := Probe(ourHashAt, knows, probes, floor);
    GapProbe(ourHashAt, knows, tip, floor, asked, floor - 1, hi, floor);
    probes, asked := probes + 1, asked + [floor];
    if bottom.None? {
      return None, probes;
    }
    if !bottom.value {
      GapCloses(ourHashAt, knows, tip, floor, asked, floor - 1, floor);
      return Some(floor - 1), probes;
    }
    ancestor, probes := Bisect(ourHashAt, knows, tip, floor, floor, hi, probes, asked);
  }

  /** Within the first `probes` questions the peer was asked about a non-empty hash of ours at `h`, and said `yes`. */
  ghost predicate Told(ourHashAt: HashAt, knows: Knows, probes: nat, h: int, yes: bool) {
    && ourHashAt(h).Some? && ourHashAt(h).value != []
    && exists s :: 0 <= s < probes && knows(s, h, ourHashAt(h).value) == Some(yes)
  }

  /**
   * A search that names an ancestor rests on the peer's own words about blocks we hold: yes at the ancestor, no
   * at the height above it. A search that ends below the floor has no yes, and one at the tip has no no. A floor just
   * above the tip makes the two results the same number, and only there does it not say which answer came.
   */
  lemma {:induction false} AncestorTold(ourHashAt: HashAt, knows: Knows, tip: int, floor: int, a: int, probes: nat)
    requires Searched(ourHashAt, knows, tip, floor, Some(a), probes)
    ensures a == tip || floor - 1 <= a
    ensures floor <= a || (a == tip && floor != tip + 1) ==> Told(ourHashAt, knows, probes, a, true)
    ensures a == tip && floor == tip + 1 ==>
      Told(ourHashAt, knows, probes, tip, true) || Told(ourHashAt, knows, probes, tip, false)
    ensures a != tip ==> Told(ourHashAt, knows, probes, if a + 1 <= tip then a + 1 else tip, false)
  {
    hide Probe, AllAnswered;
    var asked :| Trace(ourHashAt, knows, tip, floor, Some(a), probes, asked);
    forall h, yes | Said(ourHashAt, knows, asked, h, Some(yes)) ensures Told(ourHashAt, knows, probes, h, yes) {
      SaidTold(ourHashAt, knows, asked, h, yes);
    }
  }

  lemma {:induction false} SaidTold(ourHashAt: HashAt, knows: Knows, asked: seq<int>, h: int, yes: bool)
    requires Said(ourHashAt, knows, asked, h, Some(yes))
    ensures Told(ourHashAt, knows, |asked|, h, yes)
  {
    var s :| 0 <= s < |asked| && asked[s] == h && Probe(ourHashAt, knows, s, h) == Some(yes);
    assert knows(s, h, ourHashAt(h).value) == Some(yes);
  }

  /** At the probe depth limit a search takes at most 18 probes. */
  lemma {:induction false} ProbeLimitAtDepth()
    ensures ProbeLimit(MAX_PROBE_DEPTH, LINEAR_PROBES) == 18
  {
    assert CeilLog2(12) == 4;
    assert CeilLog2(90) == 7;
    assert CeilLog2(714) == 10;
  }

  /** Whether the peer holds our block at `h`, when its answers do not change. */
  ghost predicate Agrees(ourHashAt: HashAt, knows: Knows, h: int) {
    Probe(ourHashAt, knows, 0, h) == Some(true)
  }

  /** Answers do not depend on when they are given, and agreement at a height reaches down to the floor. */
  ghost predicate Steady(ourHashAt: HashAt, knows: Knows, floor: int, tip: int) {
    && (forall s, h :: floor <= h <= tip ==> Probe(ourHashAt, knows, s, h) == Probe(ourHashAt, knows, 0, h))
    && (forall g, h :: floor <= g <= h <= tip && Agrees(ourHashAt, knows, h) ==> Agrees(ourHashAt, knows, g))
  }

  /** With steady, downward closed answers the boundary is the highest height that agrees. */
  lemma {:induction false} BoundaryIsHighest(ourHashAt: HashAt, knows: Knows, asked: seq<int>, floor: int, tip: int,
                                             a: int)
    requires floor <= tip && Steady(ourHashAt, knows, floor, tip) && Boundary(ourHashAt, knows, asked, floor, tip, a)
    ensures floor - 1 <= a <= tip && (a >= floor ==> Agrees(ourHashAt, knows, a))
    ensures forall h :: a < h <= tip ==> !Agrees(ourHashAt, knows, h)
  {
    hide Probe;
    if a < tip {
      var b := a + 1;
      assert Said(ourHashAt, knows, asked, b, Some(false));
      assert !Agrees(ourHashAt, knows, b);
    }
  }

  // ------------------------------------------------------------------ permission to roll back

  /** What `rollback_allowed` reads about the peers and the configuration. */
  datatype Policy = Policy(
    recovery: bool, consensusSize: nat, minPeers: nat, percentage: int, threshold: int,
    reputable: nat, minReputable: nat)

  /** `rollback_allowed` */
  predicate RollbackAllowed(checkpoint: int, target: int, policy: Policy) {
    target >= checkpoint
    || (policy.recovery && policy.consensusSize >= policy.minPeers && policy.percentage >= policy.threshold
        && policy.reputable >= policy.minReputable)
  }

  /** `majority_disagrees`: only peers that answer count. */
  method MajorityDisagrees(replies: seq<Option<bool>>, minAnswers: int)
    returns (verdict: Option<bool>, answers: nat, disagree: nat)
    ensures answers == |replies| - multiset(replies)[None] && disagree == multiset(replies)[Some(false)]
    ensures verdict.None? <==> answers < minAnswers
    ensures verdict == Some(true) <==> answers >= minAnswers && disagree > answers - disagree
  {
    answers, disagree := 0, 0;
    var i := 0;
    TakeAll(replies);
    while i < |replies|
      invariant 0 <= i <= |replies|
      invariant answers == i - multiset(replies[..i])[None] && disagree == multiset(replies[..i])[Some(false)]
    {
      TakeNext(replies, i);
      if replies[i].Some? {
        answers := answers + 1;
        if !replies[i].value {
          disagree := disagree + 1;
        }
      }
      i := i + 1;
    }
    verdict := if answers < minAnswers then None else Some(disagree * 2 > answers);
  }

  /** Another peer answered, and with the advertiser's own "no" a strict majority does not know our tip. */
  ghost predicate Corroborates(replies: seq<Option<bool>>) {
    var answers, noes := |replies| - multiset(replies)[None], multiset(replies)[Some(false)];
    answers >= 1 && 2 * (noes + 1) > answers + 1
  }

  /** The corroboration part of `deep_ok` */
  method Corroborated(replies: seq<Option<bool>>) returns (ok: bool)
    ensures ok <==> Corroborates(replies)
    ensures ok <==> var answers, noes := |replies| - multiset(replies)[None], multiset(replies)[Some(false)];
      answers >= 1 && 2 * (noes + 1) > answers + 1
  {
    var _, answers, disagree := MajorityDisagrees(replies, Max(1, MIN_ANSWERS_DEEP - 1));
    answers, disagree := answers + 1, disagree + 1;
    ok := answers >= MIN_ANSWERS_DEEP && disagree * 2 > answers;
  }

  // ------------------------------------------------------------------ measuring

  /** `classify` */
  function Classify(ancestor: Option<int>, tip: int, peerHeight: int, permitted: int -> bool): Verdict {
    if ancestor.None? then UNKNOWN
    else if ancestor.value >= tip then (if peerHeight > tip then BEHIND else SYNCED)
    else if peerHeight < tip then SYNCED
    else if !permitted(ancestor.value) then DEAD_FORK
    else REORG
  }

  function Floor(tip: int): int {
    Max(1, tip - MAX_PROBE_DEPTH)
  }

  /** Only a proven, permitted divergence within reach, from a peer at our height or above, asks for a reorg. */
  ghost predicate MeasuredBy(ourHashAt: HashAt, peer: Peer, tip: int, peerHeight: Option<int>, permitted: int -> bool,
                             state: Verdict, ancestor: Option<int>, asked: seq<int>)
  {
    && InRange(asked, Floor(tip), tip)
    && (peerHeight.None? || peerHeight.value < tip ==> state == SYNCED)
    && (peerHeight.Some? && peerHeight.value >= tip && (!peer.alive || !AllAnswered(ourHashAt, peer.knows, asked)) ==>
      state == UNKNOWN)
    && (peerHeight.Some? && peerHeight.value >= tip && peer.alive && AllAnswered(ourHashAt, peer.knows, asked) ==>
          && ancestor.Some? && Boundary(ourHashAt, peer.knows, asked, Floor(tip), tip, ancestor.value)
          && (state == REORG <==> Floor(tip) <= ancestor.value < tip && permitted(ancestor.value))
          && (state == DEAD_FORK <==>
                ancestor.value < Floor(tip) || (ancestor.value < tip && !permitted(ancestor.value)))
          && (state == BEHIND <==> Max(Floor(tip), tip) <= ancestor.value && peerHeight.value > tip)
          && (state == SYNCED <==> Max(Floor(tip), tip) <= ancestor.value && peerHeight.value == tip))
  }

  ghost predicate Measured(ourHashAt: HashAt, peer: Peer, tip: int, peerHeight: Option<int>, permitted: int -> bool,
                           state: Verdict, ancestor: Option<int>)
  {
    exists asked :: MeasuredBy(ourHashAt, peer, tip, peerHeight, permitted, state, ancestor, asked)
  }

  lemma {:induction false} NothingAsked(ourHashAt: HashAt, peer: Peer, tip: int, peerHeight: Option<int>,
                                        permitted: int -> bool)
    ensures peerHeight.None? || peerHeight.value < tip ==>
      MeasuredBy(ourHashAt, peer, tip, peerHeight, permitted, SYNCED, None, [])
    ensures peerHeight.Some? && peerHeight.value >= tip && !peer.alive ==>
      MeasuredBy(ourHashAt, peer, tip, peerHeight, permitted, UNKNOWN, None, [])
  {
  }

  /** `measure` */
  method Measure(ourHashAt: HashAt, peer: Peer, tip: int, peerHeight: Option<int>, permitted: int -> bool)
    returns (state: Verdict, ancestor: Option<int>, probes: nat)
    ensures Measured(ourHashAt, peer, tip, peerHeight, permitted, state, ancestor) && (tip >= 1 ==> probes <= 18)
  {
    hide Boundary, AllAnswered, ProbeLimit, InRange;
    var floor := Floor(tip);
    NothingAsked(ourHashAt, peer, tip, peerHeight, permitted);
    if peerHeight.None? || peerHeight.value < tip {
      return SYNCED, None, 0;
    }
    if !peer.alive {
      return UNKNOWN, None, 0;
    }
    ancestor, probes := FindCommonAncestor(ourHashAt, peer.knows, tip, floor, LINEAR_PROBES);
    if tip >= 1 {
      ProbeLimitWithin(tip - floor);
    }
    ghost var asked :| Trace(ourHashAt, peer.knows, tip, floor, ancestor, probes, asked);
    if ancestor.None? {
      state := UNKNOWN;
    } else if ancestor.value < floor {
      state := DEAD_FORK;
    } else {
      state := Classify(ancestor, tip, peerHeight.value, permitted);
    }
    assert MeasuredBy(ourHashAt, peer, tip, peerHeight, permitted, state, ancestor, asked);
  }

  lemma {:induction false} ProbeLimitWithin(depth: nat)
    requires depth <= MAX_PROBE_DEPTH
    ensures ProbeLimit(depth, LINEAR_PROBES) <= 18
  {
    ProbeLimitAtDepth();
    CeilLog2Monotone(Max(0, depth - LINEAR_PROBES), MAX_PROBE_DEPTH - LINEAR_PROBES);
  }

  // ------------------------------------------------------------------ fetching

  /** The wire form of a run of blocks. */
  function Wires(blocks: seq<Block>): (w: seq<seq<Tx>>)
    ensures |w| == |blocks| && forall i :: 0 <= i < |w| ==> w[i] == WireTxs(blocks[i].rows)
  {
    seq(|blocks|, i requires 0 <= i < |blocks| => WireTxs(blocks[i].rows))
  }

  /** How much of a batch is kept: up to the cap, and up to the first malformed block. */
  method HoldBatch(held: seq<seq<Tx>>, batch: seq<seq<Tx>>, cap: nat) returns (held': seq<seq<Tx>>, stop: bool)
    requires |held| < cap
    ensures |held'| <= cap && held <= held' <= held + batch
    ensures !stop ==> held' == held + batch
    ensures [] !in batch ==> (stop <==> |held| + |batch| >= cap && batch != [])
    ensures [] !in batch ==> held' == held + batch || |held'| == cap
  {
    held', stop := held, false;
    var i := 0;
    TakeAll(batch);
    while i < |batch|
      invariant 0 <= i <= |batch| && held' == held + batch[..i] && |held'| < cap
    {
      TakeNext(batch, i);
      if batch[i] == [] {
        return held', true;
      }
      held' := held' + [batch[i]];
      if |held'| >= cap {
        return held', true;
      }
      i := i + 1;
    }
  }

  /** A peer that answers from one chain: every probe, hash and batch is what that chain holds. */
  ghost predicate Serves(peer: Peer, chain: seq<Block>) {
    && peer.alive
    && (forall s, h, hash :: peer.knows(s, h, hash) == Some(1 <= h <= |chain| && chain[h - 1].hash == hash))
    && (forall s, h :: 1 <= h <= |chain| ==> peer.hashAt(s, h) == Some(chain[h - 1].hash))
    && (forall s, h :: 1 <= h <= |chain| ==> ServesAfter(peer, chain, s, h))
  }

  /** A non-empty run of the blocks after `h`, or nothing at the tip. */
  ghost predicate ServesAfter(peer: Peer, chain: seq<Block>, s: nat, h: int)
    requires 1 <= h <= |chain|
  {
    exists m :: h <= m <= |chain| && (m == h ==> h == |chain|)
      && peer.blocksAfter(s, h, chain[h - 1].hash) == Some(Wires(chain[h..m]))
  }

  /** The peer that answers from a given chain and sends everything it has. */
  function Serving(chain: seq<Block>): Peer {
    Peer(
      true,
      (s: nat, h: int, hash: Bytes) => Some(1 <= h <= |chain| && chain[h - 1].hash == hash),
      (s: nat, h: int) => if 1 <= h <= |chain| then Some(chain[h - 1].hash) else None,
      (s: nat, h: int, hash: Bytes) => if 1 <= h <= |chain| then Some(Wires(chain[h..])) else None)
  }

  lemma {:induction false} ServingServes(chain: seq<Block>)
    ensures Serves(Serving(chain), chain)
  {
    var peer := Serving(chain);
    forall s: nat, h | 1 <= h <= |chain| ensures ServesAfter(peer, chain, s, h) {
      assert chain[h..|chain|] == chain[h..];
      assert peer.blocksAfter(s, h, chain[h - 1].hash) == Some(Wires(chain[h..|chain|]));
    }
  }

  /** No block is empty and none has an empty hash, which would read as a missing one. */
  ghost predicate Filled(chain: seq<Block>) {
    forall i :: 0 <= i < |chain| ==> chain[i].rows != [] && chain[i].hash != []
  }

  /** What is held so far is the peer's branch from the ancestor on. */
  ghost predicate OnBranch(held: seq<seq<Tx>>, chain: seq<Block>, ancestor: int) {
    0 <= ancestor && ancestor + |held| <= |chain| && held == Wires(chain[ancestor..ancestor + |held|])
  }

  /** The peer answers from `chain` and holds our ancestor. */
  ghost predicate Trusted(peer: Peer, chain: seq<Block>, ancestor: int, ancestorHash: Bytes) {
    && Serves(peer, chain) && Filled(chain)
    && 1 <= ancestor <= |chain| && ancestorHash == chain[ancestor - 1].hash
  }

  lemma {:induction false} NextBatch(peer: Peer, chain: seq<Block>, s: nat, h: int) returns (m: int)
    requires Serves(peer, chain) && Filled(chain) && 1 <= h <= |chain|
    ensures h <= m <= |chain| && (m == h ==> h == |chain|)
    ensures peer.blocksAfter(s, h, chain[h - 1].hash) == Some(Wires(chain[h..m]))
    ensures [] !in Wires(chain[h..m])
  {
    assert ServesAfter(peer, chain, s, h);
    m :| h <= m <= |chain| && (m == h ==> h == |chain|) &&
      peer.blocksAfter(s, h, chain[h - 1].hash) == Some(Wires(chain[h..m]));
  }

  lemma {:induction false} NextHash(peer: Peer, chain: seq<Block>, s: nat, h: int)
    requires Serves(peer, chain) && Filled(chain) && 1 <= h <= |chain|
    ensures peer.hashAt(s, h) == Some(chain[h - 1].hash) && chain[h - 1].hash != []
  {
  }

  lemma {:induction false} BranchGrows(chain: seq<Block>, ancestor: int, held: seq<seq<Tx>>, m: int, more: seq<seq<Tx>>)
    requires OnBranch(held, chain, ancestor) && ancestor + |held| <= m <= |chain|
    requires held <= more <= held + Wires(chain[ancestor + |held|..m])
    ensures OnBranch(more, chain, ancestor)
  {
    forall i | 0 <= i < |more| ensures more[i] == WireTxs(chain[ancestor + i].rows) {
      if i < |held| {
        assert more[i] == held[i] == Wires(chain[ancestor..ancestor + |held|])[i];
      } else {
        assert more[i] == Wires(chain[ancestor + |held|..m])[i - |held|];
      }
    }
  }

  /** `fetch_branch`; `expired(i)` says whether the time budget is used up before request `i`. */
  method FetchBranch(peer: Peer, ancestor: int, ancestorHash: Bytes, cap: nat, expired: nat -> bool,
                     stopHeight: Option<int>, ghost chain: seq<Block>)
    returns (held: Option<seq<seq<Tx>>>, complete: bool)
    ensures held.Some? ==> |held.value| <= cap
    ensures Trusted(peer, chain, ancestor, ancestorHash) ==> held.Some? && OnBranch(held.value, chain, ancestor)
    ensures Trusted(peer, chain, ancestor, ancestorHash) && stopHeight == Some(|chain|) && (forall i :: !expired(i)) ==>
      |held.value| == Min(cap, |chain| - ancestor)
  {
    hide Serves, Filled, OnBranch, Wires;
    ghost var honest := Trusted(peer, chain, ancestor, ancestorHash);
    var blocks: seq<seq<Tx>>, curHash, first, i: nat := [], ancestorHash, true, 0;
    if honest {
      NothingHeld(chain, ancestor);
    }
    while |blocks| < cap && !expired(i)
      invariant |blocks| <= cap
      invariant honest ==> OnBranch(blocks, chain, ancestor) && ancestor + |blocks| <= |chain|
      invariant honest ==> curHash == chain[ancestor + |blocks| - 1].hash
      decreases cap - |blocks|
    {
      var batch := peer.blocksAfter(i, ancestor + |blocks|, curHash);
      ghost var m := 0;
      if honest {
        OnBranchLength(blocks, chain, ancestor);
        m := NextBatch(peer, chain, i, ancestor + |blocks|);
      }
      if batch.None? {
        return if first then None else Some(blocks), false;
      }
      first := false;
      if batch.value == [] {
        return Some(blocks), true;
      }
      var more, stop := HoldBatch(blocks, batch.value, cap);
      if honest {
        BranchGrows(chain, ancestor, blocks, m, more);
        OnBranchLength(more, chain, ancestor);
      }
      blocks := more;
      if stop {
        return Some(blocks), false;
      }
      if stopHeight.Some? && ancestor + |blocks| >= stopHeight.value {
        return Some(blocks), true;
      }
      var hash := peer.hashAt(i, ancestor + |blocks|);
      if honest {
        NextHash(peer, chain, i, ancestor + |blocks|);
      }
      if hash.None? || hash.value == [] {
        return Some(blocks), false;
      }
      curHash, i := hash.value, i + 1;
    }
    if honest {
      OnBranchLength(blocks, chain, ancestor);
    }
    held, complete := Some(blocks), false;
  }

  lemma {:induction false} NothingHeld(chain: seq<Block>, ancestor: int)
    requires 0 <= ancestor <= |chain|
    ensures OnBranch([], chain, ancestor)
  {
  }

  lemma {:induction false} OnBranchLength(held: seq<seq<Tx>>, chain: seq<Block>, ancestor: int)
    requires OnBranch(held, chain, ancestor)
    ensures 0 <= ancestor && ancestor + |held| <= |chain|
  {
  }

  function Min(a: int, b: int): int {
    if a <= b then a else b
  }

  // ------------------------------------------------------------------ regrouping backed-up rows

  /** The transactions of the rows at one height, in order. */
  function TxsAt(rows: seq<Entry>, h: int): seq<Tx> {
    if rows == [] then [] else
      TxsAt(rows[..|rows| - 1], h) + (if rows[|rows| - 1].height == h then [WireTx(rows[|rows| - 1].row)] else [])
  }

  ghost predicate Grouped(rows: seq<Entry>, byHeight: map<nat, seq<Tx>>) {
    && (forall h: nat :: h in byHeight <==> h > 0 && TxsAt(rows, h) != [])
    && (forall h :: h in byHeight ==> byHeight[h] == TxsAt(rows, h))
  }

  function LeastHeight(heights: set<nat>): (h: nat)
    requires heights != {}
    ensures h in heights && forall g :: g in heights ==> h <= g
  {
    var x :| x in heights;
    LeastHeightExists(heights, x);
    var h :| h in heights && forall g :: g in heights ==> h <= g;
    h
  }

  lemma {:induction false} LeastHeightExists(heights: set<nat>, x: nat)
    requires x in heights
    ensures exists h :: h in heights && forall g :: g in heights ==> h <= g
    decreases x
  {
    if y :| y in heights && y < x {
      LeastHeightExists(heights, y);
    }
  }

  lemma {:induction false} GroupedNext(rows: seq<Entry>, byHeight: map<nat, seq<Tx>>, e: Entry)
    requires Grouped(rows, byHeight)
    ensures e.height == 0 ==> Grouped(rows + [e], byHeight)
    ensures e.height > 0 ==>
      Grouped(rows + [e],
        byHeight[e.height := (if e.height in byHeight then byHeight[e.height] else []) + [WireTx(e.row)]])
  {
    assert (rows + [e])[..|rows|] == rows;
    forall h: int ensures TxsAt(rows + [e], h) == TxsAt(rows, h) + (if e.height == h then [WireTx(e.row)] else []) {
    }
  }

  ghost predicate Rising(hs: seq<nat>) {
    forall i, j :: 0 <= i < j < |hs| ==> hs[i] < hs[j]
  }

  /** Blocks at rising heights, one for each height that has rows, each with that height's transactions in order. */
  ghost predicate GroupedAt(rows: seq<Entry>, blocks: seq<seq<Tx>>, heights: seq<nat>) {
    && Rising(heights) && |heights| == |blocks|
    && (forall h: nat :: h in heights <==> h > 0 && TxsAt(rows, h) != [])
    && (forall i :: 0 <= i < |blocks| ==> blocks[i] == TxsAt(rows, heights[i]))
  }

  ghost predicate Regrouped(rows: seq<Entry>, blocks: seq<seq<Tx>>) {
    exists heights :: GroupedAt(rows, blocks, heights)
  }

  /**
   `blocks_from_rows`: one block per height that has rows, lowest first, rows in stored order.
   */
  method BlocksFromRows(rows: seq<Entry>) returns (blocks: seq<seq<Tx>>)
    ensures Regrouped(rows, blocks)
  {
    hide TxsAt;
    var byHeight: map<nat, seq<Tx>> := map[];
    var i := 0;
    NoRows();
    TakeAll(rows);
    while i < |rows|
      invariant 0 <= i <= |rows| && Grouped(rows[..i], byHeight)
    {
      TakeNext(rows, i);
      GroupedNext(rows[..i], byHeight, rows[i]);
      var h := rows[i].height;
      if h > 0 {
        byHeight := byHeight[h := (if h in byHeight then byHeight[h] else []) + [WireTx(rows[i].row)]];
      }
      i := i + 1;
    }
    ghost var heights;
    blocks, heights := InHeightOrder(byHeight);
    assert GroupedAt(rows, blocks, heights);
  }

  /** The values of a map in the order of its keys. */
  method InHeightOrder(byHeight: map<nat, seq<Tx>>) returns (blocks: seq<seq<Tx>>, ghost heights: seq<nat>)
    ensures Rising(heights) && |heights| == |blocks| && forall h :: h in byHeight <==> h in heights
    ensures forall k :: 0 <= k < |blocks| ==> heights[k] in byHeight && blocks[k] == byHeight[heights[k]]
  {
    blocks, heights := [], [];
    var todo := byHeight.Keys;
    while todo != {}
      invariant todo <= byHeight.Keys && Rising(heights) && |heights| == |blocks|
      invariant forall h :: h in byHeight <==> h in heights || h in todo
      invariant forall g, h :: g in heights && h in todo ==> g < h
      invariant forall k :: 0 <= k < |blocks| ==> heights[k] in byHeight && blocks[k] == byHeight[heights[k]]
      decreases todo
    {
      var h := LeastHeight(todo);
      assert forall k :: 0 <= k < |heights| ==> heights[k] in heights;
      blocks, heights := blocks + [byHeight[h]], heights + [h];
      todo := todo - {h};
    }
  }

  lemma {:induction false} NoRows()
    ensures Grouped([], map[])
  {
  }
}
