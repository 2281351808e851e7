/**
 * `pipi.py`: the single-worker variant. The start is drawn as a block index,
 * hits with an address no key matches fall back to PREFIX, and skips jump
 * 2^40 to 2^64 keys for at most 25 cycles.
 */
module Pipi {
  import opened Wrappers
  import opened Text
  import opened Keyspace
  import opened EngineOutput
  import opened LongestPrefix

  // ---------------------------------------------------------------------------
  // Configuration
  // ---------------------------------------------------------------------------

  /** The prefix the engine searches for; also what an unmatched address falls back to. */
  const Prefix: string := "1PWo3JeB"

  const ContinueMap: map<string, int> :=
    map["1PWo3JeB9jr" := 100, "1PWo3JeB9j" := 71, "1PWo3JeB9" := 3, "1PWo3JeB" := 1]

  const DefaultContinue: int := 1
  const SkipCycles: int := 25
  const SkipBitsMin: nat := 40
  const SkipBitsMax: nat := 64

  /** The banner ends only at a line starting "GPU:". */
  const ScanRule: HeaderRule := GpuLine

  /** A banner line naming "VanitySearch" does not end this variant's banner. */
  lemma ScanRuleIsGpuOnly(line: string)
    ensures IsHeader(ScanRule, line) <==> StartsWith(line, "GPU:")
    ensures !IsHeader(ScanRule, "VanitySearch v1.19")
  {
    assert "VanitySearch v1.19"[0] != "GPU:"[0];
  }

  /** `sorted(CONTINUE_MAP.keys(), key=lambda p: -len(p))` */
  const SortedPrefixes: seq<string> := ["1PWo3JeB9jr", "1PWo3JeB9j", "1PWo3JeB9", "1PWo3JeB"]

  /** The ranking holds exactly the table's keys, each once, longest first. */
  lemma SortedPrefixesRankKeys()
    ensures ByDescendingLength(SortedPrefixes)
    ensures forall i, j | 0 <= i < j < |SortedPrefixes| :: |SortedPrefixes[j]| < |SortedPrefixes[i]|
    ensures ContinueMap.Keys == set p | p in SortedPrefixes
  {
    var keys := {SortedPrefixes[0], SortedPrefixes[1], SortedPrefixes[2], SortedPrefixes[3]};
    assert ContinueMap.Keys == keys;
    assert (set p | p in SortedPrefixes) == keys;
  }

  // ---------------------------------------------------------------------------
  // random_start: a uniformly drawn block index, shifted into place
  // ---------------------------------------------------------------------------

  /** `KEY_MIN >> RANGE_BITS` and `KEY_MAX >> RANGE_BITS` */
  const LowBlock: int := KeyMin / BlockSize
  const HighBlock: int := KeyMax / BlockSize
  const BlockCount: int := HighBlock - LowBlock + 1

  /** `random_start` given the draw `secrets.randbelow(count)`: block `LowBlock + draw`, shifted left by RANGE_BITS. */
  function IndexedStart(draw: int): (start: int)
    requires 0 <= draw < BlockCount
    ensures IsBlockStart(start)
    ensures LowBlock <= start / BlockSize <= HighBlock
    ensures start / BlockSize - LowBlock == draw
  {
    var blkIdx := draw + LowBlock;
    blkIdx * BlockSize
  }

  /** Every block start of the keyspace is drawn by exactly one index, so each is equally likely. */
  lemma IndexedStartOnto(s: int)
    requires IsBlockStart(s)
    ensures 0 <= s / BlockSize - LowBlock < BlockCount
    ensures IndexedStart(s / BlockSize - LowBlock) == s
  {
  }

  // ---------------------------------------------------------------------------
  // Hit classifier
  // ---------------------------------------------------------------------------

  /** `CONTINUE_MAP.get(matched, DEFAULT_CONTINUE)` */
  function Continuation(matched: string): int {
    if matched in ContinueMap then ContinueMap[matched] else DefaultContinue
  }

  /**
   * `next((p for p in sorted_pfx if addr.startswith(p)), PREFIX)`, then the
   * table lookup: the value of the longest key that the address starts with,
   * or the value of PREFIX when no key matches.
   */
  function Classify(addr: string): (w: int)
    ensures w >= 1
  {
    match FirstMatch(SortedPrefixes, addr)
    case None => Continuation(Prefix)
    case Some(p) => Continuation(p)
  }

  /** The window is the value of the longest key the address starts with, or PREFIX's value when none matches. */
  lemma ClassifyMeaning(addr: string)
    ensures (forall p | p in ContinueMap :: !StartsWith(addr, p)) ==> Classify(addr) == ContinueMap[Prefix]
    ensures (exists p | p in ContinueMap :: StartsWith(addr, p)) ==>
      exists p | p in ContinueMap && StartsWith(addr, p) ::
        Classify(addr) == ContinueMap[p] && forall q | q in ContinueMap && StartsWith(addr, q) :: |q| <= |p|
  {
    SortedPrefixesRankKeys();
    var m := FirstMatch(SortedPrefixes, addr);
    if m.Some? {
      FirstMatchIsLongest(SortedPrefixes, addr);
      assert m.value in ContinueMap;
    }
  }

  lemma ClassifyExamples()
    ensures Classify("1PWo3JeB9jrX") == 100
    ensures Classify("1PWo3JeB9jX") == 71
    ensures Classify("1PWoZZ") == 1
  {
    assert StartsWith("1PWo3JeB9jrX", "1PWo3JeB9jr");
    assert "1PWo3JeB9jX"[..11][10] != "1PWo3JeB9jr"[10];
    assert StartsWith("1PWo3JeB9jX", "1PWo3JeB9j");
    assert forall p | p in ContinueMap :: !StartsWith("1PWoZZ", p);
  }

  // ---------------------------------------------------------------------------
  // The main loop, one iteration at a time
  // ---------------------------------------------------------------------------

  /** The six variables the `while True` loop of `main` updates. */
  datatype State = State(start: int, scanCt: nat, initialWindow: int, windowRem: int,
                         skipRem: int, lastMainStart: int)

  /** Which branch of the loop body the next iteration takes. */
  datatype Phase = MainWindow | SkipWindow | Sequential

  function PhaseOf(s: State): Phase {
    if s.windowRem > 0 then MainWindow
    else if s.skipRem > 0 then SkipWindow
    else Sequential
  }

  /** What every iteration preserves. */
  predicate Valid(s: State) {
    0 <= s.windowRem <= s.initialWindow
    && 0 <= s.skipRem <= SkipCycles
    && InRange(s.start)
    && (s.skipRem > 0 ==> InRange(s.lastMainStart))
  }

  /** The state before the first iteration, from the first random start. */
  function Init(draw: int): (s: State)
    requires 0 <= draw < BlockCount
    ensures Valid(s) && PhaseOf(s) == Sequential && IsBlockStart(s.start)
  {
    State(IndexedStart(draw), 0, 0, 0, 0, 0)
  }

  /** `hit and priv`: a hit counts only together with a non-empty key. */
  predicate Confirmed(scan: ScanResult) {
    scan.hit && scan.priv.Some? && scan.priv.value != ""
  }

  /** What ScanAt guarantees about every result it returns. */
  predicate WellFormed(scan: ScanResult) {
    scan.hit ==> scan.addr.Some?
  }

  /** The range of `random.randrange(SKIP_BITS_MIN, SKIP_BITS_MAX + 1)`. */
  predicate SkipBits(bitSkip: nat) {
    SkipBitsMin <= bitSkip <= SkipBitsMax
  }

  /**
   * One iteration of the loop, given the scan result of the block it probes,
   * the skip exponent the SKIP branch would draw and the block index a call
   * of `random_start` in this iteration would draw.
   */
  function Next(s: State, scan: ScanResult, bitSkip: nat, draw: int): (t: State)
    requires WellFormed(scan) && SkipBits(bitSkip) && 0 <= draw < BlockCount
    ensures t.scanCt == s.scanCt + 1
    ensures Valid(s) ==> Valid(t)
  {
    if s.windowRem > 0 then
      // MAIN WINDOW: probe `start`; a hit may only widen the window
      var newWin := if Confirmed(scan) then Classify(scan.addr.value) else s.initialWindow;
      var iw := if newWin > s.initialWindow then newWin else s.initialWindow;
      var wr := s.windowRem - 1;
      if wr > 0 then State(WrapInc(s.start, BlockSize), s.scanCt + 1, iw, wr, s.skipRem, s.start)
      else State(s.start, s.scanCt + 1, iw, wr, SkipCycles, s.start)
    else if s.skipRem > 0 then
      // SKIP WINDOW: jump 2^bitSkip keys from the previous skip point and probe there
      var skipStart := WrapInc(s.lastMainStart, Pow2(bitSkip));
      if Confirmed(scan) then
        var newWin := Classify(scan.addr.value);
        var iw := if newWin > s.initialWindow then newWin else s.initialWindow;
        State(WrapInc(skipStart, BlockSize), s.scanCt + 1, iw, iw, SkipCycles, skipStart)
      else
        var sr := s.skipRem - 1;
        State(if sr == 0 then IndexedStart(draw) else skipStart, s.scanCt + 1, s.initialWindow,
              s.windowRem, sr, skipStart)
    else
      // DEFAULT CONTINUE: the single pass of `for _ in range(DEFAULT_CONTINUE)`
      if Confirmed(scan) then
        var w := Classify(scan.addr.value);
        s.(start := WrapInc(s.start, BlockSize), scanCt := s.scanCt + 1, initialWindow := w, windowRem := w)
      else
        // the `else` of the for loop replaces the stepped start with a fresh random start
        s.(start := IndexedStart(draw), scanCt := s.scanCt + 1)
  }

  /** The loop variables of `main`, updated in place by each iteration. */
  class Scheduler {
    var start: int
    var scanCt: nat
    var initialWindow: int
    var windowRem: int
    var skipRem: int
    var lastMainStart: int

    function Snapshot(): State
      reads this
    {
      State(start, scanCt, initialWindow, windowRem, skipRem, lastMainStart)
    }

    constructor (draw: int)
      requires 0 <= draw < BlockCount
      ensures Snapshot() == Init(draw)
    {
      start := IndexedStart(draw);
      scanCt, initialWindow, windowRem, skipRem, lastMainStart := 0, 0, 0, 0, 0;
    }

    /** The body of the `while True` loop. */
    method Step(scan: ScanResult, bitSkip: nat, draw: int)
      requires Valid(Snapshot())
      requires WellFormed(scan) && SkipBits(bitSkip) && 0 <= draw < BlockCount
      modifies this
      ensures Snapshot() == Next(old(Snapshot()), scan, bitSkip, draw)
      ensures Valid(Snapshot())
    {
      if windowRem > 0 {
        lastMainStart := start;
        scanCt := scanCt + 1;
        if Confirmed(scan) {
          var newWin := Classify(scan.addr.value);
          if newWin > initialWindow {
            initialWindow := newWin;
          }
        }
        windowRem := windowRem - 1;
        if windowRem > 0 {
          start := WrapInc(start, BlockSize);
        } else {
          skipRem := SkipCycles;
        }
        return;
      }

      if skipRem > 0 {
        var skipAmt := Pow2(bitSkip);
        var skipStart := WrapInc(lastMainStart, skipAmt);
        start := skipStart;
        lastMainStart := skipStart;
        scanCt := scanCt + 1;
        if Confirmed(scan) {
          var newWin := Classify(scan.addr.value);
          if newWin > initialWindow {
            initialWindow := newWin;
          }
          windowRem := initialWindow;
          skipRem := SkipCycles;
          start := WrapInc(start, BlockSize);
        } else {
          skipRem := skipRem - 1;
          if skipRem == 0 {
            start := IndexedStart(draw);
          }
        }
        return;
      }

      scanCt := scanCt + 1;
      var broke := false;
      if Confirmed(scan) {
        initialWindow := Classify(scan.addr.value);
        windowRem := initialWindow;
        start := WrapInc(start, BlockSize);
        broke := true;
      } else {
        start := WrapInc(start, BlockSize);
      }
      if !broke {
        start := IndexedStart(draw);
      }
    }
  }

  // ---------------------------------------------------------------------------
  // Properties of single iterations
  // ---------------------------------------------------------------------------

  /** An empty scan: no hit, no address, no key. */
  const Miss: ScanResult := ScanResult(false, None, None)

  /** A hit without a key is treated exactly like no hit at all. */
  lemma KeylessHitIsMiss(s: State, scan: ScanResult, bitSkip: nat, draw: int)
    requires WellFormed(scan) && SkipBits(bitSkip) && 0 <= draw < BlockCount
    requires scan.priv.None?
    ensures Next(s, scan, bitSkip, draw) == Next(s, Miss, bitSkip, draw)
  {
  }

  /**
   * MAIN WINDOW: the probed start is recorded as the skip anchor, exactly one
   * probe of the window is used up whatever the scan says, and a hit only
   * raises `initialWindow` to the hit's classification. When the window runs
   * out, the skip window is armed with SkipCycles cycles and the start stays put.
   */
  lemma MainStep(s: State, scan: ScanResult, bitSkip: nat, draw: int)
    requires Valid(s) && PhaseOf(s) == MainWindow
    requires WellFormed(scan) && SkipBits(bitSkip) && 0 <= draw < BlockCount
    ensures var t := Next(s, scan, bitSkip, draw);
      t.lastMainStart == s.start
      && t.windowRem == s.windowRem - 1
      && t.initialWindow >= s.initialWindow
      && (Confirmed(scan) ==> t.initialWindow >= Classify(scan.addr.value))
      && (t.initialWindow > s.initialWindow ==> t.initialWindow == Classify(scan.addr.value))
      && (Confirmed(scan) ==> var w := Classify(scan.addr.value);
            t.initialWindow == if w > s.initialWindow then w else s.initialWindow)
      && (!Confirmed(scan) ==> t.initialWindow == s.initialWindow)
      && t.scanCt == s.scanCt + 1
      && (t.windowRem == 0 ==> t.skipRem == SkipCycles && t.start == s.start)
      && (t.windowRem > 0 ==> t.skipRem == s.skipRem && t.start == WrapInc(s.start, BlockSize))
  {
  }

  /**
   * SKIP WINDOW: the probe lands 2^bitSkip keys past the previous skip point,
   * which becomes the new skip point. A hit reopens the main window at its
   * full, never smaller, size; a miss uses up one cycle and the last missed
   * cycle replaces the start with a fresh random start.
   */
  lemma SkipStep(s: State, scan: ScanResult, bitSkip: nat, draw: int)
    requires Valid(s) && PhaseOf(s) == SkipWindow
    requires WellFormed(scan) && SkipBits(bitSkip) && 0 <= draw < BlockCount
    ensures var t := Next(s, scan, bitSkip, draw);
      var anchor := WrapInc(s.lastMainStart, Pow2(bitSkip));
      t.lastMainStart == anchor
      && (Confirmed(scan) ==>
            t.windowRem == t.initialWindow && t.initialWindow >= s.initialWindow
            && t.initialWindow >= 1 && t.skipRem == SkipCycles && t.start == WrapInc(anchor, BlockSize)
            && var w := Classify(scan.addr.value);
            t.initialWindow == if w > s.initialWindow then w else s.initialWindow)
      && (!Confirmed(scan) ==>
            t.skipRem == s.skipRem - 1 && t.windowRem == 0 && t.initialWindow == s.initialWindow
            && t.start == if t.skipRem == 0 then IndexedStart(draw) else anchor)
      && t.scanCt == s.scanCt + 1
  {
  }

  /**
   * DEFAULT CONTINUE: a hit opens a main window sized by the hit alone and
   * steps one block on; a miss does not step on but takes a fresh random start.
   */
  lemma SeqStep(s: State, scan: ScanResult, bitSkip: nat, draw: int)
    requires Valid(s) && PhaseOf(s) == Sequential
    requires WellFormed(scan) && SkipBits(bitSkip) && 0 <= draw < BlockCount
    ensures var t := Next(s, scan, bitSkip, draw);
      (Confirmed(scan) ==>
         t.initialWindow == t.windowRem == Classify(scan.addr.value) >= 1
         && PhaseOf(t) == MainWindow && t.start == WrapInc(s.start, BlockSize))
      && (!Confirmed(scan) ==>
         t.start == IndexedStart(draw) && IsBlockStart(t.start) && PhaseOf(t) == Sequential
         && t.initialWindow == s.initialWindow && t.lastMainStart == s.lastMainStart)
  {
  }

  /** Stepping one block from the last block while in the main window leaves the block grid. */
  lemma MainStepFromLastBlockMisaligns(s: State, bitSkip: nat, draw: int)
    requires Valid(s) && s.windowRem >= 2 && s.start == KeyMin + MaxOffset
    requires SkipBits(bitSkip) && 0 <= draw < BlockCount
    ensures Next(s, Miss, bitSkip, draw).start == KeyMin + BlockSize - 1
    ensures !Aligned(Next(s, Miss, bitSkip, draw).start)
  {
    WrapFromLastBlockMisaligns();
  }

  /** A 2^40 skip, the smallest this variant draws, is a jump of exactly one block. */
  lemma SmallestSkipIsOneBlock(s: State, scan: ScanResult, draw: int)
    requires Valid(s) && PhaseOf(s) == SkipWindow
    requires WellFormed(scan) && 0 <= draw < BlockCount
    ensures Next(s, scan, SkipBitsMin, draw).lastMainStart == WrapInc(s.lastMainStart, BlockSize)
  {
    Pow2OfRangeBits();
  }

  // ---------------------------------------------------------------------------
  // Properties of runs of iterations
  // ---------------------------------------------------------------------------

  /** The inputs of one iteration. */
  datatype Probe = Probe(scan: ScanResult, bitSkip: nat, draw: int)

  predicate ProbeOk(p: Probe) {
    WellFormed(p.scan) && SkipBits(p.bitSkip) && 0 <= p.draw < BlockCount
  }

  predicate AllOk(ps: seq<Probe>) {
    forall i | 0 <= i < |ps| :: ProbeOk(ps[i])
  }

  /** Consecutive iterations of the loop. */
  function Run(s: State, ps: seq<Probe>): State
    requires AllOk(ps)
    decreases |ps|
  {
    if ps == [] then s else Run(Next(s, ps[0].scan, ps[0].bitSkip, ps[0].draw), ps[1..])
  }

  /** The loop invariant holds after any number of iterations, and each iteration scans once. */
  lemma {:induction false} RunKeepsValid(s: State, ps: seq<Probe>)
    requires Valid(s) && AllOk(ps)
    ensures Valid(Run(s, ps))
    ensures Run(s, ps).scanCt == s.scanCt + |ps|
    decreases |ps|
  {
    if ps != [] {
      assert AllOk(ps[1..]);
      RunKeepsValid(Next(s, ps[0].scan, ps[0].bitSkip, ps[0].draw), ps[1..]);
    }
  }

  /**
   * A main window of `n` remaining probes probes `n` consecutive blocks and
   * then arms the skip window, however many hits it sees: hits widen
   * `initialWindow` but never extend the window in progress.
   */
  lemma {:induction false} MainWindowRunsOut(s: State, ps: seq<Probe>)
    requires Valid(s) && s.windowRem > 0 && |ps| == s.windowRem && AllOk(ps)
    ensures var t := Run(s, ps);
      t.windowRem == 0 && t.skipRem == SkipCycles && PhaseOf(t) == SkipWindow
      && t.initialWindow >= s.initialWindow
      && t.start == Advance(s.start, |ps| - 1) && t.lastMainStart == t.start
    decreases |ps|
  {
    var u := Next(s, ps[0].scan, ps[0].bitSkip, ps[0].draw);
    MainStep(s, ps[0].scan, ps[0].bitSkip, ps[0].draw);
    if |ps| > 1 {
      assert AllOk(ps[1..]);
      MainWindowRunsOut(u, ps[1..]);
      AdvanceShift(s.start, |ps| - 2);
    }
  }

  /** The skip points of a run of missed skips: each jump starts from the previous one. */
  function SkipChain(anchor: int, ps: seq<Probe>): int
    decreases |ps|
  {
    if ps == [] then anchor else SkipChain(WrapInc(anchor, Pow2(ps[0].bitSkip)), ps[1..])
  }

  /**
   * A skip window whose `skipRem` remaining cycles all miss ends back in
   * sequential mode at the random start drawn in its last cycle, having
   * jumped along the chain of skip points.
   */
  lemma {:induction false} SkipWindowGivesUp(s: State, ps: seq<Probe>)
    requires Valid(s) && PhaseOf(s) == SkipWindow && |ps| == s.skipRem && AllOk(ps)
    requires forall i | 0 <= i < |ps| :: !Confirmed(ps[i].scan)
    ensures var t := Run(s, ps);
      PhaseOf(t) == Sequential && t.start == IndexedStart(ps[|ps| - 1].draw)
      && t.lastMainStart == SkipChain(s.lastMainStart, ps)
      && t.initialWindow == s.initialWindow
    decreases |ps|
  {
    var u := Next(s, ps[0].scan, ps[0].bitSkip, ps[0].draw);
    SkipStep(s, ps[0].scan, ps[0].bitSkip, ps[0].draw);
    if |ps| > 1 {
      assert AllOk(ps[1..]);
      assert forall i | 0 <= i < |ps[1..]| :: !Confirmed(ps[1..][i].scan) by {
        forall i | 0 <= i < |ps[1..]| ensures !Confirmed(ps[1..][i].scan) {
          assert ps[1..][i] == ps[i + 1];
        }
      }
      SkipWindowGivesUp(u, ps[1..]);
    }
  }
}
