/**
 * `rng2.py`: the multi-worker variant. Each worker claims its starting block
 * in a registry shared with the other workers, classifies hits with a table
 * that has no fallback for unmatched addresses, and skips by 2^55 to 2^64
 * keys for at most 20 cycles.
 */
module Rng2 {
  import opened Wrappers
  import opened Text
  import opened Keyspace
  import opened EngineOutput
  import opened LongestPrefix

  // ---------------------------------------------------------------------------
  // Configuration
  // ---------------------------------------------------------------------------

  /** The prefix the engine searches for; also the classification of an empty address. */
  const Prefix: string := "1PWo3JeB9"

  const ContinueMap: map<string, int> :=
    map["1PWo3JeB9jr" := 75, "1PWo3JeB9j" := 10, "1PWo3JeB9" := 5, "1PWo3JeB" := 1]

  const DefaultContinue: int := 1
  const SkipCycles: int := 20
  const SkipBitsMin: nat := 55
  const SkipBitsMax: nat := 64

  /** The banner ends at a "GPU:" line or at any line naming "VanitySearch". */
  const ScanRule: HeaderRule := GpuLineOrBanner

  /** A line naming "VanitySearch" ends this variant's banner as a "GPU:" line does. */
  lemma ScanRuleAcceptsBanner(line: string)
    ensures IsHeader(ScanRule, line) <==> StartsWith(line, "GPU:") || Contains(line, "VanitySearch")
    ensures IsHeader(ScanRule, "VanitySearch v1.19")
  {
    assert StartsWith("VanitySearch v1.19", "VanitySearch");
  }

  /** `sorted(CONTINUE_MAP.keys(), key=lambda p: -len(p))` */
  const SortedPrefixes: seq<string> := ["1PWo3JeB9jr", "1PWo3JeB9j", "1PWo3JeB9", "1PWo3JeB"]

  /** The ranking holds exactly the table's keys, each once, longest first. */
  lemma SortedPrefixesRankKeys()
    ensures ByDescendingLength(SortedPrefixes)
    ensures forall i, j | 0 <= i < j < |SortedPrefixes| :: |SortedPrefixes[j]| < |SortedPrefixes[i]|
    ensures ContinueMap.Keys == set p | p in SortedPrefixes
  {
    var keys := {SortedPrefixes[0], SortedPrefixes[1], SortedPrefixes[2], SortedPrefixes[3]};
    assert ContinueMap.Keys == keys;
    assert (set p | p in SortedPrefixes) == keys;
  }

  // ---------------------------------------------------------------------------
  // random_start: a uniformly drawn offset, masked down to its block
  // ---------------------------------------------------------------------------

  /**
   * `random_start` given the draw `offset = secrets.randbelow(KEYSPACE_LEN)`.
   * The mask `& ~(BLOCK_SIZE - 1)` on a non-negative key is subtracting the
   * key's remainder modulo the block size. The result is the block holding
   * the drawn key.
   */
  function MaskedStart(offset: int): (start: int)
    requires 0 <= offset < KeyspaceLen
    ensures IsBlockStart(start)
    ensures start <= KeyMin + offset < start + BlockSize
  {
    var randomKey := KeyMin + offset;
    var masked := randomKey - randomKey % BlockSize;
    if masked < KeyMin then KeyMin else masked
  }

  /** The `start < KEY_MIN` clamp never fires: KeyMin is itself a block boundary. */
  lemma MaskClampNeverFires(offset: int)
    requires 0 <= offset < KeyspaceLen
    ensures var randomKey := KeyMin + offset; randomKey - randomKey % BlockSize >= KeyMin
  {
  }

  /**
   * Each block start is drawn by exactly the BlockSize offsets of its own
   * block; KeyspaceLen is a whole number of blocks, so masking picks every
   * block with the same probability.
   */
  lemma MaskedStartPreimage(offset: int, s: int)
    requires 0 <= offset < KeyspaceLen
    requires IsBlockStart(s)
    ensures MaskedStart(offset) == s <==> s <= KeyMin + offset < s + BlockSize
  {
    var m := MaskedStart(offset);
    if s <= KeyMin + offset < s + BlockSize {
      var qm, qs := m / BlockSize, s / BlockSize;
      assert m == qm * BlockSize && s == qs * BlockSize;
      assert -BlockSize < (qm - qs) * BlockSize < BlockSize;
    }
  }

  // ---------------------------------------------------------------------------
  // random_start_unique: the claim on `used_starts`
  // ---------------------------------------------------------------------------

  /** The `used_starts` dictionary shared by all workers (claimed start := 1). */
  class ClaimRegistry {
    var used: map<int, int>

    constructor ()
      ensures used == map[]
    {
      used := map[];
    }

    /** The check-and-insert done under the lock. */
    method Claim(candidate: int) returns (claimed: bool)
      modifies this
      ensures claimed <==> candidate !in old(used)
      ensures used == if claimed then old(used)[candidate := 1] else old(used)
      ensures claimed ==> candidate in used
      ensures old(used).Keys <= used.Keys
      ensures forall k | k in old(used) :: used[k] == old(used)[k]
    {
      claimed := candidate !in used;
      if claimed {
        used := used[candidate := 1];
      }
    }

    /**
     * The retry loop of `random_start_unique` over a given sequence of draws:
     * each draw is turned into a start and the first one not yet claimed is
     * claimed. `None` means every draw collided.
     */
    method ClaimFirst(offsets: seq<int>) returns (r: Option<int>)
      requires forall i | 0 <= i < |offsets| :: 0 <= offsets[i] < KeyspaceLen
      modifies this
      ensures r.Some? ==> IsBlockStart(r.value) && r.value !in old(used) && used == old(used)[r.value := 1]
      ensures r.Some? ==> exists i | 0 <= i < |offsets| ::
        r.value == MaskedStart(offsets[i]) && (forall k | 0 <= k < i :: MaskedStart(offsets[k]) in old(used))
      ensures r.None? ==> used == old(used)
      ensures r.None? ==> forall i | 0 <= i < |offsets| :: MaskedStart(offsets[i]) in old(used)
    {
      var i := 0;
      while i < |offsets|
        invariant 0 <= i <= |offsets|
        invariant used == old(used)
        invariant forall k | 0 <= k < i :: MaskedStart(offsets[k]) in old(used)
      {
        var candidate := MaskedStart(offsets[i]);
        var claimed := Claim(candidate);
        if claimed {
          return Some(candidate);
        }
        i := i + 1;
      }
      return None;
    }
  }

  // ---------------------------------------------------------------------------
  // Hit classifier
  // ---------------------------------------------------------------------------

  /** A continuation window, or the StopIteration that `next` raises when no key matches. */
  datatype Classified = Window(size: int) | StopIteration

  /** `CONTINUE_MAP.get(matched, DEFAULT_CONTINUE)` */
  function Continuation(matched: string): int {
    if matched in ContinueMap then ContinueMap[matched] else DefaultContinue
  }

  /**
   * `next(p for p in sorted_pfx if addr.startswith(p)) if addr else PREFIX`,
   * then the table lookup: the value of the longest key that the address
   * starts with; an empty address is classified as PREFIX; a non-empty
   * address that no key matches raises StopIteration.
   */
  function Classify(addr: string): (c: Classified)
    ensures addr == "" ==> c == Window(ContinueMap[Prefix])
    ensures c.Window? ==> c.size >= 1
  {
    if addr == "" then Window(Continuation(Prefix))
    else
      match FirstMatch(SortedPrefixes, addr)
      case None => StopIteration
      case Some(p) => Window(Continuation(p))
  }

  /**
   * A non-empty address raises StopIteration exactly when no key matches it,
   * and is otherwise given the value of the longest key it starts with.
   */
  lemma ClassifyMeaning(addr: string)
    ensures Classify(addr).StopIteration? <==> addr != "" && forall p | p in ContinueMap :: !StartsWith(addr, p)
    ensures Classify(addr).Window? && addr != "" ==> exists p | p in ContinueMap && StartsWith(addr, p) ::
      Classify(addr).size == ContinueMap[p] && forall q | q in ContinueMap && StartsWith(addr, q) :: |q| <= |p|
  {
    SortedPrefixesRankKeys();
    if addr != "" {
      var m := FirstMatch(SortedPrefixes, addr);
      if m.Some? {
        FirstMatchIsLongest(SortedPrefixes, addr);
        assert m.value in ContinueMap;
      }
    }
  }

  lemma ClassifyExamples()
    ensures Classify("1PWo3JeB9jrX") == Window(75)
    ensures Classify("1PWo3JeB9X") == Window(5)
    ensures Classify("") == Window(5)
    ensures Classify("1PWoZZ") == StopIteration
  {
    assert StartsWith("1PWo3JeB9jrX", "1PWo3JeB9jr");
    assert "1PWo3JeB9X"[..10][9] != "1PWo3JeB9j"[9];
    assert StartsWith("1PWo3JeB9X", "1PWo3JeB9");
    assert forall p | p in ContinueMap :: !StartsWith("1PWoZZ", p);
  }

  // ---------------------------------------------------------------------------
  // The worker loop, one iteration at a time
  // ---------------------------------------------------------------------------

  /** The six variables the `while True` loop of `worker` updates. */
  datatype State = State(start: int, scanCt: nat, initialWindow: int, windowRem: int,
                         skipRem: int, lastMainStart: int)

  /** Which branch of the loop body the next iteration takes. */
  datatype Phase = MainWindow | SkipWindow | Sequential

  function PhaseOf(s: State): Phase {
    if s.windowRem > 0 then MainWindow
    else if s.skipRem > 0 then SkipWindow
    else Sequential
  }

  /** What every iteration preserves. */
  predicate Valid(s: State) {
    0 <= s.windowRem <= s.initialWindow
    && 0 <= s.skipRem <= SkipCycles
    && InRange(s.start)
    && (s.skipRem > 0 ==> InRange(s.lastMainStart))
  }

  /** The state before the first iteration, from the start the worker claimed. */
  function Init(claimed: int): (s: State)
    requires IsBlockStart(claimed)
    ensures Valid(s) && PhaseOf(s) == Sequential && s.start == claimed
  {
    State(claimed, 0, 0, 0, 0, 0)
  }

  /** `hit and priv`: a hit counts only together with a non-empty key. */
  predicate Confirmed(scan: ScanResult) {
    scan.hit && scan.priv.Some? && scan.priv.value != ""
  }

  /** What ScanAt guarantees about every result it returns. */
  predicate WellFormed(scan: ScanResult) {
    scan.hit ==> scan.addr.Some?
  }

  /** The range of `random.randrange(SKIP_BITS_MIN, SKIP_BITS_MAX + 1)`. */
  predicate SkipBits(bitSkip: nat) {
    SkipBitsMin <= bitSkip <= SkipBitsMax
  }

  /** An iteration either leaves the loop running or the worker dies of StopIteration. */
  datatype Outcome = Running(state: State) | Stopped

  /**
   * One iteration of the loop, given the scan result of the block it probes,
   * the skip exponent the SKIP branch would draw and the start that
   * `random_start_unique` would return if the iteration calls it.
   */
  function Next(s: State, scan: ScanResult, bitSkip: nat, claimed: int): (o: Outcome)
    requires WellFormed(scan) && SkipBits(bitSkip) && IsBlockStart(claimed)
    ensures o.Stopped? <==> Confirmed(scan) && Classify(scan.addr.value).StopIteration?
    ensures o.Running? ==> o.state.scanCt == s.scanCt + 1
    ensures Valid(s) && o.Running? ==> Valid(o.state)
  {
    if s.windowRem > 0 then
      // MAIN WINDOW: probe `start`; a hit may only widen the window
      if Confirmed(scan) && Classify(scan.addr.value).StopIteration? then Stopped
      else
        var newWin := if Confirmed(scan) then Classify(scan.addr.value).size else s.initialWindow;
        var iw := if newWin > s.initialWindow then newWin else s.initialWindow;
        var wr := s.windowRem - 1;
        if wr > 0 then Running(State(WrapInc(s.start, BlockSize), s.scanCt + 1, iw, wr, s.skipRem, s.start))
        else Running(State(s.start, s.scanCt + 1, iw, wr, SkipCycles, s.start))
    else if s.skipRem > 0 then
      // SKIP WINDOW: jump 2^bitSkip keys from the previous skip point and probe there
      var skipStart := WrapInc(s.lastMainStart, Pow2(bitSkip));
      if Confirmed(scan) then
        match Classify(scan.addr.value)
        case StopIteration => Stopped
        case Window(newWin) =>
          var iw := if newWin > s.initialWindow then newWin else s.initialWindow;
          Running(State(WrapInc(skipStart, BlockSize), s.scanCt + 1, iw, iw, SkipCycles, skipStart))
      else
        var sr := s.skipRem - 1;
        Running(State(if sr == 0 then claimed else skipStart, s.scanCt + 1, s.initialWindow,
                      s.windowRem, sr, skipStart))
    else
      // DEFAULT CONTINUE: the single pass of `for _ in range(DEFAULT_CONTINUE)`
      if Confirmed(scan) then
        match Classify(scan.addr.value)
        case StopIteration => Stopped
        case Window(w) => Running(s.(start := WrapInc(s.start, BlockSize), scanCt := s.scanCt + 1,
                                     initialWindow := w, windowRem := w))
      else
        // the `else` of the for loop replaces the stepped start with a fresh claim
        Running(s.(start := claimed, scanCt := s.scanCt + 1))
  }

  /** The worker's loop variables, updated in place by each iteration. */
  class Worker {
    var start: int
    var scanCt: nat
    var initialWindow: int
    var windowRem: int
    var skipRem: int
    var lastMainStart: int

    function Snapshot(): State
      reads this
    {
      State(start, scanCt, initialWindow, windowRem, skipRem, lastMainStart)
    }

    constructor (claimed: int)
      requires IsBlockStart(claimed)
      ensures Snapshot() == Init(claimed)
    {
      start, scanCt, initialWindow, windowRem, skipRem, lastMainStart := claimed, 0, 0, 0, 0, 0;
    }

    /** The body of the `while True` loop; `false` when `next` raised StopIteration. */
    method Step(scan: ScanResult, bitSkip: nat, claimed: int) returns (running: bool)
      requires Valid(Snapshot())
      requires WellFormed(scan) && SkipBits(bitSkip) && IsBlockStart(claimed)
      modifies this
      ensures running <==> Next(old(Snapshot()), scan, bitSkip, claimed).Running?
      ensures running ==> Snapshot() == Next(old(Snapshot()), scan, bitSkip, claimed).state
      ensures running ==> Valid(Snapshot())
    {
      if windowRem > 0 {
        lastMainStart := start;
        scanCt := scanCt + 1;
        if Confirmed(scan) {
          var matched := Classify(scan.addr.value);
          if matched.StopIteration? {
            return false;
          }
          var newWin := matched.size;
          if newWin > initialWindow {
            initialWindow := newWin;
          }
        }
        windowRem := windowRem - 1;
        if windowRem > 0 {
          start := WrapInc(start, BlockSize);
        } else {
          skipRem := SkipCycles;
        }
        return true;
      }

      if skipRem > 0 {
        var skipAmt := Pow2(bitSkip);
        var skipStart := WrapInc(lastMainStart, skipAmt);
        start := skipStart;
        lastMainStart := skipStart;
        scanCt := scanCt + 1;
        if Confirmed(scan) {
          var matched := Classify(scan.addr.value);
          if matched.StopIteration? {
            return false;
          }
          var newWin := matched.size;
          if newWin > initialWindow {
            initialWindow := newWin;
          }
          windowRem := initialWindow;
          skipRem := SkipCycles;
          start := WrapInc(start, BlockSize);
        } else {
          skipRem := skipRem - 1;
          if skipRem == 0 {
            start := claimed;
          }
        }
        return true;
      }

      scanCt := scanCt + 1;
      var broke := false;
      if Confirmed(scan) {
        var matched := Classify(scan.addr.value);
        if matched.StopIteration? {
          return false;
        }
        initialWindow := matched.size;
        windowRem := initialWindow;
        start := WrapInc(start, BlockSize);
        broke := true;
      } else {
        start := WrapInc(start, BlockSize);
      }
      if !broke {
        start := claimed;
      }
      return true;
    }
  }

  // ---------------------------------------------------------------------------
  // Properties of single iterations
  // ---------------------------------------------------------------------------

  /** An empty scan: no hit, no address, no key. */
  const Miss: ScanResult := ScanResult(false, None, None)

  /** A hit without a key is treated exactly like no hit at all. */
  lemma KeylessHitIsMiss(s: State, scan: ScanResult, bitSkip: nat, claimed: int)
    requires WellFormed(scan) && SkipBits(bitSkip) && IsBlockStart(claimed)
    requires scan.priv.None?
    ensures Next(s, scan, bitSkip, claimed) == Next(s, Miss, bitSkip, claimed)
  {
  }

  /**
   * MAIN WINDOW: the probed start is recorded as the skip anchor, exactly one
   * probe of the window is used up whatever the scan says, and a hit only
   * raises `initialWindow` to the hit's classification. When the window runs
   * out, the skip window is armed with SkipCycles cycles and the start stays put.
   */
  lemma MainStep(s: State, scan: ScanResult, bitSkip: nat, claimed: int)
    requires Valid(s) && PhaseOf(s) == MainWindow
    requires WellFormed(scan) && SkipBits(bitSkip) && IsBlockStart(claimed)
    requires Next(s, scan, bitSkip, claimed).Running?
    ensures var t := Next(s, scan, bitSkip, claimed).state;
      t.lastMainStart == s.start
      && t.windowRem == s.windowRem - 1
      && t.initialWindow >= s.initialWindow
      && (Confirmed(scan) ==> t.initialWindow >= Classify(scan.addr.value).size)
      && (t.initialWindow > s.initialWindow ==> t.initialWindow == Classify(scan.addr.value).size)
      && (Confirmed(scan) ==> var w := Classify(scan.addr.value).size;
            t.initialWindow == if w > s.initialWindow then w else s.initialWindow)
      && (!Confirmed(scan) ==> t.initialWindow == s.initialWindow)
      && t.scanCt == s.scanCt + 1
      && (t.windowRem == 0 ==> t.skipRem == SkipCycles && t.start == s.start)
      && (t.windowRem > 0 ==> t.skipRem == s.skipRem && t.start == WrapInc(s.start, BlockSize))
  {
  }

  /**
   * SKIP WINDOW: the probe lands 2^bitSkip keys past the previous skip point,
   * which becomes the new skip point. A hit reopens the main window at its
   * full, never smaller, size; a miss uses up one cycle and the last missed
   * cycle replaces the start with a freshly claimed one.
   */
  lemma SkipStep(s: State, scan: ScanResult, bitSkip: nat, claimed: int)
    requires Valid(s) && PhaseOf(s) == SkipWindow
    requires WellFormed(scan) && SkipBits(bitSkip) && IsBlockStart(claimed)
    requires Next(s, scan, bitSkip, claimed).Running?
    ensures var t := Next(s, scan, bitSkip, claimed).state;
      var anchor := WrapInc(s.lastMainStart, Pow2(bitSkip));
      t.lastMainStart == anchor
      && (Confirmed(scan) ==>
            t.windowRem == t.initialWindow && t.initialWindow >= s.initialWindow
            && t.initialWindow >= 1 && t.skipRem == SkipCycles && t.start == WrapInc(anchor, BlockSize)
            && var w := Classify(scan.addr.value).size;
            t.initialWindow == if w > s.initialWindow then w else s.initialWindow)
      && (!Confirmed(scan) ==>
            t.skipRem == s.skipRem - 1 && t.windowRem == 0 && t.initialWindow == s.initialWindow
            && t.start == if t.skipRem == 0 then claimed else anchor)
      && t.scanCt == s.scanCt + 1
  {
  }

  /**
   * DEFAULT CONTINUE: a hit opens a main window sized by the hit alone and
   * steps one block on; a miss does not step on but takes the fresh claim.
   */
  lemma SeqStep(s: State, scan: ScanResult, bitSkip: nat, claimed: int)
    requires Valid(s) && PhaseOf(s) == Sequential
    requires WellFormed(scan) && SkipBits(bitSkip) && IsBlockStart(claimed)
    requires Next(s, scan, bitSkip, claimed).Running?
    ensures var t := Next(s, scan, bitSkip, claimed).state;
      (Confirmed(scan) ==>
         t.initialWindow == t.windowRem == Classify(scan.addr.value).size >= 1
         && PhaseOf(t) == MainWindow && t.start == WrapInc(s.start, BlockSize))
      && (!Confirmed(scan) ==>
         t.start == claimed && PhaseOf(t) == Sequential
         && t.initialWindow == s.initialWindow && t.lastMainStart == s.lastMainStart)
  {
  }

  /** Stepping one block from the last block while in the main window leaves the block grid. */
  lemma MainStepFromLastBlockMisaligns(s: State, bitSkip: nat, claimed: int)
    requires Valid(s) && s.windowRem >= 2 && s.start == KeyMin + MaxOffset
    requires SkipBits(bitSkip) && IsBlockStart(claimed)
    ensures Next(s, Miss, bitSkip, claimed).Running?
    ensures Next(s, Miss, bitSkip, claimed).state.start == KeyMin + BlockSize - 1
    ensures !Aligned(Next(s, Miss, bitSkip, claimed).state.start)
  {
    WrapFromLastBlockMisaligns();
  }

  // ---------------------------------------------------------------------------
  // Properties of runs of iterations
  // ---------------------------------------------------------------------------

  /** The inputs of one iteration. */
  datatype Probe = Probe(scan: ScanResult, bitSkip: nat, claimed: int)

  predicate ProbeOk(p: Probe) {
    WellFormed(p.scan) && SkipBits(p.bitSkip) && IsBlockStart(p.claimed)
  }

  predicate AllOk(ps: seq<Probe>) {
    forall i | 0 <= i < |ps| :: ProbeOk(ps[i])
  }

  /** Consecutive iterations of the loop, stopping if one raises. */
  function Run(s: State, ps: seq<Probe>): Outcome
    requires AllOk(ps)
    decreases |ps|
  {
    if ps == [] then Running(s)
    else
      match Next(s, ps[0].scan, ps[0].bitSkip, ps[0].claimed)
      case Stopped => Stopped
      case Running(t) => Run(t, ps[1..])
  }

  /** The loop invariant holds after any number of iterations. */
  lemma {:induction false} RunKeepsValid(s: State, ps: seq<Probe>)
    requires Valid(s) && AllOk(ps)
    ensures Run(s, ps).Running? ==> Valid(Run(s, ps).state)
    decreases |ps|
  {
    if ps != [] {
      var o := Next(s, ps[0].scan, ps[0].bitSkip, ps[0].claimed);
      if o.Running? {
        assert AllOk(ps[1..]);
        RunKeepsValid(o.state, ps[1..]);
      }
    }
  }

  /**
   * A main window of `n` remaining probes probes `n` consecutive blocks and
   * then arms the skip window, however many hits it sees: hits widen
   * `initialWindow` but never extend the window in progress.
   */
  lemma {:induction false} MainWindowRunsOut(s: State, ps: seq<Probe>)
    requires Valid(s) && s.windowRem > 0 && |ps| == s.windowRem && AllOk(ps)
    requires Run(s, ps).Running?
    ensures var t := Run(s, ps).state;
      t.windowRem == 0 && t.skipRem == SkipCycles && PhaseOf(t) == SkipWindow
      && t.initialWindow >= s.initialWindow
      && t.start == Advance(s.start, |ps| - 1) && t.lastMainStart == t.start
    decreases |ps|
  {
    var o := Next(s, ps[0].scan, ps[0].bitSkip, ps[0].claimed);
    MainStep(s, ps[0].scan, ps[0].bitSkip, ps[0].claimed);
    var u := o.state;
    if |ps| > 1 {
      assert AllOk(ps[1..]);
      MainWindowRunsOut(u, ps[1..]);
      AdvanceShift(s.start, |ps| - 2);
    }
  }

  /** The skip points of a run of missed skips: each jump starts from the previous one. */
  function SkipChain(anchor: int, ps: seq<Probe>): int
    decreases |ps|
  {
    if ps == [] then anchor else SkipChain(WrapInc(anchor, Pow2(ps[0].bitSkip)), ps[1..])
  }

  /**
   * A skip window whose `skipRem` remaining cycles all miss ends back in
   * sequential mode at the start claimed in its last cycle, having jumped
   * along the chain of skip points.
   */
  lemma {:induction false} SkipWindowGivesUp(s: State, ps: seq<Probe>)
    requires Valid(s) && PhaseOf(s) == SkipWindow && |ps| == s.skipRem && AllOk(ps)
    requires forall i | 0 <= i < |ps| :: !Confirmed(ps[i].scan)
    ensures Run(s, ps).Running?
    ensures var t := Run(s, ps).state;
      PhaseOf(t) == Sequential && t.start == ps[|ps| - 1].claimed
      && t.lastMainStart == SkipChain(s.lastMainStart, ps)
      && t.initialWindow == s.initialWindow
    decreases |ps|
  {
    var o := Next(s, ps[0].scan, ps[0].bitSkip, ps[0].claimed);
    SkipStep(s, ps[0].scan, ps[0].bitSkip, ps[0].claimed);
    if |ps| > 1 {
      assert AllOk(ps[1..]);
      assert forall i | 0 <= i < |ps[1..]| :: !Confirmed(ps[1..][i].scan) by {
        forall i | 0 <= i < |ps[1..]| ensures !Confirmed(ps[1..][i].scan) {
          assert ps[1..][i] == ps[i + 1];
        }
      }
      SkipWindowGivesUp(o.state, ps[1..]);
    }
  }
}
