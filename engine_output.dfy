/**
 * The line loop of `scan_at`: the engine's standard output, read line by
 * line, is folded into the scan result `(hit, addr, priv)`. Lines up to and
 * including the header marker are only echoed; after it, a line starting
 * "Public Addr:" announces a hit and carries the address as its last token,
 * and a line containing "Priv (HEX):" seen once a hit has been announced
 * carries the private key as a `0x`-prefixed hex run.
 */
module EngineOutput {
  import opened Wrappers
  import opened Text

  /** Which lines end the banner: `pipi.py` accepts only "GPU:" lines, `rng2.py` also any line naming "VanitySearch". */
  datatype HeaderRule = GpuLine | GpuLineOrBanner

  /** Width of a private key in hex digits (`zfill(64)`). */
  const KeyWidth: nat := 64

  predicate IsHeader(rule: HeaderRule, line: string) {
    match rule
    case GpuLine => StartsWith(line, "GPU:")
    case GpuLineOrBanner => StartsWith(line, "GPU:") || Contains(line, "VanitySearch")
  }

  predicate IsAddrLine(line: string) {
    StartsWith(line, "Public Addr:")
  }

  predicate IsKeyLine(line: string) {
    Contains(line, "Priv (HEX):")
  }

  /** What one engine run reports. The engine's exit status is not part of it: `p.wait()` discards it. */
  datatype ScanResult = ScanResult(hit: bool, addr: Option<string>, priv: Option<string>)

  /** The index of the first header line at or after `i`, or `|lines|` if there is none. */
  function FirstHeaderFrom(lines: seq<string>, rule: HeaderRule, i: nat): (h: nat)
    requires i <= |lines|
    ensures i <= h <= |lines|
    ensures forall k | i <= k < h :: !IsHeader(rule, lines[k])
    ensures h < |lines| ==> IsHeader(rule, lines[h])
    decreases |lines| - i
  {
    if i == |lines| || IsHeader(rule, lines[i]) then i else FirstHeaderFrom(lines, rule, i + 1)
  }

  /** The index of the first line that is interpreted: the one after the first header line. */
  function BodyStart(lines: seq<string>, rule: HeaderRule): (b: nat)
    ensures b <= |lines|
    ensures forall k | 0 <= k < b - 1 :: !IsHeader(rule, lines[k])
    ensures 0 < b < |lines| ==> IsHeader(rule, lines[b - 1])
    ensures b == 0 ==> |lines| == 0
    ensures b < |lines| ==> b > 0 && IsHeader(rule, lines[b - 1])
  {
    var h := FirstHeaderFrom(lines, rule, 0);
    if h < |lines| then h + 1 else |lines|
  }

  /** Some interpreted line at or before `j` announced a hit. */
  predicate HitBy(lines: seq<string>, b: nat, j: nat)
    requires j < |lines|
  {
    exists k | b <= k <= j :: IsAddrLine(lines[k])
  }

  /** Line `j` sets `priv`: a key line with a hex run, reached after a hit. */
  predicate SetsKey(lines: seq<string>, b: nat, j: nat)
    requires j < |lines|
  {
    IsKeyLine(lines[j]) && HexSearch(lines[j]).Some? && HitBy(lines, b, j)
  }

  /** A line that announces a hit always has an address token, so `split()[-1]` never raises. */
  lemma AddrLineHasToken(line: string)
    requires IsAddrLine(line)
    ensures LastToken(line) != []
  {
    assert line[0] == "Public Addr:"[0];
  }

  /** The last interpreted line before `i` that announces a hit, or -1. */
  ghost function LastAddrBefore(lines: seq<string>, b: nat, i: nat): (j: int)
    requires i <= |lines|
    ensures -1 <= j < i
    ensures j >= 0 ==> b <= j && IsAddrLine(lines[j])
    ensures forall k | b <= k < i && j < k :: !IsAddrLine(lines[k])
    decreases i
  {
    if i <= b then -1
    else if IsAddrLine(lines[i - 1]) then i - 1
    else LastAddrBefore(lines, b, i - 1)
  }

  /** The last interpreted line before `i` that sets the key, or -1. */
  ghost function LastKeyBefore(lines: seq<string>, b: nat, i: nat): (j: int)
    requires i <= |lines|
    ensures -1 <= j < i
    ensures j >= 0 ==> b <= j && SetsKey(lines, b, j)
    ensures forall k | b <= k < i && j < k :: !SetsKey(lines, b, k)
    decreases i
  {
    if i <= b then -1
    else if SetsKey(lines, b, i - 1) then i - 1
    else
      var j := LastKeyBefore(lines, b, i - 1);
      assert !SetsKey(lines, b, i - 1);
      j
  }

  /**
   * The `for line in p.stdout` loop of `scan_at` over the lines the engine
   * printed. `hit` tells whether an interpreted line announced a hit, `addr`
   * is the last token of the last such line, and `priv` is the zero-padded
   * hex run of the last key line seen after a hit.
   */
  method ScanAt(lines: seq<string>, rule: HeaderRule) returns (r: ScanResult)
    ensures r == Summary(lines, rule)
    ensures r.addr.Some? <==> r.hit
    ensures r.priv.Some? ==> r.hit && |r.priv.value| >= KeyWidth && AllHex(r.priv.value)
  {
    var headerDone := false;
    var hit := false;
    var addr: Option<string> := None;
    var priv: Option<string> := None;
    ghost var h := FirstHeaderFrom(lines, rule, 0);
    ghost var b := if h < |lines| then h + 1 else |lines|;
    for i := 0 to |lines|
      invariant headerDone <==> h < i
      invariant headerDone ==> b <= i
      invariant ScanResult(hit, addr, priv) == Folded(lines, b, i)
    {
      var line := lines[i];
      if !headerDone {
        // the banner is echoed, not interpreted
        if IsHeader(rule, line) {
          headerDone := true;
        }
        assert i < b;
      } else {
        ghost var acc := ScanResult(hit, addr, priv);
        assert Folded(lines, b, i + 1) == Absorb(acc, line);
        if IsAddrLine(line) {
          hit, addr := true, Some(LastToken(line));
        }
        if IsKeyLine(line) && hit {
          var m := HexSearch(line);
          if m.Some? {
            priv := Some(ZFill(m.value, KeyWidth));
          }
        }
        assert ScanResult(hit, addr, priv) == Absorb(acc, line);
      }
    }
    r := ScanResult(hit, addr, priv);
    assert b == BodyStart(lines, rule);
    FoldedIsSummary(lines, b, |lines|);
    SummaryShape(lines, b);
  }

  /** The result the loop leaves behind, described by the last interpreted hit line and key line. */
  ghost function Summary(lines: seq<string>, rule: HeaderRule): ScanResult {
    SummaryBefore(lines, BodyStart(lines, rule), |lines|)
  }

  /** The scan result left by the interpreted lines `b..i`. */
  ghost function SummaryBefore(lines: seq<string>, b: nat, i: nat): ScanResult
    requires i <= |lines|
  {
    var ja := LastAddrBefore(lines, b, i);
    var jk := LastKeyBefore(lines, b, i);
    ScanResult(ja >= 0,
               if ja >= 0 then Some(LastToken(lines[ja])) else None,
               if jk >= 0 then Some(ZFill(HexSearch(lines[jk]).value, KeyWidth)) else None)
  }

  /**
   * What the scan result means: lines up to the first header are never
   * interpreted; `hit` tells whether a later line announced a hit, `addr` is
   * the last token of the last such line, and `priv` is set exactly when a
   * key line with a hex run was reached after a hit, and is then the padded
   * run of the last such line.
   */
  lemma ResultMeaning(lines: seq<string>, rule: HeaderRule, r: ScanResult)
    requires r == Summary(lines, rule)
    ensures r.hit <==> exists j | BodyStart(lines, rule) <= j < |lines| :: IsAddrLine(lines[j])
    ensures r.addr.Some? <==> r.hit
    ensures r.hit ==> exists j | BodyStart(lines, rule) <= j < |lines| ::
      IsAddrLine(lines[j]) && r.addr == Some(LastToken(lines[j]))
      && forall k | j < k < |lines| :: !IsAddrLine(lines[k])
    ensures r.priv.Some? <==> exists j | BodyStart(lines, rule) <= j < |lines| :: SetsKey(lines, BodyStart(lines, rule), j)
    ensures r.priv.Some? ==> exists j | BodyStart(lines, rule) <= j < |lines| ::
      SetsKey(lines, BodyStart(lines, rule), j) && r.priv == Some(ZFill(HexSearch(lines[j]).value, KeyWidth))
      && forall k | j < k < |lines| :: !SetsKey(lines, BodyStart(lines, rule), k)
    ensures r.priv.Some? ==> r.hit && |r.priv.value| >= KeyWidth && AllHex(r.priv.value)
  {
    AddrSummary(lines, BodyStart(lines, rule), |lines|);
    KeySummary(lines, BodyStart(lines, rule), |lines|);
  }

  /** An address comes with every hit, and a key only after a hit, padded to at least KeyWidth hex digits. */
  lemma SummaryShape(lines: seq<string>, b: nat)
    ensures var r := SummaryBefore(lines, b, |lines|);
      (r.addr.Some? <==> r.hit) && (r.priv.Some? ==> r.hit && |r.priv.value| >= KeyWidth && AllHex(r.priv.value))
  {
    KeySummary(lines, b, |lines|);
  }

  /** What the last-hit index says about the interpreted lines `b..n`. */
  lemma AddrSummary(lines: seq<string>, b: nat, n: nat)
    requires n == |lines|
    ensures LastAddrBefore(lines, b, n) >= 0 <==> exists j | b <= j < n :: IsAddrLine(lines[j])
    ensures LastAddrBefore(lines, b, n) >= 0 ==> exists j | b <= j < n ::
      IsAddrLine(lines[j]) && LastToken(lines[LastAddrBefore(lines, b, n)]) == LastToken(lines[j])
      && forall k | j < k < n :: !IsAddrLine(lines[k])
  {
    var j := LastAddrBefore(lines, b, n);
    if j >= 0 {
      assert IsAddrLine(lines[j]) && forall k | j < k < n :: !IsAddrLine(lines[k]);
    }
  }

  /** What the last-key index says about the interpreted lines `b..n`. */
  lemma KeySummary(lines: seq<string>, b: nat, n: nat)
    requires n == |lines|
    ensures LastKeyBefore(lines, b, n) >= 0 <==> exists j | b <= j < n :: SetsKey(lines, b, j)
    ensures LastKeyBefore(lines, b, n) >= 0 ==>
      var jk := LastKeyBefore(lines, b, n);
      LastAddrBefore(lines, b, n) >= 0
      && AllHex(ZFill(HexSearch(lines[jk]).value, KeyWidth))
      && (exists j | b <= j < n :: SetsKey(lines, b, j)
            && HexSearch(lines[jk]) == HexSearch(lines[j])
            && forall k | j < k < n :: !SetsKey(lines, b, k))
  {
    var jk := LastKeyBefore(lines, b, n);
    if jk >= 0 {
      assert SetsKey(lines, b, jk) && forall k | jk < k < n :: !SetsKey(lines, b, k);
      HitByLastAddr(lines, b, jk);
      var a := LastAddrBefore(lines, b, jk + 1);
      assert IsAddrLine(lines[a]);
      assert LastAddrBefore(lines, b, n) >= a;
      ZFillKeepsValue(HexSearch(lines[jk]).value, KeyWidth);
    }
  }

  /** What one interpreted line does to the scan result. */
  function Absorb(acc: ScanResult, line: string): ScanResult {
    var hit := acc.hit || IsAddrLine(line);
    ScanResult(hit,
               if IsAddrLine(line) then Some(LastToken(line)) else acc.addr,
               if IsKeyLine(line) && hit && HexSearch(line).Some?
               then Some(ZFill(HexSearch(line).value, KeyWidth)) else acc.priv)
  }

  /** The scan result after the lines before `i`, of which those from `b` on are interpreted. */
  ghost function Folded(lines: seq<string>, b: nat, i: nat): ScanResult
    requires i <= |lines|
  {
    if i <= b then ScanResult(false, None, None) else Absorb(Folded(lines, b, i - 1), lines[i - 1])
  }

  lemma {:induction false} FoldedIsSummary(lines: seq<string>, b: nat, i: nat)
    requires i <= |lines|
    ensures Folded(lines, b, i) == SummaryBefore(lines, b, i)
  {
    if i > b {
      FoldedIsSummary(lines, b, i - 1);
      SummaryStep(lines, b, i - 1);
    }
  }

  /** One interpreted line updates the summary as the loop body does. */
  lemma SummaryStep(lines: seq<string>, b: nat, i: nat)
    requires b <= i < |lines|
    ensures SummaryBefore(lines, b, i + 1) == Absorb(SummaryBefore(lines, b, i), lines[i])
  {
    HitByLastAddr(lines, b, i);
  }

  lemma HitByLastAddr(lines: seq<string>, b: nat, j: nat)
    requires j < |lines|
    ensures HitBy(lines, b, j) <==> LastAddrBefore(lines, b, j + 1) >= 0
  {
    var a := LastAddrBefore(lines, b, j + 1);
    if a >= 0 {
      assert IsAddrLine(lines[a]);
    }
  }
}
