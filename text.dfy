/**
 * String operations of Python's `str` that the engine-output parser and the
 * hit classifier rely on: `startswith`, `in`, `split()[-1]`, the `\s` and
 * `[0-9A-Fa-f]` character classes, and `zfill`.
 */
module Text {
  import opened Wrappers

  /** `s.startswith(p)` */
  predicate StartsWith(s: string, p: string) {
    |p| <= |s| && s[..|p|] == p
  }

  /** `t in s`: `t` occurs somewhere in `s` as a contiguous substring. */
  predicate Contains(s: string, t: string)
    decreases |s|
  {
    StartsWith(s, t) || (|s| > 0 && Contains(s[1..], t))
  }

  /** The characters for which `str.isspace()` holds; `str.split()` and the regular-expression class `\s` use the same set. */
  predicate IsSpace(c: char) {
    c == ' ' || '\t' <= c <= '\r' || '\U{1C}' <= c <= '\U{1F}'
    || c == '\U{85}' || c == '\U{A0}' || c == '\U{1680}'
    || '\U{2000}' <= c <= '\U{200A}' || c == '\U{2028}' || c == '\U{2029}'
    || c == '\U{202F}' || c == '\U{205F}' || c == '\U{3000}'
  }

  /** The regular-expression class `[0-9A-Fa-f]`. */
  predicate IsHexDigit(c: char) {
    '0' <= c <= '9' || 'a' <= c <= 'f' || 'A' <= c <= 'F'
  }

  predicate AllHex(s: string) {
    forall k | 0 <= k < |s| :: IsHexDigit(s[k])
  }

  // ---------------------------------------------------------------------------
  // split()[-1]: the last maximal run of non-space characters
  // ---------------------------------------------------------------------------

  /** Walking back from `e`, the position just after the last non-space character. */
  function TrimEnd(s: string, e: nat): (r: nat)
    requires e <= |s|
    ensures r <= e
    ensures forall k | r <= k < e :: IsSpace(s[k])
    ensures r > 0 ==> !IsSpace(s[r - 1])
    decreases e
  {
    if e > 0 && IsSpace(s[e - 1]) then TrimEnd(s, e - 1) else e
  }

  /** Walking back from `e`, the start of the run of non-space characters that ends at `e`. */
  function RunStart(s: string, e: nat): (r: nat)
    requires e <= |s|
    ensures r <= e
    ensures forall k | r <= k < e :: !IsSpace(s[k])
    ensures r > 0 ==> IsSpace(s[r - 1])
    decreases e
  {
    if e > 0 && !IsSpace(s[e - 1]) then RunStart(s, e - 1) else e
  }

  /** `s[i..j]` is a whitespace-delimited token of `s` followed only by whitespace. */
  predicate IsLastToken(s: string, i: nat, j: nat) {
    i <= j <= |s|
    && (forall k | i <= k < j :: !IsSpace(s[k]))
    && (i == 0 || IsSpace(s[i - 1]))
    && (i < j || i == 0)
    && (forall k | j <= k < |s| :: IsSpace(s[k]))
  }

  /**
   * `s.split()[-1]`, or the empty string where `s.split()` is empty (Python
   * would raise IndexError there; see AddrLineHasToken for why the parser
   * never gets there).
   */
  function LastToken(s: string): (t: string)
    ensures exists i: nat, j: nat :: IsLastToken(s, i, j) && t == s[i..j]
    ensures t == [] <==> forall k | 0 <= k < |s| :: IsSpace(s[k])
    ensures forall k | 0 <= k < |t| :: !IsSpace(t[k])
  {
    var e := TrimEnd(s, |s|);
    var b := RunStart(s, e);
    assert e == 0 ==> b == 0;
    assert IsLastToken(s, b, e);
    s[b..e]
  }

  // ---------------------------------------------------------------------------
  // re.search(r"0x\s*([0-9A-Fa-f]+)", s).group(1)
  // ---------------------------------------------------------------------------

  /** The end of the maximal run of whitespace starting at `i` (the greedy `\s*`). */
  function SkipSpaces(s: string, i: nat): (r: nat)
    requires i <= |s|
    ensures i <= r <= |s|
    ensures forall k | i <= k < r :: IsSpace(s[k])
    ensures r < |s| ==> !IsSpace(s[r])
    decreases |s| - i
  {
    if i < |s| && IsSpace(s[i]) then SkipSpaces(s, i + 1) else i
  }

  /** The end of the maximal run of hex digits starting at `i` (the greedy `[0-9A-Fa-f]+`). */
  function HexRunEnd(s: string, i: nat): (r: nat)
    requires i <= |s|
    ensures i <= r <= |s|
    ensures forall k | i <= k < r :: IsHexDigit(s[k])
    ensures r < |s| ==> !IsHexDigit(s[r])
    decreases |s| - i
  {
    if i < |s| && IsHexDigit(s[i]) then HexRunEnd(s, i + 1) else i
  }

  /**
   * The group the pattern captures when the match starts at position `m`.
   * Backtracking cannot help a failed attempt: `\s*` may only give back
   * whitespace, which is never a hex digit.
   */
  function MatchAt(s: string, m: nat): (g: Option<string>)
    requires m <= |s|
    ensures g.Some? ==> |g.value| > 0 && AllHex(g.value)
    ensures g.Some? ==> m + 2 <= |s| && s[m] == '0' && s[m + 1] == 'x'
  {
    if m + 2 <= |s| && s[m] == '0' && s[m + 1] == 'x' then
      var j := SkipSpaces(s, m + 2);
      var k := HexRunEnd(s, j);
      if j < k then Some(s[j..k]) else None
    else None
  }

  /** After `0x` at `m`, only whitespace comes before position `j`. */
  predicate SpacesUpTo(s: string, m: nat, j: nat)
    requires m + 2 <= j <= |s|
  {
    forall q | m + 2 <= q < j :: IsSpace(s[q])
  }

  /** `s[j..k]` is a maximal run of hex digits. */
  predicate MaximalHexRun(s: string, j: nat, k: nat)
    requires j <= k <= |s|
  {
    (forall q | j <= q < k :: IsHexDigit(s[q])) && (k == |s| || !IsHexDigit(s[k]))
  }

  /**
   * The pattern matches at `m` exactly when `0x` is there and a hex digit
   * follows after nothing but whitespace; the capture is then the whole
   * greedy hex run that starts at that digit.
   */
  lemma MatchAtMeaning(s: string, m: nat)
    requires m <= |s|
    ensures MatchAt(s, m).Some? <==> (m + 2 <= |s| && s[m] == '0' && s[m + 1] == 'x'
      && exists j: nat | m + 2 <= j < |s| :: SpacesUpTo(s, m, j) && IsHexDigit(s[j]))
    ensures MatchAt(s, m).Some? ==> exists j: nat, k: nat | m + 2 <= j < k <= |s| ::
      SpacesUpTo(s, m, j) && MaximalHexRun(s, j, k) && MatchAt(s, m).value == s[j..k]
  {
    if m + 2 <= |s| && s[m] == '0' && s[m + 1] == 'x' {
      var j := SkipSpaces(s, m + 2);
      var k := HexRunEnd(s, j);
      assert SpacesUpTo(s, m, j);
      if j < k {
        assert MaximalHexRun(s, j, k);
      } else {
        forall j': nat | m + 2 <= j' < |s| && SpacesUpTo(s, m, j') ensures !IsHexDigit(s[j']) {
          assert j' <= j;
        }
      }
    }
  }

  function SearchFrom(s: string, m: nat): (g: Option<string>)
    requires m <= |s|
    ensures g.Some? ==> |g.value| > 0 && AllHex(g.value)
    decreases |s| - m
  {
    if MatchAt(s, m).Some? then MatchAt(s, m)
    else if m == |s| then None
    else SearchFrom(s, m + 1)
  }

  /** `re.search`: the capture of the leftmost position at which the pattern matches (HexSearchIsLeftmost). */
  function HexSearch(s: string): (g: Option<string>)
    ensures g.Some? ==> |g.value| > 0 && AllHex(g.value)
  {
    SearchFrom(s, 0)
  }

  /** The pattern matches at `p` and at no position from `m` up to `p`. */
  predicate FirstMatchAt(s: string, m: nat, p: nat) {
    m <= p <= |s| && MatchAt(s, p).Some? && forall q | m <= q < p :: MatchAt(s, q).None?
  }

  /** The search from `m` fails exactly when the pattern matches at no position from `m` on. */
  lemma {:induction false} SearchFromFails(s: string, m: nat)
    requires m <= |s|
    ensures SearchFrom(s, m).None? <==> forall p | m <= p <= |s| :: MatchAt(s, p).None?
    decreases |s| - m
  {
    if MatchAt(s, m).None? && m < |s| {
      SearchFromFails(s, m + 1);
    }
  }

  /** A successful search from `m` returns the capture at the first matching position from `m` on. */
  lemma {:induction false} SearchFromIsLeftmost(s: string, m: nat)
    requires m <= |s|
    ensures SearchFrom(s, m).Some? ==> exists p :: FirstMatchAt(s, m, p) && MatchAt(s, p) == SearchFrom(s, m)
    decreases |s| - m
  {
    if MatchAt(s, m).Some? {
      assert FirstMatchAt(s, m, m);
    } else if m < |s| {
      SearchFromIsLeftmost(s, m + 1);
      if SearchFrom(s, m).Some? {
        var p: nat :| FirstMatchAt(s, m + 1, p) && MatchAt(s, p) == SearchFrom(s, m + 1);
        assert FirstMatchAt(s, m, p);
      }
    }
  }

  /** The search finds nothing exactly when the pattern matches nowhere, and otherwise returns the capture at the first position where it matches. */
  lemma HexSearchIsLeftmost(s: string)
    ensures HexSearch(s).None? <==> forall p | 0 <= p <= |s| :: MatchAt(s, p).None?
    ensures HexSearch(s).Some? ==> exists p :: FirstMatchAt(s, 0, p) && MatchAt(s, p) == HexSearch(s)
  {
    SearchFromFails(s, 0);
    SearchFromIsLeftmost(s, 0);
  }

  // ---------------------------------------------------------------------------
  // zfill
  // ---------------------------------------------------------------------------

  function Zeros(n: nat): (z: string)
    ensures |z| == n
    ensures forall k | 0 <= k < n :: z[k] == '0'
  {
    if n == 0 then "" else "0" + Zeros(n - 1)
  }

  /** `s.zfill(width)` for a string without a leading sign. */
  function ZFill(s: string, width: nat): (r: string)
    ensures |r| == if |s| < width then width else |s|
    ensures r[|r| - |s|..] == s
    ensures forall k | 0 <= k < |r| - |s| :: r[k] == '0'
  {
    if |s| >= width then s else Zeros(width - |s|) + s
  }

  function HexDigitValue(c: char): (v: nat)
    requires IsHexDigit(c)
    ensures v < 16
  {
    if '0' <= c <= '9' then (c - '0') as nat
    else if 'a' <= c <= 'f' then (c - 'a') as nat + 10
    else (c - 'A') as nat + 10
  }

  function Pow16(n: nat): nat {
    if n == 0 then 1 else 16 * Pow16(n - 1)
  }

  /** The number a string of hex digits denotes, most significant digit first. */
  function HexValue(s: string): nat
    requires AllHex(s)
  {
    if s == [] then 0 else HexDigitValue(s[0]) * Pow16(|s| - 1) + HexValue(s[1..])
  }

  /** Padding keeps the string a hex numeral and does not change the number it denotes. */
  lemma {:induction false} ZFillKeepsValue(s: string, width: nat)
    requires AllHex(s)
    ensures AllHex(ZFill(s, width))
    ensures HexValue(ZFill(s, width)) == HexValue(s)
  {
    if |s| < width {
      ZerosPrefixKeepsValue(width - |s|, s);
    }
  }

  lemma {:induction false} ZerosPrefixKeepsValue(n: nat, s: string)
    requires AllHex(s)
    ensures AllHex(Zeros(n) + s)
    ensures HexValue(Zeros(n) + s) == HexValue(s)
  {
    if n > 0 {
      ZerosPrefixKeepsValue(n - 1, s);
      var t := Zeros(n) + s;
      assert t[0] == '0' && t[1..] == Zeros(n - 1) + s;
      assert HexValue(t) == 0 * Pow16(|t| - 1) + HexValue(t[1..]);
    } else {
      assert Zeros(n) + s == s;
    }
  }
}
