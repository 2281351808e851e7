# Adaptive block scheduler of the vanity-key search scripts

This project models, in Dafny, the scheduler at the core of `rng2.py` and
`pipi.py`. Both scripts search the keyspace 0x400000000000000000 through
0x7FFFFFFFFFFFFFFFFF by running an external engine (`./vanitysearch`) on
blocks of 2^40 keys. After each run they decide which block to probe next.

- **Keyspace arithmetic** (`keyspace.dfy`, module `Keyspace`). `wrap_inc` moves
  a start around a circle of `MAX_OFFSET + 1` starts. The two files define it
  identically, so it is modelled once.
- **Random starts.** `rng2.py` draws an offset and masks it down to its block
  (`Rng2.MaskedStart`). `pipi.py` draws a block index and shifts it
  (`Pipi.IndexedStart`). The draw is a parameter in both.
- **Start claim** (`Rng2.ClaimRegistry`). This is the `used_starts`
  check-and-insert of `random_start_unique`, done sequentially.
- **Hit classifier.** The first key of the continuation table, ranked by
  descending length, that the address starts with, followed by the table
  lookup (`LongestPrefix`, `Rng2.Classify`, `Pipi.Classify`).
- **Engine-output parser** (`engine_output.dfy`, `EngineOutput.ScanAt`). This
  is the `for line in p.stdout` loop of `scan_at` over the engine's output
  lines. The header rule is a parameter: `rng2.py` also ends the banner at a
  line naming "VanitySearch".
- **Scheduler step.** This is one iteration of the `while True` loop of
  `worker` (`rng2.py`) or `main` (`pipi.py`). It exists as a class whose
  fields are the six loop variables (`Rng2.Worker`, `Pipi.Scheduler`). Its
  `Step` method is proved equal to a pure function `Next`, and the lemmas
  about runs of iterations are stated over `Next`.

The Python string operations the parser needs are in `text.dfy`: `startswith`,
`in`, `split()[-1]`, the `\s` class as `str.isspace`, the leftmost
`re.search` of `0x\s*([0-9A-Fa-f]+)`, and `zfill`.

How the code behaves, as modelled, including where it does not do what its
names and docstrings suggest:

- `MAX_OFFSET + 1 = 2^70 - 2^40 + 1` is not a multiple of the block size. So
  `wrap_inc` keeps starts on the block grid only while no wrap happens.
  Stepping one block on from the last block gives `KEY_MIN + 2^40 - 1`, not
  `KEY_MIN` (`Keyspace.WrapFromLastBlockMisaligns`,
  `*.MainStepFromLastBlockMisaligns`).
- In sequential mode a miss never moves on to the next block. The `else` of
  the `for` loop throws away the stepped start and draws a fresh one
  (`*.SeqStep`).
- When a skip window gives up, `initial_window` is not reset. The next
  sequential hit overwrites it (`*.SkipStep`, `*.SeqStep`).
- A hit counts only if a key was also read (`hit and priv`,
  `*.KeylessHitIsMiss`). Hits inside the main window raise `initial_window` but
  never extend the window in progress (`*.MainWindowRunsOut`).
- `p.wait()` discards the engine's exit status, so the status does not enter
  the result. A failed run is read from the lines it printed, exactly like a
  successful one, and there is no engine-error path.
- In `rng2.py`, a hit whose address matches none of the table's keys makes
  `next` raise StopIteration. Nothing catches it, so the worker dies
  (`Rng2.Outcome.Stopped`).
- The key is padded to `max(64, len)` hex digits, not cut to 64.
- The keyspace length 2^70 is a whole number of blocks. So masking a uniform
  offset in `rng2.py` gives every block the same 2^40 offsets and is uniform
  over blocks (`Rng2.MaskedStartPreimage`).
- `& ~(BLOCK_SIZE - 1)` on a non-negative key is modelled as subtracting the
  key's remainder modulo the block size. `>> RANGE_BITS` and `<< RANGE_BITS`
  are modelled as division and multiplication by 2^40.

## Model

| member | source | states |
|---|---|---|
| `Text.LastToken` | rng2.py:129 | the result is a maximal run of non-space characters, preceded by a space or the line start and followed only by spaces; it is empty exactly when the line is all whitespace |
| `Text.MatchAt` | rng2.py:133 | a capture at a position needs `0x` there and is a non-empty run of hex digits |
| `Text.MatchAtMeaning` | rng2.py:133 | the pattern matches at a position exactly when `0x` is there and a hex digit follows after only whitespace; the capture is then the whole maximal hex run starting at that digit |
| `Text.HexSearch` | rng2.py:133 | a found key is a non-empty string of hex digits |
| `Text.HexSearchIsLeftmost` | rng2.py:133 | the search fails exactly when the pattern matches at no position, and otherwise returns the capture of the leftmost matching position |
| `Text.ZFill` | rng2.py:135 | the result has length max(width, len), ends with the input, and is '0' before it |
| `Text.ZFillKeepsValue` | rng2.py:135 | padding keeps a hex numeral a hex numeral denoting the same number |
| `Keyspace.WrapInc` | rng2.py:104-106 | the result is in [KEY_MIN, KEY_MIN + MAX_OFFSET] and congruent to start + inc modulo MAX_OFFSET + 1 (identical in pipi.py:43-45) |
| `Keyspace.WrapIncUnique` | rng2.py:104-106 | those two facts determine the result uniquely |
| `Keyspace.WrapIncPeriodic` | rng2.py:105 | the result depends on inc only modulo MAX_OFFSET + 1 |
| `Keyspace.WrapIncNoWrap` | rng2.py:105-106 | when start - KEY_MIN + inc <= MAX_OFFSET the result is start + inc |
| `Keyspace.WrapIncKeepsAlignmentWithoutWrap` | rng2.py:104-106 | an aligned start moved by a multiple of the block size without wrapping stays an aligned in-range start |
| `Keyspace.WrapFromLastBlockMisaligns` | rng2.py:27-29 | one block on from the last block start gives KEY_MIN + 2^40 - 1, which is off the block grid |
| `Keyspace.Pow2OfRangeBits` | rng2.py:26-27 | `1 << RANGE_BITS` is the block size |
| `Keyspace.Pow2IsWholeBlocks` | rng2.py:182-183 | every skip `1 << b` with b >= 40 is a whole number of blocks |
| `Keyspace.SkipKeepsAlignmentWithoutWrap` | rng2.py:182-184 | a skip of `1 << b` keys (b >= 40) from an aligned anchor that does not wrap lands on a block start (also pipi.py:120-122) |
| `EngineOutput.FirstHeaderFrom` | rng2.py:121-126 | the first header line at or after an index, with no header line before it |
| `EngineOutput.BodyStart` | rng2.py:122-126 | interpretation starts right after the first header line; no earlier line is a header |
| `EngineOutput.AddrLineHasToken` | rng2.py:128-129 | a "Public Addr:" line always has a last token, so `split()[-1]` cannot raise |
| `EngineOutput.ScanAt` | rng2.py:117-139 | the loop leaves exactly the result described by the last interpreted hit line and the last interpreted key line (`Summary`); an address is present iff there was a hit; a key implies a hit and is a hex string of at least 64 digits (pipi.py:56-76 with the "GPU:"-only rule) |
| `EngineOutput.ResultMeaning` | rng2.py:121-137 | for that result: lines up to the first header are never interpreted; hit iff a later line starts "Public Addr:"; addr is the last token of the last such line; priv is set iff a later line containing "Priv (HEX):" has a hex run and comes at or after a hit line, and is then the padded run of the last such line |
| `LongestPrefix.FirstMatchFrom` | rng2.py:164 | the first index whose prefix the address starts with, or none exactly when no later prefix matches |
| `LongestPrefix.FirstMatch` | rng2.py:164 | `next` yields a listed prefix of the address, and fails exactly when no listed prefix matches |
| `LongestPrefix.FirstMatchIsLongest` | rng2.py:145 | over a list ranked longest first, the first match is at least as long as every matching prefix |
| `Rng2.SortedPrefixesRankKeys` | rng2.py:145 | the ranked list holds exactly the table's keys, each once, in strictly decreasing length |
| `Rng2.ScanRuleAcceptsBanner` | rng2.py:124-125 | the banner ends at a "GPU:" line or at any line containing "VanitySearch" |
| `Rng2.MaskedStart` | rng2.py:71-82 | the result is an aligned in-range start whose block holds KEY_MIN + offset |
| `Rng2.MaskClampNeverFires` | rng2.py:79-80 | the masked key is never below KEY_MIN, so the clamp is dead |
| `Rng2.MaskedStartPreimage` | rng2.py:75-78 | a block start is drawn by exactly the offsets inside its block |
| `Rng2.ClaimRegistry.constructor` | rng2.py:238 | the registry starts empty |
| `Rng2.ClaimRegistry.Claim` | rng2.py:94-98 | succeeds iff the candidate was absent; then maps it to 1, otherwise changes nothing; the map only grows and old entries keep their values |
| `Rng2.ClaimRegistry.ClaimFirst` | rng2.py:89-99 | claims the first drawn start not yet claimed, which was absent before and is the only entry added; with none free it changes nothing |
| `Rng2.Classify` | rng2.py:164-165 | an empty address is classified as PREFIX, whose value is 5; every window it yields is at least 1 |
| `Rng2.ClassifyMeaning` | rng2.py:164-165 | StopIteration exactly when a non-empty address matches no key; otherwise, for a non-empty address, the value of the longest key it starts with |
| `Rng2.ClassifyExamples` | rng2.py:35-40 | "1PWo3JeB9jrX" gives 75, "1PWo3JeB9X" gives 5, "" gives 5, "1PWoZZ" raises |
| `Rng2.Init` | rng2.py:146-151 | the first state starts at the claimed block in sequential mode and satisfies the loop invariant |
| `Rng2.Next` | rng2.py:156-224 | an iteration stops exactly when a confirmed hit's address matches no key; otherwise it counts one scan and preserves 0 <= window_rem <= initial_window, 0 <= skip_rem <= 20 and start in range |
| `Rng2.Worker.constructor` | rng2.py:145-151 | the loop variables start as Init describes |
| `Rng2.Worker.Step` | rng2.py:156-224 | the in-place update of the six variables is Next of the old ones, and keeps the invariant |
| `Rng2.KeylessHitIsMiss` | rng2.py:163 | a hit without a key behaves exactly like no hit |
| `Rng2.MainStep` | rng2.py:158-178 | last_main_start := start; scan_ct grows by 1; window_rem drops by exactly 1; initial_window becomes max(initial_window, the hit's window) on a confirmed hit and is unchanged otherwise; at 0 the skip window is armed with 20 cycles and start stays; otherwise start moves one block |
| `Rng2.SkipStep` | rng2.py:181-208 | the new skip point is wrap_inc(previous skip point, 2^b); scan_ct grows by 1; a confirmed hit sets initial_window to max(initial_window, the hit's window), reopens the main window at that size with 20 fresh cycles and moves one block on; a miss keeps initial_window, uses one cycle, and the last one takes the claimed start |
| `Rng2.SeqStep` | rng2.py:211-224 | a hit opens a main window of exactly the hit's size one block on; a miss takes the claimed start, not the next block |
| `Rng2.MainStepFromLastBlockMisaligns` | rng2.py:173-174 | a main-window step from the last block lands off the block grid |
| `Rng2.RunKeepsValid` | rng2.py:156-224 | the loop invariant holds after any number of iterations that do not raise |
| `Rng2.MainWindowRunsOut` | rng2.py:158-178 | a main window with n probes left probes n consecutive blocks and then arms the skip window, whatever the hits |
| `Rng2.SkipWindowGivesUp` | rng2.py:181-208 | skip_rem consecutive missed skips jump along the chain of skip points and end in sequential mode at the last claimed start |
| `Pipi.SortedPrefixesRankKeys` | pipi.py:79 | the ranked list holds exactly the table's keys, each once, in strictly decreasing length |
| `Pipi.ScanRuleIsGpuOnly` | pipi.py:60-65 | only a line starting "GPU:" ends the banner; a "VanitySearch" line does not |
| `Pipi.IndexedStart` | pipi.py:34-41 | the result is an aligned in-range start whose block index is in [KEY_MIN >> 40, KEY_MAX >> 40] and is low_blk + draw |
| `Pipi.IndexedStartOnto` | pipi.py:35-39 | every aligned in-range start is drawn, by the index start / 2^40 - low_blk (the only one, by IndexedStart) |
| `Pipi.Classify` | pipi.py:102-103 | total: every address gets a window of at least 1 |
| `Pipi.ClassifyMeaning` | pipi.py:102-103 | the value of the longest key the address starts with, or PREFIX's value 1 when none matches |
| `Pipi.ClassifyExamples` | pipi.py:21-27 | "1PWo3JeB9jrX" gives 100, "1PWo3JeB9jX" gives 71, "1PWoZZ" gives 1 |
| `Pipi.Init` | pipi.py:80-89 | the first state starts at a random block start in sequential mode and satisfies the loop invariant |
| `Pipi.Next` | pipi.py:94-164 | an iteration counts one scan and preserves 0 <= window_rem <= initial_window, 0 <= skip_rem <= 25 and start in range |
| `Pipi.Scheduler.constructor` | pipi.py:80-89 | the loop variables start as Init describes |
| `Pipi.Scheduler.Step` | pipi.py:94-164 | the in-place update of the six variables is Next of the old ones, and keeps the invariant |
| `Pipi.KeylessHitIsMiss` | pipi.py:101 | a hit without a key behaves exactly like no hit |
| `Pipi.MainStep` | pipi.py:96-116 | last_main_start := start; scan_ct grows by 1; window_rem drops by exactly 1; initial_window becomes max(initial_window, the hit's window) on a confirmed hit and is unchanged otherwise; at 0 the skip window is armed with 25 cycles and start stays; otherwise start moves one block |
| `Pipi.SkipStep` | pipi.py:119-147 | the new skip point is wrap_inc(previous skip point, 2^b); scan_ct grows by 1; a confirmed hit sets initial_window to max(initial_window, the hit's window), reopens the main window at that size with 25 fresh cycles and moves one block on; a miss keeps initial_window, uses one cycle, and the last one takes a fresh random start |
| `Pipi.SeqStep` | pipi.py:151-164 | a hit opens a main window of exactly the hit's size one block on; a miss takes a fresh aligned random start, not the next block |
| `Pipi.MainStepFromLastBlockMisaligns` | pipi.py:111-112 | a main-window step from the last block lands off the block grid |
| `Pipi.SmallestSkipIsOneBlock` | pipi.py:120-122 | the smallest skip, 2^40, moves the skip point by exactly one block |
| `Pipi.RunKeepsValid` | pipi.py:94-164 | the loop invariant holds after any number of iterations, and each iteration scans exactly once |
| `Pipi.MainWindowRunsOut` | pipi.py:96-116 | a main window with n probes left probes n consecutive blocks and then arms the skip window, whatever the hits |
| `Pipi.SkipWindowGivesUp` | pipi.py:119-147 | 25 (or skip_rem) consecutive missed skips jump along the chain of skip points and end in sequential mode at the last random start |

## Left out

- Spawning `./vanitysearch`, reading its pipe and waiting for it are not modelled. Its output is an input: the sequence of lines `ScanAt` reads.
- All printing is left out: the banner echo, hit and status messages, the status line every ten scans, and the EAGAIN-tolerant `print` wrapper of rng2.py.
- `strong_entropy_seed` and `random.seed` are left out. They hash OS randomness, clocks, uuid and the hostname. The seed only affects `random.randrange`, and its draw (the skip exponent) is a parameter here.
- `secrets.randbelow` and `random.randrange` are modelled only by the range of their results. Their results are bounded parameters; uniformity cannot be stated about one draw.
- The multiprocessing `Manager`, the `Lock`, the processes and `main` of rng2.py are left out. The claim is modelled as one sequential map update on `ClaimRegistry`.
- The non-terminating `while True` loops are modelled one iteration at a time (`Step`, `Next`) and as finite runs (`Run`). `KeyboardInterrupt` handling is also left out.
- Rng2.ClaimFirst: the unbounded retry of `random_start_unique` is bounded by a given list of draws. The method returns `None` when every draw collides, where the source would keep drawing.
- Rng2.Next: the start that `random_start_unique` returns is an input, so a step does not itself update the registry.
- Rng2.Worker.Step: when StopIteration is raised, the state the worker dies with is not specified.
- The `for ... else` over `range(DEFAULT_CONTINUE)` is modelled as its single pass, since DEFAULT_CONTINUE is 1.
- Text.ZFill: the sign handling of `str.zfill` is not modelled, since its argument is always a run of hex digits.
- `.strip()` after `split()[-1]` is not modelled separately, because a whitespace-free token is unchanged by it.
- Decoding the engine's bytes into text lines is left out.
- rng.py is left out. It only loops over `subprocess.run` from unaligned random starts and has no scheduling logic.
