# rtach compression benchmark and session-history extraction, in Dafny

This project models two parts of the rtach repository and proves properties
of them.

**The compression benchmark** (`tools/compression_bench.py`) measures
several ways of compressing synthetic terminal traffic. The model covers:

- **the two workload generators.** The editor workload repeats a cursor
  escape plus a fixed line of code. The terminal workload is a random mix
  of escapes, blank runs, newlines, shell patterns, printable text and
  NULs, drawn from a random stream given as a parameter.
- **streaming and per-frame compression.** The compressors are arbitrary
  byte-to-byte functions. A per-frame pass is a partition of the buffer
  into fixed-size slices, and each slice costs a 4-byte header plus its
  compressed payload.
- **the benchmark matrix of `main`.** It runs four sizes × two workloads
  × a fixed strategy list, under three skip rules:
  - a frame larger than the buffer is skipped;
  - lzma runs only up to 16384 bytes;
  - zstd runs only with the optional backend.
- **the `Result` record** and its zero-time throughput guard.

**The session-history extraction** (`tests/parse_history.py`) is the pair
of record filters `find_edits` and `find_writes`. They run over a log
whose lines are either a decoded entry or `None` for a line that does not
decode.

Modules:

- `Text`: bytes, ASCII encoding, and decimal rendering with its read-back.
- `Generators`: both workloads, as loops proved against specification
  functions. A shared `Prefix`/`Rounds` pair describes a loop that appends
  one unit per round until a length bound is reached.
- `Framing`: the per-frame partition, its wire size and the four
  compression wrappers.
- `Results`: the `Result` record with its ratio and throughput.
- `Bench`: the strategy matrix and skip policy (`Applicable`). It also
  holds the runner's nested loops, proved to produce exactly the policy's
  cells in order.
- `History`: the two extractors, as loops proved against
  specification functions. It also holds the membership, order and
  filter lemmas.

The random stream, the compressors and the wall clock are parameters:

- `draws: nat -> RngDraw` gives the draws of each generator round, in the
  order the round makes them, constrained to the ranges Python's generator
  can return.
- `Backends` holds the compressors.
- `clock: Cell -> nat` gives the elapsed nanoseconds of each cell.
- `hasZstd` stands for `HAS_ZSTD`.

## Model

| member | source | states |
|---|---|---|
| Text.DecimalRoundTrip | tools/compression_bench.py:114 | the decimal text of the cursor's line and column reads back as the number itself |
| Text.DecimalLength | tools/compression_bench.py:114 | numbers below 10 take one digit and numbers from 10 to 99 take two, which fixes the cursor escape's length |
| Generators.Rounds | tools/compression_bench.py:85 | a loop appending non-empty units reaches any bound: the round count is the first round whose buffer reaches the bound, and every earlier round is below it |
| Generators.RoundsIsFirst | tools/compression_bench.py:85 | a loop that stops at the first round reaching the bound ran exactly `Rounds` rounds |
| Generators.PrefixGrows | tools/compression_bench.py:89-101 | later rounds only extend the buffer: earlier buffers are prefixes of later ones |
| Generators.EditorData | tools/compression_bench.py:112-120 | the editor workload is exactly `size` bytes long for every size |
| Generators.GenerateEditorData | tools/compression_bench.py:106-120 | the loop with its `line`/`col` counters, padding and cut returns exactly `EditorData(size)` |
| Generators.WrapStep | tools/compression_bench.py:116-117 | the steps `(line % 50) + 1` and `(col % 80) + 1` from (1, 1) give line `k % 50 + 1` and column `k % 80 + 1` in round `k` |
| Generators.EditorCycle | tools/compression_bench.py:109-117 | the line stays within 1..50 and the column within 1..80, and the emitted unit repeats every 400 rounds |
| Generators.EditorUnitLength | tools/compression_bench.py:114-115 | each round appends 22 to 24 bytes (20 fixed bytes plus one or two digits each for line and column) |
| Generators.EditorShortIsBlank | tools/compression_bench.py:112-120 | a request of at most 20 bytes runs no round and yields only spaces |
| Generators.EditorLayout | tools/compression_bench.py:112-120 | for longer requests the output is the generated units followed by spaces, cut to `size`; at least one round runs, and the units end between `size - 20` and `size + 3` bytes |
| Generators.Chunk | tools/compression_bench.py:85-101 | every kind of round appends between 1 and 80 bytes, so the loop always progresses |
| Generators.ChunkKinds | tools/compression_bench.py:86-101 | per draw: an escape from the table (starting with ESC), `count` spaces, LF preceded by CR exactly when the coin exceeds 0.5, a shell pattern, `count` bytes of `string.printable`, or one NUL |
| Generators.TerminalData | tools/compression_bench.py:85-103 | the terminal workload is exactly `size` bytes long for every size |
| Generators.GenerateTerminalData | tools/compression_bench.py:49-103 | the loop over the 0..10 draw categories returns exactly `TerminalData(size, draws)` |
| Generators.TerminalPrefixStable | tools/compression_bench.py:83-103 | since the generator reseeds on every call, a shorter request yields exactly the start of a longer one |
| Framing.PerFrameTotal | tools/compression_bench.py:134-141 | the `offset`/`total` loop sums a 4-byte header plus the compressed size of every slice of the partition |
| Framing.CompressPerFrame | tools/compression_bench.py:131-144 | the zlib per-frame size is the wire size of the partition, and the time is passed through |
| Framing.CompressPerFrameZstd | tools/compression_bench.py:166-182 | without the optional backend the result is (0, 0); otherwise it is the wire size of the partition |
| Framing.CompressStreaming | tools/compression_bench.py:123-128 | streaming zlib and lzma report the length of one compression of the whole buffer |
| Framing.CompressStreamingZstd | tools/compression_bench.py:155-163 | without the optional backend the result is (0, 0); otherwise it is one compression of the whole buffer |
| Framing.FramesFlatten | tools/compression_bench.py:137-141 | the slices `data[offset:offset + frame_size]` concatenate back to the input |
| Framing.FramesShape | tools/compression_bench.py:138 | every slice is non-empty and at most `frame_size` long, and all but the last are exactly `frame_size` long |
| Framing.FramesCount | tools/compression_bench.py:137-141 | there are ceil(len(data) / frame_size) slices, and none for empty data |
| Framing.FrameAt | tools/compression_bench.py:137-141 | slice `k` is `data[k*f : min((k+1)*f, len(data))]` |
| Framing.WireSizeSplit | tools/compression_bench.py:140 | the per-frame total is 4 bytes per slice plus the sum of the compressed payloads |
| Framing.PerFrameBoundaries | tools/compression_bench.py:137-141 | empty data costs 0; data that fits in one frame (in particular `frame_size == len(data)`) costs exactly 4 plus the streaming size |
| Results.Result.Ratio | tools/compression_bench.py:37-39 | the ratio times the original size is 100 times the compressed size; it is below 100 iff the data shrank, and exactly 100 iff the size is unchanged |
| Results.Result.SpeedMbps | tools/compression_bench.py:41-46 | zero elapsed time gives 0 instead of a division; otherwise speed times seconds is the size in MiB; the speed is 0 iff the time or the size is 0 |
| Bench.MeasureCell | tools/compression_bench.py:206-244 | one cell calls the wrapper of its strategy and reports label, requested size, compressed size and time as `CellResult` |
| Bench.RunZlibStreaming | tools/compression_bench.py:206-211 | the stage appends the zlib streaming cells at levels 1, 6, 9 and their rows |
| Bench.RunZlibFrames | tools/compression_bench.py:213-221 | the stage appends zlib per-frame cells for frames 512, 1024, 2048 at levels 1 and 6, skipping frames larger than the buffer |
| Bench.RunZlibFrameLevels | tools/compression_bench.py:217-221 | the inner level loop for a fitting frame size appends both of its cells |
| Bench.ZlibFrameSkip | tools/compression_bench.py:214-216 | `continue` on a frame larger than the buffer skips both of its levels |
| Bench.RunLzma | tools/compression_bench.py:223-228 | the lzma cell is appended exactly when `size <= 16384` |
| Bench.RunZstdStreaming | tools/compression_bench.py:231-236 | with the optional backend, the zstd streaming cells at levels 1, 3, 9 are appended |
| Bench.RunZstdFrames | tools/compression_bench.py:238-244 | with the optional backend, zstd per-frame cells for frames 1024 and 2048 at level 3 are appended, skipping frames larger than the buffer |
| Bench.RunGroup | tools/compression_bench.py:206-244 | one (size, workload) group produces exactly the policy-filtered candidate list, each row measured on the group's buffer |
| Bench.RunSize | tools/compression_bench.py:198-244 | both workloads of a size run in order, terminal then editor, each on its own generated buffer |
| Bench.Run | tools/compression_bench.py:190-244 | the whole run produces exactly `Matrix(hasZstd)`, and row `k` is cell `k` measured on its buffer |
| Bench.SelectedMembership | tools/compression_bench.py:206-244 | a group holds a cell iff it has the group's size and workload and an applicable candidate strategy |
| Bench.MatrixMembership | tools/compression_bench.py:193-244 | the run holds a cell iff its size is a test size, its strategy a candidate, and the policy lets it through |
| Bench.SkipRules | tools/compression_bench.py:214-216 | a per-frame cell is present iff its frame fits, so a frame equal to the size is kept; lzma iff `size <= 16384` (line 224); zstd frames iff the backend is present and the frame fits (lines 231, 238-240); no zstd streaming cell without the backend |
| Bench.ReportAt | tools/compression_bench.py:198-210 | row `k` of the report is cell `k` measured on the one buffer generated for its size and workload; its original size is that buffer's length |
| Bench.GroupOrder | tools/compression_bench.py:206-244 | within a group: zlib streaming by rising level, zlib per-frame by frame then level, lzma, zstd streaming by level, zstd per-frame by frame |
| Bench.GroupCount | tools/compression_bench.py:206-244 | a group has 3 zlib streaming cells, 2 per fitting zlib frame size, 1 lzma cell up to 16384 bytes, and with the backend 3 zstd streaming cells plus 1 per fitting zstd frame size |
| Bench.MatrixCount | tools/compression_bench.py:190-244 | the full report has 112 rows with the optional backend and 74 without it |
| History.FindEdits | tests/parse_history.py:12-44 | the enumerate/`continue` loop returns exactly `Edits(lines, fileFilter, contentFilter)` |
| History.EditAtMembership | tests/parse_history.py:24-35 | one line contributes an edit iff it has `filePath` and `newString` (a missing `oldString` reads as empty) and the edit passes the filters |
| History.EditsMembership | tests/parse_history.py:17-42 | an edit is reported iff some line, numbered from 1, has the edit shape and passes both filters; lines that do not decode contribute nothing |
| History.EditLinesIncrease | tests/parse_history.py:17-42 | edit line numbers lie in 1..n and are strictly increasing |
| History.EditFiltersOnlyRemove | tests/parse_history.py:32-35 | the filtered edits are exactly the unfiltered edits that pass the filters, in the same order |
| History.FindWrites | tests/parse_history.py:47-79 | the enumerate/`continue` loop returns exactly `Writes(lines, fileFilter, contentFilter)` |
| History.AppendBlockWrites | tests/parse_history.py:62-77 | the block loop appends, in block order, every Write tool-use block that passes the filters |
| History.BlockWritesMembership | tests/parse_history.py:62-71 | a message's blocks contribute a write iff some block has type `tool_use` and name `Write`, describes it, and it passes the filters |
| History.WritesMembership | tests/parse_history.py:52-71 | a write is reported iff some line, numbered from 1, is an assistant message with a Write block describing it, and the write passes both filters |
| History.WriteLinesInOrder | tests/parse_history.py:52-77 | write line numbers lie in 1..n and never decrease |
| History.TwoWritesOneLine | tests/parse_history.py:62-77 | two Write blocks in one assistant message give two writes on the same line |
| History.WriteFiltersOnlyRemove | tests/parse_history.py:68-71 | the filtered writes are exactly the unfiltered writes that pass the filters, in the same order |
| History.EmptyFiltersKeepAll | tests/parse_history.py:32-70 | an empty filter string keeps everything, exactly as no filter does |

## Left out

- The real zlib, lzma and zstd compressors. They are foreign library calls, modelled as arbitrary functions from bytes to bytes. So no claim about actual sizes or ratios is made.
- Timing with `time.perf_counter_ns`. Each cell's elapsed time is an input (`clock`).
- Python's Mersenne Twister and the seed 12345. The draws are a parameter, so the concrete bytes of the terminal workload are not modelled, only how draws map to bytes.
- The optional-import probe for `zstandard`. `HAS_ZSTD` is the parameter `hasZstd`.
- Printing and table formatting in `main`, and the analysis text at the end.
- Results.Result.Ratio: uses exact real arithmetic instead of floating point, and requires a non-zero original size, where the source would raise a division error.
- Results.Result.SpeedMbps: uses exact real arithmetic instead of floating point.
- `main` does not use the `Result` class. It computes the ratio and the throughput inline with the same `ns > 0` guard. The model records each row as a `Result` value and states the guard once, on `Result.SpeedMbps`.
- `main` reports the requested `size` as the original size, and the model does too. `Bench.ReportAt` proves this equals the buffer's length.
- The `frame_sizes` list in `main` is never used. The loops use their own literal lists, and so does the model.
- The zstd per-frame label hardcodes `level3`. The model renders the level, which is always 3, so the labels agree.
- Generators.GenerateEditorData and Generators.GenerateTerminalData: negative sizes are not modelled (sizes are `nat`). The benchmark only requests positive sizes.
- In `tests/parse_history.py`, the following are not modelled:
  - opening the file and `json.loads`: lines arrive already decoded, with `None` for a line that does not decode;
  - `list_sessions`, `main`, argument parsing, and globbing and sorting session files.
- Python's dynamic typing in the extractors. Entries are typed records, with `None` for a missing key. This excludes:
  - substring tests on a `toolUseResult` that is a string;
  - a JSON `null` value under `filePath`;
  - non-object lines;
  - message content given as a string.
