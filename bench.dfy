/** The benchmark runner: for every test size and workload it measures a
    fixed, ordered list of strategies, skipping the cells the pruning policy
    rules out. The policy is stated once, as the predicate `Applicable` over
    a candidate list; the runner's nested loops are proved to produce exactly
    the candidates that pass it, in candidate order, each measured on the one
    buffer generated for its size and workload. */
module Bench {
  import opened Text
  import opened Generators
  import opened Framing
  import opened Results

  datatype Workload = Terminal | Editor

  type FrameSize = n: nat | n > 0 witness 1

  datatype Strategy =
    | ZlibStreaming(level: nat)
    | ZlibFrame(frame: FrameSize, level: nat)
    | LzmaStreaming
    | ZstdStreaming(level: nat)
    | ZstdFrame(frame: FrameSize, level: nat)

  /** One row of the report: what was measured, on which input. */
  datatype Cell = Cell(size: nat, workload: Workload, strategy: Strategy)

  /** The compressors; zlib and zstd are chosen by level. */
  datatype Backends = Backends(zlib: nat -> Compressor, lzma: Compressor, zstd: nat -> Compressor)

  const TestSizes: seq<nat> := [1024, 4096, 16384, 65536]
  const Workloads: seq<Workload> := [Terminal, Editor]
  const ZlibLevels: seq<nat> := [1, 6, 9]
  const ZlibFrameSizes: seq<FrameSize> := [512, 1024, 2048]
  const ZlibFrameLevels: seq<nat> := [1, 6]
  const LzmaMaxSize: nat := 16384
  const ZstdLevels: seq<nat> := [1, 3, 9]
  const ZstdFrameSizes: seq<FrameSize> := [1024, 2048]
  const ZstdFrameLevel: nat := 3

  /** The strategies of each stage of a group, in the order the runner
      measures them. */
  const ZlibStreamingCandidates: seq<Strategy> := [ZlibStreaming(1), ZlibStreaming(6), ZlibStreaming(9)]
  const ZlibFrameCandidates: seq<Strategy> := [
    ZlibFrame(512, 1), ZlibFrame(512, 6), ZlibFrame(1024, 1), ZlibFrame(1024, 6),
    ZlibFrame(2048, 1), ZlibFrame(2048, 6)]
  const LzmaCandidates: seq<Strategy> := [LzmaStreaming]
  const ZstdStreamingCandidates: seq<Strategy> := [ZstdStreaming(1), ZstdStreaming(3), ZstdStreaming(9)]
  const ZstdFrameCandidates: seq<Strategy> := [ZstdFrame(1024, 3), ZstdFrame(2048, 3)]

  /** Every strategy the runner may measure for one (size, workload). */
  const Candidates: seq<Strategy> :=
    ZlibStreamingCandidates + ZlibFrameCandidates + LzmaCandidates
      + ZstdStreamingCandidates + ZstdFrameCandidates

  /** The pruning policy: a frame larger than the buffer is skipped (one of
      equal size is kept), lzma only runs up to 16384 bytes, and zstd cells
      need the optional backend. */
  predicate Applicable(s: Strategy, size: nat, hasZstd: bool)
  {
    match s
    case ZlibStreaming(_) => true
    case ZlibFrame(frame, _) => frame <= size
    case LzmaStreaming => size <= LzmaMaxSize
    case ZstdStreaming(_) => hasZstd
    case ZstdFrame(frame, _) => hasZstd && frame <= size
  }

  /** The cells of one (size, workload) group: the applicable candidates, in
      candidate order. */
  function Selected(size: nat, w: Workload, hasZstd: bool, cands: seq<Strategy>): seq<Cell>
  {
    if cands == [] then []
    else
      var s := cands[|cands| - 1];
      Selected(size, w, hasZstd, cands[..|cands| - 1])
        + (if Applicable(s, size, hasZstd) then [Cell(size, w, s)] else [])
  }

  function Group(size: nat, w: Workload, hasZstd: bool): seq<Cell>
  {
    Selected(size, w, hasZstd, Candidates)
  }

  /** The groups of one size, one per workload, in workload order. */
  function SizeBlock(size: nat, ws: seq<Workload>, hasZstd: bool): seq<Cell>
  {
    if ws == [] then [] else SizeBlock(size, ws[..|ws| - 1], hasZstd) + Group(size, ws[|ws| - 1], hasZstd)
  }

  /** The whole report for the given sizes: size, then workload, then strategy. */
  function MatrixOver(sizes: seq<nat>, hasZstd: bool): seq<Cell>
  {
    if sizes == [] then []
    else MatrixOver(sizes[..|sizes| - 1], hasZstd) + SizeBlock(sizes[|sizes| - 1], Workloads, hasZstd)
  }

  function Matrix(hasZstd: bool): seq<Cell>
  {
    MatrixOver(TestSizes, hasZstd)
  }

  /** The strategy column of a report row. */
  function Label(s: Strategy): string
  {
    match s
    case ZlibStreaming(level) => "zlib_streaming_level" + Decimal(level)
    case ZlibFrame(frame, level) => "zlib_frame" + Decimal(frame) + "_level" + Decimal(level)
    case LzmaStreaming => "lzma_streaming"
    case ZstdStreaming(level) => "zstd_streaming_level" + Decimal(level)
    case ZstdFrame(frame, level) => "zstd_frame" + Decimal(frame) + "_level" + Decimal(level)
  }

  /** The compression wrapper a strategy calls, on `data`. */
  function Measure(b: Backends, hasZstd: bool, s: Strategy, data: seq<byte>, elapsedNs: nat): Measurement
  {
    match s
    case ZlibStreaming(level) => CompressStreaming(b.zlib(level), data, elapsedNs)
    case ZlibFrame(frame, level) => Measurement(WireSize(b.zlib(level), Frames(data, frame)), elapsedNs)
    case LzmaStreaming => CompressStreaming(b.lzma, data, elapsedNs)
    case ZstdStreaming(level) => CompressStreamingZstd(hasZstd, b.zstd(level), data, elapsedNs)
    case ZstdFrame(frame, level) =>
      if !hasZstd then Measurement(0, 0)
      else Measurement(WireSize(b.zstd(level), Frames(data, frame)), elapsedNs)
  }

  /** The report row of a cell. The original size is the requested `size`,
      as in the source, not the length of the buffer (the two agree, see
      `ReportAt`). */
  function CellResult(b: Backends, hasZstd: bool, c: Cell, data: seq<byte>, elapsedNs: nat): Result
  {
    var m := Measure(b, hasZstd, c.strategy, data, elapsedNs);
    Result(Label(c.strategy), c.size, m.size, m.elapsedNs)
  }

  /** The buffer a cell is measured on: generated once per size and workload. */
  function Input(size: nat, w: Workload, draws: nat -> RngDraw): seq<byte>
  {
    match w
    case Terminal => TerminalData(size, draws)
    case Editor => EditorData(size)
  }

  /** One benchmark call, with the wall-clock reading supplied from outside. */
  method MeasureCell(b: Backends, hasZstd: bool, c: Cell, data: seq<byte>, elapsedNs: nat)
    returns (r: Result)
    ensures r == CellResult(b, hasZstd, c, data, elapsedNs)
  {
    var m: Measurement;
    match c.strategy {
      case ZlibStreaming(level) =>
        m := CompressStreaming(b.zlib(level), data, elapsedNs);
      case ZlibFrame(frame, level) =>
        m := CompressPerFrame(b.zlib(level), data, frame, elapsedNs);
      case LzmaStreaming =>
        m := CompressStreaming(b.lzma, data, elapsedNs);
      case ZstdStreaming(level) =>
        m := CompressStreamingZstd(hasZstd, b.zstd(level), data, elapsedNs);
      case ZstdFrame(frame, level) =>
        m := CompressPerFrameZstd(hasZstd, b.zstd(level), data, frame, elapsedNs);
    }
    r := Result(Label(c.strategy), c.size, m.size, m.elapsedNs);
  }

  // ---------------------------------------------------------------------------
  // The runner
  // ---------------------------------------------------------------------------

  /** The report rows of `cells`, each measured on `data`. */
  function Rows(b: Backends, hasZstd: bool, data: seq<byte>, clock: Cell -> nat, cells: seq<Cell>): (rows: seq<Result>)
    ensures |rows| == |cells|
  {
    if cells == [] then []
    else
      var c := cells[|cells| - 1];
      Rows(b, hasZstd, data, clock, cells[..|cells| - 1]) + [CellResult(b, hasZstd, c, data, clock(c))]
  }

  /** Row `k` reports cell `k`. */
  lemma {:induction false} RowsAt(b: Backends, hasZstd: bool, data: seq<byte>, clock: Cell -> nat, cells: seq<Cell>)
    ensures var rows := Rows(b, hasZstd, data, clock, cells);
            forall k :: 0 <= k < |cells| ==> rows[k] == CellResult(b, hasZstd, cells[k], data, clock(cells[k]))
    decreases |cells|
  {
    if cells != [] {
      var init := cells[..|cells| - 1];
      RowsAt(b, hasZstd, data, clock, init);
      assert forall k :: 0 <= k < |init| ==> cells[k] == init[k];
    }
  }

  /** A stage of the runner has dealt with the first `n` of its candidates
      `cands`, appending to the cells `base` of the earlier stages. */
  ghost predicate Done(b: Backends, hasZstd: bool, size: nat, w: Workload, data: seq<byte>, clock: Cell -> nat,
                       cands: seq<Strategy>, n: nat, base: seq<Cell>, cells: seq<Cell>, rows: seq<Result>)
  {
    && n <= |cands|
    && cells == base + Selected(size, w, hasZstd, cands[..n])
    && rows == Rows(b, hasZstd, data, clock, cells)
  }

  /** Measuring candidate `n` of a stage. */
  lemma DoneMeasured(b: Backends, hasZstd: bool, size: nat, w: Workload, data: seq<byte>, clock: Cell -> nat,
                     cands: seq<Strategy>, n: nat, base: seq<Cell>, cells: seq<Cell>, rows: seq<Result>, r: Result)
    requires Done(b, hasZstd, size, w, data, clock, cands, n, base, cells, rows) && n < |cands|
    requires Applicable(cands[n], size, hasZstd)
    requires r == CellResult(b, hasZstd, Cell(size, w, cands[n]), data, clock(Cell(size, w, cands[n])))
    ensures Done(b, hasZstd, size, w, data, clock, cands, n + 1, base,
                 cells + [Cell(size, w, cands[n])], rows + [r])
  {
    assert cands[..n + 1][..n] == cands[..n];
    assert (cells + [Cell(size, w, cands[n])])[..|cells|] == cells;
  }

  /** Skipping candidate `n` of a stage, which the policy rules out. */
  lemma DoneSkipped(b: Backends, hasZstd: bool, size: nat, w: Workload, data: seq<byte>, clock: Cell -> nat,
                    cands: seq<Strategy>, n: nat, base: seq<Cell>, cells: seq<Cell>, rows: seq<Result>)
    requires Done(b, hasZstd, size, w, data, clock, cands, n, base, cells, rows) && n < |cands|
    requires !Applicable(cands[n], size, hasZstd)
    ensures Done(b, hasZstd, size, w, data, clock, cands, n + 1, base, cells, rows)
  {
    assert cands[..n + 1][..n] == cands[..n];
  }

  /** A stage that has dealt with all of its candidates. */
  lemma DoneAll(cands: seq<Strategy>)
    ensures cands[..|cands|] == cands
  {
  }

  /** The zlib streaming stage of a group: levels 1, 6, 9. */
  method RunZlibStreaming(b: Backends, hasZstd: bool, size: nat, w: Workload, data: seq<byte>, clock: Cell -> nat,
                          base: seq<Cell>, rows0: seq<Result>)
    returns (cells: seq<Cell>, rows: seq<Result>)
    requires rows0 == Rows(b, hasZstd, data, clock, base)
    ensures cells == base + Selected(size, w, hasZstd, ZlibStreamingCandidates)
    ensures rows == Rows(b, hasZstd, data, clock, cells)
  {
    ghost var cands := ZlibStreamingCandidates;
    cells, rows := base, rows0;
    assert cands[..0] == [];
    for i := 0 to |ZlibLevels|
      invariant Done(b, hasZstd, size, w, data, clock, cands, i, base, cells, rows)
    {
      var c := Cell(size, w, ZlibStreaming(ZlibLevels[i]));
      var r := MeasureCell(b, hasZstd, c, data, clock(c));
      assert cands[i] == c.strategy;
      DoneMeasured(b, hasZstd, size, w, data, clock, cands, i, base, cells, rows, r);
      cells, rows := cells + [c], rows + [r];
    }
    DoneAll(cands);
  }

  /** The zlib per-frame stage of a group: frames of 512, 1024 and 2048 bytes
      at levels 1 and 6, skipping a frame size larger than the buffer. */
  method RunZlibFrames(b: Backends, hasZstd: bool, size: nat, w: Workload, data: seq<byte>, clock: Cell -> nat,
                       base: seq<Cell>, rows0: seq<Result>)
    returns (cells: seq<Cell>, rows: seq<Result>)
    requires rows0 == Rows(b, hasZstd, data, clock, base)
    ensures cells == base + Selected(size, w, hasZstd, ZlibFrameCandidates)
    ensures rows == Rows(b, hasZstd, data, clock, cells)
  {
    ghost var cands := ZlibFrameCandidates;
    cells, rows := base, rows0;
    assert cands[..0] == [];
    for j := 0 to |ZlibFrameSizes|
      invariant Done(b, hasZstd, size, w, data, clock, cands, 2 * j, base, cells, rows)
    {
      var frame := ZlibFrameSizes[j];
      if frame > size {
        ZlibFrameSkip(b, hasZstd, size, w, data, clock, j, base, cells, rows);
        continue;
      }
      cells, rows := RunZlibFrameLevels(b, hasZstd, size, w, data, clock, j, base, cells, rows);
    }
    DoneAll(cands);
  }

  /** A zlib frame size larger than the buffer skips both of its levels. */
  lemma ZlibFrameSkip(b: Backends, hasZstd: bool, size: nat, w: Workload, data: seq<byte>, clock: Cell -> nat,
                      j: nat, base: seq<Cell>, cells: seq<Cell>, rows: seq<Result>)
    requires j < |ZlibFrameSizes| && ZlibFrameSizes[j] > size
    requires Done(b, hasZstd, size, w, data, clock, ZlibFrameCandidates, 2 * j, base, cells, rows)
    ensures Done(b, hasZstd, size, w, data, clock, ZlibFrameCandidates, 2 * j + 2, base, cells, rows)
  {
    ZlibFrameAt(j, 0);
    ZlibFrameAt(j, 1);
    DoneSkipped(b, hasZstd, size, w, data, clock, ZlibFrameCandidates, 2 * j, base, cells, rows);
    DoneSkipped(b, hasZstd, size, w, data, clock, ZlibFrameCandidates, 2 * j + 1, base, cells, rows);
  }

  /** The levels of one zlib frame size that fits in the buffer. */
  method RunZlibFrameLevels(b: Backends, hasZstd: bool, size: nat, w: Workload, data: seq<byte>, clock: Cell -> nat,
                            j: nat, base: seq<Cell>, cells0: seq<Cell>, rows0: seq<Result>)
    returns (cells: seq<Cell>, rows: seq<Result>)
    requires j < |ZlibFrameSizes| && ZlibFrameSizes[j] <= size
    requires Done(b, hasZstd, size, w, data, clock, ZlibFrameCandidates, 2 * j, base, cells0, rows0)
    ensures Done(b, hasZstd, size, w, data, clock, ZlibFrameCandidates, 2 * j + 2, base, cells, rows)
  {
    var frame := ZlibFrameSizes[j];
    cells, rows := cells0, rows0;
    for m := 0 to |ZlibFrameLevels|
      invariant Done(b, hasZstd, size, w, data, clock, ZlibFrameCandidates, 2 * j + m, base, cells, rows)
    {
      var c := Cell(size, w, ZlibFrame(frame, ZlibFrameLevels[m]));
      var r := MeasureCell(b, hasZstd, c, data, clock(c));
      ZlibFrameLevelStep(b, hasZstd, size, w, data, clock, j, m, base, cells, rows, r);
      cells, rows := cells + [c], rows + [r];
    }
  }

  /** Measuring level `m` of zlib frame size `j` keeps the stage invariant. */
  lemma ZlibFrameLevelStep(b: Backends, hasZstd: bool, size: nat, w: Workload, data: seq<byte>, clock: Cell -> nat,
                           j: nat, m: nat, base: seq<Cell>, cells: seq<Cell>, rows: seq<Result>, r: Result)
    requires j < |ZlibFrameSizes| && ZlibFrameSizes[j] <= size && m < |ZlibFrameLevels|
    requires Done(b, hasZstd, size, w, data, clock, ZlibFrameCandidates, 2 * j + m, base, cells, rows)
    requires r == CellResult(b, hasZstd, Cell(size, w, ZlibFrame(ZlibFrameSizes[j], ZlibFrameLevels[m])), data,
                             clock(Cell(size, w, ZlibFrame(ZlibFrameSizes[j], ZlibFrameLevels[m]))))
    ensures Done(b, hasZstd, size, w, data, clock, ZlibFrameCandidates, 2 * j + m + 1, base,
                 cells + [Cell(size, w, ZlibFrame(ZlibFrameSizes[j], ZlibFrameLevels[m]))], rows + [r])
  {
    ZlibFrameAt(j, m);
    DoneMeasured(b, hasZstd, size, w, data, clock, ZlibFrameCandidates, 2 * j + m, base, cells, rows, r);
  }

  /** Where each zlib frame size and level sits among the zlib per-frame
      candidates. */
  lemma ZlibFrameAt(j: nat, m: nat)
    requires j < |ZlibFrameSizes| && m < |ZlibFrameLevels|
    ensures 2 * j + m < |ZlibFrameCandidates|
    ensures ZlibFrameCandidates[2 * j + m] == ZlibFrame(ZlibFrameSizes[j], ZlibFrameLevels[m])
  {
  }

  /** The lzma stage of a group, run only up to 16384 bytes. */
  method RunLzma(b: Backends, hasZstd: bool, size: nat, w: Workload, data: seq<byte>, clock: Cell -> nat,
                 base: seq<Cell>, rows0: seq<Result>)
    returns (cells: seq<Cell>, rows: seq<Result>)
    requires rows0 == Rows(b, hasZstd, data, clock, base)
    ensures cells == base + Selected(size, w, hasZstd, LzmaCandidates)
    ensures rows == Rows(b, hasZstd, data, clock, cells)
  {
    cells, rows := base, rows0;
    assert LzmaCandidates[..0] == [];
    if size <= LzmaMaxSize {
      var c := Cell(size, w, LzmaStreaming);
      var r := MeasureCell(b, hasZstd, c, data, clock(c));
      DoneMeasured(b, hasZstd, size, w, data, clock, LzmaCandidates, 0, base, cells, rows, r);
      cells, rows := cells + [c], rows + [r];
    } else {
      DoneSkipped(b, hasZstd, size, w, data, clock, LzmaCandidates, 0, base, cells, rows);
    }
    DoneAll(LzmaCandidates);
  }

  /** The zstd streaming stage of a group, run with the optional backend:
      levels 1, 3, 9. */
  method RunZstdStreaming(b: Backends, size: nat, w: Workload, data: seq<byte>, clock: Cell -> nat,
                          base: seq<Cell>, rows0: seq<Result>)
    returns (cells: seq<Cell>, rows: seq<Result>)
    requires rows0 == Rows(b, true, data, clock, base)
    ensures cells == base + Selected(size, w, true, ZstdStreamingCandidates)
    ensures rows == Rows(b, true, data, clock, cells)
  {
    ghost var cands := ZstdStreamingCandidates;
    cells, rows := base, rows0;
    assert cands[..0] == [];
    for i := 0 to |ZstdLevels|
      invariant Done(b, true, size, w, data, clock, cands, i, base, cells, rows)
    {
      var c := Cell(size, w, ZstdStreaming(ZstdLevels[i]));
      var r := MeasureCell(b, true, c, data, clock(c));
      assert cands[i] == c.strategy;
      DoneMeasured(b, true, size, w, data, clock, cands, i, base, cells, rows, r);
      cells, rows := cells + [c], rows + [r];
    }
    DoneAll(cands);
  }

  /** The zstd per-frame stage of a group, run with the optional backend:
      frames of 1024 and 2048 bytes at level 3, skipping a frame size larger
      than the buffer. */
  method RunZstdFrames(b: Backends, size: nat, w: Workload, data: seq<byte>, clock: Cell -> nat,
                       base: seq<Cell>, rows0: seq<Result>)
    returns (cells: seq<Cell>, rows: seq<Result>)
    requires rows0 == Rows(b, true, data, clock, base)
    ensures cells == base + Selected(size, w, true, ZstdFrameCandidates)
    ensures rows == Rows(b, true, data, clock, cells)
  {
    ghost var cands := ZstdFrameCandidates;
    cells, rows := base, rows0;
    assert cands[..0] == [];
    for j := 0 to |ZstdFrameSizes|
      invariant Done(b, true, size, w, data, clock, cands, j, base, cells, rows)
    {
      var frame := ZstdFrameSizes[j];
      var c := Cell(size, w, ZstdFrame(frame, ZstdFrameLevel));
      assert cands[j] == c.strategy;
      if frame > size {
        DoneSkipped(b, true, size, w, data, clock, cands, j, base, cells, rows);
        continue;
      }
      var r := MeasureCell(b, true, c, data, clock(c));
      DoneMeasured(b, true, size, w, data, clock, cands, j, base, cells, rows, r);
      cells, rows := cells + [c], rows + [r];
    }
    DoneAll(cands);
  }

  /** Filtering distributes over concatenation of candidate lists. */
  lemma {:induction false} SelectedAppend(size: nat, w: Workload, hasZstd: bool, xs: seq<Strategy>, ys: seq<Strategy>)
    ensures Selected(size, w, hasZstd, xs + ys) == Selected(size, w, hasZstd, xs) + Selected(size, w, hasZstd, ys)
    decreases |ys|
  {
    if ys != [] {
      var init := ys[..|ys| - 1];
      assert (xs + ys)[..|xs + ys| - 1] == xs + init;
      SelectedAppend(size, w, hasZstd, xs, init);
    } else {
      assert xs + ys == xs;
    }
  }

  /** Without the optional backend no zstd candidate is selected. */
  lemma NoZstdSelected(size: nat, w: Workload)
    ensures Selected(size, w, false, ZstdStreamingCandidates) == []
    ensures Selected(size, w, false, ZstdFrameCandidates) == []
  {
    NoneSelected(size, w, false, ZstdStreamingCandidates);
    NoneSelected(size, w, false, ZstdFrameCandidates);
  }

  /** Candidates the policy rules out all contribute nothing. */
  lemma {:induction false} NoneSelected(size: nat, w: Workload, hasZstd: bool, cands: seq<Strategy>)
    requires forall i :: 0 <= i < |cands| ==> !Applicable(cands[i], size, hasZstd)
    ensures Selected(size, w, hasZstd, cands) == []
    decreases |cands|
  {
    if cands != [] {
      NoneSelected(size, w, hasZstd, cands[..|cands| - 1]);
    }
  }

  /** The group as the five stages produce it is the filtered candidate list. */
  lemma GroupStages(size: nat, w: Workload, hasZstd: bool)
    ensures Group(size, w, hasZstd)
         == Selected(size, w, hasZstd, ZlibStreamingCandidates) + Selected(size, w, hasZstd, ZlibFrameCandidates)
            + Selected(size, w, hasZstd, LzmaCandidates)
            + Selected(size, w, hasZstd, ZstdStreamingCandidates) + Selected(size, w, hasZstd, ZstdFrameCandidates)
  {
    var a, f, l, zs, zf := ZlibStreamingCandidates, ZlibFrameCandidates, LzmaCandidates,
                           ZstdStreamingCandidates, ZstdFrameCandidates;
    SelectedAppend(size, w, hasZstd, a + f + l + zs, zf);
    SelectedAppend(size, w, hasZstd, a + f + l, zs);
    SelectedAppend(size, w, hasZstd, a + f, l);
    SelectedAppend(size, w, hasZstd, a, f);
  }

  /** One (size, workload) group of `main`: the zlib stages, lzma up to 16384
      bytes, then the zstd stages when the optional backend is present.
      `clock` supplies each cell's timing. */
  method RunGroup(b: Backends, hasZstd: bool, size: nat, w: Workload, data: seq<byte>, clock: Cell -> nat)
    returns (cells: seq<Cell>, rows: seq<Result>)
    ensures cells == Group(size, w, hasZstd)
    ensures rows == Rows(b, hasZstd, data, clock, cells)
  {
    cells, rows := RunZlibStreaming(b, hasZstd, size, w, data, clock, [], []);
    assert cells == Selected(size, w, hasZstd, ZlibStreamingCandidates);
    cells, rows := RunZlibFrames(b, hasZstd, size, w, data, clock, cells, rows);
    cells, rows := RunLzma(b, hasZstd, size, w, data, clock, cells, rows);
    if hasZstd {
      cells, rows := RunZstdStreaming(b, size, w, data, clock, cells, rows);
      cells, rows := RunZstdFrames(b, size, w, data, clock, cells, rows);
    } else {
      NoZstdSelected(size, w);
    }
    GroupStages(size, w, hasZstd);
  }

  // ---------------------------------------------------------------------------
  // The whole matrix
  // ---------------------------------------------------------------------------

  /** The report rows of `cells`, each measured on the buffer generated for
      its own size and workload. */
  function Report(b: Backends, hasZstd: bool, draws: nat -> RngDraw, clock: Cell -> nat, cells: seq<Cell>)
    : (rows: seq<Result>)
    ensures |rows| == |cells|
  {
    if cells == [] then []
    else
      var c := cells[|cells| - 1];
      Report(b, hasZstd, draws, clock, cells[..|cells| - 1])
        + [CellResult(b, hasZstd, c, Input(c.size, c.workload, draws), clock(c))]
  }

  lemma {:induction false} ReportAppend(b: Backends, hasZstd: bool, draws: nat -> RngDraw, clock: Cell -> nat,
                                        xs: seq<Cell>, ys: seq<Cell>)
    ensures Report(b, hasZstd, draws, clock, xs + ys)
         == Report(b, hasZstd, draws, clock, xs) + Report(b, hasZstd, draws, clock, ys)
    decreases |ys|
  {
    if ys == [] {
      assert xs + ys == xs;
    } else {
      var init := ys[..|ys| - 1];
      assert (xs + ys)[..|xs + ys| - 1] == xs + init;
      ReportAppend(b, hasZstd, draws, clock, xs, init);
    }
  }

  /** Within a group every cell shares the group's buffer, so its rows are
      the report rows. */
  lemma {:induction false} GroupReport(b: Backends, hasZstd: bool, size: nat, w: Workload,
                                       draws: nat -> RngDraw, clock: Cell -> nat, cells: seq<Cell>)
    requires forall i :: 0 <= i < |cells| ==> cells[i].size == size && cells[i].workload == w
    ensures Rows(b, hasZstd, Input(size, w, draws), clock, cells) == Report(b, hasZstd, draws, clock, cells)
    decreases |cells|
  {
    if cells != [] {
      GroupReport(b, hasZstd, size, w, draws, clock, cells[..|cells| - 1]);
    }
  }

  /** Where `main` stands after `j` workloads of size `size`. */
  lemma SizeBlockStep(size: nat, j: nat, hasZstd: bool, before: seq<Cell>)
    requires j < |Workloads|
    ensures before + SizeBlock(size, Workloads[..j + 1], hasZstd)
         == before + SizeBlock(size, Workloads[..j], hasZstd) + Group(size, Workloads[j], hasZstd)
  {
    assert Workloads[..j + 1][..j] == Workloads[..j];
  }

  /** The workload loop of `main` for one size: one group on each of the two
      buffers generated for that size, terminal first. */
  method RunSize(b: Backends, hasZstd: bool, draws: nat -> RngDraw, clock: Cell -> nat, size: nat,
                 terminalData: seq<byte>, editorData: seq<byte>, cells0: seq<Cell>, rows0: seq<Result>)
    returns (cells: seq<Cell>, rows: seq<Result>)
    requires terminalData == TerminalData(size, draws) && editorData == EditorData(size)
    requires rows0 == Report(b, hasZstd, draws, clock, cells0)
    ensures cells == cells0 + SizeBlock(size, Workloads, hasZstd)
    ensures rows == Report(b, hasZstd, draws, clock, cells)
  {
    cells, rows := cells0, rows0;
    assert Workloads[..0] == [];
    for j := 0 to |Workloads|
      invariant cells == cells0 + SizeBlock(size, Workloads[..j], hasZstd)
      invariant rows == Report(b, hasZstd, draws, clock, cells)
    {
      var w := Workloads[j];
      var data := if w == Terminal then terminalData else editorData;
      assert data == Input(size, w, draws);
      var groupCells, groupRows := RunGroup(b, hasZstd, size, w, data, clock);
      SelectedMembership(size, w, hasZstd, Candidates);
      assert forall k :: 0 <= k < |groupCells| ==> groupCells[k] in groupCells;
      GroupReport(b, hasZstd, size, w, draws, clock, groupCells);
      ReportAppend(b, hasZstd, draws, clock, cells, groupCells);
      SizeBlockStep(size, j, hasZstd, cells0);
      cells, rows := cells + groupCells, rows + groupRows;
    }
    assert Workloads[..|Workloads|] == Workloads;
  }

  /** The benchmark's `main`: for each test size it generates the terminal
      buffer (from the random stream `draws`) and the editor buffer once, then
      runs one group per workload. `clock` supplies each cell's timing. */
  method Run(b: Backends, hasZstd: bool, draws: nat -> RngDraw, clock: Cell -> nat)
    returns (cells: seq<Cell>, rows: seq<Result>)
    ensures cells == Matrix(hasZstd)
    ensures rows == Report(b, hasZstd, draws, clock, cells)
  {
    cells, rows := [], [];
    for i := 0 to |TestSizes|
      invariant cells == MatrixOver(TestSizes[..i], hasZstd)
      invariant rows == Report(b, hasZstd, draws, clock, cells)
    {
      var size := TestSizes[i];
      var terminalData := GenerateTerminalData(size, draws);
      var editorData := GenerateEditorData(size);
      MatrixOverStep(i, hasZstd);
      cells, rows := RunSize(b, hasZstd, draws, clock, size, terminalData, editorData, cells, rows);
    }
    assert TestSizes[..|TestSizes|] == TestSizes;
  }

  /** Where `main` stands after `i + 1` sizes. */
  lemma MatrixOverStep(i: nat, hasZstd: bool)
    requires i < |TestSizes|
    ensures MatrixOver(TestSizes[..i + 1], hasZstd)
         == MatrixOver(TestSizes[..i], hasZstd) + SizeBlock(TestSizes[i], Workloads, hasZstd)
  {
    assert TestSizes[..i + 1][..i] == TestSizes[..i];
  }

  // ---------------------------------------------------------------------------
  // The pruning policy, stated on the matrix
  // ---------------------------------------------------------------------------

  /** A group holds exactly the applicable candidates, for its own size and
      workload. */
  lemma {:induction false} SelectedMembership(size: nat, w: Workload, hasZstd: bool, cands: seq<Strategy>)
    ensures forall c ::
              c in Selected(size, w, hasZstd, cands) <==>
                c.size == size && c.workload == w && c.strategy in cands && Applicable(c.strategy, size, hasZstd)
    decreases |cands|
  {
    if cands != [] {
      var init := cands[..|cands| - 1];
      SelectedMembership(size, w, hasZstd, init);
      assert cands == init + [cands[|cands| - 1]];
    }
  }

  lemma {:induction false} MatrixOverMembership(sizes: seq<nat>, hasZstd: bool)
    ensures forall c ::
              c in MatrixOver(sizes, hasZstd) <==>
                c.size in sizes && c.strategy in Candidates && Applicable(c.strategy, c.size, hasZstd)
    decreases |sizes|
  {
    if sizes != [] {
      var init, size := sizes[..|sizes| - 1], sizes[|sizes| - 1];
      MatrixOverMembership(init, hasZstd);
      assert sizes == init + [size];
      SelectedMembership(size, Terminal, hasZstd, Candidates);
      SelectedMembership(size, Editor, hasZstd, Candidates);
      BothWorkloads(size, hasZstd);
      forall c: Cell | c.size == size && c.strategy in Candidates && Applicable(c.strategy, size, hasZstd)
        ensures c in SizeBlock(size, Workloads, hasZstd)
      {
        if c.workload == Terminal {
          assert c in Group(size, Terminal, hasZstd);
        } else {
          assert c in Group(size, Editor, hasZstd);
        }
      }
    }
  }

  /** The groups of one size: terminal, then editor. */
  lemma BothWorkloads(size: nat, hasZstd: bool)
    ensures SizeBlock(size, Workloads, hasZstd) == Group(size, Terminal, hasZstd) + Group(size, Editor, hasZstd)
  {
    var ws := Workloads;
    assert ws[..|ws| - 1] == [Terminal];
    assert [Terminal][..0] == [];
    assert SizeBlock(size, [Terminal], hasZstd) == Group(size, Terminal, hasZstd);
  }

  /** The matrix holds exactly the candidates the policy lets through, for
      every test size and both workloads. */
  lemma MatrixMembership(hasZstd: bool, c: Cell)
    ensures c in Matrix(hasZstd)
        <==> c.size in TestSizes && c.strategy in Candidates && Applicable(c.strategy, c.size, hasZstd)
  {
    MatrixOverMembership(TestSizes, hasZstd);
  }

  /** The skip rules as the report shows them: a per-frame cell is present
      exactly when its frame fits in the buffer (so a frame as large as the
      buffer is measured), lzma exactly up to 16384 bytes, and no zstd cell
      at all without the optional backend. */
  lemma SkipRules(hasZstd: bool, size: nat, w: Workload, frame: FrameSize, level: nat)
    requires size in TestSizes
    ensures frame in ZlibFrameSizes && level in ZlibFrameLevels ==>
              (Cell(size, w, ZlibFrame(frame, level)) in Matrix(hasZstd) <==> frame <= size)
    ensures frame in ZstdFrameSizes ==>
              (Cell(size, w, ZstdFrame(frame, ZstdFrameLevel)) in Matrix(hasZstd) <==> hasZstd && frame <= size)
    ensures Cell(size, w, LzmaStreaming) in Matrix(hasZstd) <==> size <= LzmaMaxSize
    ensures !hasZstd ==> Cell(size, w, ZstdStreaming(level)) !in Matrix(hasZstd)
  {
    MatrixMembership(hasZstd, Cell(size, w, ZlibFrame(frame, level)));
    MatrixMembership(hasZstd, Cell(size, w, ZstdFrame(frame, ZstdFrameLevel)));
    MatrixMembership(hasZstd, Cell(size, w, LzmaStreaming));
    MatrixMembership(hasZstd, Cell(size, w, ZstdStreaming(level)));
    assert ZlibFrame(frame, level) in Candidates <== frame in ZlibFrameSizes && level in ZlibFrameLevels;
    assert ZstdFrame(frame, ZstdFrameLevel) in Candidates <== frame in ZstdFrameSizes;
    assert LzmaStreaming in Candidates;
  }

  /** Row `k` of the report is cell `k` measured on the buffer generated for
      its size and workload, and the original size it reports is that
      buffer's length. */
  lemma {:induction false} ReportAt(b: Backends, hasZstd: bool, draws: nat -> RngDraw, clock: Cell -> nat,
                                    cells: seq<Cell>, k: nat)
    requires k < |cells|
    ensures var c := cells[k];
            var data := Input(c.size, c.workload, draws);
            && Report(b, hasZstd, draws, clock, cells)[k] == CellResult(b, hasZstd, c, data, clock(c))
            && Report(b, hasZstd, draws, clock, cells)[k].original == |data|
    decreases |cells|
  {
    var c := cells[k];
    if k < |cells| - 1 {
      ReportAt(b, hasZstd, draws, clock, cells[..|cells| - 1], k);
    }
    assert |Input(c.size, c.workload, draws)| == c.size;
  }

  /** How many candidates of `cands` the policy lets through. */
  function ApplicableCount(cands: seq<Strategy>, size: nat, hasZstd: bool): (n: nat)
    ensures n <= |cands|
  {
    if cands == [] then 0
    else ApplicableCount(cands[..|cands| - 1], size, hasZstd) + (if Applicable(cands[|cands| - 1], size, hasZstd) then 1 else 0)
  }

  /** A group has one cell per candidate the policy lets through. */
  lemma {:induction false} SelectedCount(size: nat, w: Workload, hasZstd: bool, cands: seq<Strategy>)
    ensures |Selected(size, w, hasZstd, cands)| == ApplicableCount(cands, size, hasZstd)
    decreases |cands|
  {
    if cands != [] {
      SelectedCount(size, w, hasZstd, cands[..|cands| - 1]);
    }
  }

  lemma CountStep(cands: seq<Strategy>, n: nat, size: nat, hasZstd: bool)
    requires n < |cands|
    ensures ApplicableCount(cands[..n + 1], size, hasZstd)
         == ApplicableCount(cands[..n], size, hasZstd) + (if Applicable(cands[n], size, hasZstd) then 1 else 0)
  {
    assert cands[..n + 1][..n] == cands[..n];
  }

  lemma ZlibStreamingCount(size: nat, hasZstd: bool)
    ensures ApplicableCount(ZlibStreamingCandidates, size, hasZstd) == 3
  {
    var c := ZlibStreamingCandidates;
    assert c[..0] == [];
    CountStep(c, 0, size, hasZstd);
    CountStep(c, 1, size, hasZstd);
    CountStep(c, 2, size, hasZstd);
    assert c[..3] == c;
  }

  lemma ZlibFrameCount(size: nat, hasZstd: bool)
    ensures ApplicableCount(ZlibFrameCandidates, size, hasZstd)
         == (if 512 <= size then 2 else 0) + (if 1024 <= size then 2 else 0) + (if 2048 <= size then 2 else 0)
  {
    var c := ZlibFrameCandidates;
    assert c[..0] == [];
    CountStep(c, 0, size, hasZstd);
    CountStep(c, 1, size, hasZstd);
    CountStep(c, 2, size, hasZstd);
    CountStep(c, 3, size, hasZstd);
    CountStep(c, 4, size, hasZstd);
    CountStep(c, 5, size, hasZstd);
    assert c[..6] == c;
  }

  lemma LzmaCount(size: nat, hasZstd: bool)
    ensures ApplicableCount(LzmaCandidates, size, hasZstd) == if size <= LzmaMaxSize then 1 else 0
  {
    var c := LzmaCandidates;
    assert c[..0] == [];
    CountStep(c, 0, size, hasZstd);
    assert c[..1] == c;
  }

  lemma ZstdStreamingCount(size: nat, hasZstd: bool)
    ensures ApplicableCount(ZstdStreamingCandidates, size, hasZstd) == if hasZstd then 3 else 0
  {
    var c := ZstdStreamingCandidates;
    assert c[..0] == [];
    CountStep(c, 0, size, hasZstd);
    CountStep(c, 1, size, hasZstd);
    CountStep(c, 2, size, hasZstd);
    assert c[..3] == c;
  }

  lemma ZstdFrameCount(size: nat, hasZstd: bool)
    ensures ApplicableCount(ZstdFrameCandidates, size, hasZstd)
         == if hasZstd then (if 1024 <= size then 1 else 0) + (if 2048 <= size then 1 else 0) else 0
  {
    var c := ZstdFrameCandidates;
    assert c[..0] == [];
    CountStep(c, 0, size, hasZstd);
    CountStep(c, 1, size, hasZstd);
    assert c[..2] == c;
  }

  /** The number of cells in one group of `main`. */
  lemma GroupCount(size: nat, w: Workload, hasZstd: bool)
    ensures |Group(size, w, hasZstd)|
         == 3 + (if 512 <= size then 2 else 0) + (if 1024 <= size then 2 else 0) + (if 2048 <= size then 2 else 0)
            + (if size <= LzmaMaxSize then 1 else 0)
            + (if hasZstd then 3 + (if 1024 <= size then 1 else 0) + (if 2048 <= size then 1 else 0) else 0)
  {
    GroupStages(size, w, hasZstd);
    SelectedCount(size, w, hasZstd, ZlibStreamingCandidates);
    SelectedCount(size, w, hasZstd, ZlibFrameCandidates);
    SelectedCount(size, w, hasZstd, LzmaCandidates);
    SelectedCount(size, w, hasZstd, ZstdStreamingCandidates);
    SelectedCount(size, w, hasZstd, ZstdFrameCandidates);
    ZlibStreamingCount(size, hasZstd);
    ZlibFrameCount(size, hasZstd);
    LzmaCount(size, hasZstd);
    ZstdStreamingCount(size, hasZstd);
    ZstdFrameCount(size, hasZstd);
  }

  /** The whole report has 112 rows with the optional backend and 74
      without it. */
  lemma MatrixCount(hasZstd: bool)
    ensures |Matrix(hasZstd)| == if hasZstd then 112 else 74
  {
    var t := TestSizes;
    assert t[..0] == [];
    MatrixOverStep(0, hasZstd);
    MatrixOverStep(1, hasZstd);
    MatrixOverStep(2, hasZstd);
    MatrixOverStep(3, hasZstd);
    assert t[..4] == t;
    BlockCount(1024, hasZstd);
    BlockCount(4096, hasZstd);
    BlockCount(16384, hasZstd);
    BlockCount(65536, hasZstd);
  }

  lemma BlockCount(size: nat, hasZstd: bool)
    ensures |SizeBlock(size, Workloads, hasZstd)| == 2 * |Group(size, Terminal, hasZstd)|
    ensures |Group(size, Terminal, hasZstd)|
         == 3 + (if 512 <= size then 2 else 0) + (if 1024 <= size then 2 else 0) + (if 2048 <= size then 2 else 0)
            + (if size <= LzmaMaxSize then 1 else 0)
            + (if hasZstd then 3 + (if 1024 <= size then 1 else 0) + (if 2048 <= size then 1 else 0) else 0)
  {
    BothWorkloads(size, hasZstd);
    GroupCount(size, Terminal, hasZstd);
    GroupCount(size, Editor, hasZstd);
  }

  // ---------------------------------------------------------------------------
  // Order within a group
  // ---------------------------------------------------------------------------

  /** Which stage of a group a strategy belongs to. */
  function Stage(s: Strategy): nat
  {
    match s
    case ZlibStreaming(_) => 0
    case ZlibFrame(_, _) => 1
    case LzmaStreaming => 2
    case ZstdStreaming(_) => 3
    case ZstdFrame(_, _) => 4
  }

  function FrameOf(s: Strategy): nat
  {
    match s
    case ZlibFrame(frame, _) => frame
    case ZstdFrame(frame, _) => frame
    case _ => 0
  }

  function LevelOf(s: Strategy): nat
  {
    match s
    case ZlibStreaming(level) => level
    case ZlibFrame(_, level) => level
    case LzmaStreaming => 0
    case ZstdStreaming(level) => level
    case ZstdFrame(_, level) => level
  }

  /** The order the runner measures in: by stage, then by frame size, then
      by level. */
  predicate Before(s: Strategy, t: Strategy)
  {
    || Stage(s) < Stage(t)
    || (Stage(s) == Stage(t) && FrameOf(s) < FrameOf(t))
    || (Stage(s) == Stage(t) && FrameOf(s) == FrameOf(t) && LevelOf(s) < LevelOf(t))
  }

  predicate Ordered(cands: seq<Strategy>)
  {
    forall i, j :: 0 <= i < j < |cands| ==> Before(cands[i], cands[j])
  }

  predicate CellsOrdered(cells: seq<Cell>)
  {
    forall i, j :: 0 <= i < j < |cells| ==> Before(cells[i].strategy, cells[j].strategy)
  }

  /** Filtering keeps the relative order of the candidates. */
  lemma {:induction false} SelectedOrdered(size: nat, w: Workload, hasZstd: bool, cands: seq<Strategy>)
    requires Ordered(cands)
    ensures CellsOrdered(Selected(size, w, hasZstd, cands))
    decreases |cands|
  {
    if cands != [] {
      var init, last := cands[..|cands| - 1], cands[|cands| - 1];
      SelectedOrdered(size, w, hasZstd, init);
      SelectedMembership(size, w, hasZstd, init);
      var g0 := Selected(size, w, hasZstd, init);
      forall c | c in g0
        ensures Before(c.strategy, last)
      {
        var k :| 0 <= k < |init| && init[k] == c.strategy;
        assert cands[k] == c.strategy;
      }
      var g := Selected(size, w, hasZstd, cands);
      forall i, j | 0 <= i < j < |g|
        ensures Before(g[i].strategy, g[j].strategy)
      {
        if j < |g0| {
          assert g[i] == g0[i] && g[j] == g0[j];
          assert Before(g0[i].strategy, g0[j].strategy);
        } else {
          assert g[i] == g0[i] && g0[i] in g0 && g[j].strategy == last;
          assert Before(g0[i].strategy, last);
        }
      }
    }
  }

  lemma CandidatesOrdered()
    ensures Ordered(Candidates)
  {
  }

  /** Within each group the order is zlib streaming at rising levels, zlib
      per frame by frame size then level, lzma, zstd streaming at rising
      levels, then zstd per frame by frame size. */
  lemma GroupOrder(size: nat, w: Workload, hasZstd: bool)
    ensures CellsOrdered(Group(size, w, hasZstd))
  {
    CandidatesOrdered();
    SelectedOrdered(size, w, hasZstd, Candidates);
  }
}
