/** The two synthetic workloads of the benchmark. Both generators append one
    unit per round to a growing buffer until a length threshold is reached and
    then cut the buffer to the requested size; `Prefix` and `Rounds` describe
    that shared shape, and each generator supplies its own units. */
module Generators {
  import opened Text

  /** The buffer after `k` rounds of a loop that appends `unit(j)` in round `j`. */
  function Prefix(unit: nat -> seq<byte>, k: nat): seq<byte>
  {
    if k == 0 then [] else Prefix(unit, k - 1) + unit(k - 1)
  }

  /** Later rounds only ever extend the buffer. */
  lemma {:induction false} PrefixGrows(unit: nat -> seq<byte>, j: nat, k: nat)
    requires j <= k
    ensures Prefix(unit, j) <= Prefix(unit, k)
    decreases k - j
  {
    if j < k {
      PrefixGrows(unit, j, k - 1);
    }
  }

  /** The number of rounds a loop `while len(buffer) < bound` runs, counted
      from round `k`: the first round at which the buffer reaches `bound`.
      Every unit is non-empty, so the loop terminates. */
  function Rounds(unit: nat -> seq<byte>, bound: int, k: nat): (r: nat)
    requires forall j: nat :: |unit(j)| > 0
    ensures k <= r
    ensures bound <= |Prefix(unit, r)|
    ensures forall j :: k <= j < r ==> |Prefix(unit, j)| < bound
    decreases bound - |Prefix(unit, k)|
  {
    if bound <= |Prefix(unit, k)| then k else Rounds(unit, bound, k + 1)
  }

  /** No round before round `k` reached `bound`: the loop's guard held so far. */
  ghost predicate ShortBefore(unit: nat -> seq<byte>, bound: int, k: nat)
  {
    forall j :: 0 <= j < k ==> |Prefix(unit, j)| < bound
  }

  lemma ShortBeforeStep(unit: nat -> seq<byte>, bound: int, k: nat)
    requires ShortBefore(unit, bound, k) && |Prefix(unit, k)| < bound
    ensures ShortBefore(unit, bound, k + 1)
  {
  }

  lemma LastRound(unit: nat -> seq<byte>, k: nat)
    requires k >= 1
    ensures |Prefix(unit, k)| == |Prefix(unit, k - 1)| + |unit(k - 1)|
  {
  }

  /** A loop that stopped at the first round reaching `bound` ran `Rounds` rounds. */
  lemma RoundsIsFirst(unit: nat -> seq<byte>, bound: int, k: nat)
    requires forall j: nat :: |unit(j)| > 0
    requires bound <= |Prefix(unit, k)|
    requires ShortBefore(unit, bound, k)
    ensures Rounds(unit, bound, 0) == k
  {
    var r := Rounds(unit, bound, 0);
    // each of `r` and `k` reaches `bound`, and everything before either does not
    assert bound <= |Prefix(unit, r)| && bound <= |Prefix(unit, k)|;
  }

  function Spaces(n: nat): (r: seq<byte>)
    ensures |r| == n
    ensures forall i :: 0 <= i < n ==> r[i] == 0x20
  {
    seq(n, _ => 0x20)
  }

  // ---------------------------------------------------------------------------
  // Editor workload: cursor positioning followed by a fixed line of code
  // ---------------------------------------------------------------------------

  const Code: string := "const foo = 123;"
  const EditorSlack: nat := 20
  const LineWrap: nat := 50
  const ColWrap: nat := 80

  /** `f"\x1b[{line};{col}H".encode()` */
  function Cursor(line: nat, col: nat): seq<byte>
  {
    [0x1b] + Ascii("[" + Decimal(line) + ";" + Decimal(col) + "H")
  }

  /** The cursor position used in round `k`: line and column both start at 1
      and advance by one per round, wrapping after 50 and 80. */
  function EditorLine(k: nat): nat { k % LineWrap + 1 }
  function EditorCol(k: nat): nat { k % ColWrap + 1 }

  /** What the editor generator appends in round `k`. */
  function EditorUnit(k: nat): seq<byte>
  {
    Cursor(EditorLine(k), EditorCol(k)) + Ascii(Code)
  }

  /** One round of the editor generator adds 22 to 24 bytes: 20 fixed ones
      plus one or two digits each for line and column. */
  lemma EditorUnitLength(k: nat)
    ensures 22 <= |EditorUnit(k)| <= 24
  {
    DecimalLength(EditorLine(k));
    DecimalLength(EditorCol(k));
  }

  lemma EditorUnitsNonEmpty()
    ensures forall j: nat :: |EditorUnit(j)| > 0
  {
    forall j: nat ensures |EditorUnit(j)| > 0 {
      EditorUnitLength(j);
    }
  }

  /** The number of rounds the editor loop runs for `size`. */
  function EditorRounds(size: nat): nat
  {
    EditorUnitsNonEmpty();
    Rounds(EditorUnit, size - EditorSlack, 0)
  }

  /** The editor workload of `size` bytes: rounds run while the buffer is more
      than 20 bytes short of `size`, then spaces make up any shortfall and the
      result is cut to `size`. */
  function EditorData(size: nat): (r: seq<byte>)
    ensures |r| == size
  {
    var p := Prefix(EditorUnit, EditorRounds(size));
    (p + Spaces(if size > |p| then size - |p| else 0))[..size]
  }

  /** The loop's own `(line % 50) + 1` and `(col % 80) + 1` steps agree with
      the closed forms. */
  lemma WrapStep(k: nat)
    ensures EditorLine(k) % LineWrap + 1 == EditorLine(k + 1)
    ensures EditorCol(k) % ColWrap + 1 == EditorCol(k + 1)
  {
    LineWrapStep(k);
    ColWrapStep(k);
  }

  lemma LineWrapStep(k: nat)
    ensures (k % 50 + 1) % 50 == (k + 1) % 50
  {
    var q := k / 50;
    if k % 50 == 49 {
      assert k + 1 == (q + 1) * 50;
    } else {
      assert k + 1 == q * 50 + (k % 50 + 1);
    }
  }

  lemma ColWrapStep(k: nat)
    ensures (k % 80 + 1) % 80 == (k + 1) % 80
  {
    var q := k / 80;
    if k % 80 == 79 {
      assert k + 1 == (q + 1) * 80;
    } else {
      assert k + 1 == q * 80 + (k % 80 + 1);
    }
  }

  lemma EditorStep(k: nat)
    ensures Prefix(EditorUnit, k + 1)
         == Prefix(EditorUnit, k) + (Cursor(EditorLine(k), EditorCol(k)) + Ascii(Code))
  {
  }

  /** One round of the editor loop keeps its invariant and lengthens the
      buffer. */
  lemma EditorRound(size: nat, k: nat, buf: seq<byte>)
    requires buf == Prefix(EditorUnit, k) && |buf| + EditorSlack < size
    requires ShortBefore(EditorUnit, size - EditorSlack, k)
    ensures buf + (Cursor(EditorLine(k), EditorCol(k)) + Ascii(Code)) == Prefix(EditorUnit, k + 1)
    ensures |buf| < |Prefix(EditorUnit, k + 1)|
    ensures ShortBefore(EditorUnit, size - EditorSlack, k + 1)
    ensures EditorLine(k) % LineWrap + 1 == EditorLine(k + 1)
    ensures EditorCol(k) % ColWrap + 1 == EditorCol(k + 1)
  {
    ShortBeforeStep(EditorUnit, size - EditorSlack, k);
    EditorStep(k);
    EditorUnitLength(k);
    WrapStep(k);
  }

  /** Where the editor loop stops is the round count of the specification,
      so padding and cutting its buffer gives the specified output. */
  lemma EditorLoopExit(size: nat, k: nat, buf: seq<byte>)
    requires buf == Prefix(EditorUnit, k) && size <= |buf| + EditorSlack
    requires ShortBefore(EditorUnit, size - EditorSlack, k)
    ensures (buf + Spaces(if size > |buf| then size - |buf| else 0))[..size] == EditorData(size)
  {
    EditorUnitsNonEmpty();
    RoundsIsFirst(EditorUnit, size - EditorSlack, k);
  }

  /** `generate_editor_data`: the loop grows the buffer unit by unit, with
      the cursor at line `EditorLine(k)` and column `EditorCol(k)` in round
      `k` (within 1..50 and 1..80, see `EditorCycle`). */
  method GenerateEditorData(size: nat) returns (data: seq<byte>)
    ensures data == EditorData(size)
  {
    var buf: seq<byte> := [];
    var line, col := 1, 1;
    ghost var k: nat := 0;
    while |buf| + EditorSlack < size
      invariant buf == Prefix(EditorUnit, k)
      invariant line == EditorLine(k) && col == EditorCol(k)
      invariant ShortBefore(EditorUnit, size - EditorSlack, k)
      decreases size - |buf|
    {
      EditorRound(size, k, buf);
      buf := buf + (Cursor(line, col) + Ascii(Code));
      line := line % LineWrap + 1;
      col := col % ColWrap + 1;
      k := k + 1;
    }
    EditorLoopExit(size, k, buf);
    // `b" " * n` is empty for a negative `n`
    var pad := if size > |buf| then size - |buf| else 0;
    buf := buf + Spaces(pad);
    data := buf[..size];
  }

  /** A request of at most 20 bytes runs no round: the output is all spaces. */
  lemma EditorShortIsBlank(size: nat)
    requires size <= EditorSlack
    ensures EditorData(size) == Spaces(size)
  {
    EditorUnitsNonEmpty();
    assert EditorRounds(size) == 0;
  }

  /** For a longer request the output is the generated units, possibly cut
      inside the last one, followed by at most 20 padding spaces; the last
      unit overshoots `size` by at most three bytes, and then there is no
      padding at all. */
  lemma EditorLayout(size: nat)
    requires size > EditorSlack
    ensures var p := Prefix(EditorUnit, EditorRounds(size));
            && EditorRounds(size) >= 1
            && size - EditorSlack <= |p| <= size + 3
            && (forall i :: 0 <= i < size && i < |p| ==> EditorData(size)[i] == p[i])
            && (forall i :: |p| <= i < size ==> EditorData(size)[i] == 0x20)
  {
    EditorUnitsNonEmpty();
    var k := EditorRounds(size);
    assert k >= 1;
    LastRound(EditorUnit, k);
    EditorUnitLength(k - 1);
  }

  /** The cursor sequence repeats every 400 rounds (the least common multiple
      of the two wrap lengths), and never leaves the screen area 50 x 80. */
  lemma EditorCycle(k: nat)
    ensures EditorUnit(k + 400) == EditorUnit(k)
    ensures 1 <= EditorLine(k) <= LineWrap && 1 <= EditorCol(k) <= ColWrap
  {
    LineCycle(k);
    ColCycle(k);
  }

  lemma LineCycle(k: nat)
    ensures EditorLine(k + 400) == EditorLine(k) && 1 <= EditorLine(k) <= LineWrap
  {
    assert k + 400 == (k / 50 + 8) * 50 + k % 50;
  }

  lemma ColCycle(k: nat)
    ensures EditorCol(k + 400) == EditorCol(k) && 1 <= EditorCol(k) <= ColWrap
  {
    assert k + 400 == (k / 80 + 5) * 80 + k % 80;
  }

  // ---------------------------------------------------------------------------
  // Terminal workload: random chunks of six kinds
  // ---------------------------------------------------------------------------

  datatype Kind = Escape | Blank | Newline | Pattern | Printable | Nul

  /** The category of a `randint(0, 10)` draw. */
  function KindOf(choice: int): Kind
    requires 0 <= choice <= 10
  {
    if choice <= 2 then Escape
    else if choice <= 4 then Blank
    else if choice == 5 then Newline
    else if choice <= 7 then Pattern
    else if choice <= 9 then Printable
    else Nul
  }

  /** The random draws of one round of the terminal generator, in the order
      the round makes them: the category, then the draw that category needs
      (an index into a table, a run length, a coin, or the printable picks). */
  datatype Draw = Draw(choice: int, index: int, count: int, coin: real, picks: seq<int>)

  const Escapes: seq<seq<byte>> := [
    Esc("[0m"), Esc("[1m"), Esc("[32m"), Esc("[31m"), Esc("[0;32m"), Esc("[1;33m"),
    Esc("[38;5;208m"), Esc("[K"), Esc("[2J"), Esc("[H"), Esc("[?25h"), Esc("[?25l")]

  const Patterns: seq<seq<byte>> := [
    Ascii("drwxr-xr-x"), Ascii("-rw-r--r--"), Ascii("total "), Ascii("user@host:"),
    Ascii("$ "), Ascii(">>> "), Ascii("... "), Ascii("error: "), Ascii("warning: "),
    Ascii("  adding: "), Ascii("Compiling "), Ascii("   Linking ")]

  /** `string.printable`: digits, letters, punctuation and whitespace. */
  const PrintableBytes: seq<byte> :=
    Ascii("0123456789abcdefghijklmnopqrstuvwxyzABCDEFGHIJKLMNOPQRSTUVWXYZ")
    + Ascii("!\"#$%&'()*+,-./:;<=>?@[\\]^_`{|}~")
    + Ascii(" \t\n\r") + [0x0b, 0x0c]

  function Esc(s: string): seq<byte>
  {
    [0x1b] + Ascii(s)
  }

  /** What Python's generator can return for one round: `randint(0, 10)`,
      `choice` over twelve entries, `randint(1, 40)`, `random()` in [0, 1),
      and `randint(10, 80)` picks from `string.printable`. */
  predicate ValidDraw(d: Draw)
  {
    && 0 <= d.choice <= 10
    && 0.0 <= d.coin < 1.0
    && (KindOf(d.choice) in {Escape, Pattern} ==> 0 <= d.index < 12)
    && (KindOf(d.choice) == Blank ==> 1 <= d.count <= 40)
    && (KindOf(d.choice) == Printable ==>
          && 10 <= d.count <= 80
          && |d.picks| == d.count
          && forall i :: 0 <= i < |d.picks| ==> 0 <= d.picks[i] < |PrintableBytes|)
  }

  type RngDraw = d: Draw | ValidDraw(d) witness Draw(10, 0, 0, 0.0, [])

  /** The chunk one round appends. Every kind appends at least one byte, which
      is why the generator's loop terminates. */
  function Chunk(d: RngDraw): (r: seq<byte>)
    ensures 1 <= |r| <= 80
  {
    match KindOf(d.choice)
    case Escape => Escapes[d.index]
    case Blank => Spaces(d.count)
    case Newline => (if d.coin > 0.5 then [0x0d] else []) + [0x0a]
    case Pattern => Patterns[d.index]
    case Printable => seq(|d.picks|, i requires 0 <= i < |d.picks| => PrintableBytes[d.picks[i]])
    case Nul => [0x00]
  }

  /** What each kind of round appends: an escape sequence or a shell pattern
      from the tables, a run of `count` spaces, a line feed with a carriage
      return before it exactly when the coin exceeds one half, `count`
      printable bytes, or a single NUL. */
  lemma ChunkKinds(d: RngDraw)
    ensures var r := Chunk(d);
            && (KindOf(d.choice) == Escape ==> r in Escapes && r[0] == 0x1b)
            && (KindOf(d.choice) == Blank ==> |r| == d.count && forall i :: 0 <= i < |r| ==> r[i] == 0x20)
            && (KindOf(d.choice) == Newline ==>
                  && r[|r| - 1] == 0x0a
                  && (|r| == 2 <==> d.coin > 0.5)
                  && (|r| == 2 ==> r[0] == 0x0d))
            && (KindOf(d.choice) == Pattern ==> r in Patterns)
            && (KindOf(d.choice) == Printable ==>
                  |r| == d.count && forall i :: 0 <= i < |r| ==> r[i] in PrintableBytes)
            && (KindOf(d.choice) == Nul ==> r == [0x00])
  {
  }

  function TerminalUnits(draws: nat -> RngDraw): nat -> seq<byte>
  {
    (k: nat) => Chunk(draws(k))
  }

  lemma TerminalUnitsNonEmpty(draws: nat -> RngDraw)
    ensures forall j: nat :: |TerminalUnits(draws)(j)| > 0
  {
    forall j: nat ensures |TerminalUnits(draws)(j)| > 0 {
      assert TerminalUnits(draws)(j) == Chunk(draws(j));
    }
  }

  function TerminalRounds(size: nat, draws: nat -> RngDraw): nat
  {
    TerminalUnitsNonEmpty(draws);
    Rounds(TerminalUnits(draws), size, 0)
  }

  /** The terminal workload of `size` bytes: rounds run until the buffer
      holds at least `size` bytes, and the buffer is cut to `size`. */
  function TerminalData(size: nat, draws: nat -> RngDraw): (r: seq<byte>)
    ensures |r| == size
  {
    Prefix(TerminalUnits(draws), TerminalRounds(size, draws))[..size]
  }

  /** One round of the terminal loop keeps its invariant. */
  lemma TerminalRound(size: nat, draws: nat -> RngDraw, k: nat, buf: seq<byte>)
    requires buf == Prefix(TerminalUnits(draws), k) && |buf| < size
    requires ShortBefore(TerminalUnits(draws), size, k)
    ensures buf + Chunk(draws(k)) == Prefix(TerminalUnits(draws), k + 1)
    ensures ShortBefore(TerminalUnits(draws), size, k + 1)
  {
    ShortBeforeStep(TerminalUnits(draws), size, k);
  }

  /** `generate_terminal_data`: `draws` is the stream of the generator after
      `random.seed(12345)`; the source reseeds on every call, so every call
      reads the same stream from its start. */
  method GenerateTerminalData(size: nat, draws: nat -> RngDraw) returns (data: seq<byte>)
    ensures data == TerminalData(size, draws)
  {
    var buf: seq<byte> := [];
    var k: nat := 0;  // how far into the stream of draws the generator is
    while |buf| < size
      invariant buf == Prefix(TerminalUnits(draws), k)
      invariant ShortBefore(TerminalUnits(draws), size, k)
      decreases size - |buf|
    {
      TerminalRound(size, draws, k, buf);
      ghost var before := buf;
      var d := draws(k);
      if d.choice <= 2 {
        buf := buf + Escapes[d.index];
      } else if d.choice <= 4 {
        buf := buf + Spaces(d.count);
      } else if d.choice == 5 {
        if d.coin > 0.5 {
          buf := buf + [0x0d];
        }
        buf := buf + [0x0a];
      } else if d.choice <= 7 {
        buf := buf + Patterns[d.index];
      } else if d.choice <= 9 {
        buf := buf + seq(|d.picks|, i requires 0 <= i < |d.picks| => PrintableBytes[d.picks[i]]);
      } else {
        buf := buf + [0x00];
      }
      assert buf == before + Chunk(d);
      k := k + 1;
    }
    TerminalUnitsNonEmpty(draws);
    RoundsIsFirst(TerminalUnits(draws), size, k);
    data := buf[..size];
  }

  /** Reseeding makes the workload deterministic in a strong sense: a shorter
      request yields exactly the start of a longer one. */
  lemma TerminalPrefixStable(m: nat, n: nat, draws: nat -> RngDraw)
    requires m <= n
    ensures TerminalData(m, draws) == TerminalData(n, draws)[..m]
  {
    var u := TerminalUnits(draws);
    TerminalUnitsNonEmpty(draws);
    var rm, rn := TerminalRounds(m, draws), TerminalRounds(n, draws);
    assert m <= |Prefix(u, rn)|;
    assert rm <= rn;
    PrefixGrows(u, rm, rn);
  }
}
