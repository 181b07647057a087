/** Extraction of file edits and file writes from a session-history log.
    The log is a sequence of lines, each either a decoded JSON entry or
    `None` when the line does not decode; entries are typed records holding
    only the keys the extraction looks at, with `None` for a missing key. */
module History {

  datatype Option<T> = None | Some(value: T)

  /** `toolUseResult` of an entry: what an Edit tool call reported. */
  datatype ToolUseResult = ToolUseResult(filePath: Option<string>, newString: Option<string>, oldString: Option<string>)

  /** `input` of a tool-use block: the arguments of a Write call. */
  datatype WriteInput = WriteInput(filePath: Option<string>, content: Option<string>)

  datatype Block = Block(blockType: Option<string>, name: Option<string>, input: Option<WriteInput>)

  datatype Message = Message(role: Option<string>, content: Option<seq<Block>>)

  datatype Entry = Entry(toolUseResult: Option<ToolUseResult>, message: Option<Message>)

  /** One reported edit; `line` counts the log's lines from 1. */
  datatype Edit = Edit(line: nat, file: string, oldString: string, newString: string)

  /** One reported write; several may share a line. */
  datatype Write = Write(line: nat, file: string, content: string)

  /** `d.get(key, "")` for a string-valued key. */
  function OrEmpty(o: Option<string>): string
  {
    if o.Some? then o.value else ""
  }

  predicate OccursAt(hay: string, needle: string, k: nat)
  {
    k + |needle| <= |hay| && hay[k..k + |needle|] == needle
  }

  /** Python's `needle in hay` on strings. */
  predicate Contains(hay: string, needle: string)
  {
    exists k: nat :: k <= |hay| && OccursAt(hay, needle, k)
  }

  /** A filter takes part only when given and non-empty. */
  predicate Active(filter: Option<string>)
  {
    filter.Some? && filter.value != ""
  }

  predicate FilePasses(path: string, fileFilter: Option<string>)
  {
    !Active(fileFilter) || Contains(path, fileFilter.value)
  }

  /** An edit is kept when its file matches and the content filter occurs in
      the new or in the old text. */
  predicate EditPasses(e: Edit, fileFilter: Option<string>, contentFilter: Option<string>)
  {
    && FilePasses(e.file, fileFilter)
    && (!Active(contentFilter) || Contains(e.newString, contentFilter.value) || Contains(e.oldString, contentFilter.value))
  }

  /** A write is kept when its file matches and the content filter occurs in
      the written content. */
  predicate WritePasses(w: Write, fileFilter: Option<string>, contentFilter: Option<string>)
  {
    && FilePasses(w.file, fileFilter)
    && (!Active(contentFilter) || Contains(w.content, contentFilter.value))
  }

  // ---------------------------------------------------------------------------
  // Edits
  // ---------------------------------------------------------------------------

  /** `e` is what line `decoded` reports as an edit: the entry has a tool
      result with both a file path and a new string, and a missing old string
      reads as empty. */
  predicate IsEditOf(decoded: Option<Entry>, e: Edit)
  {
    && decoded.Some?
    && decoded.value.toolUseResult.Some?
    && var r := decoded.value.toolUseResult.value;
       && r.filePath == Some(e.file)
       && r.newString == Some(e.newString)
       && e.oldString == OrEmpty(r.oldString)
  }

  /** The edits line `lineNum` contributes. */
  function EditAt(lineNum: nat, decoded: Option<Entry>, fileFilter: Option<string>, contentFilter: Option<string>)
    : seq<Edit>
  {
    match decoded
    case None => []
    case Some(entry) =>
      match entry.toolUseResult
      case None => []
      case Some(r) =>
        if r.filePath.None? || r.newString.None? then []
        else
          var e := Edit(lineNum, r.filePath.value, OrEmpty(r.oldString), r.newString.value);
          if EditPasses(e, fileFilter, contentFilter) then [e] else []
  }

  /** The edits of the whole log, in line order. */
  function Edits(lines: seq<Option<Entry>>, fileFilter: Option<string>, contentFilter: Option<string>): seq<Edit>
  {
    if lines == [] then []
    else Edits(lines[..|lines| - 1], fileFilter, contentFilter)
           + EditAt(|lines|, lines[|lines| - 1], fileFilter, contentFilter)
  }

  /** `find_edits`: enumerates lines from 1, skips lines that do not decode
      and entries without the edit shape, applies the two filters, and
      appends the survivors in order. */
  method FindEdits(lines: seq<Option<Entry>>, fileFilter: Option<string>, contentFilter: Option<string>)
    returns (edits: seq<Edit>)
    ensures edits == Edits(lines, fileFilter, contentFilter)
  {
    edits := [];
    for lineNum := 1 to |lines| + 1
      invariant edits == Edits(lines[..lineNum - 1], fileFilter, contentFilter)
    {
      assert lines[..lineNum][..lineNum - 1] == lines[..lineNum - 1];
      var decoded := lines[lineNum - 1];
      if decoded.None? {
        continue;
      }
      var entry := decoded.value;
      if entry.toolUseResult.Some? {
        var result := entry.toolUseResult.value;
        if result.filePath.Some? && result.newString.Some? {
          var filePath := result.filePath.value;
          var newString := result.newString.value;
          var oldString := OrEmpty(result.oldString);
          if Active(fileFilter) && !Contains(filePath, fileFilter.value) {
            continue;
          }
          if Active(contentFilter) && !Contains(newString, contentFilter.value)
             && !Contains(oldString, contentFilter.value) {
            continue;
          }
          edits := edits + [Edit(lineNum, filePath, oldString, newString)];
        }
      }
    }
    assert lines[..|lines|] == lines;
  }

  /** Line `lineNum` contributes exactly its own edit, if it has the edit
      shape and passes the filters. */
  lemma EditAtMembership(lineNum: nat, decoded: Option<Entry>, fileFilter: Option<string>,
                         contentFilter: Option<string>, e: Edit)
    ensures e in EditAt(lineNum, decoded, fileFilter, contentFilter)
        <==> e.line == lineNum && IsEditOf(decoded, e) && EditPasses(e, fileFilter, contentFilter)
  {
  }

  /** An edit is reported if and only if some line, counted from 1, has the
      edit shape and the edit passes both filters; lines that do not decode
      contribute nothing. */
  lemma {:induction false} EditsMembership(lines: seq<Option<Entry>>, fileFilter: Option<string>,
                                           contentFilter: Option<string>, e: Edit)
    ensures e in Edits(lines, fileFilter, contentFilter)
        <==> (&& 1 <= e.line <= |lines|
              && IsEditOf(lines[e.line - 1], e)
              && EditPasses(e, fileFilter, contentFilter))
    decreases |lines|
  {
    if lines != [] {
      var init := lines[..|lines| - 1];
      EditsMembership(init, fileFilter, contentFilter, e);
      EditAtMembership(|lines|, lines[|lines| - 1], fileFilter, contentFilter, e);
      if 1 <= e.line < |lines| {
        assert lines[e.line - 1] == init[e.line - 1];
      }
    }
  }

  /** Every edit line is in range 1..n and each edit's line is larger than
      the previous one's. */
  predicate EditLinesIncreasing(es: seq<Edit>, n: nat)
  {
    && (forall i :: 0 <= i < |es| ==> 1 <= es[i].line <= n)
    && (forall i, j :: 0 <= i < j < |es| ==> es[i].line < es[j].line)
  }

  /** Edits come out in line order, at most one per line. */
  lemma {:induction false} EditLinesIncrease(lines: seq<Option<Entry>>, fileFilter: Option<string>,
                                             contentFilter: Option<string>)
    ensures EditLinesIncreasing(Edits(lines, fileFilter, contentFilter), |lines|)
    decreases |lines|
  {
    if lines != [] {
      var init := lines[..|lines| - 1];
      EditLinesIncrease(init, fileFilter, contentFilter);
      var a := Edits(init, fileFilter, contentFilter);
      var t := EditAt(|lines|, lines[|lines| - 1], fileFilter, contentFilter);
      var es := a + t;
      assert |t| <= 1 && forall i :: 0 <= i < |t| ==> t[i].line == |lines|;
      forall i, j | 0 <= i < j < |es|
        ensures es[i].line < es[j].line
      {
        if j < |a| {
          assert es[i] == a[i] && es[j] == a[j];
        } else {
          assert es[i] == a[i] && es[j] == t[0];
        }
      }
    }
  }

  /** The edits that pass the two filters, in order. */
  function KeepEdits(es: seq<Edit>, fileFilter: Option<string>, contentFilter: Option<string>): seq<Edit>
  {
    if es == [] then []
    else KeepEdits(es[..|es| - 1], fileFilter, contentFilter)
           + (if EditPasses(es[|es| - 1], fileFilter, contentFilter) then [es[|es| - 1]] else [])
  }

  lemma {:induction false} KeepEditsAppend(xs: seq<Edit>, ys: seq<Edit>, fileFilter: Option<string>,
                                           contentFilter: Option<string>)
    ensures KeepEdits(xs + ys, fileFilter, contentFilter)
         == KeepEdits(xs, fileFilter, contentFilter) + KeepEdits(ys, fileFilter, contentFilter)
    decreases |ys|
  {
    if ys == [] {
      assert xs + ys == xs;
    } else {
      var init := ys[..|ys| - 1];
      assert (xs + ys)[..|xs + ys| - 1] == xs + init;
      KeepEditsAppend(xs, init, fileFilter, contentFilter);
    }
  }

  /** The filters only remove: the filtered edits are the unfiltered edits
      that pass the filters, in the same order. */
  lemma {:induction false} EditFiltersOnlyRemove(lines: seq<Option<Entry>>, fileFilter: Option<string>,
                                                 contentFilter: Option<string>)
    ensures Edits(lines, fileFilter, contentFilter) == KeepEdits(Edits(lines, None, None), fileFilter, contentFilter)
    decreases |lines|
  {
    if lines != [] {
      var init := lines[..|lines| - 1];
      EditFiltersOnlyRemove(init, fileFilter, contentFilter);
      KeepEditsAppend(Edits(init, None, None), EditAt(|lines|, lines[|lines| - 1], None, None),
                      fileFilter, contentFilter);
      var a := EditAt(|lines|, lines[|lines| - 1], None, None);
      if a != [] {
        assert a[..|a| - 1] == [];
      }
    }
  }

  // ---------------------------------------------------------------------------
  // Writes
  // ---------------------------------------------------------------------------

  predicate IsWriteBlock(b: Block)
  {
    b.blockType == Some("tool_use") && b.name == Some("Write")
  }

  /** The write a Write block describes, before filtering; missing input
      fields read as empty. */
  function BlockWrite(lineNum: nat, b: Block): Write
  {
    var inp := if b.input.Some? then b.input.value else WriteInput(None, None);
    Write(lineNum, OrEmpty(inp.filePath), OrEmpty(inp.content))
  }

  /** The content blocks of an assistant message, or none. */
  function AssistantBlocks(decoded: Option<Entry>): seq<Block>
  {
    if decoded.Some? && decoded.value.message.Some? && decoded.value.message.value.role == Some("assistant")
    then
      var m := decoded.value.message.value;
      if m.content.Some? then m.content.value else []
    else []
  }

  /** `w` is what one of the Write blocks of line `decoded` reports. */
  predicate IsWriteOf(decoded: Option<Entry>, w: Write)
  {
    var bs := AssistantBlocks(decoded);
    exists k :: 0 <= k < |bs| && IsWriteBlock(bs[k]) && BlockWrite(w.line, bs[k]) == w
  }

  /** The writes the blocks of line `lineNum` contribute, in block order. */
  function BlockWrites(lineNum: nat, blocks: seq<Block>, fileFilter: Option<string>, contentFilter: Option<string>)
    : seq<Write>
  {
    if blocks == [] then []
    else
      var b := blocks[|blocks| - 1];
      BlockWrites(lineNum, blocks[..|blocks| - 1], fileFilter, contentFilter)
        + (if IsWriteBlock(b) && WritePasses(BlockWrite(lineNum, b), fileFilter, contentFilter)
           then [BlockWrite(lineNum, b)] else [])
  }

  /** The writes of the whole log, in line order and then block order. */
  function Writes(lines: seq<Option<Entry>>, fileFilter: Option<string>, contentFilter: Option<string>): seq<Write>
  {
    if lines == [] then []
    else Writes(lines[..|lines| - 1], fileFilter, contentFilter)
           + BlockWrites(|lines|, AssistantBlocks(lines[|lines| - 1]), fileFilter, contentFilter)
  }

  /** `find_writes`: enumerates lines from 1, skips lines that do not decode,
      and within assistant messages appends every Write tool-use block that
      passes the two filters. */
  method FindWrites(lines: seq<Option<Entry>>, fileFilter: Option<string>, contentFilter: Option<string>)
    returns (writes: seq<Write>)
    ensures writes == Writes(lines, fileFilter, contentFilter)
  {
    writes := [];
    for lineNum := 1 to |lines| + 1
      invariant writes == Writes(lines[..lineNum - 1], fileFilter, contentFilter)
    {
      WritesStep(lines, lineNum, fileFilter, contentFilter);
      var decoded := lines[lineNum - 1];
      if decoded.None? {
        continue;
      }
      var msg := decoded.value.message;
      if msg.Some? && msg.value.role == Some("assistant") {
        var content := if msg.value.content.Some? then msg.value.content.value else [];
        writes := AppendBlockWrites(lineNum, content, fileFilter, contentFilter, writes);
      }
    }
    assert lines[..|lines|] == lines;
  }

  /** Line `n` adds the writes of its assistant blocks; a line that does not
      decode, or is not an assistant message, adds none. */
  lemma WritesStep(lines: seq<Option<Entry>>, n: nat, fileFilter: Option<string>, contentFilter: Option<string>)
    requires 1 <= n <= |lines|
    ensures Writes(lines[..n], fileFilter, contentFilter)
         == Writes(lines[..n - 1], fileFilter, contentFilter)
            + BlockWrites(n, AssistantBlocks(lines[n - 1]), fileFilter, contentFilter)
    ensures AssistantBlocks(lines[n - 1]) == [] ==>
              Writes(lines[..n], fileFilter, contentFilter) == Writes(lines[..n - 1], fileFilter, contentFilter)
  {
    assert lines[..n][..n - 1] == lines[..n - 1];
  }

  /** Block `k` adds its write when it is a Write block that passes the
      filters, and nothing otherwise. */
  lemma BlockWritesStep(lineNum: nat, content: seq<Block>, k: nat, fileFilter: Option<string>,
                        contentFilter: Option<string>)
    requires k < |content|
    ensures BlockWrites(lineNum, content[..k + 1], fileFilter, contentFilter)
         == BlockWrites(lineNum, content[..k], fileFilter, contentFilter)
            + (if IsWriteBlock(content[k]) && WritePasses(BlockWrite(lineNum, content[k]), fileFilter, contentFilter)
               then [BlockWrite(lineNum, content[k])] else [])
  {
    assert content[..k + 1][..k] == content[..k];
  }

  /** The block loop of `find_writes` for one assistant message: appends
      every Write tool-use block that passes the two filters. */
  method AppendBlockWrites(lineNum: nat, content: seq<Block>, fileFilter: Option<string>,
                           contentFilter: Option<string>, writes0: seq<Write>)
    returns (writes: seq<Write>)
    ensures writes == writes0 + BlockWrites(lineNum, content, fileFilter, contentFilter)
  {
    writes := writes0;
    assert content[..0] == [];
    for k := 0 to |content|
      invariant writes == writes0 + BlockWrites(lineNum, content[..k], fileFilter, contentFilter)
    {
      BlockWritesStep(lineNum, content, k, fileFilter, contentFilter);
      var block := content[k];
      if block.blockType == Some("tool_use") && block.name == Some("Write") {
        var inp := if block.input.Some? then block.input.value else WriteInput(None, None);
        var filePath := OrEmpty(inp.filePath);
        var fileContent := OrEmpty(inp.content);
        assert Write(lineNum, filePath, fileContent) == BlockWrite(lineNum, block);
        if Active(fileFilter) && !Contains(filePath, fileFilter.value) {
          continue;
        }
        if Active(contentFilter) && !Contains(fileContent, contentFilter.value) {
          continue;
        }
        assert WritePasses(Write(lineNum, filePath, fileContent), fileFilter, contentFilter);
        writes := writes + [Write(lineNum, filePath, fileContent)];
      }
    }
    assert content[..|content|] == content;
  }

  lemma {:induction false} BlockWritesMembership(lineNum: nat, blocks: seq<Block>, fileFilter: Option<string>,
                                                 contentFilter: Option<string>, w: Write)
    ensures w in BlockWrites(lineNum, blocks, fileFilter, contentFilter)
        <==> (&& w.line == lineNum
              && (exists k :: 0 <= k < |blocks| && IsWriteBlock(blocks[k]) && BlockWrite(w.line, blocks[k]) == w)
              && WritePasses(w, fileFilter, contentFilter))
    decreases |blocks|
  {
    if blocks != [] {
      var init := blocks[..|blocks| - 1];
      BlockWritesMembership(lineNum, init, fileFilter, contentFilter, w);
      if exists k :: 0 <= k < |blocks| && IsWriteBlock(blocks[k]) && BlockWrite(w.line, blocks[k]) == w {
        var k :| 0 <= k < |blocks| && IsWriteBlock(blocks[k]) && BlockWrite(w.line, blocks[k]) == w;
        if k < |init| {
          assert init[k] == blocks[k];
        }
      }
      if exists k :: 0 <= k < |init| && IsWriteBlock(init[k]) && BlockWrite(w.line, init[k]) == w {
        var k :| 0 <= k < |init| && IsWriteBlock(init[k]) && BlockWrite(w.line, init[k]) == w;
        assert blocks[k] == init[k];
      }
    }
  }

  /** A write is reported if and only if some line, counted from 1, is an
      assistant message with a Write tool-use block describing it, and the
      write passes both filters. */
  lemma {:induction false} WritesMembership(lines: seq<Option<Entry>>, fileFilter: Option<string>,
                                            contentFilter: Option<string>, w: Write)
    ensures w in Writes(lines, fileFilter, contentFilter)
        <==> (&& 1 <= w.line <= |lines|
              && IsWriteOf(lines[w.line - 1], w)
              && WritePasses(w, fileFilter, contentFilter))
    decreases |lines|
  {
    if lines != [] {
      var init := lines[..|lines| - 1];
      WritesMembership(init, fileFilter, contentFilter, w);
      BlockWritesMembership(|lines|, AssistantBlocks(lines[|lines| - 1]), fileFilter, contentFilter, w);
      if 1 <= w.line < |lines| {
        assert lines[w.line - 1] == init[w.line - 1];
      }
    }
  }

  lemma {:induction false} BlockWritesLines(lineNum: nat, blocks: seq<Block>, fileFilter: Option<string>,
                                            contentFilter: Option<string>)
    ensures forall w :: w in BlockWrites(lineNum, blocks, fileFilter, contentFilter) ==> w.line == lineNum
    decreases |blocks|
  {
    if blocks != [] {
      BlockWritesLines(lineNum, blocks[..|blocks| - 1], fileFilter, contentFilter);
    }
  }

  /** Every write line is in range 1..n and no write's line is smaller than
      the previous one's. */
  predicate WriteLinesNonDecreasing(ws: seq<Write>, n: nat)
  {
    && (forall i :: 0 <= i < |ws| ==> 1 <= ws[i].line <= n)
    && (forall i, j :: 0 <= i < j < |ws| ==> ws[i].line <= ws[j].line)
  }

  /** Writes come out in line order. */
  lemma {:induction false} WriteLinesInOrder(lines: seq<Option<Entry>>, fileFilter: Option<string>,
                                             contentFilter: Option<string>)
    ensures WriteLinesNonDecreasing(Writes(lines, fileFilter, contentFilter), |lines|)
    decreases |lines|
  {
    if lines != [] {
      var init := lines[..|lines| - 1];
      WriteLinesInOrder(init, fileFilter, contentFilter);
      var a := Writes(init, fileFilter, contentFilter);
      var bw := BlockWrites(|lines|, AssistantBlocks(lines[|lines| - 1]), fileFilter, contentFilter);
      BlockWritesLines(|lines|, AssistantBlocks(lines[|lines| - 1]), fileFilter, contentFilter);
      var ws := a + bw;
      forall i | |a| <= i < |ws|
        ensures ws[i].line == |lines|
      {
        assert ws[i] == bw[i - |a|] && bw[i - |a|] in bw;
      }
      forall i, j | 0 <= i < j < |ws|
        ensures ws[i].line <= ws[j].line
      {
        if j < |a| {
          assert ws[i] == a[i] && ws[j] == a[j];
        } else if i < |a| {
          assert ws[i] == a[i];
        }
      }
    }
  }

  /** One line can report several writes: an assistant message with two
      Write blocks gives two writes on line 1. */
  lemma TwoWritesOneLine(p: string, q: string)
    ensures var write := Block(Some("tool_use"), Some("Write"), Some(WriteInput(Some(p), Some(q))));
            var entry := Entry(None, Some(Message(Some("assistant"), Some([write, write]))));
            Writes([Some(entry)], None, None) == [Write(1, p, q), Write(1, p, q)]
  {
    var write := Block(Some("tool_use"), Some("Write"), Some(WriteInput(Some(p), Some(q))));
    var blocks := [write, write];
    assert blocks[..1][..0] == [];
    assert BlockWrites(1, blocks[..1], None, None) == [Write(1, p, q)];
    var lines := [Some(Entry(None, Some(Message(Some("assistant"), Some(blocks)))))];
    assert lines[..0] == [];
  }

  /** The writes that pass the two filters, in order. */
  function KeepWrites(ws: seq<Write>, fileFilter: Option<string>, contentFilter: Option<string>): seq<Write>
  {
    if ws == [] then []
    else KeepWrites(ws[..|ws| - 1], fileFilter, contentFilter)
           + (if WritePasses(ws[|ws| - 1], fileFilter, contentFilter) then [ws[|ws| - 1]] else [])
  }

  lemma {:induction false} KeepWritesAppend(xs: seq<Write>, ys: seq<Write>, fileFilter: Option<string>,
                                            contentFilter: Option<string>)
    ensures KeepWrites(xs + ys, fileFilter, contentFilter)
         == KeepWrites(xs, fileFilter, contentFilter) + KeepWrites(ys, fileFilter, contentFilter)
    decreases |ys|
  {
    if ys == [] {
      assert xs + ys == xs;
    } else {
      var init := ys[..|ys| - 1];
      assert (xs + ys)[..|xs + ys| - 1] == xs + init;
      KeepWritesAppend(xs, init, fileFilter, contentFilter);
    }
  }

  lemma {:induction false} BlockFiltersOnlyRemove(lineNum: nat, blocks: seq<Block>, fileFilter: Option<string>,
                                                  contentFilter: Option<string>)
    ensures BlockWrites(lineNum, blocks, fileFilter, contentFilter)
         == KeepWrites(BlockWrites(lineNum, blocks, None, None), fileFilter, contentFilter)
    decreases |blocks|
  {
    if blocks != [] {
      var init := blocks[..|blocks| - 1];
      var b := blocks[|blocks| - 1];
      BlockFiltersOnlyRemove(lineNum, init, fileFilter, contentFilter);
      var tail := if IsWriteBlock(b) then [BlockWrite(lineNum, b)] else [];
      assert BlockWrites(lineNum, blocks, None, None) == BlockWrites(lineNum, init, None, None) + tail;
      KeepWritesAppend(BlockWrites(lineNum, init, None, None), tail, fileFilter, contentFilter);
      if tail != [] {
        assert tail[..|tail| - 1] == [];
      }
    }
  }

  /** The filters only remove: the filtered writes are the unfiltered writes
      that pass the filters, in the same order. */
  lemma {:induction false} WriteFiltersOnlyRemove(lines: seq<Option<Entry>>, fileFilter: Option<string>,
                                                  contentFilter: Option<string>)
    ensures Writes(lines, fileFilter, contentFilter) == KeepWrites(Writes(lines, None, None), fileFilter, contentFilter)
    decreases |lines|
  {
    if lines != [] {
      var init := lines[..|lines| - 1];
      var bs := AssistantBlocks(lines[|lines| - 1]);
      WriteFiltersOnlyRemove(init, fileFilter, contentFilter);
      BlockFiltersOnlyRemove(|lines|, bs, fileFilter, contentFilter);
      KeepWritesAppend(Writes(init, None, None), BlockWrites(|lines|, bs, None, None), fileFilter, contentFilter);
    }
  }

  /** An empty filter string keeps everything, exactly as no filter does. */
  lemma EmptyFiltersKeepAll(lines: seq<Option<Entry>>)
    ensures Edits(lines, Some(""), Some("")) == Edits(lines, None, None)
    ensures Writes(lines, Some(""), Some("")) == Writes(lines, None, None)
  {
    EditFiltersOnlyRemove(lines, Some(""), Some(""));
    WriteFiltersOnlyRemove(lines, Some(""), Some(""));
    KeepAllEdits(Edits(lines, None, None));
    KeepAllWrites(Writes(lines, None, None));
  }

  lemma {:induction false} KeepAllEdits(es: seq<Edit>)
    ensures KeepEdits(es, Some(""), Some("")) == es
    decreases |es|
  {
    assert !Active(Some(""));
    if es != [] {
      KeepAllEdits(es[..|es| - 1]);
    }
  }

  lemma {:induction false} KeepAllWrites(ws: seq<Write>)
    ensures KeepWrites(ws, Some(""), Some("")) == ws
    decreases |ws|
  {
    assert !Active(Some(""));
    if ws != [] {
      KeepAllWrites(ws[..|ws| - 1]);
    }
  }
}
