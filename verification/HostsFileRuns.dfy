/** Runs of appends and deletions by any labs on one hosts file. */
module HostsFileRuns {
  import opened HostsText
  import opened HostsFile
  import opened Wrappers

  datatype LabBlock = LabBlock(lab: string, entries: seq<HostEntry>)

  function BlocksLines(blocks: seq<LabBlock>): seq<string> {
    if blocks == [] then [] else Block(blocks[0].lab, blocks[0].entries) + BlocksLines(blocks[1..])
  }

  function DropLab(blocks: seq<LabBlock>, lab: string): seq<LabBlock> {
    if blocks == [] then []
    else (if blocks[0].lab == lab then [] else [blocks[0]]) + DropLab(blocks[1..], lab)
  }

  ghost predicate BlockOk(b: LabBlock) {
    OneLine(b.lab) && AllProper(b.entries)
  }

  /** Complete blocks, at most one a lab. */
  ghost predicate BlocksOk(blocks: seq<LabBlock>) {
    && (forall i :: 0 <= i < |blocks| ==> BlockOk(blocks[i]))
    && forall i, j :: 0 <= i < j < |blocks| ==> blocks[i].lab != blocks[j].lab
  }

  /** The base lines, none of which is a marker of any lab, followed by the blocks. */
  ghost predicate Represents(content: Option<string>, base: seq<string>, blocks: seq<LabBlock>) {
    && AreLines(base) && (forall lab :: Unmarked(base, lab)) && BlocksOk(blocks)
    && content == Some(Flat(base + BlocksLines(blocks)))
  }

  lemma {:induction false} BlocksLinesAreLines(blocks: seq<LabBlock>)
    requires BlocksOk(blocks)
    ensures AreLines(BlocksLines(blocks))
  {
    if blocks != [] {
      assert BlockOk(blocks[0]);
      BlockLines(blocks[0].lab, blocks[0].entries);
      BlocksLinesAreLines(blocks[1..]);
    }
  }

  lemma {:induction false} SweepBlocks(blocks: seq<LabBlock>, lab: string)
    requires BlocksOk(blocks)
    ensures Sweep(BlocksLines(blocks), lab, false) == Swept(BlocksLines(DropLab(blocks, lab)), false)
  {
    if blocks != [] {
      var b := blocks[0];
      assert BlockOk(b);
      SweepBlock(lab, b.lab, b.entries);
      SweepBlocks(blocks[1..], lab);
      SweepJoin(Block(b.lab, b.entries), BlocksLines(blocks[1..]), lab, false);
      if b.lab == lab {
        assert DropLab(blocks, lab) == DropLab(blocks[1..], lab);
      } else {
        assert DropLab(blocks, lab) == [b] + DropLab(blocks[1..], lab);
      }
    }
  }

  lemma {:induction false} DropLabOk(blocks: seq<LabBlock>, lab: string)
    requires BlocksOk(blocks)
    ensures BlocksOk(DropLab(blocks, lab))
    ensures forall b :: b in DropLab(blocks, lab) <==> b in blocks && b.lab != lab
  {
    if blocks != [] {
      DropLabOk(blocks[1..], lab);
      assert forall b :: b in DropLab(blocks[1..], lab) ==> b.lab != blocks[0].lab;
    }
  }

  lemma {:induction false} BlocksLinesJoin(a: seq<LabBlock>, b: seq<LabBlock>)
    ensures BlocksLines(a + b) == BlocksLines(a) + BlocksLines(b)
  {
    if a == [] {
      assert a + b == b;
    } else {
      assert (a + b)[1..] == a[1..] + b;
      BlocksLinesJoin(a[1..], b);
    }
  }

  /** A deletion removes exactly the lab's own block and keeps every other line in order. */
  lemma SweepRepresented(content: Option<string>, base: seq<string>, blocks: seq<LabBlock>, lab: string)
    requires Represents(content, base, blocks)
    ensures Lines(content.value) == base + BlocksLines(blocks)
    ensures Sweep(Lines(content.value), lab, false) == Swept(base + BlocksLines(DropLab(blocks, lab)), false)
  {
    BlocksLinesAreLines(blocks);
    var lines := base + BlocksLines(blocks);
    assert Flat(lines) + "" == Flat(lines);
    LinesOfFlat(lines, "");
    SweepUnmarked(base, lab, false);
    SweepBlocks(blocks, lab);
    SweepJoin(base, BlocksLines(blocks), lab, false);
  }

  datatype Op = Append(lab: string, entries: Option<seq<HostEntry>>) | Delete(lab: string)

  ghost predicate OpOk(op: Op) {
    (op.lab == "" || OneLine(op.lab)) && (op.Append? && op.entries.Some? ==> AllProper(op.entries.value))
  }

  /** An operation fails only for want of a lab name or of entries. */
  predicate Succeeds(op: Op) {
    op.lab != "" && (op.Append? ==> op.entries.Some?)
  }

  function AfterOp(blocks: seq<LabBlock>, op: Op): seq<LabBlock> {
    if op.lab == "" then blocks
    else DropLab(blocks, op.lab)
         + if op.Append? && op.entries.Some? then [LabBlock(op.lab, op.entries.value)] else []
  }

  function AfterOps(blocks: seq<LabBlock>, ops: seq<Op>): seq<LabBlock> {
    if ops == [] then blocks else AfterOp(AfterOps(blocks, ops[..|ops| - 1]), ops[|ops| - 1])
  }

  lemma AfterOpOk(blocks: seq<LabBlock>, op: Op)
    requires BlocksOk(blocks) && OpOk(op)
    ensures BlocksOk(AfterOp(blocks, op))
  {
    DropLabOk(blocks, op.lab);
  }

  lemma AfterOpText(base: seq<string>, blocks: seq<LabBlock>, op: Op)
    requires op.lab != ""
    ensures base + BlocksLines(AfterOp(blocks, op)) == base + BlocksLines(DropLab(blocks, op.lab))
              + if op.Append? && op.entries.Some? then Block(op.lab, op.entries.value) else []
  {
    var kept := DropLab(blocks, op.lab);
    if op.Append? && op.entries.Some? {
      var last := [LabBlock(op.lab, op.entries.value)];
      BlocksLinesJoin(kept, last);
      assert BlocksLines(last) == Block(op.lab, op.entries.value);
    } else {
      assert kept + [] == kept;
    }
  }

  method Perform(file: File, op: Op, ghost base: seq<string>, ghost blocks: seq<LabBlock>) returns (ok: bool)
    requires Represents(file.content, base, blocks) && OpOk(op)
    modifies file
    ensures ok <==> Succeeds(op)
    ensures Represents(file.content, base, AfterOp(blocks, op))
  {
    hide AreLines, Unmarked, BlocksOk, BlocksLines, Block, Lines, Flat, OneLine, AllProper, DropLab, Sweep;
    SweepRepresented(file.content, base, blocks, op.lab);
    AfterOpOk(blocks, op);
    if op.lab != "" {
      AfterOpText(base, blocks, op);
    }
    match op {
      case Append(lab, entries) => ok := file.AppendHostsFileEntries(lab, entries);
      case Delete(lab) =>
        ok := file.DeleteEntriesFromHostsFile(lab);
        ghost var lines := base + BlocksLines(DropLab(blocks, lab));
        assert lines + [] == lines;
    }
  }

  /** Whatever labs append and delete in whatever order, the file is the base lines and one complete block
      for each lab that was last appended, and no operation finds an unclosed block. */
  method Run(file: File, ops: seq<Op>, ghost base: seq<string>, ghost blocks: seq<LabBlock>)
    returns (oks: seq<bool>)
    requires Represents(file.content, base, blocks) && forall i :: 0 <= i < |ops| ==> OpOk(ops[i])
    modifies file
    ensures |oks| == |ops| && forall i :: 0 <= i < |ops| ==> (oks[i] <==> Succeeds(ops[i]))
    ensures Represents(file.content, base, AfterOps(blocks, ops))
  {
    oks := [];
    for i := 0 to |ops|
      invariant |oks| == i && forall j :: 0 <= j < i ==> (oks[j] <==> Succeeds(ops[j]))
      invariant Represents(file.content, base, AfterOps(blocks, ops[..i]))
    {
      assert ops[..i + 1][..i] == ops[..i];
      var ok := Perform(file, ops[i], base, AfterOps(blocks, ops[..i]));
      oks := oks + [ok];
    }
    assert ops[..|ops|] == ops;
  }

  // Any text at all.

  lemma {:induction false} KeptIsUnmarked(lines: seq<string>, lab: string, skipping: bool)
    ensures Unmarked(Sweep(lines, lab, skipping).kept, lab)
    ensures AreLines(lines) ==> AreLines(Sweep(lines, lab, skipping).kept)
  {
    if lines != [] {
      var t := TrimSpace(lines[0]);
      KeptIsUnmarked(lines[1..], lab, t != EndMarker(lab) && (t == StartMarker(lab) || skipping));
    }
  }

  /** A deletion gives back the very text exactly when its last line is terminated and no line is a marker
      of the lab. */
  lemma UnchangedIff(text: string, lab: string)
    ensures Flat(Sweep(Lines(text), lab, false).kept) == text
       <==> Unterminated(text) == "" && Unmarked(Lines(text), lab)
  {
    var kept := Sweep(Lines(text), lab, false).kept;
    TextOfLines(text);
    LinesAreLines(text);
    KeptIsUnmarked(Lines(text), lab, false);
    SweepKeepsAllIff(Lines(text), lab);
    LinesOfFlat(kept, "");
    assert Flat(kept) + "" == Flat(kept);
    if Unterminated(text) == "" && Unmarked(Lines(text), lab) {
      assert Flat(kept) + Unterminated(text) == Flat(kept);
    }
  }

  /** Appending and then deleting is deleting, for every text in which the lab's block is not open; so it
      is the identity exactly when the text has its last newline and no marker of the lab. */
  method AppendThenDelete(file: File, lab: string, entries: seq<HostEntry>) returns (ok: bool)
    requires OneLine(lab) && AllProper(entries) && file.content.Some?
    modifies file
    ensures ok <==> !Sweep(Lines(old(file.content).value), lab, false).open
    ensures ok ==> file.content == Some(Flat(Sweep(Lines(old(file.content).value), lab, false).kept))
    ensures ok ==> (file.content == old(file.content)
                    <==> Unterminated(old(file.content).value) == ""
                         && Unmarked(Lines(old(file.content).value), lab))
  {
    ghost var text := file.content.value;
    ghost var kept, block := Sweep(Lines(text), lab, false).kept, Block(lab, entries);
    UnchangedIff(text, lab);
    ok := file.AppendHostsFileEntries(lab, Some(entries));
    if !ok {
      return;
    }
    LinesAreLines(text);
    KeptIsUnmarked(Lines(text), lab, false);
    BlockLines(lab, entries);
    LinesOfFlat(kept + block, "");
    assert Flat(kept + block) + "" == Flat(kept + block);
    SweepUnmarked(kept, lab, false);
    SweepBlock(lab, lab, entries);
    SweepJoin(kept, block, lab, false);
    assert kept + [] == kept;
    ok := file.DeleteEntriesFromHostsFile(lab);
  }
}
