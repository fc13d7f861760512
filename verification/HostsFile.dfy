/** The hosts file that several labs write to: every lab keeps its entries in a block of its own between
    two marker lines, at most one block a lab. */
module HostsFile {
  import opened HostsText
  import opened Wrappers

  datatype IpVersion = V4 | V6 | AnyVersion

  datatype HostEntry = HostEntry(ip: string, name: string, version: IpVersion, containerId: string,
                                 description: string)
  {
    function ToHostEntryString(): string {
      ip + "\t" + name
      + (if |containerId| >= 12 then " " + containerId[..12] else "")
      + (if description != "" then "\t# " + description else "")
    }
  }

  /** The lines for the entries of the requested version, in order. */
  function ConfigLines(entries: seq<HostEntry>, version: IpVersion): seq<string> {
    if entries == [] then []
    else ConfigLines(entries[..|entries| - 1], version)
         + var e := entries[|entries| - 1];
           if version != AnyVersion && version != e.version then [] else [e.ToHostEntryString() + "\n"]
  }

  // What the lines are, without the functions that compute them.

  /** The line of one entry, if its version is asked for. */
  lemma LinesOfOne(e: HostEntry, version: IpVersion)
    ensures ConfigLines([e], version)
         == if version == AnyVersion || e.version == version
            then [e.ip + "\t" + e.name + (if |e.containerId| >= 12 then " " + e.containerId[..12] else "")
                  + (if e.description == "" then "" else "\t# " + e.description) + "\n"]
            else []
  {
    assert [e][..0] == [];
    assert ConfigLines([], version) == [];
  }

  /** The lines of a list are those of its parts, so their order and number are those of the entries. */
  lemma {:induction false} LinesJoin(a: seq<HostEntry>, b: seq<HostEntry>, version: IpVersion)
    ensures ConfigLines(a + b, version) == ConfigLines(a, version) + ConfigLines(b, version)
  {
    if b == [] {
      assert a + b == a;
    } else {
      assert (a + b)[..|a + b| - 1] == a + b[..|b| - 1];
      LinesJoin(a, b[..|b| - 1], version);
    }
  }

  /** The line is the one of some entry of the version asked for. */
  ghost predicate IsLineOf(line: string, e: HostEntry, version: IpVersion) {
    && (version == AnyVersion || e.version == version)
    && line == e.ip + "\t" + e.name + (if |e.containerId| >= 12 then " " + e.containerId[..12] else "")
               + (if e.description == "" then "" else "\t# " + e.description) + "\n"
  }

  lemma {:induction false} LinesAre(entries: seq<HostEntry>, version: IpVersion, line: string)
    ensures line in ConfigLines(entries, version) <==> exists e :: e in entries && IsLineOf(line, e, version)
  {
    if entries != [] {
      var rest, e := entries[..|entries| - 1], entries[|entries| - 1];
      assert entries == rest + [e];
      LinesAre(rest, version, line);
      LinesJoin(rest, [e], version);
      LinesOfOne(e, version);
      assert line in ConfigLines([e], version) <==> IsLineOf(line, e, version);
      if line in ConfigLines(rest, version) {
        var f :| f in rest && IsLineOf(line, f, version);
        assert f in entries;
      }
    }
  }

  method ToHostsConfig(entries: seq<HostEntry>, version: IpVersion) returns (text: string)
    ensures text == Flat(ConfigLines(entries, version))
  {
    text := "";
    for i := 0 to |entries|
      invariant text == Flat(ConfigLines(entries[..i], version))
    {
      assert entries[..i + 1][..i] == entries[..i];
      assert ConfigLines(entries[..i], version) + [] == ConfigLines(entries[..i], version);
      if version != AnyVersion && version != entries[i].version {
        continue;
      }
      FlatJoin(ConfigLines(entries[..i], version), [entries[i].ToHostEntryString() + "\n"]);
      FlatCons(entries[i].ToHostEntryString() + "\n", []);
      Associative(text, entries[i].ToHostEntryString(), "\n");
      assert entries[i].ToHostEntryString() + "\n" + "" == entries[i].ToHostEntryString() + "\n";
      text := text + entries[i].ToHostEntryString() + "\n";
    }
    assert entries[..|entries|] == entries;
  }

  // What a deletion keeps.

  /** open: the lab's block was not closed. */
  datatype Swept = Swept(kept: seq<string>, open: bool)

  function Sweep(lines: seq<string>, lab: string, skipping: bool): Swept {
    if lines == [] then Swept([], skipping)
    else if TrimSpace(lines[0]) == EndMarker(lab) then Sweep(lines[1..], lab, false)
    else if TrimSpace(lines[0]) == StartMarker(lab) || skipping then Sweep(lines[1..], lab, true)
    else var rest := Sweep(lines[1..], lab, false); Swept([lines[0]] + rest.kept, rest.open)
  }

  class File {
    var content: Option<string>

    constructor (content: Option<string>)
      ensures this.content == content
    {
      this.content := content;
    }

    /** The next line, or nothing at the end of the text, where an unterminated line is dropped. */
    static method ReadLine(text: string, pos: nat) returns (line: string, next: nat, eof: bool)
      requires pos <= |text|
      ensures pos <= next <= |text|
      ensures eof <==> Lines(text[pos..]) == []
      ensures !eof ==> pos < next && line == Lines(text[pos..])[0] && Lines(text[next..]) == Lines(text[pos..])[1..]
    {
      hide Lines;
      var rest := text[pos..];
      var i := 0;
      while i < |rest| && rest[i] != '\n'
        invariant i <= |rest| && Unbroken(rest, i)
      {
        i := i + 1;
      }
      if i == |rest| {
        NoLines(rest);
        return rest, |text|, true;
      }
      FirstLine(rest, i);
      DropTwice(text, pos, i + 1);
      return rest[..i + 1], pos + (i + 1), false;
    }

    /** Deletes the lab's block; an unclosed block leaves the file alone. */
    method DeleteEntriesFromHostsFile(lab: string) returns (ok: bool)
      modifies this
      ensures ok <==> lab != "" && old(content).Some? && !Sweep(Lines(old(content).value), lab, false).open
      ensures content == if ok then Some(Flat(Sweep(Lines(old(content).value), lab, false).kept)) else old(content)
    {
      if lab == "" || content.None? {
        return false;
      }
      var text := content.value;
      ghost var swept := Sweep(Lines(text), lab, false);
      var skiplines, output, pos := false, "", 0;
      while true
        invariant pos <= |text| && content == old(content)
        invariant swept.open == Sweep(Lines(text[pos..]), lab, skiplines).open
        invariant Flat(swept.kept) == output + Flat(Sweep(Lines(text[pos..]), lab, skiplines).kept)
        decreases |text| - pos
      {
        var line, next, eof := ReadLine(text, pos);
        if eof {
          break;
        }
        pos := next;
        if TrimSpace(line) == EndMarker(lab) {
          skiplines := false;
          continue;
        } else if TrimSpace(line) == StartMarker(lab) || skiplines {
          skiplines := true;
          continue;
        }
        Associative(output, line, Flat(Sweep(Lines(text[pos..]), lab, false).kept));
        FlatCons(line, Sweep(Lines(text[pos..]), lab, false).kept);
        output := output + line;
      }
      assert output + "" == output;
      if skiplines {
        return false;
      }
      content := Some(output);
      ok := true;
    }

    /** Puts the lab's block at the end, in place of one that is there already. Collecting the entries
        may fail, which is found out after the old block has gone. */
    method AppendHostsFileEntries(lab: string, entries: Option<seq<HostEntry>>) returns (ok: bool)
      modifies this
      ensures ok ==> lab != "" && entries.Some?
      ensures lab == "" ==> !ok && content == old(content)
      ensures old(content).None? && ok ==>
                content == Some("127.0.0.1\tlocalhost\n" + Flat(Block(lab, entries.value)))
      ensures lab != "" ==> (
                var before := if old(content).None? then LOCALHOST else old(content).value;
                var swept := Sweep(Lines(before), lab, false);
                && (ok <==> !swept.open && entries.Some?)
                && content == Some(if swept.open then before
                                   else Flat(swept.kept + if ok then Block(lab, entries.value) else [])))
    {
      if lab == "" {
        return false;
      }
      if content.None? {
        LocalhostKept(lab, if entries.Some? then Block(lab, entries.value) else []);
        content := Some(LOCALHOST);
      }
      ok := DeleteEntriesFromHostsFile(lab);
      if !ok {
        return;
      }
      if entries.None? {
        assert Sweep(Lines(if old(content).None? then LOCALHOST else old(content).value), lab, false).kept + []
            == Sweep(Lines(if old(content).None? then LOCALHOST else old(content).value), lab, false).kept;
        return false;
      }
      var v4 := ToHostsConfig(entries.value, V4);
      var v6 := ToHostsConfig(entries.value, V6);
      var text := StartMarker(lab) + "\n" + v4 + v6 + EndMarker(lab) + "\n";
      BlockText(lab, entries.value);
      FlatJoin(Sweep(Lines(if old(content).None? then LOCALHOST else old(content).value), lab, false).kept,
               Block(lab, entries.value));
      content := Some(content.value + text);
    }
  }

  /** A single line that is no marker is kept. */
  lemma {:induction false} OneLineKept(line: string, lab: string)
    requires IsLine(line) && !IsSpace(line[0]) && line[0] != '#'
    ensures Sweep(Lines(line), lab, false) == Swept([line], false)
  {
    hide Lines;
    FirstLine(line, |line| - 1);
    NoLines(line[|line|..]);
    assert line[..|line|] == line;
    TrimFirst(line);
    SweepUnmarked([line], lab, false);
  }

  lemma {:induction false} LocalhostKept(lab: string, lines: seq<string>)
    ensures Sweep(Lines(LOCALHOST), lab, false) == Swept([LOCALHOST], false)
    ensures Flat([LOCALHOST] + lines) == "127.0.0.1\tlocalhost\n" + Flat(lines)
  {
    hide Lines, Sweep, Flat;
    OneLineKept(LOCALHOST, lab);
    FlatCons(LOCALHOST, lines);
  }

  const LOCALHOST := "127.0.0.1\tlocalhost\n"

  /** The lines of a lab's block. */
  function Block(lab: string, entries: seq<HostEntry>): seq<string> {
    [StartMarker(lab) + "\n"] + ConfigLines(entries, V4) + ConfigLines(entries, V6) + [EndMarker(lab) + "\n"]
  }

  /** The block begins with the start marker, ends with the end marker and holds the line of each entry with
      an IPv4 or IPv6 address between them, those of IPv4 first, and no other. */
  lemma BlockIs(lab: string, entries: seq<HostEntry>, line: string)
    ensures exists v4, v6 ::
              && Block(lab, entries) == ["###### CLAB-" + lab + "-START ######\n"] + v4 + v6
                                        + ["###### CLAB-" + lab + "-END ######\n"]
              && (line in v4 <==> exists e :: e in entries && IsLineOf(line, e, V4))
              && (line in v6 <==> exists e :: e in entries && IsLineOf(line, e, V6))
  {
    LinesAre(entries, V4, line);
    LinesAre(entries, V6, line);
    var v4, v6 := ConfigLines(entries, V4), ConfigLines(entries, V6);
    assert StartMarker(lab) + "\n" == "###### CLAB-" + lab + "-START ######\n";
    assert EndMarker(lab) + "\n" == "###### CLAB-" + lab + "-END ######\n";
    assert Block(lab, entries) == ["###### CLAB-" + lab + "-START ######\n"] + v4 + v6
                                  + ["###### CLAB-" + lab + "-END ######\n"];
  }

  lemma BlockText(lab: string, entries: seq<HostEntry>)
    ensures Flat(Block(lab, entries)) == StartMarker(lab) + "\n" + Flat(ConfigLines(entries, V4))
                                         + Flat(ConfigLines(entries, V6)) + EndMarker(lab) + "\n"
  {
    var start, v4, v6, end :=
      [StartMarker(lab) + "\n"], ConfigLines(entries, V4), ConfigLines(entries, V6), [EndMarker(lab) + "\n"];
    FlatJoin(start + v4 + v6, end);
    FlatJoin(start + v4, v6);
    FlatJoin(start, v4);
  }

  // What the blocks of several labs are to one another.

  /** What the sweep keeps of a and b together, b being read in the state that a leaves. */
  lemma {:induction false} SweepJoin(a: seq<string>, b: seq<string>, lab: string, skipping: bool)
    ensures var first := Sweep(a, lab, skipping);
            var second := Sweep(b, lab, first.open);
            Sweep(a + b, lab, skipping) == Swept(first.kept + second.kept, second.open)
  {
    if a == [] {
      assert a + b == b;
    } else {
      assert (a + b)[0] == a[0] && (a + b)[1..] == a[1..] + b;
      var t := TrimSpace(a[0]);
      SweepJoin(a[1..], b, lab, t != EndMarker(lab) && (t == StartMarker(lab) || skipping));
    }
  }

  ghost predicate Unmarked(lines: seq<string>, lab: string) {
    forall i :: 0 <= i < |lines| ==> !IsMarker(lines[i], lab)
  }

  /** Lines that are no markers of the lab are all kept, in order, or all skipped. */
  lemma {:induction false} SweepUnmarked(lines: seq<string>, lab: string, skipping: bool)
    requires Unmarked(lines, lab)
    ensures Sweep(lines, lab, skipping) == Swept(if skipping then [] else lines, skipping)
  {
    if lines != [] {
      assert !IsMarker(lines[0], lab);
      SweepUnmarked(lines[1..], lab, skipping);
    }
  }

  /** Nothing is lost exactly when there is no marker of the lab. */
  lemma {:induction false} SweepKeepsAllIff(lines: seq<string>, lab: string)
    ensures |Sweep(lines, lab, false).kept| <= |lines| && |Sweep(lines, lab, true).kept| <= |lines|
    ensures Sweep(lines, lab, false).kept == lines <==> Unmarked(lines, lab)
  {
    if lines != [] {
      SweepKeepsAllIff(lines[1..], lab);
      if !IsMarker(lines[0], lab) {
        assert Unmarked(lines, lab) <==> Unmarked(lines[1..], lab);
      }
    }
  }

  /** An entry whose address is neither empty nor starts with white space or a number sign, on one line. */
  predicate Proper(e: HostEntry) {
    && e.ip != "" && !IsSpace(e.ip[0]) && e.ip[0] != '#'
    && Unbroken(e.ToHostEntryString(), |e.ToHostEntryString()|)
  }

  ghost predicate AllProper(entries: seq<HostEntry>) {
    forall i :: 0 <= i < |entries| ==> Proper(entries[i])
  }

  predicate OneLine(lab: string) {
    lab != "" && Unbroken(lab, |lab|)
  }

  lemma {:induction false} EntriesUnmarked(entries: seq<HostEntry>, version: IpVersion, lab: string)
    requires AllProper(entries)
    ensures Unmarked(ConfigLines(entries, version), lab) && AreLines(ConfigLines(entries, version))
  {
    if entries != [] {
      EntriesUnmarked(entries[..|entries| - 1], version, lab);
      var e := entries[|entries| - 1];
      TrimFirst(e.ToHostEntryString() + "\n");
    }
  }

  /** The lab's own block is swept away; another lab's block is kept whole. */
  lemma SweepBlock(lab: string, other: string, entries: seq<HostEntry>)
    requires AllProper(entries)
    ensures Sweep(Block(other, entries), lab, false) == Swept(if other == lab then [] else Block(other, entries), false)
  {
    var inner := ConfigLines(entries, V4) + ConfigLines(entries, V6);
    EntriesUnmarked(entries, V4, lab);
    EntriesUnmarked(entries, V6, lab);
    MarkersTrimmed(other);
    assert Block(other, entries) == [StartMarker(other) + "\n"] + inner + [EndMarker(other) + "\n"];
    if other == lab {
      MarkersDiffer(lab, lab);
      SweepUnmarked(inner, lab, true);
      SweepJoin([StartMarker(lab) + "\n"] + inner, [EndMarker(lab) + "\n"], lab, false);
      SweepJoin([StartMarker(lab) + "\n"], inner, lab, false);
    } else {
      MarkersDiffer(other, lab);
      MarkersDiffer(lab, other);
      assert Unmarked(Block(other, entries), lab);
      SweepUnmarked(Block(other, entries), lab, false);
    }
  }

  lemma BlockLines(lab: string, entries: seq<HostEntry>)
    requires AllProper(entries) && OneLine(lab)
    ensures AreLines(Block(lab, entries))
  {
    EntriesUnmarked(entries, V4, lab);
    EntriesUnmarked(entries, V6, lab);
  }
}
