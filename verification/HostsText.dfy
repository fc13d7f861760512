/** The text of a hosts file: its lines, white space around them, and the marker lines of a lab's block. */
module HostsText {

  predicate IsSpace(c: char) {
    || c == '\t' || c == '\n' || c == '\U{0B}' || c == '\U{0C}' || c == '\r' || c == ' '
    || c == '\U{85}' || c == '\U{A0}' || c == '\U{1680}' || '\U{2000}' <= c <= '\U{200A}'
    || c == '\U{2028}' || c == '\U{2029}' || c == '\U{202F}' || c == '\U{205F}' || c == '\U{3000}'
  }

  function TrimLeft(s: string): string {
    if s != "" && IsSpace(s[0]) then TrimLeft(s[1..]) else s
  }

  function TrimRight(s: string): string {
    if s != "" && IsSpace(s[|s| - 1]) then TrimRight(s[..|s| - 1]) else s
  }

  function TrimSpace(s: string): string {
    TrimRight(TrimLeft(s))
  }

  /** The white space of Unicode. */
  lemma SpacesAre(c: char)
    ensures IsSpace(c) <==>
            c as int in {9, 10, 11, 12, 13, 32, 0x85, 0xA0, 0x1680, 0x2000, 0x2001, 0x2002, 0x2003, 0x2004, 0x2005,
                         0x2006, 0x2007, 0x2008, 0x2009, 0x200A, 0x2028, 0x2029, 0x202F, 0x205F, 0x3000}
  {
  }

  ghost predicate Blank(s: string) {
    forall i :: 0 <= i < |s| ==> IsSpace(s[i])
  }

  lemma {:induction false} TrimLeftIs(s: string) returns (a: nat)
    ensures a <= |s| && TrimLeft(s) == s[a..] && Blank(s[..a])
    ensures TrimLeft(s) == "" || !IsSpace(TrimLeft(s)[0])
  {
    if s != "" && IsSpace(s[0]) {
      a := TrimLeftIs(s[1..]);
      a := a + 1;
    } else {
      a := 0;
    }
  }

  lemma {:induction false} TrimRightIs(s: string) returns (b: nat)
    ensures b <= |s| && TrimRight(s) == s[..b] && Blank(s[b..])
    ensures TrimRight(s) == "" || !IsSpace(TrimRight(s)[|TrimRight(s)| - 1])
    ensures b > 0 ==> TrimRight(s)[0] == s[0]
  {
    if s != "" && IsSpace(s[|s| - 1]) {
      b := TrimRightIs(s[..|s| - 1]);
      assert s[b..] == s[..|s| - 1][b..] + [s[|s| - 1]];
    } else {
      b := |s|;
    }
  }

  /** Trimming takes away the white space at both ends, all of it and nothing else. */
  lemma TrimSpaceIs(s: string) returns (a: nat, b: nat)
    ensures a <= b <= |s| && TrimSpace(s) == s[a..b] && Blank(s[..a]) && Blank(s[b..])
    ensures a < b ==> !IsSpace(s[a]) && !IsSpace(s[b - 1])
  {
    a := TrimLeftIs(s);
    var c := TrimRightIs(s[a..]);
    b := a + c;
    assert s[b..] == s[a..][c..];
  }

  /** A line starts with its first character that is not white space, trimmed or not. */
  lemma {:induction false} TrimRightFirst(s: string)
    requires s != "" && !IsSpace(s[0])
    ensures TrimRight(s) != "" && TrimRight(s)[0] == s[0]
  {
    if IsSpace(s[|s| - 1]) {
      TrimRightFirst(s[..|s| - 1]);
    }
  }

  lemma TrimFirst(s: string)
    requires s != "" && !IsSpace(s[0])
    ensures TrimSpace(s) != "" && TrimSpace(s)[0] == s[0]
  {
    TrimRightFirst(s);
  }

  // Lines.

  /** No newline before index n. */
  predicate Unbroken(text: string, n: nat)
    requires n <= |text|
  {
    forall k :: 0 <= k < n ==> text[k] != '\n'
  }

  /** The index of the first newline. */
  function NewlineAt(text: string): (i: nat)
    requires !Unbroken(text, |text|)
    ensures i < |text| && text[i] == '\n' && Unbroken(text, i)
  {
    if text[0] == '\n' then 0 else NewlineAt(text[1..]) + 1
  }

  /** The terminated lines of the text, each with its newline. */
  function Lines(text: string): seq<string> {
    if Unbroken(text, |text|) then [] else [text[..NewlineAt(text) + 1]] + Lines(text[NewlineAt(text) + 1..])
  }

  /** What follows the last newline. */
  function Unterminated(text: string): string {
    if Unbroken(text, |text|) then text else Unterminated(text[NewlineAt(text) + 1..])
  }

  function Flat(lines: seq<string>): string {
    if lines == [] then "" else lines[0] + Flat(lines[1..])
  }

  predicate IsLine(l: string) {
    l != "" && l[|l| - 1] == '\n' && Unbroken(l, |l| - 1)
  }

  predicate AreLines(lines: seq<string>) {
    forall i :: 0 <= i < |lines| ==> IsLine(lines[i])
  }

  lemma Associative(a: string, b: string, c: string)
    ensures a + (b + c) == a + b + c
  {
  }

  lemma Cut(text: string, i: nat)
    requires i <= |text|
    ensures text == text[..i] + text[i..]
  {
  }

  lemma FlatCons(l: string, lines: seq<string>)
    ensures Flat([l] + lines) == l + Flat(lines)
  {
  }

  lemma {:induction false} LinesAreLines(text: string)
    ensures AreLines(Lines(text))
  {
    if !Unbroken(text, |text|) {
      LinesAreLines(text[NewlineAt(text) + 1..]);
      assert IsLine(text[..NewlineAt(text) + 1]);
    }
  }

  lemma {:induction false} UnterminatedUnbroken(text: string)
    ensures Unbroken(Unterminated(text), |Unterminated(text)|)
  {
    if !Unbroken(text, |text|) {
      UnterminatedUnbroken(text[NewlineAt(text) + 1..]);
    }
  }

  /** The text is its lines and what follows them. */
  lemma {:induction false} TextOfLines(text: string)
    ensures text == Flat(Lines(text)) + Unterminated(text)
  {
    if !Unbroken(text, |text|) {
      hide Unbroken, Flat;
      var l, rest := text[..NewlineAt(text) + 1], text[NewlineAt(text) + 1..];
      TextOfLines(rest);
      FlatCons(l, Lines(rest));
      Associative(l, Flat(Lines(rest)), Unterminated(rest));
      Cut(text, NewlineAt(text) + 1);
    }
  }

  lemma {:induction false} LinesOfFlat(lines: seq<string>, rest: string)
    requires AreLines(lines) && Unbroken(rest, |rest|)
    ensures Lines(Flat(lines) + rest) == lines && Unterminated(Flat(lines) + rest) == rest
  {
    if lines == [] {
      assert Flat(lines) + rest == rest;
    } else {
      var text := Flat(lines) + rest;
      var l := lines[0];
      assert text == l + (Flat(lines[1..]) + rest);
      assert text[|l| - 1] == '\n' && forall k :: 0 <= k < |l| ==> text[k] == l[k];
      FirstNewline(text, |l| - 1);
      assert text[..|l|] == l;
      assert text[|l|..] == Flat(lines[1..]) + rest;
      LinesOfFlat(lines[1..], rest);
    }
  }

  lemma FirstNewline(text: string, i: nat)
    requires i < |text| && text[i] == '\n' && Unbroken(text, i)
    ensures !Unbroken(text, |text|) && NewlineAt(text) == i
  {
    assert !Unbroken(text, |text|);
  }

  lemma NoLines(text: string)
    requires Unbroken(text, |text|)
    ensures Lines(text) == []
  {
  }

  lemma {:induction false} FirstLine(text: string, i: nat)
    requires i < |text| && text[i] == '\n' && Unbroken(text, i)
    ensures Lines(text) == [text[..i + 1]] + Lines(text[i + 1..])
  {
    FirstNewline(text, i);
  }

  lemma DropTwice(text: string, i: nat, j: nat)
    requires i + j <= |text|
    ensures text[i..][j..] == text[i + j..]
  {
  }

  lemma {:induction false} FlatJoin(a: seq<string>, b: seq<string>)
    ensures Flat(a + b) == Flat(a) + Flat(b)
  {
    if a == [] {
      assert a + b == b;
    } else {
      assert (a + b)[1..] == a[1..] + b;
      FlatJoin(a[1..], b);
    }
  }

  // Markers.

  const HEAD := "###### CLAB-"
  const START := "-START ######"
  const END := "-END ######"

  function StartMarker(lab: string): string {
    HEAD + lab + START
  }

  function EndMarker(lab: string): string {
    HEAD + lab + END
  }

  predicate IsMarker(line: string, lab: string) {
    TrimSpace(line) == StartMarker(lab) || TrimSpace(line) == EndMarker(lab)
  }

  /** A marker survives trimming, and only the newline is trimmed from its line. */
  lemma MarkerLine(marker: string)
    requires marker != "" && !IsSpace(marker[0]) && !IsSpace(marker[|marker| - 1])
    ensures TrimSpace(marker + "\n") == marker
  {
    var line := marker + "\n";
    assert TrimLeft(line) == line;
    assert line[..|line| - 1] == marker;
    assert TrimRight(line) == TrimRight(marker);
  }

  lemma MarkersTrimmed(lab: string)
    ensures TrimSpace(StartMarker(lab) + "\n") == StartMarker(lab)
    ensures TrimSpace(EndMarker(lab) + "\n") == EndMarker(lab)
  {
    MarkerLine(StartMarker(lab));
    MarkerLine(EndMarker(lab));
  }

  lemma CutBoth(head: string, a: string, b: string, tail: string)
    requires head + a + tail == head + b + tail
    ensures a == b
  {
    var s := head + a + tail;
    assert |a| == |b|;
    assert a == s[|head|..|head| + |a|];
    assert b == s[|head|..|head| + |b|];
  }

  /** Different labs have different markers, and no start marker is an end marker. */
  lemma MarkersDiffer(a: string, b: string)
    ensures StartMarker(a) == StartMarker(b) ==> a == b
    ensures EndMarker(a) == EndMarker(b) ==> a == b
    ensures StartMarker(a) != EndMarker(b)
  {
    if StartMarker(a) == StartMarker(b) {
      CutBoth(HEAD, a, b, START);
    }
    if EndMarker(a) == EndMarker(b) {
      CutBoth(HEAD, a, b, END);
    }
    var s, e := StartMarker(a), EndMarker(b);
    assert s[|s| - 8] == 'T';
    assert e[|e| - 8] == 'D';
  }
}
