/**
 What normalising keeps of a text: its visible characters, its lines that show
 something, and where blank lines stand between them.
 */
module TextOutline {
  import opened TextNormalise
  import opened TextLines

  // ---------------------------------------------------------------------------
  // Character classes
  // ---------------------------------------------------------------------------

  /** The ASCII controls, but for tab, line feed and carriage return. */
  lemma ControlsExactly(c: char)
    ensures Control(c) <==> (c as int < 0x20 && c != '\t' && c != '\n' && c != '\r') || c as int == 0x7f
    ensures Blank(c) ==> Space(c) && !Control(c)
  {
  }

  /** White space and line terminators of ECMAScript, by code point, and the three blanks among them. */
  lemma SpacesExactly(c: char)
    ensures Space(c) <==>
            c as int in {9, 10, 11, 12, 13, 32, 160, 5760, 8192, 8193, 8194, 8195, 8196, 8197, 8198, 8199, 8200, 8201,
                         8202, 8232, 8233, 8239, 8287, 12288, 65279}
    ensures Blank(c) <==> c as int in {9, 32, 160}
  {
  }

  // ---------------------------------------------------------------------------
  // The visible characters
  // ---------------------------------------------------------------------------

  predicate Shows(c: char) {
    !Space(c) && !Control(c)
  }

  function Visible(s: string): string {
    if s == "" then ""
    else if Shows(s[0]) then [s[0]] + Visible(s[1..])
    else Visible(s[1..])
  }

  lemma {:induction false} VisibleEndings(s: string)
    ensures Visible(LineEndings(s)) == Visible(s)
    decreases |s|
  {
    if s != "" {
      if s[0] == '\r' && |s| > 1 && s[1] == '\n' {
        VisibleEndings(s[2..]);
        assert s[1..][1..] == s[2..];
      } else {
        VisibleEndings(s[1..]);
      }
    }
  }

  lemma {:induction false} VisibleControls(s: string)
    ensures Visible(StripControls(s)) == Visible(s)
  {
    if s != "" {
      VisibleControls(s[1..]);
    }
  }

  lemma {:induction false} VisibleStrip(s: string)
    ensures Visible(StripLines(s)) == Visible(s)
  {
    if s != "" {
      VisibleStrip(s[1..]);
    }
  }

  lemma {:induction false} VisibleCollapse(s: string)
    ensures Visible(CollapseEach(s)) == Visible(s)
  {
    if s != "" {
      VisibleCollapse(s[1..]);
    }
  }

  lemma {:induction false} VisibleTrimStart(s: string)
    ensures Visible(TrimStart(s)) == Visible(s)
  {
    if s != "" && Space(s[0]) {
      VisibleTrimStart(s[1..]);
    }
  }

  lemma {:induction false} VisibleAppend(s: string, c: char)
    requires !Shows(c)
    ensures Visible(s + [c]) == Visible(s)
  {
    if s != "" {
      assert (s + [c])[1..] == s[1..] + [c];
      VisibleAppend(s[1..], c);
    }
  }

  lemma {:induction false} VisibleTrimEnd(s: string)
    ensures Visible(TrimEnd(s)) == Visible(s)
  {
    if s != "" && Space(s[|s| - 1]) {
      var n := |s| - 1;
      VisibleTrimEnd(s[..n]);
      VisibleAppend(s[..n], s[n]);
      assert s == s[..n] + [s[n]];
    }
  }

  /** No visible character is lost, added or moved. */
  lemma VisibleKept(s: string)
    ensures Visible(Cleaned(s)) == Visible(s)
  {
    var s1 := LineEndings(s);
    VisibleEndings(s);
    var s2 := StripControls(s1);
    VisibleControls(s1);
    var s3 := StripLines(s2);
    LinesAreStripped(s2);
    VisibleStrip(s2);
    var s4 := CollapseEach(s3);
    CollapseIsEach(s3);
    VisibleCollapse(s3);
    VisibleTrimStart(s4);
    VisibleTrimEnd(TrimStart(s4));
  }

  // ---------------------------------------------------------------------------
  // Lines that show something
  // ---------------------------------------------------------------------------

  /** A line without control characters and without the white space at its end. */
  function Bare(line: string): string {
    TrimEnd(StripControls(line))
  }

  /** The numbers from `k` on of the lines that show something. */
  function ShownFrom(lines: seq<string>, k: nat): (at: seq<nat>)
    requires k <= |lines|
    ensures forall i :: 0 <= i < |at| ==> k <= at[i] < |lines|
    decreases |lines| - k
  {
    if k == |lines| then []
    else (if Bare(lines[k]) == "" then [] else [k]) + ShownFrom(lines, k + 1)
  }

  /** The numbers of the lines that show something. */
  function Shown(lines: seq<string>): (at: seq<nat>)
    ensures forall i :: 0 <= i < |at| ==> at[i] < |lines|
  {
    ShownFrom(lines, 0)
  }

  ghost predicate Increasing(at: seq<nat>) {
    forall i, j :: 0 <= i < j < |at| ==> at[i] < at[j]
  }

  lemma IncreasingCons(k: nat, at: seq<nat>)
    requires Increasing(at) && forall i :: 0 <= i < |at| ==> k < at[i]
    ensures Increasing([k] + at)
  {
    var longer := [k] + at;
    forall i, j | 0 <= i < j < |longer|
      ensures longer[i] < longer[j]
    {
      assert longer[j] == at[j - 1];
    }
  }

  lemma {:induction false} ShownFromExactly(lines: seq<string>, k: nat)
    requires k <= |lines|
    ensures forall j :: k <= j < |lines| ==> (j in ShownFrom(lines, k) <==> Bare(lines[j]) != "")
    ensures Increasing(ShownFrom(lines, k))
    decreases |lines| - k
  {
    if k < |lines| {
      ShownFromExactly(lines, k + 1);
      IncreasingCons(k, ShownFrom(lines, k + 1));
    }
  }

  lemma {:induction false} BareShows(line: string)
    ensures Bare(line) == "" <==> Visible(line) == ""
  {
    if line != "" {
      BareShows(line[1..]);
      assert line == [line[0]] + line[1..];
      BareCons(line[0], line[1..]);
    }
  }

  /** They are exactly the lines with a visible character, in order. */
  lemma ShownExactly(lines: seq<string>)
    ensures forall j :: 0 <= j < |lines| ==> (j in Shown(lines) <==> Visible(lines[j]) != "")
    ensures Increasing(Shown(lines))
  {
    ShownFromExactly(lines, 0);
    forall j | 0 <= j < |lines|
      ensures j in Shown(lines) <==> Visible(lines[j]) != ""
    {
      BareShows(lines[j]);
    }
  }

  lemma {:induction false} TrimEndCons(c: char, line: string)
    ensures TrimEnd([c] + line) == if TrimEnd(line) == "" && Space(c) then "" else [c] + TrimEnd(line)
  {
    var s := [c] + line;
    if line == "" {
      assert s[..0] == "";
      if Space(c) {
        assert TrimEnd(s) == TrimEnd("");
      }
    } else {
      var n := |line| - 1;
      assert s[|s| - 1] == line[n];
      if Space(line[n]) {
        assert s[..|s| - 1] == [c] + line[..n];
        TrimEndCons(c, line[..n]);
      }
    }
  }

  lemma BareCons(c: char, line: string)
    ensures Bare([c] + line)
            == if Control(c) || (Bare(line) == "" && Space(c)) then Bare(line) else [c] + Bare(line)
  {
    assert ([c] + line)[1..] == line;
    TrimEndCons(c, StripControls(line));
  }

  // ---------------------------------------------------------------------------
  // The outline of a text, read from its end
  // ---------------------------------------------------------------------------

  /** A line that shows something, and whether a blank line follows before the next such line. */
  datatype Entry = Entry(text: string, gap: bool)

  /** The line that is being read, whether a blank line follows it, and the lines after it. */
  datatype Outline = Outline(line: string, gap: bool, rest: seq<Entry>)

  function Read(c: char, o: Outline): Outline {
    if Control(c) then o
    else if c == '\n' then
      if o.line == "" then Outline("", o.rest != [], o.rest)
      else Outline("", false, [Entry(o.line, o.gap)] + o.rest)
    else if o.line == "" && Space(c) then o
    else o.(line := [c] + o.line)
  }

  function OutlineOf(s: string): Outline {
    if s == "" then Outline("", false, []) else Read(s[0], OutlineOf(s[1..]))
  }

  /** The first line without the white space before it. */
  function FirstTrimmed(all: seq<Entry>): seq<Entry> {
    if all == [] then [] else [all[0].(text := TrimStart(all[0].text))] + all[1..]
  }

  /** All lines that show something. */
  function Entries(o: Outline): seq<Entry> {
    FirstTrimmed(if o.line == "" then o.rest else [Entry(o.line, o.gap)] + o.rest)
  }

  lemma {:induction false} OutlineControls(s: string)
    ensures OutlineOf(StripControls(s)) == OutlineOf(s)
  {
    if s != "" {
      OutlineControls(s[1..]);
    }
  }

  lemma OutlineAtEnd(s: string)
    requires s == "" || s[0] == '\n'
    ensures OutlineOf(s).line == ""
  {
  }

  lemma {:induction false} OutlineStrip(s: string)
    ensures OutlineOf(StripLines(s)) == OutlineOf(s)
  {
    if s != "" {
      OutlineStrip(s[1..]);
      var rest := StripLines(s[1..]);
      if rest == "" || rest[0] == '\n' {
        OutlineAtEnd(rest);
        ControlsExactly(s[0]);
      }
    }
  }

  lemma OutlineTwoNewlines(s: string)
    requires |s| >= 2 && s[0] == '\n' && s[1] == '\n'
    ensures Read('\n', OutlineOf(s)) == OutlineOf(s)
  {
    assert s[1..][0] == '\n';
    OutlineAtEnd(s[1..]);
  }

  lemma {:induction false} OutlineCollapse(s: string)
    ensures OutlineOf(CollapseEach(s)) == OutlineOf(s)
  {
    if s != "" {
      OutlineCollapse(s[1..]);
      var rest := CollapseEach(s[1..]);
      if s[0] == '\n' && |rest| >= 2 && rest[0] == '\n' && rest[1] == '\n' {
        OutlineTwoNewlines(rest);
      }
    }
  }

  lemma EntriesBehindSpace(c: char, o: Outline)
    requires Space(c)
    ensures Entries(Read(c, o)) == Entries(o)
  {
    assert ([c] + o.line)[1..] == o.line;
  }

  lemma {:induction false} EntriesTrimStart(s: string)
    ensures Entries(OutlineOf(TrimStart(s))) == Entries(OutlineOf(s))
  {
    if s != "" && Space(s[0]) {
      EntriesTrimStart(s[1..]);
      EntriesBehindSpace(s[0], OutlineOf(s[1..]));
    }
  }

  lemma {:induction false} OutlineAppend(s: string, c: char)
    requires Space(c)
    ensures OutlineOf(s + [c]) == OutlineOf(s)
  {
    if s == "" {
      assert s + [c] == [c] && [c][1..] == "";
    } else {
      assert (s + [c])[1..] == s[1..] + [c];
      OutlineAppend(s[1..], c);
    }
  }

  lemma {:induction false} OutlineTrimEnd(s: string)
    ensures OutlineOf(TrimEnd(s)) == OutlineOf(s)
  {
    if s != "" && Space(s[|s| - 1]) {
      var n := |s| - 1;
      OutlineTrimEnd(s[..n]);
      OutlineAppend(s[..n], s[n]);
      assert s == s[..n] + [s[n]];
    }
  }

  lemma EntriesKept(s: string)
    ensures Entries(OutlineOf(Cleaned(s))) == Entries(OutlineOf(LineEndings(s)))
  {
    var s1 := LineEndings(s);
    var s2 := StripControls(s1);
    OutlineControls(s1);
    var s3 := StripLines(s2);
    LinesAreStripped(s2);
    OutlineStrip(s2);
    var s4 := CollapseEach(s3);
    CollapseIsEach(s3);
    OutlineCollapse(s3);
    EntriesTrimStart(s4);
    OutlineTrimEnd(TrimStart(s4));
  }

  // ---------------------------------------------------------------------------
  // The outline of a text is that of its lines
  // ---------------------------------------------------------------------------

  function Listed(lines: seq<string>): seq<Entry> {
    if lines == [] then []
    else if Bare(lines[0]) == "" then Listed(lines[1..])
    else [Entry(Bare(lines[0]), GapBefore(lines[1..]))] + Listed(lines[1..])
  }

  /** A blank line comes first and a line that shows something later. */
  predicate GapBefore(lines: seq<string>) {
    lines != [] && Bare(lines[0]) == "" && Listed(lines[1..]) != []
  }

  lemma {:induction false} OutlineOfLines(s: string)
    ensures var lines := Split(s);
            OutlineOf(s) == Outline(Bare(lines[0]), GapBefore(lines[1..]), Listed(lines[1..]))
  {
    if s != "" {
      OutlineOfLines(s[1..]);
      var lines := Split(s[1..]);
      if s[0] == '\n' {
        assert Split(s)[1..] == lines;
      } else {
        assert Split(s)[1..] == lines[1..];
        BareCons(s[0], lines[0]);
      }
    }
  }

  lemma EntriesOfLines(s: string)
    ensures Entries(OutlineOf(s)) == FirstTrimmed(Listed(Split(s)))
  {
    OutlineOfLines(s);
  }

  /** The numbers of the lines say what is listed, and where a blank line follows. */
  ghost predicate Lists(lines: seq<string>, at: seq<nat>, all: seq<Entry>)
    requires forall i :: 0 <= i < |at| ==> at[i] < |lines|
  {
    && |all| == |at|
    && (forall i :: 0 <= i < |at| ==> all[i].text == Bare(lines[at[i]]))
    && (forall i :: 0 <= i < |at| - 1 ==> (all[i].gap <==> at[i] + 1 < at[i + 1]))
    && (at != [] ==> !all[|at| - 1].gap)
  }

  lemma ListsCons(lines: seq<string>, k: nat, at: seq<nat>, gap: bool, all: seq<Entry>)
    requires k < |lines| && (forall i :: 0 <= i < |at| ==> at[i] < |lines|) && Lists(lines, at, all)
    requires gap <==> at != [] && k + 1 < at[0]
    ensures Lists(lines, [k] + at, [Entry(Bare(lines[k]), gap)] + all)
  {
    var at', all' := [k] + at, [Entry(Bare(lines[k]), gap)] + all;
    forall i | 0 <= i < |at'|
      ensures all'[i].text == Bare(lines[at'[i]])
      ensures i < |at'| - 1 ==> (all'[i].gap <==> at'[i] + 1 < at'[i + 1])
      ensures i == |at'| - 1 ==> !all'[i].gap
    {
      if i > 0 {
        assert all'[i] == all[i - 1] && at'[i] == at[i - 1];
      }
    }
  }

  /** A blank line stands before the next line that shows something exactly if that is not the next line. */
  lemma GapExactly(lines: seq<string>, k: nat)
    requires k <= |lines|
    requires k < |lines| ==> |Listed(lines[k + 1..])| == |ShownFrom(lines, k + 1)|
    ensures GapBefore(lines[k..]) <==> ShownFrom(lines, k) != [] && k < ShownFrom(lines, k)[0]
  {
    if k < |lines| {
      assert lines[k..][1..] == lines[k + 1..];
    }
  }

  lemma {:induction false} ListedFrom(lines: seq<string>, k: nat)
    requires k <= |lines|
    ensures Lists(lines, ShownFrom(lines, k), Listed(lines[k..]))
    decreases |lines| - k
  {
    if k < |lines| {
      var here, rest := lines[k..], lines[k + 1..];
      assert here[0] == lines[k] && here[1..] == rest;
      ListedFrom(lines, k + 1);
      if Bare(lines[k]) == "" {
        assert Listed(here) == Listed(rest) && ShownFrom(lines, k) == ShownFrom(lines, k + 1);
      } else {
        if k + 1 < |lines| {
          ListedFrom(lines, k + 2);
        }
        GapExactly(lines, k + 1);
        ListsCons(lines, k, ShownFrom(lines, k + 1), GapBefore(rest), Listed(rest));
        assert Listed(here) == [Entry(Bare(lines[k]), GapBefore(rest))] + Listed(rest);
      }
    }
  }

  lemma {:induction false} SplitOfLine(line: string, rest: string)
    requires '\n' !in line
    ensures Split(line + "\n" + rest) == [line] + Split(rest)
    ensures Split(line) == [line]
  {
    var s := line + "\n" + rest;
    if line == "" {
      assert s[1..] == rest;
    } else {
      assert line[0] in line && '\n' !in line[1..];
      SplitOfLine(line[1..], rest);
      assert s[1..] == line[1..] + "\n" + rest;
      assert line == [line[0]] + line[1..];
    }
  }

  lemma {:induction false} SplitOfJoin(lines: seq<string>)
    requires lines != [] && forall l :: l in lines ==> '\n' !in l
    ensures Split(Join(lines)) == lines
  {
    assert lines[0] in lines;
    SplitOfLine(lines[0], Join(lines[1..]));
    if |lines| > 1 {
      SplitOfJoin(lines[1..]);
    }
  }

  // ---------------------------------------------------------------------------
  // The law
  // ---------------------------------------------------------------------------

  /** What two texts agree on, in lines. */
  ghost predicate SameOutline(before: seq<string>, after: seq<string>) {
    var p, q := Shown(before), Shown(after);
    && |p| == |q|
    && (p != [] ==> TrimStart(Bare(after[q[0]])) == TrimStart(Bare(before[p[0]])))
    && (forall i :: 0 < i < |p| ==> Bare(after[q[i]]) == Bare(before[p[i]]))
    && (forall i :: 0 <= i < |p| - 1 ==> (q[i] + 1 < q[i + 1] <==> p[i] + 1 < p[i + 1]))
  }

  /** The lists of two texts agree, but for white space before the first line. */
  ghost predicate SameLists(a: seq<Entry>, b: seq<Entry>) {
    && |a| == |b|
    && (a != [] ==> TrimStart(a[0].text) == TrimStart(b[0].text) && a[0].gap == b[0].gap)
    && (forall i :: 0 < i < |a| ==> a[i] == b[i])
  }

  lemma SameEntries(a: seq<Entry>, b: seq<Entry>)
    requires FirstTrimmed(a) == FirstTrimmed(b)
    ensures SameLists(a, b)
  {
    var e := FirstTrimmed(a);
    forall i | 0 < i < |a|
      ensures a[i] == b[i]
    {
      assert a[i] == e[i];
    }
    if a != [] {
      assert e[0] == a[0].(text := TrimStart(a[0].text));
    }
  }

  lemma SameListsShow(before: seq<string>, after: seq<string>)
    requires SameLists(Listed(before), Listed(after))
    ensures SameOutline(before, after)
  {
    assert before[0..] == before && after[0..] == after;
    ListedFrom(before, 0);
    ListedFrom(after, 0);
    var a, b := Listed(before), Listed(after);
    assert forall i :: 0 <= i < |a| ==> a[i].gap == b[i].gap;
  }

  /**
   Whatever the lines of a text and whatever ends each of them: normalising
   keeps the lines that show something, in order, each with its text, and two
   neighbours have a blank line between them exactly if they had one.
   */
  lemma OutlineKept(lines: seq<string>, ends: seq<Terminator>)
    requires AreLines(lines, ends) && Legible(lines, ends)
    ensures SameOutline(lines, Split(Cleaned(Write(lines, ends))))
  {
    var s := Write(lines, ends);
    TerminatorsReplaced(lines, ends);
    EntriesKept(s);
    assert forall l :: l in lines ==> IsLine(l);
    SplitOfJoin(lines);
    EntriesOfLines(LineEndings(s));
    EntriesOfLines(Cleaned(s));
    SameEntries(Listed(lines), Listed(Split(Cleaned(s))));
    SameListsShow(lines, Split(Cleaned(s)));
  }

  /** The same of the whole normaliser, for every text. */
  lemma NormaliseKeepsOutline(nfc: string -> string, raw: string)
      returns (lines: seq<string>, ends: seq<Terminator>)
    ensures AreLines(lines, ends) && Legible(lines, ends) && Write(lines, ends) == nfc(raw)
    ensures SameOutline(lines, Split(Normalise(nfc, raw)))
    ensures Visible(Normalise(nfc, raw)) == Visible(nfc(raw))
  {
    lines, ends := EveryTextIsWritten(nfc(raw));
    OutlineKept(lines, ends);
    VisibleKept(nfc(raw));
  }
}
