/**
 Line endings, stated on lists of lines: a text is its lines, each ended by a
 terminator of its own.
 */
module TextLines {
  import opened TextNormalise

  datatype Terminator = Lf | Cr | CrLf

  function Ending(t: Terminator): string {
    match t
    case Lf => "\n"
    case Cr => "\r"
    case CrLf => "\r\n"
  }

  predicate IsLine(line: string) {
    '\n' !in line && '\r' !in line
  }

  /** Lines and the terminators between them. */
  ghost predicate AreLines(lines: seq<string>, ends: seq<Terminator>) {
    |lines| == |ends| + 1 && forall l :: l in lines ==> IsLine(l)
  }

  function Write(lines: seq<string>, ends: seq<Terminator>): string
    requires |lines| == |ends| + 1
  {
    if ends == [] then lines[0] else lines[0] + Ending(ends[0]) + Write(lines[1..], ends[1..])
  }

  /** A carriage return, then an empty line ended by a line feed: read as one CRLF. */
  predicate Merges(lines: seq<string>, ends: seq<Terminator>, i: nat)
    requires |lines| == |ends| + 1
  {
    i + 1 < |ends| && ends[i] == Cr && lines[i + 1] == "" && ends[i + 1] == Lf
  }

  ghost predicate Legible(lines: seq<string>, ends: seq<Terminator>)
    requires |lines| == |ends| + 1
  {
    forall i :: 0 <= i < |ends| ==> !Merges(lines, ends, i)
  }

  lemma AreLinesNext(lines: seq<string>, ends: seq<Terminator>)
    requires AreLines(lines, ends) && ends != []
    ensures AreLines(lines[1..], ends[1..]) && IsLine(lines[0]) && IsLine(lines[1])
    ensures Legible(lines, ends) <==> !Merges(lines, ends, 0) && Legible(lines[1..], ends[1..])
  {
    assert lines[0] in lines && lines[1] in lines;
    assert forall i :: 0 <= i < |ends| - 1 ==> Merges(lines[1..], ends[1..], i) == Merges(lines, ends, i + 1);
    if Legible(lines, ends) {
      assert !Merges(lines, ends, 0);
    } else {
      var i :| 0 <= i < |ends| && Merges(lines, ends, i);
      if i > 0 {
        assert Merges(lines[1..], ends[1..], i - 1);
      }
    }
  }

  lemma {:induction false} LineCopied(line: string, rest: string)
    requires '\r' !in line
    ensures LineEndings(line + rest) == line + LineEndings(rest)
  {
    if line == "" {
      assert line + rest == rest;
    } else {
      assert line[0] in line && '\r' !in line[1..];
      assert (line + rest)[1..] == line[1..] + rest;
      LineCopied(line[1..], rest);
    }
  }

  /** One terminator gives one newline, unless a carriage return takes a line feed with it. */
  lemma EndingReplaced(t: Terminator, rest: string)
    ensures t == Cr && rest != "" && rest[0] == '\n' ==>
              LineEndings(Ending(t) + rest) == "\n" + LineEndings(rest[1..])
    ensures !(t == Cr && rest != "" && rest[0] == '\n') ==>
              LineEndings(Ending(t) + rest) == "\n" + LineEndings(rest)
  {
    var s := Ending(t) + rest;
    match t
    case Lf =>
      assert s[1..] == rest;
    case Cr =>
      assert s[1..] == rest;
      if rest != "" {
        assert s[1] == rest[0] && s[2..] == rest[1..];
      }
    case CrLf =>
      assert s[2..] == rest;
  }

  lemma FirstLineCopied(line: string, t: Terminator, rest: string)
    requires IsLine(line)
    ensures LineEndings(line + Ending(t) + rest) == line + LineEndings(Ending(t) + rest)
  {
    Associates(line, Ending(t), rest);
    LineCopied(line, Ending(t) + rest);
  }

  lemma WriteStarts(lines: seq<string>, ends: seq<Terminator>)
    requires AreLines(lines, ends)
    ensures var text := Write(lines, ends);
            text != "" && text[0] == '\n' <==> ends != [] && lines[0] == "" && ends[0] == Lf
  {
    assert IsLine(lines[0]) by { assert lines[0] in lines; }
    if lines[0] != "" {
      assert lines[0][0] in lines[0];
    }
  }

  lemma EndedLine(line: string, t: Terminator, rest: string)
    requires IsLine(line) && !(t == Cr && rest != "" && rest[0] == '\n')
    ensures LineEndings(line + Ending(t) + rest) == line + "\n" + LineEndings(rest)
  {
    FirstLineCopied(line, t, rest);
    EndingReplaced(t, rest);
    Associates(line, "\n", LineEndings(rest));
  }

  lemma Associates(a: string, b: string, c: string)
    ensures a + (b + c) == a + b + c
  {
  }

  /** Whatever terminator ends each line, the lines come out joined by newlines. */
  lemma {:induction false} TerminatorsReplaced(lines: seq<string>, ends: seq<Terminator>)
    requires AreLines(lines, ends) && Legible(lines, ends)
    ensures LineEndings(Write(lines, ends)) == Join(lines)
  {
    if ends == [] {
      assert lines[0] in lines;
      LineEndingsClean(lines[0]);
    } else {
      AreLinesNext(lines, ends);
      WriteStarts(lines[1..], ends[1..]);
      EndedLine(lines[0], ends[0], Write(lines[1..], ends[1..]));
      TerminatorsReplaced(lines[1..], ends[1..]);
    }
  }

  /** Where a carriage return takes the next line's feed with it, a line is lost. */
  lemma {:induction false} TerminatorsMerge(lines: seq<string>, ends: seq<Terminator>)
    requires AreLines(lines, ends)
    ensures |LineEndings(Write(lines, ends))| <= |Join(lines)|
    ensures !Legible(lines, ends) ==> |LineEndings(Write(lines, ends))| < |Join(lines)|
    decreases |lines|
  {
    if ends == [] {
      assert lines[0] in lines;
      LineEndingsClean(lines[0]);
    } else {
      AreLinesNext(lines, ends);
      var rest := Write(lines[1..], ends[1..]);
      TerminatorsMerge(lines[1..], ends[1..]);
      WriteStarts(lines[1..], ends[1..]);
      EndingReplaced(ends[0], rest);
      FirstLineCopied(lines[0], ends[0], rest);
      if ends[0] == Cr && rest != "" && rest[0] == '\n' {
        EndingReplaced(Lf, rest[1..]);
        assert rest == Ending(Lf) + rest[1..];
      }
    }
  }

  /** So the lines survive if and only if no carriage return stands before an empty line ended by a line feed. */
  lemma TerminatorsExactly(lines: seq<string>, ends: seq<Terminator>)
    requires AreLines(lines, ends)
    ensures LineEndings(Write(lines, ends)) == Join(lines) <==> Legible(lines, ends)
  {
    if Legible(lines, ends) {
      TerminatorsReplaced(lines, ends);
    } else {
      TerminatorsMerge(lines, ends);
    }
  }

  /** Every text is written by some lines and terminators that can be told apart. */
  lemma {:induction false} EveryTextIsWritten(s: string) returns (lines: seq<string>, ends: seq<Terminator>)
    ensures AreLines(lines, ends) && Legible(lines, ends) && Write(lines, ends) == s
    decreases |s|
  {
    if s == "" {
      lines, ends := [""], [];
    } else if s[0] != '\r' && s[0] != '\n' {
      lines, ends := EveryTextIsWritten(s[1..]);
      Lengthened(s[0], lines, ends);
      lines := [[s[0]] + lines[0]] + lines[1..];
      assert s == [s[0]] + s[1..];
    } else {
      var t := if s[0] == '\n' then Lf else if |s| > 1 && s[1] == '\n' then CrLf else Cr;
      var rest := if t == CrLf then s[2..] else s[1..];
      lines, ends := EveryTextIsWritten(rest);
      WriteStarts(lines, ends);
      EndedBefore(t, lines, ends);
      lines, ends := [""] + lines, [t] + ends;
      assert s == Ending(t) + rest;
    }
  }

  lemma Lengthened(c: char, lines: seq<string>, ends: seq<Terminator>)
    requires AreLines(lines, ends) && Legible(lines, ends) && c != '\r' && c != '\n'
    ensures var longer := [[c] + lines[0]] + lines[1..];
            AreLines(longer, ends) && Legible(longer, ends) && Write(longer, ends) == [c] + Write(lines, ends)
  {
    var longer := [[c] + lines[0]] + lines[1..];
    assert lines[0] in lines;
    assert longer[1..] == lines[1..];
    assert forall i :: 0 <= i < |ends| ==> Merges(longer, ends, i) == Merges(lines, ends, i);
    if ends != [] {
      var rest := Write(lines[1..], ends[1..]);
      assert [c] + lines[0] + Ending(ends[0]) + rest == [c] + (lines[0] + Ending(ends[0]) + rest);
    }
  }

  lemma EndedBefore(t: Terminator, lines: seq<string>, ends: seq<Terminator>)
    requires AreLines(lines, ends) && Legible(lines, ends)
    requires !(t == Cr && ends != [] && lines[0] == "" && ends[0] == Lf)
    ensures AreLines([""] + lines, [t] + ends) && Legible([""] + lines, [t] + ends)
    ensures Write([""] + lines, [t] + ends) == Ending(t) + Write(lines, ends)
  {
    var lines', ends' := [""] + lines, [t] + ends;
    assert lines'[1..] == lines && ends'[1..] == ends;
    assert AreLines(lines', ends');
    AreLinesNext(lines', ends');
    assert "" + Ending(t) + Write(lines, ends) == Ending(t) + Write(lines, ends);
  }
}
