/**
 `normalizeExtractedText`: line endings, control characters, trailing blanks,
 blank lines and outer whitespace, one replacement after the other.
 Unicode normalisation is a parameter.
 */
module TextNormalise {

  // ---------------------------------------------------------------------------
  // Character classes
  // ---------------------------------------------------------------------------

  /** The control characters that are removed. */
  predicate Control(c: char) {
    var n := c as int;
    n <= 0x08 || n == 0x0b || n == 0x0c || 0x0e <= n <= 0x1f || n == 0x7f
  }

  predicate Blank(c: char) {
    c == ' ' || c == '\t' || c as int == 0xa0
  }

  /** White space and line terminators, as `trim` removes them. */
  predicate Space(c: char) {
    var n := c as int;
    || 0x09 <= n <= 0x0d || n == 0x20 || n == 0xa0 || n == 0x1680 || 0x2000 <= n <= 0x200a
    || n == 0x2028 || n == 0x2029 || n == 0x202f || n == 0x205f || n == 0x3000 || n == 0xfeff
  }

  // ---------------------------------------------------------------------------
  // The replacements
  // ---------------------------------------------------------------------------

  /** `replace(/\r\n?/g, '\n')` */
  function LineEndings(s: string): string {
    if s == "" then ""
    else if s[0] != '\r' then [s[0]] + LineEndings(s[1..])
    else ['\n'] + LineEndings(if |s| > 1 && s[1] == '\n' then s[2..] else s[1..])
  }

  function StripControls(s: string): string {
    if s == "" then ""
    else if Control(s[0]) then StripControls(s[1..])
    else [s[0]] + StripControls(s[1..])
  }

  function Split(s: string): (lines: seq<string>)
    ensures lines != []
  {
    if s == "" then [""]
    else
      var rest := Split(s[1..]);
      if s[0] == '\n' then [""] + rest else [[s[0]] + rest[0]] + rest[1..]
  }

  /** `replace(/[ \t\u00A0]+$/g, '')` on one line */
  function StripEnd(line: string): string {
    if line == "" then ""
    else
      var rest := StripEnd(line[1..]);
      if rest == "" && Blank(line[0]) then "" else [line[0]] + rest
  }

  function StripEach(lines: seq<string>): (r: seq<string>)
    ensures |r| == |lines|
  {
    if lines == [] then [] else [StripEnd(lines[0])] + StripEach(lines[1..])
  }

  function Join(lines: seq<string>): string {
    if lines == [] then ""
    else if |lines| == 1 then lines[0]
    else lines[0] + "\n" + Join(lines[1..])
  }

  /** How many newlines `s` starts with. */
  function Run(s: string): (n: nat)
    ensures n <= |s|
  {
    if s != "" && s[0] == '\n' then 1 + Run(s[1..]) else 0
  }

  /** `replace(/\n{3,}/g, '\n\n')` */
  function Collapse(s: string): string
    decreases |s|
  {
    if s == "" then ""
    else if s[0] != '\n' then [s[0]] + Collapse(s[1..])
    else
      var n := Run(s);
      (if n >= 3 then "\n\n" else s[..n]) + Collapse(s[n..])
  }

  function TrimStart(s: string): string {
    if s != "" && Space(s[0]) then TrimStart(s[1..]) else s
  }

  function TrimEnd(s: string): string {
    if s != "" && Space(s[|s| - 1]) then TrimEnd(s[..|s| - 1]) else s
  }

  function Cleaned(s: string): string {
    TrimEnd(TrimStart(Collapse(Join(StripEach(Split(StripControls(LineEndings(s))))))))
  }

  function Normalise(nfc: string -> string, raw: string): string {
    Cleaned(nfc(raw))
  }

  // ---------------------------------------------------------------------------
  // What the output looks like
  // ---------------------------------------------------------------------------

  ghost predicate NoReturn(s: string) {
    forall c :: c in s ==> c != '\r'
  }

  ghost predicate NoControl(s: string) {
    forall c :: c in s ==> !Control(c)
  }

  /** No line ends in a blank. */
  ghost predicate NoBlankEnd(s: string) {
    forall i :: 0 <= i < |s| && Blank(s[i]) ==> i + 1 < |s| && s[i + 1] != '\n'
  }

  ghost predicate NoTripleNewline(s: string) {
    forall i :: 0 <= i < |s| - 2 ==> !(s[i] == '\n' && s[i + 1] == '\n' && s[i + 2] == '\n')
  }

  predicate Trimmed(s: string) {
    s != "" ==> !Space(s[0]) && !Space(s[|s| - 1])
  }

  ghost predicate Clean(s: string) {
    NoReturn(s) && NoControl(s) && NoBlankEnd(s) && NoTripleNewline(s) && Trimmed(s)
  }

  ghost predicate CharsFrom(t: string, s: string) {
    forall c :: c in t ==> c in s
  }

  lemma {:induction false} LineEndingsClean(s: string)
    ensures NoReturn(LineEndings(s))
    ensures NoReturn(s) ==> LineEndings(s) == s
    decreases |s|
  {
    if s != "" {
      LineEndingsClean(s[1..]);
      if s[0] == '\r' && |s| > 1 {
        LineEndingsClean(s[2..]);
      }
      assert s == [s[0]] + s[1..] && s[0] in s;
      assert forall c :: c in s[1..] ==> c in s;
    }
  }

  lemma {:induction false} StripControlsClean(s: string)
    ensures NoControl(StripControls(s)) && CharsFrom(StripControls(s), s)
  {
    if s != "" {
      StripControlsClean(s[1..]);
    }
  }

  lemma {:induction false} StripControlsFixed(s: string)
    requires NoControl(s)
    ensures StripControls(s) == s
  {
    if s != "" {
      assert s[0] in s;
      assert forall c :: c in s[1..] ==> c in s;
      StripControlsFixed(s[1..]);
      assert s == [s[0]] + s[1..];
    }
  }

  // ---------------------------------------------------------------------------
  // Trailing blanks: line by line is the same as one pass over the text
  // ---------------------------------------------------------------------------

  /** Puts `c` before `rest`, unless `c` is a blank and the line ends there. */
  function Before(c: char, rest: string): string {
    if Blank(c) && (rest == "" || rest[0] == '\n') then rest else [c] + rest
  }

  /** Drops every blank that nothing but the end of its line follows. */
  function StripLines(s: string): string {
    if s == "" then "" else Before(s[0], StripLines(s[1..]))
  }

  lemma {:induction false} SplitNoNewline(s: string)
    ensures forall l :: l in Split(s) ==> '\n' !in l
  {
    if s != "" {
      SplitNoNewline(s[1..]);
    }
  }

  lemma {:induction false} StripEndChars(line: string)
    ensures CharsFrom(StripEnd(line), line)
  {
    if line != "" {
      StripEndChars(line[1..]);
    }
  }

  /** What follows the first line: nothing, or a newline and the other lines. */
  function Tail(rest: seq<string>): string {
    if rest == [] then "" else "\n" + Join(rest)
  }

  lemma JoinFirst(first: string, rest: seq<string>)
    ensures Join([first] + rest) == first + Tail(rest)
  {
    assert ([first] + rest)[1..] == rest;
    if rest == [] {
      assert first + Tail(rest) == first;
    } else {
      assert first + "\n" + Join(rest) == first + Tail(rest);
    }
  }

  lemma {:induction false} LinesAreStripped(s: string)
    ensures Join(StripEach(Split(s))) == StripLines(s)
  {
    if s != "" {
      LinesAreStripped(s[1..]);
      var lines := Split(s[1..]);
      if s[0] == '\n' {
        assert ([""] + lines)[1..] == lines;
        JoinFirst("", StripEach(lines));
      } else {
        SplitNoNewline(s[1..]);
        CharBeforeLines(s[0], lines);
      }
    }
  }

  /** A character put before the first line, as `StripLines` treats it. */
  lemma CharBeforeLines(c: char, lines: seq<string>)
    requires lines != [] && c != '\n' && '\n' !in lines[0]
    ensures Join(StripEach([[c] + lines[0]] + lines[1..])) == Before(c, Join(StripEach(lines)))
  {
    var each := StripEach(lines);
    var first := StripEnd([c] + lines[0]);
    assert each == [each[0]] + each[1..];
    JoinFirst(each[0], each[1..]);
    JoinFirst(first, each[1..]);
    FirstLineStripped(c, lines);
    StripEndChars(lines[0]);
    assert each[0] != "" ==> each[0][0] in each[0];
    CharBefore(c, each[0], Tail(each[1..]));
  }

  lemma CharBefore(c: char, line: string, tail: string)
    requires line != "" ==> line[0] != '\n'
    requires tail == "" || tail[0] == '\n'
    ensures (if line == "" && Blank(c) then "" else [c] + line) + tail == Before(c, line + tail)
  {
    if line == "" {
      assert line + tail == tail;
    } else {
      assert (line + tail)[0] == line[0];
      assert [c] + line + tail == [c] + (line + tail);
    }
  }

  /** Prefixing a character to the first line. */
  lemma FirstLineStripped(c: char, lines: seq<string>)
    requires lines != []
    ensures StripEach([[c] + lines[0]] + lines[1..]) == [StripEnd([c] + lines[0])] + StripEach(lines)[1..]
    ensures StripEach(lines)[0] == StripEnd(lines[0])
    ensures StripEnd([c] + lines[0])
            == if StripEnd(lines[0]) == "" && Blank(c) then "" else [c] + StripEnd(lines[0])
  {
    var longer := [[c] + lines[0]] + lines[1..];
    assert longer[1..] == lines[1..];
    assert ([c] + lines[0])[1..] == lines[0];
  }

  lemma {:induction false} StripLinesChars(s: string)
    ensures CharsFrom(StripLines(s), s)
  {
    if s != "" {
      StripLinesChars(s[1..]);
    }
  }

  lemma {:induction false} StripLinesClean(s: string)
    ensures NoBlankEnd(StripLines(s)) && CharsFrom(StripLines(s), s)
    ensures NoBlankEnd(s) ==> StripLines(s) == s
  {
    if s != "" {
      var t := s[1..];
      StripLinesClean(t);
      if NoBlankEnd(s) {
        assert forall i :: 0 <= i < |t| ==> t[i] == s[i + 1];
        assert NoBlankEnd(t);
      }
      var rest := StripLines(t);
      if !(Blank(s[0]) && (rest == "" || rest[0] == '\n')) {
        NoBlankEndCons(s[0], rest);
      }
    }
  }

  lemma NoBlankEndCons(c: char, rest: string)
    requires NoBlankEnd(rest)
    requires Blank(c) ==> rest != "" && rest[0] != '\n'
    ensures NoBlankEnd([c] + rest)
  {
    var s := [c] + rest;
    forall i | 0 <= i < |s| && Blank(s[i])
      ensures i + 1 < |s| && s[i + 1] != '\n'
    {
      if 0 < i {
        assert Blank(rest[i - 1]);
      }
    }
  }

  // ---------------------------------------------------------------------------
  // Blank lines: collapsing runs is the same as never putting a third newline
  // ---------------------------------------------------------------------------

  /** Puts `c` before `rest`, unless that would make a third newline in a row. */
  function Third(c: char, rest: string): string {
    if c == '\n' && |rest| >= 2 && rest[0] == '\n' && rest[1] == '\n' then rest else [c] + rest
  }

  function CollapseEach(s: string): string {
    if s == "" then "" else Third(s[0], CollapseEach(s[1..]))
  }

  /** What is kept of a run of `n` newlines. */
  function Kept(n: nat): string {
    if n == 0 then "" else if n == 1 then "\n" else "\n\n"
  }

  lemma KeptNext(n: nat, tail: string)
    requires tail == "" || tail[0] != '\n'
    ensures Third('\n', Kept(n) + tail) == Kept(n + 1) + tail
  {
    var rest := Kept(n) + tail;
    if n < 2 {
      assert |rest| >= 2 ==> rest[1] == (if n == 0 then tail[1] else tail[0]);
      assert n == 0 && tail != "" ==> rest[0] == tail[0];
    } else {
      assert rest[0] == '\n' && rest[1] == '\n';
    }
    assert ['\n'] + rest == (['\n'] + Kept(n)) + tail;
  }

  lemma {:induction false} RunEnds(s: string)
    ensures Run(s) < |s| ==> s[Run(s)] != '\n'
    ensures Run(s) < 3 ==> s[..Run(s)] == Kept(Run(s))
  {
    if s != "" && s[0] == '\n' {
      RunEnds(s[1..]);
      assert s[..Run(s)] == ['\n'] + s[1..][..Run(s[1..])];
    }
  }

  lemma CollapseHead(s: string)
    ensures s != "" && s[0] != '\n' ==> CollapseEach(s) != "" && CollapseEach(s)[0] == s[0]
  {
  }

  /** A run of n newlines keeps min(n, 2) of them, before whatever the rest collapses to. */
  lemma {:induction false} CollapseRun(s: string)
    ensures CollapseEach(s) == Kept(Run(s)) + CollapseEach(s[Run(s)..])
  {
    if s != "" && s[0] == '\n' {
      var t := s[1..];
      CollapseRun(t);
      assert t[Run(t)..] == s[Run(s)..];
      RunEnds(t);
      CollapseHead(t[Run(t)..]);
      KeptNext(Run(t), CollapseEach(t[Run(t)..]));
    }
  }

  lemma {:induction false} CollapseIsEach(s: string)
    ensures Collapse(s) == CollapseEach(s)
    decreases |s|
  {
    if s != "" {
      if s[0] != '\n' {
        CollapseIsEach(s[1..]);
      } else {
        CollapseIsEach(s[Run(s)..]);
        CollapseRun(s);
        RunEnds(s);
      }
    }
  }

  lemma {:induction false} CollapseChars(s: string)
    ensures CharsFrom(CollapseEach(s), s)
  {
    if s != "" {
      CollapseChars(s[1..]);
    }
  }

  lemma ThirdNoTriple(c: char, rest: string)
    requires NoTripleNewline(rest)
    ensures NoTripleNewline(Third(c, rest))
  {
    var s := Third(c, rest);
    if s != rest {
      forall i | 0 <= i < |s| - 2
        ensures !(s[i] == '\n' && s[i + 1] == '\n' && s[i + 2] == '\n')
      {
        if 0 < i {
          assert s[i] == rest[i - 1] && s[i + 1] == rest[i] && s[i + 2] == rest[i + 1];
        }
      }
    }
  }

  lemma {:induction false} CollapseNoTriple(s: string)
    ensures NoTripleNewline(CollapseEach(s))
  {
    if s != "" {
      CollapseNoTriple(s[1..]);
      ThirdNoTriple(s[0], CollapseEach(s[1..]));
    }
  }

  lemma {:induction false} CollapseFixed(s: string)
    requires NoTripleNewline(s)
    ensures CollapseEach(s) == s
  {
    if s != "" {
      var t := s[1..];
      assert forall i :: 0 <= i < |t| ==> t[i] == s[i + 1];
      CollapseFixed(t);
      assert s == [s[0]] + t;
    }
  }

  /** Collapsing keeps the first character and puts no newline behind a blank. */
  lemma {:induction false} CollapseNoBlankEnd(s: string)
    requires NoBlankEnd(s)
    ensures NoBlankEnd(CollapseEach(s))
    ensures CollapseEach(s) == "" <==> s == ""
    ensures s != "" ==> CollapseEach(s)[0] == s[0]
  {
    if s != "" {
      var t := s[1..];
      assert forall i :: 0 <= i < |t| ==> t[i] == s[i + 1];
      CollapseNoBlankEnd(t);
      if CollapseEach(s) != CollapseEach(t) {
        NoBlankEndCons(s[0], CollapseEach(t));
      }
    }
  }

  // ---------------------------------------------------------------------------
  // Outer whitespace
  // ---------------------------------------------------------------------------

  lemma {:induction false} TrimStartIsSuffix(s: string) returns (k: nat)
    ensures k <= |s| && TrimStart(s) == s[k..]
    ensures TrimStart(s) != "" ==> !Space(TrimStart(s)[0])
  {
    if s != "" && Space(s[0]) {
      k := TrimStartIsSuffix(s[1..]);
      assert s[1..][k..] == s[k + 1..];
      k := k + 1;
    } else {
      k := 0;
    }
  }

  lemma {:induction false} TrimEndIsPrefix(s: string) returns (k: nat)
    ensures k <= |s| && TrimEnd(s) == s[..k]
    ensures TrimEnd(s) != "" ==> !Space(TrimEnd(s)[|TrimEnd(s)| - 1])
  {
    if s != "" && Space(s[|s| - 1]) {
      k := TrimEndIsPrefix(s[..|s| - 1]);
      assert s[..|s| - 1][..k] == s[..k];
    } else {
      k := |s|;
    }
  }

  lemma PartClean(s: string, i: nat, t: string)
    requires NoReturn(s) && NoControl(s) && NoTripleNewline(s) && i + |t| <= |s| && t == s[i..i + |t|]
    ensures NoReturn(t) && NoControl(t) && NoTripleNewline(t)
  {
    assert forall j :: 0 <= j < |t| ==> t[j] == s[i + j];
    assert CharsFrom(t, s);
    CharsKeepReturns(t, s);
  }

  lemma PartNoBlankEnd(s: string, i: nat, t: string)
    requires NoBlankEnd(s) && i + |t| <= |s| && t == s[i..i + |t|] && Trimmed(t)
    ensures NoBlankEnd(t)
  {
    forall j | 0 <= j < |t| && Blank(t[j])
      ensures j + 1 < |t| && t[j + 1] != '\n'
    {
      assert Space(t[j]) && Blank(s[i + j]);
    }
  }

  lemma TrimClean(s: string)
    requires NoReturn(s) && NoControl(s) && NoBlankEnd(s) && NoTripleNewline(s)
    ensures Clean(TrimEnd(TrimStart(s)))
  {
    var i := TrimStartIsSuffix(s);
    var left := s[i..];
    var k := TrimEndIsPrefix(left);
    var t := left[..k];
    assert t == s[i..i + k];
    assert t != "" ==> t[0] == left[0];
    PartClean(s, i, t);
    PartNoBlankEnd(s, i, t);
  }

  // ---------------------------------------------------------------------------
  // Guarantees
  // ---------------------------------------------------------------------------

  lemma CharsKeepReturns(t: string, s: string)
    requires CharsFrom(t, s)
    ensures NoReturn(s) ==> NoReturn(t)
    ensures NoControl(s) ==> NoControl(t)
  {
  }

  /**
   Whatever the input, the output has no carriage return, no stripped control
   character, no line ending in blank space, no three newlines in a row and no
   outer whitespace.
   */
  lemma NormaliseIsClean(nfc: string -> string, raw: string)
    ensures Clean(Normalise(nfc, raw))
  {
    var s1 := LineEndings(nfc(raw));
    LineEndingsClean(nfc(raw));
    var s2 := StripControls(s1);
    StripControlsClean(s1);
    CharsKeepReturns(s2, s1);
    var s3 := StripLines(s2);
    LinesAreStripped(s2);
    StripLinesClean(s2);
    CharsKeepReturns(s3, s2);
    var s4 := CollapseEach(s3);
    CollapseIsEach(s3);
    CollapseChars(s3);
    CollapseNoTriple(s3);
    CollapseNoBlankEnd(s3);
    CharsKeepReturns(s4, s3);
    TrimClean(s4);
  }

  /** Clean text is left exactly as it is. */
  lemma CleanIsFixed(s: string)
    requires Clean(s)
    ensures Cleaned(s) == s
  {
    LineEndingsClean(s);
    StripControlsFixed(s);
    LinesAreStripped(s);
    StripLinesClean(s);
    CollapseIsEach(s);
    CollapseFixed(s);
  }
}
