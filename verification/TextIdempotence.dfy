/**
 Normalising twice.  Of Unicode NFC only what `LikeNfc` lists is used.
 */
module TextIdempotence {
  import opened TextNormalise

  type Nfc = string -> string

  ghost predicate Fixed(nfc: Nfc, s: string) {
    nfc(s) == s
  }

  /** White space that NFC leaves alone; it maps two of the wide spaces to others. */
  ghost predicate Inert(nfc: Nfc, c: char) {
    Space(c) && nfc([c]) == [c]
  }

  ghost predicate NoSpace(s: string) {
    forall c :: c in s ==> !Space(c)
  }

  /** Nothing is composed across white space. */
  ghost predicate SplitsAt(nfc: Nfc, s: string, i: nat)
    requires i < |s|
  {
    Inert(nfc, s[i]) ==> nfc(s) == nfc(s[..i]) + [s[i]] + nfc(s[i + 1..])
  }

  ghost predicate OutputStays(nfc: Nfc, s: string) {
    nfc(nfc(s)) == nfc(s) && forall c :: c in nfc(s) ==> nfc([c]) == [c]
  }

  ghost predicate BringsInNothing(nfc: Nfc, s: string) {
    (NoSpace(s) ==> NoSpace(nfc(s))) && (Clean(s) ==> Clean(nfc(s)))
  }

  /**
   NFC is idempotent, its output consists of characters it leaves alone, it
   composes nothing across white space, and it brings in no white space and
   nothing that the replacements would remove.
   */
  ghost predicate LikeNfc(nfc: Nfc) {
    && nfc("") == "" && nfc("\n") == "\n"
    && (forall s :: OutputStays(nfc, s))
    && (forall s, i: nat :: i < |s| ==> SplitsAt(nfc, s, i))
    && (forall s :: BringsInNothing(nfc, s))
  }

  function Identity(): Nfc {
    s => s
  }

  /** The assumptions can be met. */
  lemma IdentityIsLikeNfc()
    ensures LikeNfc(Identity())
  {
    forall s: string, i: nat | i < |s|
      ensures SplitsAt(Identity(), s, i)
    {
      assert s == s[..i] + [s[i]] + s[i + 1..];
    }
  }

  // ---------------------------------------------------------------------------
  // White space may be dropped and exchanged without touching what NFC composes
  // ---------------------------------------------------------------------------

  ghost predicate AllInert(nfc: Nfc, s: string) {
    forall c :: c in s && Space(c) ==> Inert(nfc, c)
  }

  lemma SplitOff(nfc: Nfc, a: string, c: char, b: string)
    requires LikeNfc(nfc) && Inert(nfc, c)
    ensures nfc(a + [c] + b) == nfc(a) + [c] + nfc(b)
  {
    var s := a + [c] + b;
    assert SplitsAt(nfc, s, |a|);
    assert s[..|a|] == a && s[|a| + 1..] == b;
  }

  lemma FirstSpace(s: string) returns (i: nat)
    requires !NoSpace(s)
    ensures i < |s| && Space(s[i]) && NoSpace(s[..i])
  {
    i := 0;
    while !Space(s[i])
      invariant i < |s| && NoSpace(s[..i]) && !NoSpace(s[i..])
      decreases |s| - i
    {
      assert s[i..] == [s[i]] + s[i + 1..];
      assert s[..i + 1] == s[..i] + [s[i]];
      i := i + 1;
    }
  }

  lemma NoSpaceBefore(word: string, tail: string)
    requires NoSpace(word)
    ensures forall i :: 0 <= i < |word| ==> !Space((word + tail)[i])
  {
    assert forall i :: 0 <= i < |word| ==> (word + tail)[i] == word[i] && word[i] in word;
  }

  /** Two texts that agree up to their first white space agree word by word. */
  lemma SameFirstWord(x: string, y: string, c: char, a: string, b: string)
    requires NoSpace(x) && NoSpace(y) && Space(c) && x + [c] + a == y + [c] + b
    ensures x == y && a == b
  {
    var s := x + [c] + a;
    assert s[|x|] == c && s[|y|] == c;
    NoSpaceBefore(x, [c] + a);
    NoSpaceBefore(y, [c] + b);
    assert s == x + ([c] + a) == y + ([c] + b);
    assert x == s[..|x|] && y == s[..|y|];
    assert a == s[|x| + 1..] && b == s[|y| + 1..];
  }

  lemma {:induction false} WordsAligned(nfc: Nfc, a: string, c: char, x: string, y: string)
    requires LikeNfc(nfc) && AllInert(nfc, a) && Space(c)
    requires nfc(a) + [c] + x == a + [c] + y
    ensures nfc(a) == a && x == y
    decreases |a|
  {
    if NoSpace(a) {
      assert BringsInNothing(nfc, a);
      SameFirstWord(nfc(a), a, c, x, y);
    } else {
      var i := FirstSpace(a);
      var word, d, rest := a[..i], a[i], a[i + 1..];
      assert a == word + [d] + rest;
      SplitOff(nfc, word, d, rest);
      assert nfc(a) + [c] + x == nfc(word) + [d] + (nfc(rest) + [c] + x);
      assert a + [c] + y == word + [d] + (rest + [c] + y);
      assert BringsInNothing(nfc, word);
      SameFirstWord(nfc(word), word, d, nfc(rest) + [c] + x, rest + [c] + y);
      WordsAligned(nfc, rest, c, x, y);
    }
  }

  /** Text around white space is fixed when both sides are. */
  lemma FixedAround(nfc: Nfc, a: string, c: char, b: string)
    requires LikeNfc(nfc) && AllInert(nfc, a) && Inert(nfc, c)
    ensures Fixed(nfc, a + [c] + b) <==> Fixed(nfc, a) && Fixed(nfc, b)
  {
    SplitOff(nfc, a, c, b);
    if Fixed(nfc, a + [c] + b) {
      WordsAligned(nfc, a, c, nfc(b), b);
    }
  }

  /** White space at an end or beside other white space may be dropped. */
  lemma FixedWithout(nfc: Nfc, a: string, c: char, b: string)
    requires LikeNfc(nfc) && AllInert(nfc, a) && AllInert(nfc, b) && Inert(nfc, c)
    requires a == "" || b == "" || Space(b[0])
    ensures Fixed(nfc, a + [c] + b) <==> Fixed(nfc, a + b)
  {
    FixedAround(nfc, a, c, b);
    if a == "" {
      assert a + b == b;
    } else if b == "" {
      assert a + b == a;
    } else {
      var d, rest := b[0], b[1..];
      assert d in b && b == "" + [d] + rest && a + b == a + [d] + rest;
      FixedAround(nfc, "", d, rest);
      FixedAround(nfc, a, d, rest);
    }
  }

  lemma {:induction false} StripLinesFixed(nfc: Nfc, p: string, s: string)
    requires LikeNfc(nfc) && AllInert(nfc, p) && AllInert(nfc, s)
    ensures Fixed(nfc, p + s) <==> Fixed(nfc, p + StripLines(s))
    decreases |s|
  {
    if s != "" {
      var c, t := s[0], s[1..];
      var u := StripLines(t);
      assert c in s && forall x :: x in t ==> x in s;
      StripLinesFixed(nfc, p + [c], t);
      StripLinesChars(t);
      assert p + s == p + [c] + t;
      if StripLines(s) == u {
        FixedWithout(nfc, p, c, u);
      } else {
        assert p + StripLines(s) == p + [c] + u;
      }
    }
  }

  lemma {:induction false} CollapseFixedToo(nfc: Nfc, p: string, s: string)
    requires LikeNfc(nfc) && AllInert(nfc, p) && AllInert(nfc, s)
    ensures Fixed(nfc, p + s) <==> Fixed(nfc, p + CollapseEach(s))
    decreases |s|
  {
    if s != "" {
      var c, t := s[0], s[1..];
      var u := CollapseEach(t);
      assert c in s && forall x :: x in t ==> x in s;
      CollapseFixedToo(nfc, p + [c], t);
      CollapseChars(t);
      assert p + s == p + [c] + t;
      if CollapseEach(s) == u {
        FixedWithout(nfc, p, c, u);
      } else {
        assert p + CollapseEach(s) == p + [c] + u;
      }
    }
  }

  lemma {:induction false} TrimStartFixed(nfc: Nfc, s: string)
    requires LikeNfc(nfc) && AllInert(nfc, s)
    ensures Fixed(nfc, s) <==> Fixed(nfc, TrimStart(s))
  {
    if s != "" && Space(s[0]) {
      assert s[0] in s && s == "" + [s[0]] + s[1..] && "" + s[1..] == s[1..];
      FixedWithout(nfc, "", s[0], s[1..]);
      TrimStartFixed(nfc, s[1..]);
    }
  }

  lemma {:induction false} TrimEndFixed(nfc: Nfc, s: string)
    requires LikeNfc(nfc) && AllInert(nfc, s)
    ensures Fixed(nfc, s) <==> Fixed(nfc, TrimEnd(s))
  {
    if s != "" && Space(s[|s| - 1]) {
      var rest, c := s[..|s| - 1], s[|s| - 1];
      assert c in s && s == rest + [c] + "" && rest + "" == rest;
      FixedWithout(nfc, rest, c, "");
      TrimEndFixed(nfc, rest);
    }
  }

  lemma {:induction false} LineEndingsFixed(nfc: Nfc, p: string, s: string)
    requires LikeNfc(nfc) && AllInert(nfc, p) && AllInert(nfc, s)
    ensures Fixed(nfc, p + s) <==> Fixed(nfc, p + LineEndings(s))
    decreases |s|
  {
    if s != "" {
      var c, t := s[0], s[1..];
      assert c in s && p + s == p + [c] + t && forall x :: x in t ==> x in s;
      if c != '\r' {
        LineEndingsFixed(nfc, p + [c], t);
        assert p + LineEndings(s) == p + [c] + LineEndings(t);
      } else {
        var u := if |s| > 1 && s[1] == '\n' then s[2..] else t;
        assert forall x :: x in u ==> x in s;
        LineEndingsFixed(nfc, p + ['\n'], u);
        assert p + LineEndings(s) == p + ['\n'] + LineEndings(u);
        ReturnFixed(nfc, p, t, u);
      }
    }
  }

  /** A carriage return, with the newline behind it if there is one, for a newline. */
  lemma ReturnFixed(nfc: Nfc, p: string, t: string, u: string)
    requires LikeNfc(nfc) && AllInert(nfc, p) && AllInert(nfc, t) && Inert(nfc, '\r')
    requires u == t || t == ['\n'] + u
    ensures Fixed(nfc, p + ['\r'] + t) <==> Fixed(nfc, p + ['\n'] + u)
  {
    if u == t {
      FixedAround(nfc, p, '\r', t);
      FixedAround(nfc, p, '\n', t);
    } else {
      assert p + t == p + ['\n'] + u;
      FixedWithout(nfc, p, '\r', t);
    }
  }

  // ---------------------------------------------------------------------------
  // Guarantees
  // ---------------------------------------------------------------------------

  /** What is left of `raw` once NFC has run and control characters are gone. */
  function Stripped(nfc: Nfc, raw: string): string {
    StripControls(LineEndings(nfc(raw)))
  }

  lemma StrippedInert(nfc: Nfc, raw: string)
    requires LikeNfc(nfc)
    ensures AllInert(nfc, nfc(raw)) && AllInert(nfc, Stripped(nfc, raw))
  {
    assert OutputStays(nfc, raw);
    LineEndingsChars(nfc(raw));
    StripControlsClean(LineEndings(nfc(raw)));
  }

  /** The replacements after the control characters do not change whether NFC has something left to compose. */
  lemma CleanedFixed(nfc: Nfc, raw: string)
    requires LikeNfc(nfc)
    ensures Fixed(nfc, Normalise(nfc, raw)) <==> Fixed(nfc, Stripped(nfc, raw))
  {
    var s2 := Stripped(nfc, raw);
    StrippedInert(nfc, raw);
    LinesAreStripped(s2);
    StripLinesFixed(nfc, "", s2);
    StripLinesChars(s2);
    var s3 := StripLines(s2);
    assert "" + s2 == s2 && "" + s3 == s3;
    CollapseIsEach(s3);
    CollapseFixedToo(nfc, "", s3);
    CollapseChars(s3);
    var s4 := CollapseEach(s3);
    assert "" + s4 == s4;
    TrimStartFixed(nfc, s4);
    var k := TrimStartIsSuffix(s4);
    TrimEndFixed(nfc, TrimStart(s4));
  }

  /**
   Exactly when normalising again changes nothing: when taking out the control
   characters leaves nothing for NFC to compose.
   */
  lemma NormaliseIdempotent(nfc: Nfc, raw: string)
    requires LikeNfc(nfc)
    ensures Normalise(nfc, Normalise(nfc, raw)) == Normalise(nfc, raw) <==> Fixed(nfc, Stripped(nfc, raw))
  {
    NormaliseIsClean(nfc, raw);
    assert BringsInNothing(nfc, Normalise(nfc, raw));
    CleanIsFixed(nfc(Normalise(nfc, raw)));
    CleanedFixed(nfc, raw);
  }

  /** So text without control characters is normalised for good the first time. */
  lemma IdempotentWithoutControls(nfc: Nfc, raw: string)
    requires LikeNfc(nfc) && NoControl(nfc(raw))
    ensures Normalise(nfc, Normalise(nfc, raw)) == Normalise(nfc, raw)
  {
    var s := nfc(raw);
    assert OutputStays(nfc, raw);
    LineEndingsChars(s);
    StripControlsFixed(LineEndings(s));
    StrippedInert(nfc, raw);
    LineEndingsFixed(nfc, "", s);
    assert "" + s == s && "" + LineEndings(s) == LineEndings(s);
    NormaliseIdempotent(nfc, raw);
  }

  lemma {:induction false} LineEndingsChars(s: string)
    ensures forall c :: c in LineEndings(s) ==> c in s || c == '\n'
    decreases |s|
  {
    if s != "" {
      LineEndingsChars(s[1..]);
      if |s| > 1 {
        LineEndingsChars(s[2..]);
      }
      assert forall c :: c in s[1..] ==> c in s;
      assert |s| > 1 ==> forall c :: c in s[2..] ==> c in s;
    }
  }

  lemma TrimChars(s: string)
    ensures CharsFrom(TrimEnd(TrimStart(s)), s)
  {
    var i := TrimStartIsSuffix(s);
    var k := TrimEndIsPrefix(s[i..]);
  }

  /** No replacement brings in a character other than the newline. */
  lemma CleanedChars(s: string)
    ensures forall c :: c in Cleaned(s) ==> c in s || c == '\n'
  {
    var s1 := LineEndings(s);
    LineEndingsChars(s);
    var s2 := StripControls(s1);
    StripControlsClean(s1);
    LinesAreStripped(s2);
    StripLinesChars(s2);
    var s3 := StripLines(s2);
    CollapseIsEach(s3);
    CollapseChars(s3);
    TrimChars(CollapseEach(s3));
  }

  ghost predicate Over(alphabet: set<char>, s: string) {
    forall c :: c in s ==> c in alphabet
  }

  /** On any alphabet with the newline that NFC does not touch, ASCII for one, normalisation is idempotent. */
  lemma IdempotentOver(nfc: Nfc, alphabet: set<char>, raw: string)
    requires '\n' in alphabet && Over(alphabet, raw)
    requires forall s :: Over(alphabet, s) ==> nfc(s) == s
    ensures Normalise(nfc, Normalise(nfc, raw)) == Normalise(nfc, raw)
  {
    CleanedChars(nfc(raw));
    NormaliseIsClean(nfc, raw);
    CleanIsFixed(Normalise(nfc, raw));
  }

  /**
   It is not idempotent everywhere: a control character between a letter and a
   combining accent keeps NFC from composing them, and is then removed, so the
   second time they are composed.
   */
  lemma ComposedTheSecondTime(nfc: Nfc, e: char, control: char, accent: char, composed: char)
    requires e == 'e' && control as int == 0x01 && accent as int == 0x301 && composed as int == 0xe9
    requires nfc([e, control, accent]) == [e, control, accent] && nfc([e, accent]) == [composed]
    ensures Normalise(nfc, [e, control, accent]) == [e, accent]
    ensures Normalise(nfc, Normalise(nfc, [e, control, accent])) == [composed]
  {
    ControlBetween(e, control, accent);
    SameFromHere([e, control, accent], [e, accent]);
    CleanIsFixed([e, accent]);
    CleanIsFixed([composed]);
  }

  lemma ControlBetween(a: char, control: char, b: char)
    requires !Control(a) && Control(control) && !Control(b)
    ensures StripControls([a, control, b]) == [a, b]
  {
    assert [b][1..] == [];
    assert StripControls([b]) == [b];
    assert [control, b][1..] == [b];
    assert StripControls([control, b]) == [b];
    assert [a, control, b][1..] == [control, b];
  }

  /** Texts that agree once the control characters are gone are cleaned alike. */
  lemma SameFromHere(s: string, t: string)
    requires NoReturn(s) && NoReturn(t) && NoControl(t) && StripControls(s) == t
    ensures Cleaned(s) == Cleaned(t)
  {
    LineEndingsClean(s);
    LineEndingsClean(t);
    StripControlsFixed(t);
  }
}
