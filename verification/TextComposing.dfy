/**
 A function that composes, as NFC does, and meets all that is assumed of NFC: it
 joins the letter e and a combining acute accent.  With it the exact condition
 for normalising twice fails on a concrete input.
 */
module TextComposing {
  import opened TextNormalise
  import opened TextIdempotence

  const LETTER: char := 'e'
  const ACCENT: char := '\U{301}'
  const COMPOSED: char := '\U{e9}'

  /** Puts `c` before `rest`, joined with an accent it may begin with. */
  function Put(c: char, rest: string): string {
    if c == LETTER && rest != "" && rest[0] == ACCENT then [COMPOSED] + rest[1..] else [c] + rest
  }

  function Compose(s: string): string {
    if s == "" then "" else Put(s[0], Compose(s[1..]))
  }

  function Composing(): Nfc {
    s => Compose(s)
  }

  // ---------------------------------------------------------------------------
  // It is idempotent and composes nothing across white space
  // ---------------------------------------------------------------------------

  predicate NoPair(s: string) {
    forall i :: 0 <= i < |s| - 1 ==> !(s[i] == LETTER && s[i + 1] == ACCENT)
  }

  lemma {:induction false} ComposeLeavesNoPair(s: string)
    ensures NoPair(Compose(s))
  {
    if s != "" {
      ComposeLeavesNoPair(s[1..]);
    }
  }

  lemma {:induction false} NoPairIsFixed(s: string)
    requires NoPair(s)
    ensures Compose(s) == s
  {
    if s != "" {
      assert forall i :: 0 <= i < |s[1..]| ==> s[1..][i] == s[i + 1];
      NoPairIsFixed(s[1..]);
      assert s == [s[0]] + s[1..];
    }
  }

  lemma {:induction false} ComposeAround(a: string, c: char, b: string)
    requires Space(c)
    ensures Compose(a + [c] + b) == Compose(a) + [c] + Compose(b)
  {
    if a == "" {
      assert a + [c] + b == [c] + b && ([c] + b)[1..] == b;
    } else {
      ComposeAround(a[1..], c, b);
      assert (a + [c] + b)[1..] == a[1..] + [c] + b;
      PutBefore(a[0], Compose(a[1..]), c, Compose(b));
    }
  }

  lemma PutBefore(x: char, left: string, c: char, right: string)
    requires Space(c)
    ensures Put(x, left + [c] + right) == Put(x, left) + [c] + right
  {
    var rest := left + [c] + right;
    if left == "" {
      assert rest[0] == c;
    } else {
      assert rest[0] == left[0] && rest[1..] == left[1..] + [c] + right;
    }
  }

  // ---------------------------------------------------------------------------
  // It brings in nothing the replacements would remove
  // ---------------------------------------------------------------------------

  lemma {:induction false} ComposeChars(s: string)
    ensures forall c :: c in Compose(s) ==> c in s || c == COMPOSED
  {
    if s != "" {
      ComposeChars(s[1..]);
      var rest := Compose(s[1..]);
      assert forall c :: c in rest ==> c in s || c == COMPOSED;
      assert rest != "" ==> forall c :: c in rest[1..] ==> c in rest;
    }
  }

  lemma ComposeHead(s: string)
    requires s != ""
    ensures Compose(s) != "" && (Compose(s)[0] == s[0] || (s[0] == LETTER && Compose(s)[0] == COMPOSED))
  {
  }

  lemma {:induction false} ComposeLast(s: string)
    requires s != ""
    ensures Compose(s) != ""
    ensures var t := Compose(s);
            t[|t| - 1] == s[|s| - 1] || t[|t| - 1] == COMPOSED
  {
    if |s| > 1 {
      ComposeLast(s[1..]);
    }
  }

  lemma {:induction false} ComposeNoBlankEnd(s: string)
    requires NoBlankEnd(s)
    ensures NoBlankEnd(Compose(s))
  {
    if s != "" {
      var t := s[1..];
      assert forall i :: 0 <= i < |t| ==> t[i] == s[i + 1];
      ComposeNoBlankEnd(t);
      var rest := Compose(t);
      if t != "" {
        ComposeHead(t);
      }
      if Compose(s) == [s[0]] + rest {
        NoBlankEndCons(s[0], rest);
      } else {
        assert forall i :: 0 <= i < |rest[1..]| ==> rest[1..][i] == rest[i + 1];
        NoBlankEndCons(COMPOSED, rest[1..]);
      }
    }
  }

  lemma {:induction false} ComposeNoTriple(s: string)
    requires NoTripleNewline(s)
    ensures NoTripleNewline(Compose(s))
  {
    if s != "" {
      var t := s[1..];
      assert forall i :: 0 <= i < |t| ==> t[i] == s[i + 1];
      ComposeNoTriple(t);
      var rest := Compose(t);
      if Compose(s) == [s[0]] + rest {
        if s[0] == '\n' {
          StartsAlike(t);
        }
        assert Compose(s) == Third(s[0], rest);
        ThirdNoTriple(s[0], rest);
      } else {
        assert forall i :: 0 <= i < |rest[1..]| ==> rest[1..][i] == rest[i + 1];
        assert [COMPOSED] + rest[1..] == Third(COMPOSED, rest[1..]);
        ThirdNoTriple(COMPOSED, rest[1..]);
      }
    }
  }

  /** The output starts with two newlines only if the input does. */
  lemma StartsAlike(t: string)
    ensures var rest := Compose(t);
            |rest| >= 2 && rest[0] == '\n' && rest[1] == '\n' ==> |t| >= 2 && t[0] == '\n' && t[1] == '\n'
  {
    if t != "" {
      ComposeHead(t);
      if |t| > 1 {
        ComposeHead(t[1..]);
      }
    }
  }

  lemma ComposeClean(s: string)
    requires Clean(s)
    ensures Clean(Compose(s))
  {
    ComposeChars(s);
    ComposeNoBlankEnd(s);
    ComposeNoTriple(s);
    if s != "" {
      ComposeHead(s);
      ComposeLast(s);
    }
  }

  /** All that is assumed of NFC holds of it. */
  lemma ComposingIsLikeNfc()
    ensures LikeNfc(Composing())
  {
    var nfc := Composing();
    forall s
      ensures OutputStays(nfc, s)
    {
      ComposeLeavesNoPair(s);
      NoPairIsFixed(Compose(s));
      forall c | c in Compose(s)
        ensures Compose([c]) == [c]
      {
        NoPairIsFixed([c]);
      }
    }
    forall s: string, i: nat | i < |s|
      ensures SplitsAt(nfc, s, i)
    {
      if Space(s[i]) {
        ComposeAround(s[..i], s[i], s[i + 1..]);
        assert s == s[..i] + [s[i]] + s[i + 1..];
      }
    }
    forall s
      ensures BringsInNothing(nfc, s)
    {
      ComposeChars(s);
      if Clean(s) {
        ComposeClean(s);
      }
    }
  }

  /** The condition fails on a letter, a control character and an accent; so normalising twice differs from once. */
  lemma ConditionFails(control: char)
    requires control as int == 0x01
    ensures var nfc, raw := Composing(), [LETTER, control, ACCENT];
            && LikeNfc(nfc) && !Fixed(nfc, Stripped(nfc, raw))
            && Normalise(nfc, Normalise(nfc, raw)) != Normalise(nfc, raw)
  {
    var nfc, raw := Composing(), [LETTER, control, ACCENT];
    ComposingIsLikeNfc();
    NoPairIsFixed(raw);
    LineEndingsClean(raw);
    ControlBetween(LETTER, control, ACCENT);
    assert Stripped(nfc, raw) == [LETTER, ACCENT];
    assert [LETTER, ACCENT][1..] == [ACCENT] && [ACCENT][1..] == "";
    assert Compose([ACCENT]) == [ACCENT];
    assert Compose([LETTER, ACCENT])[0] == COMPOSED;
    NormaliseIdempotent(nfc, raw);
  }
}
