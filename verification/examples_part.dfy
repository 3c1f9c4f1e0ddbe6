/** Lemmas that decide acceptance of a token from simple character facts, so that
    concrete tokens need no evaluation of the normaliser. */
module PlainTokens {
  import opened Wrappers
  import Unicode
  import Part

  /** Lower-case ASCII letters, digits and dashes. */
  predicate IsPlainChar(c: char) {
    'a' <= c <= 'z' || '0' <= c <= '9' || c == '-'
  }

  /** Every character plain, stated recursively so that a literal is checked by evaluation. */
  predicate IsPlain(s: string)
    decreases |s|
  {
    |s| == 0 || (IsPlainChar(s[0]) && IsPlain(s[1..]))
  }

  lemma {:induction false} PlainPointwise(s: string)
    requires IsPlain(s)
    ensures forall i :: 0 <= i < |s| ==> IsPlainChar(s[i])
    decreases |s|
  {
    if |s| > 0 {
      PlainPointwise(s[1..]);
      assert forall i :: 1 <= i < |s| ==> s[i] == s[1..][i - 1];
    }
  }

  lemma {:induction false} PlainAppend(a: string, b: string)
    requires IsPlain(a) && IsPlain(b)
    ensures IsPlain(a + b)
    decreases |a|
  {
    if |a| > 0 {
      PlainAppend(a[1..], b);
      assert (a + b)[1..] == a[1..] + b;
    } else {
      assert a + b == b;
    }
  }

  /** Two plain pieces without a double dash, not meeting dash to dash, join into one. */
  lemma PlainJoin(a: string, b: string)
    requires IsPlain(a) && IsPlain(b) && !Part.HasDoubleDash(a) && !Part.HasDoubleDash(b)
    requires |a| > 0 && |b| > 0 && (a[|a| - 1] != '-' || b[0] != '-')
    ensures IsPlain(a + b) && !Part.HasDoubleDash(a + b)
  {
    PlainAppend(a, b);
    Part.DoubleDashAppend(a, b);
  }

  /** A plain string is already composed and lower-cased. */
  lemma PlainIsNormal(s: string)
    requires forall i :: 0 <= i < |s| ==> IsPlainChar(s[i])
    ensures Unicode.Nfc(s) == s && Unicode.Lower(s) == s
  {
    assert Unicode.CombiningDiaeresis !in s by {
      forall i | 0 <= i < |s|
        ensures s[i] != Unicode.CombiningDiaeresis
      {
        assert IsPlainChar(s[i]);
      }
    }
    Unicode.NoMarkIsComposed(s);
    Unicode.NfcOfComposed(s);
    forall i | 0 <= i < |s|
      ensures !Unicode.IsUpper(s[i])
    {
      assert IsPlainChar(s[i]);
    }
    Unicode.LowerOfLowerCase(s);
  }

  /** A plain string without edge dashes is well formed and dot-free. */
  lemma PlainIsWellFormed(s: string)
    requires forall i :: 0 <= i < |s| ==> IsPlainChar(s[i])
    requires |s| > 0 && s[0] != '-' && s[|s| - 1] != '-'
    ensures Part.WellFormed(s) && '.' !in s
  {
    forall i | 0 <= i < |s|
      ensures Part.IsPartChar(s[i]) && s[i] != '.'
    {
      assert IsPlainChar(s[i]);
    }
  }

  lemma PlainFacts(s: string)
    requires IsPlain(s) && |s| > 0 && s[0] != '-' && s[|s| - 1] != '-'
    ensures Part.WellFormed(s) && '.' !in s && Unicode.Nfc(s) == s && Unicode.Lower(s) == s
  {
    PlainPointwise(s);
    PlainIsWellFormed(s);
    PlainIsNormal(s);
  }

  /** A well-formed token already composed and lower-cased is accepted unchanged. */
  lemma NormalPart(s: string)
    requires Part.WellFormed(s) && '.' !in s && !Part.HasDoubleDash(s)
    requires Unicode.Nfc(s) == s && Unicode.Lower(s) == s
    ensures Part.ParseProviderPart(s) == Success(s)
  {
  }

  /** A token of lower-case ASCII letters, digits and single inner dashes is accepted
      unchanged. */
  lemma PlainToken(s: string)
    requires IsPlain(s) && |s| > 0 && s[0] != '-' && s[|s| - 1] != '-' && !Part.HasDoubleDash(s)
    ensures Part.ParseProviderPart(s) == Success(s)
  {
    PlainFacts(s);
    NormalPart(s);
  }
}

module PartExamples {
  import opened Wrappers
  import Unicode
  import Part
  import PlainTokens

  const Decomposed := "mu\U{0308}nchen"
  const Precomposed := "m\U{00FC}nchen"
  const Punycode := "xn--80akhbyknj4f"
  const CyrillicUpper := "\U{0418}\U{0441}\U{043F}\U{044B}\U{0442}\U{0430}\U{043D}\U{0438}\U{0435}"
  const CyrillicLower := "\U{0438}\U{0441}\U{043F}\U{044B}\U{0442}\U{0430}\U{043D}\U{0438}\U{0435}"

  lemma FooFacts()
    ensures Part.WellFormed("foo") && '.' !in "foo" && !Part.HasDoubleDash("foo")
    ensures Unicode.Nfc("foo") == "foo" && Unicode.Lower("foo") == "foo"
  {
  }

  lemma ParseFoo()
    ensures Part.ParseProviderPart("foo") == Success("foo")
  {
    FooFacts();
    PlainTokens.NormalPart("foo");
  }

  lemma ParseFooUpper()
    ensures Part.ParseProviderPart("FOO") == Success("foo")
  {
    assert Unicode.Lower("FOO") == "foo";
    ParseFoo();
    Part.ParsePartIgnoresCase("FOO");
  }

  lemma ParseFooCapitalised()
    ensures Part.ParseProviderPart("Foo") == Success("foo")
  {
    assert Unicode.Lower("Foo") == "foo";
    ParseFoo();
    Part.ParsePartIgnoresCase("Foo");
  }

  lemma Abc123Pieces()
    ensures "abc-123" == "abc-1" + "23"
    ensures PlainTokens.IsPlain("abc-1") && !Part.HasDoubleDash("abc-1")
    ensures PlainTokens.IsPlain("23") && !Part.HasDoubleDash("23")
  {
  }

  lemma ParseDashedToken()
    ensures Part.ParseProviderPart("abc-123") == Success("abc-123")
  {
    Abc123Pieces();
    PlainTokens.PlainJoin("abc-1", "23");
    PlainTokens.PlainToken("abc-123");
  }

  lemma CyrillicNfc()
    ensures Unicode.Nfc(CyrillicLower) == CyrillicLower
  {
    var s := CyrillicLower;
    forall i | 0 <= i < |s|
      ensures s[i] != Unicode.CombiningDiaeresis
    {
    }
    Unicode.NoMarkIsComposed(s);
    Unicode.NfcOfComposed(s);
  }

  lemma CyrillicLowerIsLower()
    ensures Unicode.Lower(CyrillicLower) == CyrillicLower
  {
    var s := CyrillicLower;
    forall i | 0 <= i < |s|
      ensures !Unicode.IsUpper(s[i])
    {
    }
    Unicode.LowerOfLowerCase(s);
  }

  lemma CyrillicWellFormed()
    ensures Part.WellFormed(CyrillicLower)
  {
  }

  lemma CyrillicPlain()
    ensures !Part.HasDoubleDash(CyrillicLower) && '.' !in CyrillicLower
  {
  }

  lemma CyrillicFolds()
    ensures Unicode.Lower(CyrillicUpper) == CyrillicLower
  {
  }

  /** A Cyrillic token is accepted and lower-cased. */
  lemma ParseCyrillic()
    ensures Part.ParseProviderPart(CyrillicUpper) == Success(CyrillicLower)
  {
    CyrillicNfc();
    CyrillicLowerIsLower();
    CyrillicWellFormed();
    CyrillicPlain();
    PlainTokens.NormalPart(CyrillicLower);
    CyrillicFolds();
    Part.ParsePartIgnoresCase(CyrillicUpper);
  }

  lemma PrecomposedIsComposed()
    ensures Unicode.Nfc(Precomposed) == Precomposed
  {
  }

  lemma PrecomposedIsLower()
    ensures Unicode.Lower(Precomposed) == Precomposed
  {
  }

  lemma PrecomposedFacts()
    ensures Unicode.Nfc(Precomposed) == Precomposed && Unicode.Lower(Precomposed) == Precomposed
  {
    PrecomposedIsComposed();
    PrecomposedIsLower();
  }

  lemma PrecomposedShape()
    ensures Part.WellFormed(Precomposed) && '.' !in Precomposed && !Part.HasDoubleDash(Precomposed)
  {
  }

  /** A precomposed u with diaeresis is accepted as is. */
  lemma ParsePrecomposed()
    ensures Part.ParseProviderPart(Precomposed) == Success(Precomposed)
  {
    PrecomposedFacts();
    PrecomposedShape();
    PlainTokens.NormalPart(Precomposed);
  }

  lemma DecomposedComposes()
    ensures Unicode.Nfc(Decomposed) == Precomposed
  {
  }

  /** A u followed by a combining diaeresis is accepted as the precomposed letter. */
  lemma ParseDecomposed()
    ensures Part.ParseProviderPart(Decomposed) == Success(Precomposed)
  {
    DecomposedComposes();
    ParsePrecomposed();
    Part.ParsePartIgnoresComposition(Decomposed);
  }

  lemma CyrillicIoComposes()
    ensures Unicode.Nfc("\U{0435}\U{0308}") == "\U{0451}"
  {
  }

  lemma CyrillicIoFacts()
    ensures Unicode.Nfc("\U{0451}") == "\U{0451}" && Unicode.Lower("\U{0451}") == "\U{0451}"
  {
  }

  lemma CyrillicIoShape()
    ensures Part.WellFormed("\U{0451}") && '.' !in "\U{0451}" && !Part.HasDoubleDash("\U{0451}")
  {
  }

  /** A Cyrillic ie followed by a combining diaeresis is accepted as the precomposed letter. */
  lemma ParseDecomposedCyrillicIo()
    ensures Part.ParseProviderPart("\U{0435}\U{0308}") == Success("\U{0451}")
  {
    CyrillicIoFacts();
    CyrillicIoShape();
    PlainTokens.NormalPart("\U{0451}");
    CyrillicIoComposes();
    Part.ParsePartIgnoresComposition("\U{0435}\U{0308}");
  }

  lemma LatinYDiaeresisComposes()
    ensures Unicode.Nfc("y\U{0308}") == "\U{00FF}"
  {
  }

  lemma LatinYDiaeresisFacts()
    ensures Unicode.Nfc("\U{00FF}") == "\U{00FF}" && Unicode.Lower("\U{00FF}") == "\U{00FF}"
  {
  }

  lemma LatinYDiaeresisShape()
    ensures Part.WellFormed("\U{00FF}") && '.' !in "\U{00FF}" && !Part.HasDoubleDash("\U{00FF}")
  {
  }

  /** A Latin y followed by a combining diaeresis is accepted as the precomposed letter. */
  lemma ParseDecomposedLatinYDiaeresis()
    ensures Part.ParseProviderPart("y\U{0308}") == Success("\U{00FF}")
  {
    LatinYDiaeresisFacts();
    LatinYDiaeresisShape();
    PlainTokens.NormalPart("\U{00FF}");
    LatinYDiaeresisComposes();
    Part.ParsePartIgnoresComposition("y\U{0308}");
  }

  lemma RejectDoubleDash()
    ensures Part.ParseProviderPart("abc--123") == Failure(Part.MsgDashes)
  {
    assert Part.HasDoubleDash("abc--123"[2..]);
    Part.SingleFaultMessages("abc--123");
  }

  lemma PunycodePieces()
    ensures Punycode == "xn" + "--80akhbyknj4f"
  {
  }

  lemma PunycodeTailDashes()
    ensures Part.HasDoubleDash("--80akhbyknj4f")
  {
  }

  lemma PunycodeDashes()
    ensures Part.HasDoubleDash(Punycode)
  {
    PunycodePieces();
    PunycodeTailDashes();
    Part.DoubleDashAppend("xn", "--80akhbyknj4f");
  }

  lemma PunycodeNoDot()
    ensures '.' !in Punycode
  {
  }

  lemma PunycodeHasDoubleDash()
    ensures Part.HasDoubleDash(Punycode) && '.' !in Punycode
  {
    PunycodeDashes();
    PunycodeNoDot();
  }

  /** The punycode form of a name is rejected for its double dash. */
  lemma RejectPunycode()
    ensures Part.ParseProviderPart(Punycode) == Failure(Part.MsgDashes)
  {
    PunycodeHasDoubleDash();
    Part.SingleFaultMessages(Punycode);
  }

  lemma RejectDot()
    ensures Part.ParseProviderPart("abc.123") == Failure(Part.MsgDots)
  {
    assert "abc.123"[3] == '.';
    Part.SingleFaultMessages("abc.123");
  }

  lemma RejectLeadingDash()
    ensures Part.ParseProviderPart("-abc123") == Failure(Part.MsgChars)
  {
    Part.SingleFaultMessages("-abc123");
  }

  lemma RejectTrailingDash()
    ensures Part.ParseProviderPart("abc123-") == Failure(Part.MsgChars)
  {
    Part.SingleFaultMessages("abc123-");
  }

  lemma RejectEmpty()
    ensures Part.ParseProviderPart("") == Failure(Part.MsgEmpty)
  {
  }
}
