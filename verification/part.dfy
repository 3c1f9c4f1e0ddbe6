/** ParseProviderPart: validation and normalisation of one namespace or type token. */
module Part {
  import opened Wrappers
  import Unicode

  const MsgEmpty := "must have at least one character"
  const MsgDots := "dots are not allowed"
  const MsgDashes := "cannot use multiple consecutive dashes"
  const MsgChars := "must contain only letters, digits, and dashes, and may not use leading or trailing dashes"

  /** The four messages a token can be rejected with. */
  predicate IsPartMessage(msg: string) {
    msg == MsgEmpty || msg == MsgDots || msg == MsgDashes || msg == MsgChars
  }

  /** Go's strings.Contains(s, "--"). */
  predicate HasDoubleDash(s: string)
    decreases |s|
  {
    |s| >= 2 && ((s[0] == '-' && s[1] == '-') || HasDoubleDash(s[1..]))
  }

  predicate IsPartChar(c: char) {
    Unicode.IsLetter(c) || Unicode.IsDigit(c) || c == '-'
  }

  /** Letters, digits and dashes only, neither starting nor ending with a dash. */
  predicate WellFormed(s: string) {
    && |s| > 0
    && s[0] != '-'
    && s[|s| - 1] != '-'
    && forall i :: 0 <= i < |s| ==> IsPartChar(s[i])
  }

  /** Validates a namespace or type token and returns its normal form (composed, then
      lower-cased), or one of four fixed messages.  The empty, dot and double-dash faults
      are judged on the token as given; the character class and the dash positions on its
      normal form, so that a decomposed letter counts as the letter it composes to. */
  function ParseProviderPart(given: string): (r: Result<string, string>)
    ensures r.Success? ==> r.value == Unicode.Normalize(given)
    ensures r.Success? ==> WellFormed(r.value) && !HasDoubleDash(r.value) && '.' !in r.value
    ensures r.Failure? ==> IsPartMessage(r.error)
    ensures r == Failure(MsgEmpty) <==> |given| == 0
    ensures r == Failure(MsgDots) ==> '.' in given
    ensures r == Failure(MsgDashes) ==> HasDoubleDash(given)
    ensures r == Failure(MsgChars) ==> !WellFormed(Unicode.Normalize(given))
    ensures '.' in given || HasDoubleDash(given) ==> r.Failure?
  {
    if |given| == 0 then Failure(MsgEmpty)
    else if '.' in given then Failure(MsgDots)
    else if HasDoubleDash(given) then Failure(MsgDashes)
    else
      var n := Unicode.Normalize(given);
      if WellFormed(n) then
        NormalizeKeepsDoubleDash(given);
        Success(n)
      else Failure(MsgChars)
  }

  /** A composed string has a double dash exactly when its input had one. */
  lemma {:induction false} NfcKeepsDoubleDash(s: string)
    ensures HasDoubleDash(Unicode.Nfc(s)) <==> HasDoubleDash(s)
    decreases |s|
  {
    if |s| >= 2 {
      var n := Unicode.Nfc(s);
      match Unicode.Compose(s[0], s[1])
      case Some(c) =>
        NfcKeepsDoubleDash(s[2..]);
        assert n[1..] == Unicode.Nfc(s[2..]);
        assert s[1..][1..] == s[2..];
      case None =>
        NfcKeepsDoubleDash(s[1..]);
        Unicode.NfcHead(s[1..]);
        assert n[1..] == Unicode.Nfc(s[1..]);
    }
  }

  /** Folding case neither creates nor removes a double dash. */
  lemma {:induction false} LowerKeepsDoubleDash(s: string)
    ensures HasDoubleDash(Unicode.Lower(s)) <==> HasDoubleDash(s)
    decreases |s|
  {
    if |s| >= 2 {
      LowerKeepsDoubleDash(s[1..]);
      Unicode.LowerTail(s, 1);
    }
  }

  lemma NormalizeKeepsDoubleDash(s: string)
    ensures HasDoubleDash(Unicode.Normalize(s)) <==> HasDoubleDash(s)
  {
    NfcKeepsDoubleDash(s);
    LowerKeepsDoubleDash(Unicode.Nfc(s));
  }

  /** A concatenation has a double dash exactly when one side has one or the two dashes
      meet at the seam. */
  lemma {:induction false} DoubleDashAppend(a: string, b: string)
    ensures HasDoubleDash(a + b) <==>
      HasDoubleDash(a) || HasDoubleDash(b) || (|a| > 0 && |b| > 0 && a[|a| - 1] == '-' && b[0] == '-')
    decreases |a|
  {
    if |a| == 0 {
      assert a + b == b;
    } else if |a| == 1 {
      assert (a + b)[1..] == b;
    } else {
      DoubleDashAppend(a[1..], b);
      assert (a + b)[1..] == a[1..] + b;
    }
  }

  /** A string without a dash has no double dash. */
  lemma {:induction false} DashFree(s: string)
    requires '-' !in s
    ensures !HasDoubleDash(s)
    decreases |s|
  {
    if |s| >= 2 {
      assert s[0] != '-';
      DashFree(s[1..]);
    }
  }

  /** A character that is neither a letter nor the combining diaeresis survives
      composition and is never produced by it. */
  lemma {:induction false} NfcKeepsMark(s: string, c: char)
    requires !Unicode.IsLetter(c) && c != Unicode.CombiningDiaeresis
    ensures c in Unicode.Nfc(s) <==> c in s
    decreases |s|
  {
    if |s| >= 2 {
      assert s == [s[0]] + s[1..];
      match Unicode.Compose(s[0], s[1])
      case Some(d) =>
        NfcKeepsMark(s[2..], c);
        assert Unicode.IsLetter(d) && Unicode.IsLetter(s[0]) && s[1] == Unicode.CombiningDiaeresis;
        assert s == [s[0], s[1]] + s[2..];
      case None =>
        NfcKeepsMark(s[1..], c);
    }
  }

  /** Folding case neither creates nor removes a character that is not a letter. */
  lemma LowerKeepsMark(s: string, c: char)
    requires !Unicode.IsLetter(c)
    ensures c in Unicode.Lower(s) <==> c in s
  {
    if c in s {
      var i :| 0 <= i < |s| && s[i] == c;
      assert Unicode.Lower(s)[i] == c;
    }
  }

  /** A token holding a character outside the accepted classes (other than the combining
      diaeresis, which may compose into a letter) is rejected. */
  lemma ForeignCharRejected(given: string, c: char)
    requires c in given && !IsPartChar(c) && c != Unicode.CombiningDiaeresis
    ensures ParseProviderPart(given).Failure?
  {
    NfcKeepsMark(given, c);
    LowerKeepsMark(Unicode.Nfc(given), c);
  }

  /** A token's normal form is accepted and normalises to itself: parsing is idempotent,
      which is why comparing parsed addresses needs no further folding. */
  lemma ParsePartIdempotent(given: string)
    requires ParseProviderPart(given).Success?
    ensures ParseProviderPart(ParseProviderPart(given).value) == ParseProviderPart(given)
  {
    Unicode.NormalizeIdempotent(given);
  }

  /** Parsing a token ignores letter case: "FOO", "Foo" and "foo" are the same part. */
  lemma ParsePartIgnoresCase(given: string)
    ensures ParseProviderPart(Unicode.Lower(given)) == ParseProviderPart(given)
  {
    LowerKeepsMark(given, '.');
    LowerKeepsDoubleDash(given);
    Unicode.NormalizeIgnoresCase(given);
  }

  /** Parsing a token ignores composition: the precomposed and the decomposed spelling of
      a letter give the same part. */
  lemma ParsePartIgnoresComposition(given: string)
    ensures ParseProviderPart(Unicode.Nfc(given)) == ParseProviderPart(given)
  {
    NfcKeepsMark(given, '.');
    NfcKeepsDoubleDash(given);
    Unicode.NormalizeIgnoresComposition(given);
  }

  /** Each single fault draws its own message. */
  lemma SingleFaultMessages(given: string)
    ensures |given| == 0 ==> ParseProviderPart(given) == Failure(MsgEmpty)
    ensures '.' in given && !HasDoubleDash(given) ==> ParseProviderPart(given) == Failure(MsgDots)
    ensures '.' !in given && HasDoubleDash(given) ==> ParseProviderPart(given) == Failure(MsgDashes)
    ensures |given| > 0 && '.' !in given && !HasDoubleDash(given) && (given[0] == '-' || given[|given| - 1] == '-')
      ==> ParseProviderPart(given) == Failure(MsgChars)
  {
    if '.' in given && !HasDoubleDash(given) {
      DotsMessage(given);
    }
    if '.' !in given && HasDoubleDash(given) {
      DashesMessage(given);
    }
    if |given| > 0 && '.' !in given && !HasDoubleDash(given) && (given[0] == '-' || given[|given| - 1] == '-') {
      EdgeDashMessage(given);
    }
  }

  lemma DotsMessage(given: string)
    requires '.' in given && !HasDoubleDash(given)
    ensures ParseProviderPart(given) == Failure(MsgDots)
  {
  }

  lemma DashesMessage(given: string)
    requires '.' !in given && HasDoubleDash(given)
    ensures ParseProviderPart(given) == Failure(MsgDashes)
  {
  }

  lemma EdgeDashMessage(given: string)
    requires |given| > 0 && '.' !in given && !HasDoubleDash(given)
    requires given[0] == '-' || given[|given| - 1] == '-'
    ensures ParseProviderPart(given) == Failure(MsgChars)
  {
    var n := Unicode.Normalize(given);
    EdgeDashSurvives(given);
    assert !WellFormed(n);
  }

  /** A leading or trailing dash is still there after normalisation. */
  lemma EdgeDashSurvives(s: string)
    requires |s| > 0
    ensures s[0] == '-' ==> Unicode.Normalize(s)[0] == '-'
    ensures s[|s| - 1] == '-' ==> Unicode.Normalize(s)[|Unicode.Normalize(s)| - 1] == '-'
  {
    var n := Unicode.Nfc(s);
    Unicode.NfcHead(s);
    NfcLast(s);
    assert Unicode.Normalize(s) == Unicode.Lower(n);
    if s[0] == '-' {
      if |s| >= 2 {
        DashComposesWithNothing(s[1]);
      }
      assert Unicode.Lower(n)[0] == Unicode.ToLower('-');
    }
    if s[|s| - 1] == '-' {
      assert Unicode.Lower(n)[|n| - 1] == Unicode.ToLower('-');
    }
  }

  lemma DashComposesWithNothing(m: char)
    ensures Unicode.Compose('-', m).None?
  {
  }

  /** The last character of a composed string is the last input character or a
      precomposed one. */
  lemma {:induction false} NfcLast(s: string)
    requires |s| > 0
    ensures s[|s| - 1] == '-' ==> Unicode.Nfc(s)[|Unicode.Nfc(s)| - 1] == '-'
    decreases |s|
  {
    if |s| >= 2 {
      match Unicode.Compose(s[0], s[1])
      case Some(c) =>
        if |s| > 2 {
          NfcLast(s[2..]);
        }
      case None =>
        NfcLast(s[1..]);
    }
  }
}
