/** The Unicode services the part grammar needs: letter and digit classes, lower-case
    folding and canonical composition (NFC).  The full Unicode tables are library data;
    this module carries a faithful slice of them: ASCII, Latin-1 with its one upper-case
    partner outside it (U+0178) and the basic Cyrillic block for letters and case, and the
    combining diaeresis over the letters of the slice that take one for composition.  The case and composition laws proved below are laws of this slice: over
    the full tables, folding and composing do not always commute. */
module Unicode {
  import opened Wrappers

  /** U+0308 COMBINING DIAERESIS. */
  const CombiningDiaeresis: char := '\U{0308}'

  /** U+0178, the capital of U+00FF and the only letter of the slice outside Latin-1. */
  const LatinCapitalYDiaeresis: char := '\U{0178}'

  predicate IsDigit(c: char) {
    '0' <= c <= '9'
  }

  predicate IsLetter(c: char) {
    || 'a' <= c <= 'z'
    || 'A' <= c <= 'Z'
    || ('\U{00C0}' <= c <= '\U{00FF}' && c != '\U{00D7}' && c != '\U{00F7}')
    || c == LatinCapitalYDiaeresis
    || '\U{0400}' <= c <= '\U{045F}'
  }

  /** Letters that have a distinct lower-case form. */
  predicate IsUpper(c: char) {
    || 'A' <= c <= 'Z'
    || ('\U{00C0}' <= c <= '\U{00DE}' && c != '\U{00D7}')
    || c == LatinCapitalYDiaeresis
    || '\U{0400}' <= c <= '\U{042F}'
  }

  /** Simple lower-case mapping of one character. */
  function ToLower(c: char): (r: char)
    ensures IsLetter(r) <==> IsLetter(c)
    ensures IsDigit(r) <==> IsDigit(c)
    ensures r != c <==> IsUpper(c)
    ensures !IsUpper(r)
  {
    if 'A' <= c <= 'Z' then (c as int + 32) as char
    else if '\U{00C0}' <= c <= '\U{00DE}' && c != '\U{00D7}' then (c as int + 32) as char
    else if c == LatinCapitalYDiaeresis then '\U{00FF}'
    else if '\U{0410}' <= c <= '\U{042F}' then (c as int + 32) as char
    else if '\U{0400}' <= c <= '\U{040F}' then (c as int + 80) as char
    else c
  }

  /** Folding a folded character changes nothing. */
  lemma ToLowerIdempotent(c: char)
    ensures ToLower(ToLower(c)) == ToLower(c)
  {
  }

  /** Lower-case folding of a whole string, character by character. */
  function Lower(s: string): (r: string)
    ensures |r| == |s|
    ensures forall i :: 0 <= i < |s| ==> r[i] == ToLower(s[i])
    decreases |s|
  {
    if |s| == 0 then "" else [ToLower(s[0])] + Lower(s[1..])
  }

  /** The canonical composition of a base character and a combining mark, if there is one. */
  function Compose(base: char, mark: char): Option<char> {
    if mark != CombiningDiaeresis then None else WithDiaeresis(base)
  }

  /** The precomposed letter for a base followed by the combining diaeresis, if there is one. */
  function WithDiaeresis(base: char): Option<char> {
    match base
    case 'A' => Some('\U{00C4}')
    case 'E' => Some('\U{00CB}')
    case 'I' => Some('\U{00CF}')
    case 'O' => Some('\U{00D6}')
    case 'U' => Some('\U{00DC}')
    case 'Y' => Some(LatinCapitalYDiaeresis)
    case 'a' => Some('\U{00E4}')
    case 'e' => Some('\U{00EB}')
    case 'i' => Some('\U{00EF}')
    case 'o' => Some('\U{00F6}')
    case 'u' => Some('\U{00FC}')
    case 'y' => Some('\U{00FF}')
    case '\U{0406}' => Some('\U{0407}')
    case '\U{0415}' => Some('\U{0401}')
    case '\U{0435}' => Some('\U{0451}')
    case '\U{0456}' => Some('\U{0457}')
    case _ => None
  }

  /** Canonical composition: every base character followed by a mark it composes with is
      replaced by the precomposed character. */
  function Nfc(s: string): (r: string)
    ensures |r| <= |s|
    ensures |s| > 0 ==> |r| > 0
    decreases |s|
  {
    if |s| < 2 then s
    else
      match Compose(s[0], s[1])
      case Some(c) => [c] + Nfc(s[2..])
      case None => [s[0]] + Nfc(s[1..])
  }

  /** The normalisation applied to namespace and type tokens: compose, then fold case. */
  function Normalize(s: string): string {
    Lower(Nfc(s))
  }

  /** A string in composed form: no adjacent pair is left that composes. */
  predicate IsComposed(s: string)
    decreases |s|
  {
    |s| < 2 || (Compose(s[0], s[1]).None? && IsComposed(s[1..]))
  }

  /** A precomposed character is neither a mark nor the base of a further composition. */
  lemma ComposedIsFinal(a: char, b: char, x: char)
    requires Compose(a, b).Some?
    ensures Compose(a, b).value != CombiningDiaeresis
    ensures Compose(Compose(a, b).value, x).None?
  {
  }

  /** In this slice, folding case commutes with composition, character pair by character pair. */
  lemma ComposeLower(a: char, b: char)
    ensures Compose(ToLower(a), ToLower(b)).Some? <==> Compose(a, b).Some?
    ensures Compose(a, b).Some? ==> Compose(ToLower(a), ToLower(b)).value == ToLower(Compose(a, b).value)
  {
  }

  /** The first character of a composed string is the first input character or the
      composition of the first two. */
  lemma NfcHead(s: string)
    requires |s| > 0
    ensures Nfc(s)[0] == s[0] || (|s| >= 2 && Compose(s[0], s[1]) == Some(Nfc(s)[0]))
  {
  }

  /** Nfc leaves nothing composable behind. */
  lemma {:induction false} NfcIsComposed(s: string)
    ensures IsComposed(Nfc(s))
    decreases |s|
  {
    if |s| >= 2 {
      match Compose(s[0], s[1])
      case Some(c) =>
        NfcIsComposed(s[2..]);
        var t := Nfc(s[2..]);
        if |t| > 0 {
          ComposedIsFinal(s[0], s[1], t[0]);
        }
        assert ([c] + t)[1..] == t;
      case None =>
        NfcIsComposed(s[1..]);
        var t := Nfc(s[1..]);
        NfcHead(s[1..]);
        if t[0] != s[1] {
          ComposedIsFinal(s[1], s[2], s[0]);
        }
        assert ([s[0]] + t)[1..] == t;
    }
  }

  /** Without a combining mark nothing composes. */
  lemma {:induction false} NoMarkIsComposed(s: string)
    requires CombiningDiaeresis !in s
    ensures IsComposed(s)
    decreases |s|
  {
    if |s| >= 2 {
      NoMarkIsComposed(s[1..]);
    }
  }

  /** A string already in composed form is left unchanged. */
  lemma {:induction false} NfcOfComposed(s: string)
    requires IsComposed(s)
    ensures Nfc(s) == s
    decreases |s|
  {
    if |s| >= 2 {
      NfcOfComposed(s[1..]);
      assert s == [s[0]] + s[1..];
    }
  }

  /** Composition is idempotent. */
  lemma NfcIdempotent(s: string)
    ensures Nfc(Nfc(s)) == Nfc(s)
  {
    NfcIsComposed(s);
    NfcOfComposed(Nfc(s));
  }

  /** Folding twice folds once. */
  lemma LowerIdempotent(s: string)
    ensures Lower(Lower(s)) == Lower(s)
  {
    forall i | 0 <= i < |s|
      ensures Lower(Lower(s))[i] == Lower(s)[i]
    {
      ToLowerIdempotent(s[i]);
    }
  }

  /** Folding case distributes over concatenation. */
  lemma LowerAppend(a: string, b: string)
    ensures Lower(a + b) == Lower(a) + Lower(b)
  {
    assert forall i :: 0 <= i < |a + b| ==> Lower(a + b)[i] == (Lower(a) + Lower(b))[i];
  }

  /** A string with no upper-case letter is its own lower-case form. */
  lemma LowerOfLowerCase(s: string)
    requires forall i :: 0 <= i < |s| ==> !IsUpper(s[i])
    ensures Lower(s) == s
  {
  }

  /** The tail of a folded string is the folded tail. */
  lemma LowerTail(s: string, k: nat)
    requires k <= |s|
    ensures Lower(s)[k..] == Lower(s[k..])
  {
  }

  /** In this slice, composing then folding is the same as folding then composing. */
  lemma {:induction false} LowerNfcCommute(s: string)
    ensures Nfc(Lower(s)) == Lower(Nfc(s))
    decreases |s|
  {
    var l := Lower(s);
    if |s| >= 2 {
      ComposeLower(s[0], s[1]);
      match Compose(s[0], s[1])
      case Some(c) =>
        LowerNfcCommute(s[2..]);
        LowerTail(s, 2);
        assert Nfc(l) == [ToLower(c)] + Nfc(Lower(s[2..]));
        assert Lower([c] + Nfc(s[2..])) == [ToLower(c)] + Lower(Nfc(s[2..]));
      case None =>
        LowerNfcCommute(s[1..]);
        LowerTail(s, 1);
        assert Nfc(l) == [ToLower(s[0])] + Nfc(Lower(s[1..]));
        assert Lower([s[0]] + Nfc(s[1..])) == [ToLower(s[0])] + Lower(Nfc(s[1..]));
    }
  }

  /** Normalisation is idempotent: a normalised token is its own normal form. */
  lemma NormalizeIdempotent(s: string)
    ensures Normalize(Normalize(s)) == Normalize(s)
  {
    LowerNfcCommute(Nfc(s));
    NfcIdempotent(s);
    LowerIdempotent(Nfc(s));
  }

  /** Normalisation ignores letter case. */
  lemma NormalizeIgnoresCase(s: string)
    ensures Normalize(Lower(s)) == Normalize(s)
  {
    LowerNfcCommute(s);
    LowerIdempotent(Nfc(s));
  }

  /** Normalisation ignores whether the input was already composed. */
  lemma NormalizeIgnoresComposition(s: string)
    ensures Normalize(Nfc(s)) == Normalize(s)
  {
    NfcIdempotent(s);
  }
}
