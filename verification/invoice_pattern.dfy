/** Invoice-number extraction (`extractInvoiceNumber`, src/utils/validation.js):
    the first match of
      /(AE\d{6,}|HVDC[-_]INV[-_]\d{3,}|INV[-_]\d{3,}|\d{8})/i
    in the clamped path, upper-cased, or the literal fallback.

    The scanner below computes the match; the predicates `Lang` and
    `IsRegexMatch` state independently what a backtracking regex engine
    returns: the leftmost position where some alternative matches, the first
    alternative in pattern order that matches there, and the longest word that
    alternative accepts there (its digit runs are greedy and end the pattern). */
module InvoicePattern {
  import opened Base
  import opened JsValues
  import opened Strings

  const Fallback: string := "HVDC-INV-001"

  /** The four alternatives, in pattern order. */
  datatype Alt = AeDigits | HvdcInv | Inv | EightDigits {
    function Rank(): nat {
      match this
      case AeDigits => 0
      case HvdcInv => 1
      case Inv => 2
      case EightDigits => 3
    }
  }

  /** Case-insensitive occurrence of the upper-case literal `lit` at `i`
      (for these letters the /i flag folds exactly the ASCII pairs). */
  predicate LitAt(s: string, i: nat, lit: string) {
    i + |lit| <= |s| && forall k :: 0 <= k < |lit| ==> ToUpperChar(s[i + k]) == lit[k]
  }

  /** `[-_]` at `i`. */
  predicate SepAt(s: string, i: nat) {
    i < |s| && (s[i] == '-' || s[i] == '_')
  }

  // ---------------------------------------------------------------- reference semantics

  /** The words each alternative accepts. */
  predicate Lang(a: Alt, w: string) {
    match a
    case AeDigits => |w| >= 8 && LitAt(w, 0, "AE") && AllDigits(w[2..])
    case HvdcInv =>
      |w| >= 12 && LitAt(w, 0, "HVDC") && SepAt(w, 4) && LitAt(w, 5, "INV")
      && SepAt(w, 8) && AllDigits(w[9..])
    case Inv => |w| >= 7 && LitAt(w, 0, "INV") && SepAt(w, 3) && AllDigits(w[4..])
    case EightDigits => |w| == 8 && AllDigits(w)
  }

  /** Alternative `a` accepts the `n` characters of `s` at `i`. */
  predicate Accepts(a: Alt, s: string, i: nat, n: nat) {
    i + n <= |s| && Lang(a, s[i..i + n])
  }

  ghost predicate MatchesAt(a: Alt, s: string, i: nat) {
    exists n: nat :: Accepts(a, s, i, n)
  }

  ghost predicate AnyAt(s: string, i: nat) {
    exists a: Alt :: MatchesAt(a, s, i)
  }

  /** The match a backtracking engine reports: leftmost position, first
      alternative in order, longest word of that alternative. */
  ghost predicate IsRegexMatch(s: string, i: nat, n: nat) {
    && i + n <= |s|
    && (forall j: nat :: j < i ==> !AnyAt(s, j))
    && exists a: Alt ::
         && Accepts(a, s, i, n)
         && (forall b: Alt :: b.Rank() < a.Rank() ==> !MatchesAt(b, s, i))
         && (forall n': nat :: n < n' ==> !Accepts(a, s, i, n'))
  }

  // ---------------------------------------------------------------- the scanner

  /** Length of the maximal digit run starting at `i`. */
  function DigitRun(s: string, i: nat): (n: nat)
    requires i <= |s|
    ensures i + n <= |s|
    ensures AllDigits(s[i..i + n])
    ensures i + n < |s| ==> !IsDigit(s[i + n])
    decreases |s| - i
  {
    if i < |s| && IsDigit(s[i]) then
      var n := 1 + DigitRun(s, i + 1);
      assert s[i..i + n] == [s[i]] + s[i + 1..i + n];
      n
    else 0
  }

  /** The greedy match of one alternative at `i`, if any. */
  function MatchAlt(a: Alt, s: string, i: nat): Option<nat>
    requires i <= |s|
  {
    match a
    case AeDigits =>
      if LitAt(s, i, "AE") && DigitRun(s, i + 2) >= 6 then Some(2 + DigitRun(s, i + 2)) else None
    case HvdcInv =>
      if LitAt(s, i, "HVDC") && SepAt(s, i + 4) && LitAt(s, i + 5, "INV") && SepAt(s, i + 8)
         && DigitRun(s, i + 9) >= 3
      then Some(9 + DigitRun(s, i + 9)) else None
    case Inv =>
      if LitAt(s, i, "INV") && SepAt(s, i + 3) && DigitRun(s, i + 4) >= 3
      then Some(4 + DigitRun(s, i + 4)) else None
    case EightDigits =>
      if DigitRun(s, i) >= 8 then Some(8) else None
  }

  /** The alternatives tried in order at one position. */
  function MatchAt(s: string, i: nat): Option<(Alt, nat)>
    requires i <= |s|
  {
    if MatchAlt(AeDigits, s, i).Some? then Some((AeDigits, MatchAlt(AeDigits, s, i).value))
    else if MatchAlt(HvdcInv, s, i).Some? then Some((HvdcInv, MatchAlt(HvdcInv, s, i).value))
    else if MatchAlt(Inv, s, i).Some? then Some((Inv, MatchAlt(Inv, s, i).value))
    else if MatchAlt(EightDigits, s, i).Some? then Some((EightDigits, 8))
    else None
  }

  // ---------------------------------------------------------------- scanner = reference

  lemma DigitRunBound(s: string, i: nat, n: nat)
    requires i + n <= |s|
    ensures AllDigits(s[i..i + n]) <==> n <= DigitRun(s, i)
  {
    var r := DigitRun(s, i);
    if n <= r {
      var w := s[i..i + n];
      assert forall k :: 0 <= k < n ==> w[k] == s[i + k];
    } else {
      assert s[i..i + n][r] == s[i + r];
    }
  }

  lemma LitShift(s: string, i: nat, n: nat, off: nat, lit: string)
    requires i + n <= |s| && off + |lit| <= n
    ensures LitAt(s[i..i + n], off, lit) <==> LitAt(s, i + off, lit)
  {
    var w := s[i..i + n];
    assert forall j :: off <= j < off + |lit| ==> w[j] == s[i + j];
  }

  lemma DigitsShift(s: string, i: nat, n: nat, off: nat)
    requires i + n <= |s| && off <= n
    ensures AllDigits(s[i..i + n][off..]) <==> n - off <= DigitRun(s, i + off)
  {
    assert s[i..i + n][off..] == s[i + off..i + off + (n - off)];
    DigitRunBound(s, i + off, n - off);
  }

  /** One alternative: the scanner finds a match exactly when the alternative
      accepts some word at `i`, and then the longest one. */
  lemma MatchAltCorrect(a: Alt, s: string, i: nat)
    requires i <= |s|
    ensures MatchAlt(a, s, i).None? <==> !MatchesAt(a, s, i)
    ensures MatchAlt(a, s, i).Some? ==>
              var n := MatchAlt(a, s, i).value;
              && Accepts(a, s, i, n)
              && forall n': nat :: n < n' ==> !Accepts(a, s, i, n')
  {
    forall n: nat
      ensures Accepts(a, s, i, n) <==> i + n <= |s| && LangAt(a, s, i, n)
    {
      if i + n <= |s| {
        LangShift(a, s, i, n);
      }
    }
    match a
    case AeDigits =>
      if MatchAlt(a, s, i).Some? {
        var n := MatchAlt(a, s, i).value;
        assert LangAt(a, s, i, n);
      }
    case HvdcInv =>
      if MatchAlt(a, s, i).Some? {
        var n := MatchAlt(a, s, i).value;
        assert LangAt(a, s, i, n);
      }
    case Inv =>
      if MatchAlt(a, s, i).Some? {
        var n := MatchAlt(a, s, i).value;
        assert LangAt(a, s, i, n);
      }
    case EightDigits =>
      if MatchAlt(a, s, i).Some? {
        assert LangAt(a, s, i, 8);
      }
  }

  /** `Lang` of the word at `i` restated on `s` itself. */
  predicate LangAt(a: Alt, s: string, i: nat, n: nat)
    requires i + n <= |s|
  {
    match a
    case AeDigits => n >= 8 && LitAt(s, i, "AE") && n - 2 <= DigitRun(s, i + 2)
    case HvdcInv =>
      n >= 12 && LitAt(s, i, "HVDC") && SepAt(s, i + 4) && LitAt(s, i + 5, "INV")
      && SepAt(s, i + 8) && n - 9 <= DigitRun(s, i + 9)
    case Inv => n >= 7 && LitAt(s, i, "INV") && SepAt(s, i + 3) && n - 4 <= DigitRun(s, i + 4)
    case EightDigits => n == 8 && n <= DigitRun(s, i)
  }

  lemma LangShift(a: Alt, s: string, i: nat, n: nat)
    requires i + n <= |s|
    ensures Lang(a, s[i..i + n]) <==> LangAt(a, s, i, n)
  {
    match a
    case AeDigits => AeShift(s, i, n);
    case HvdcInv => HvdcShift(s, i, n);
    case Inv => InvShift(s, i, n);
    case EightDigits => EightShift(s, i, n);
  }

  /** `LangShift`, one alternative at a time. */
  lemma AeShift(s: string, i: nat, n: nat)
    requires i + n <= |s|
    ensures Lang(AeDigits, s[i..i + n]) <==> LangAt(AeDigits, s, i, n)
  {
    if n >= 8 {
      LitShift(s, i, n, 0, "AE");
      DigitsShift(s, i, n, 2);
    }
  }

  lemma HvdcShift(s: string, i: nat, n: nat)
    requires i + n <= |s|
    ensures Lang(HvdcInv, s[i..i + n]) <==> LangAt(HvdcInv, s, i, n)
  {
    var w := s[i..i + n];
    if n >= 12 {
      LitShift(s, i, n, 0, "HVDC");
      LitShift(s, i, n, 5, "INV");
      assert w[4] == s[i + 4] && w[8] == s[i + 8];
      DigitsShift(s, i, n, 9);
    }
  }

  lemma InvShift(s: string, i: nat, n: nat)
    requires i + n <= |s|
    ensures Lang(Inv, s[i..i + n]) <==> LangAt(Inv, s, i, n)
  {
    var w := s[i..i + n];
    if n >= 7 {
      LitShift(s, i, n, 0, "INV");
      assert w[3] == s[i + 3];
      DigitsShift(s, i, n, 4);
    }
  }

  lemma EightShift(s: string, i: nat, n: nat)
    requires i + n <= |s|
    ensures Lang(EightDigits, s[i..i + n]) <==> LangAt(EightDigits, s, i, n)
  {
    var w := s[i..i + n];
    if n == 8 {
      DigitsShift(s, i, n, 0);
      assert w[0..] == w;
    }
  }

  lemma MatchAtCorrect(s: string, i: nat)
    requires i <= |s|
    ensures MatchAt(s, i).None? <==> !AnyAt(s, i)
    ensures MatchAt(s, i).Some? ==>
              var (a, n) := MatchAt(s, i).value;
              && Accepts(a, s, i, n)
              && (forall b: Alt :: b.Rank() < a.Rank() ==> !MatchesAt(b, s, i))
              && (forall n': nat :: n < n' ==> !Accepts(a, s, i, n'))
  {
    MatchAltCorrect(AeDigits, s, i);
    MatchAltCorrect(HvdcInv, s, i);
    MatchAltCorrect(Inv, s, i);
    MatchAltCorrect(EightDigits, s, i);
  }

  /** Tries the positions `i`, `i + 1`, ... in turn. */
  function Search(s: string, i: nat): (r: Option<(nat, nat)>)
    requires i <= |s|
    decreases |s| - i
  {
    match MatchAt(s, i)
    case Some((_, n)) => Some((i, n))
    case None => if i == |s| then None else Search(s, i + 1)
  }

  lemma {:induction false} SearchCorrect(s: string, i: nat)
    requires i <= |s|
    requires forall j: nat :: j < i ==> !AnyAt(s, j)
    ensures Search(s, i).None? <==> forall j: nat :: j <= |s| ==> !AnyAt(s, j)
    ensures Search(s, i).Some? ==> IsRegexMatch(s, Search(s, i).value.0, Search(s, i).value.1)
    decreases |s| - i
  {
    MatchAtCorrect(s, i);
    if MatchAt(s, i).None? && i < |s| {
      SearchCorrect(s, i + 1);
    }
  }

  /** The regex match on a string: None exactly when no alternative matches
      anywhere, otherwise the match a regex engine reports. */
  function FirstMatch(s: string): (r: Option<(nat, nat)>)
    ensures r.None? <==> forall j: nat :: j <= |s| ==> !AnyAt(s, j)
    ensures r.Some? ==> IsRegexMatch(s, r.value.0, r.value.1)
  {
    SearchCorrect(s, 0);
    Search(s, 0)
  }

  /** `extractInvoiceNumber(invoicePath)`: never fails. */
  function ExtractInvoiceNumber(path: JsValue): (r: string)
    ensures var t := ClampString(path);
            && ((forall j: nat :: j <= |t| ==> !AnyAt(t, j)) ==> r == Fallback)
            && (FirstMatch(t).Some? ==>
                  var (i, n) := FirstMatch(t).value;
                  IsRegexMatch(t, i, n) && r == Upper(t[i..i + n]))
  {
    var t := ClampString(path);
    match FirstMatch(t)
    case None => Fallback
    case Some((i, n)) => Upper(t[i..i + n])
  }

  lemma HvdcExampleMatch(s: string)
    requires s == "HVDC-INV-123.pdf"
    ensures MatchAt(s, 0) == Some((HvdcInv, 12))
  {
    assert DigitRun(s, 12) == 0;
    assert DigitRun(s, 9) == 3;
    assert DigitRun(s, 2) == 0;
    assert ToUpperChar(s[0]) == 'H' != "AE"[0];
    assert !LitAt(s, 0, "AE");
    assert LitAt(s, 0, "HVDC") && LitAt(s, 5, "INV");
  }

  /** The first match of the example path is HVDC-INV-123 at the start. */
  lemma HvdcExampleFirst(s: string)
    requires s == "HVDC-INV-123.pdf"
    ensures FirstMatch(s) == Some((0, 12))
  {
    HvdcExampleMatch(s);
  }

  /** The matched id has no lower-case letters. */
  lemma HvdcExampleUpper(w: string)
    requires w == "HVDC-INV-123"
    ensures Upper(w) == w
  {
    assert forall k :: 0 <= k < |w| ==> ToUpperChar(w[k]) == w[k];
  }

  /** The source's own example: "HVDC-INV-123.pdf" yields "HVDC-INV-123". */
  lemma ExtractExample()
    ensures ExtractInvoiceNumber(Str("HVDC-INV-123.pdf")) == "HVDC-INV-123"
  {
    var s := "HVDC-INV-123.pdf";
    assert ClampString(Str(s)) == s;
    HvdcExampleFirst(s);
    assert s[0..12] == "HVDC-INV-123";
    HvdcExampleUpper(s[0..12]);
  }

  /** A path without any of the patterns yields the fallback. */
  lemma ExtractFallbackExample()
    ensures ExtractInvoiceNumber(Str("")) == Fallback
  {
    assert MatchAt("", 0).None?;
  }
}
