/**
 * The JavaScript string operations the handler relies on: `indexOf`,
 * `replace` with a string pattern and an empty replacement, `replace` with
 * the regular expression `/\/$/`, and the conversion of an integer status
 * code to its decimal text when it is concatenated to a string.
 */
module JsString {
  import opened Outcomes

  /** `pat` occurs in `s` starting at index `i`. */
  predicate OccursAt(s: string, pat: string, i: nat) {
    i + |pat| <= |s| && s[i..i + |pat|] == pat
  }

  /** `pat` occurs somewhere in `s`. */
  ghost predicate Contains(s: string, pat: string) {
    exists i: nat :: OccursAt(s, pat, i)
  }

  /** The first index at or after `from` where `pat` occurs in `s`. */
  function IndexFrom(s: string, pat: string, from: nat): (r: Option<nat>)
    decreases |s| - from
    ensures r.Some? ==> from <= r.value && OccursAt(s, pat, r.value)
    ensures r.Some? ==> forall j: nat :: from <= j < r.value ==> !OccursAt(s, pat, j)
    ensures r.None? ==> forall j: nat :: from <= j ==> !OccursAt(s, pat, j)
  {
    if from + |pat| > |s| then None
    else if s[from..from + |pat|] == pat then Some(from)
    else IndexFrom(s, pat, from + 1)
  }

  /** `s.indexOf(pat)`: the first occurrence of `pat` in `s`, if there is one. */
  function IndexOf(s: string, pat: string): (r: Option<nat>)
    ensures r.Some? <==> Contains(s, pat)
    ensures r.Some? ==> OccursAt(s, pat, r.value)
    ensures r.Some? ==> forall j: nat :: j < r.value ==> !OccursAt(s, pat, j)
  {
    IndexFrom(s, pat, 0)
  }

  /**
   * `s.replace(pat, '')` with a string pattern: the FIRST occurrence of `pat`,
   * wherever it is, is removed; `s` is returned unchanged when `pat` does not
   * occur. The match is not anchored at the start of `s`.
   */
  function RemoveFirst(s: string, pat: string): (r: string)
    ensures |r| <= |s|
    ensures !Contains(s, pat) ==> r == s
    ensures forall i: nat ::
              OccursAt(s, pat, i) && (forall j: nat :: j < i ==> !OccursAt(s, pat, j))
              ==> r == s[..i] + s[i + |pat|..]
  {
    match IndexOf(s, pat)
    case None => s
    case Some(i) => s[..i] + s[i + |pat|..]
  }

  /** When `s` starts with `pat`, removing the first occurrence removes exactly that prefix. */
  lemma RemoveFirstOfPrefix(s: string, pat: string)
    requires pat <= s
    ensures RemoveFirst(s, pat) == s[|pat|..]
  {
    assert OccursAt(s, pat, 0);
  }

  /** Removing `pat` from `pat + t` gives back `t`. */
  lemma RemoveFirstAfterPrepend(pat: string, t: string)
    ensures RemoveFirst(pat + t, pat) == t
  {
    RemoveFirstOfPrefix(pat + t, pat);
    assert (pat + t)[|pat|..] == t;
  }

  /**
   * The removal is not anchored: when `pat` starts with a character that the
   * head `u` does not contain, the first occurrence in `u + pat + t` is the one
   * after `u`, and it is removed there.
   */
  lemma RemoveFirstAfterHead(u: string, pat: string, t: string)
    requires |pat| > 0 && pat[0] !in u
    ensures RemoveFirst(u + pat + t, pat) == u + t
  {
    var s := u + pat + t;
    assert OccursAt(s, pat, |u|) by {
      assert s[|u|..|u| + |pat|] == pat;
    }
    forall j: nat | j < |u| ensures !OccursAt(s, pat, j) {
      assert s[j] == u[j] && u[j] in u;
    }
    assert s[..|u|] + s[|u| + |pat|..] == u + t;
  }

  /** `s` ends with a slash. */
  predicate EndsWithSlash(s: string) {
    |s| > 0 && s[|s| - 1] == '/'
  }

  /**
   * `s.replace(/\/$/, '')`: the regular expression matches one `/` at the end
   * of the input only, so at most one trailing slash is removed.
   */
  function StripTrailingSlash(s: string): (r: string)
    ensures EndsWithSlash(s) ==> r + "/" == s
    ensures !EndsWithSlash(s) ==> r == s
  {
    if EndsWithSlash(s) then s[..|s| - 1] else s
  }

  /** Only one slash goes: `a//` becomes `a/`. */
  lemma StripTrailingSlashRemovesOne(t: string)
    ensures StripTrailingSlash(t + "//") == t + "/"
  {
    assert (t + "//")[..|t| + 1] == t + "/";
  }

  // ---------------------------------------------------------------------
  // Integers as decimal text (`'...' + statusCode` in JavaScript).

  predicate IsDigit(c: char) {
    '0' <= c <= '9'
  }

  predicate AllDigits(s: string) {
    forall i :: 0 <= i < |s| ==> IsDigit(s[i])
  }

  function DigitChar(d: nat): (c: char)
    requires d < 10
    ensures IsDigit(c) && (c as int) - ('0' as int) == d
  {
    (('0' as int) + d) as char
  }

  /** Decimal digits without a leading zero (other than the numeral `0` itself). */
  predicate Numeral(s: string) {
    |s| > 0 && AllDigits(s) && (s[0] == '0' ==> |s| == 1)
  }

  /**
   * The text JavaScript writes for an integer of magnitude below 10^21: a
   * numeral, or `-` and a numeral other than `0`. (From 10^21 on, JavaScript
   * writes exponent notation such as `1e+21`.)
   */
  predicate NumberText(s: string) {
    Numeral(s) || (|s| > 1 && s[0] == '-' && Numeral(s[1..]) && s[1] != '0')
  }

  /** The decimal text of `n`, without leading zeros. */
  function NatToString(n: nat): (r: string)
    ensures Numeral(r)
  {
    if n < 10 then [DigitChar(n)] else NatToString(n / 10) + [DigitChar(n % 10)]
  }

  /**
   * JavaScript's text of an integer number (`'...' + n`) of magnitude below
   * 10^21, which covers every HTTP status: an optional minus sign, then digits.
   */
  function IntToString(n: int): (r: string)
    ensures NumberText(r)
    ensures n < 0 <==> r[0] == '-'
  {
    if n < 0 then "-" + NatToString(-n) else NatToString(n)
  }

  /** The value of a string of decimal digits (0 for the empty string). */
  function DigitsValue(s: string): nat
    requires AllDigits(s)
  {
    if s == [] then 0
    else DigitsValue(s[..|s| - 1]) * 10 + ((s[|s| - 1] as int) - ('0' as int))
  }

  /** Reads back the text written by IntToString. */
  function ParseInt(s: string): Option<int> {
    if |s| > 1 && s[0] == '-' && AllDigits(s[1..]) then Some(-(DigitsValue(s[1..]) as int))
    else if |s| > 0 && AllDigits(s) then Some(DigitsValue(s))
    else None
  }

  /** The decimal text of `n` reads back as `n`. */
  lemma {:induction false} NatToStringRoundTrip(n: nat)
    ensures DigitsValue(NatToString(n)) == n
  {
    var r := NatToString(n);
    if n >= 10 {
      NatToStringRoundTrip(n / 10);
      assert r[..|r| - 1] == NatToString(n / 10);
    }
  }

  /** The decimal text of a status code determines the code. */
  lemma IntToStringRoundTrip(n: int)
    ensures ParseInt(IntToString(n)) == Some(n)
  {
    if n < 0 {
      NatToStringRoundTrip(-n);
      assert IntToString(n)[1..] == NatToString(-n);
    } else {
      NatToStringRoundTrip(n);
    }
  }

  /** A numeral that does not start with `0` denotes a positive number. */
  lemma {:induction false} LeadingDigitPositive(s: string)
    requires |s| > 0 && AllDigits(s) && s[0] != '0'
    ensures DigitsValue(s) > 0
    decreases |s|
  {
    if |s| > 1 {
      LeadingDigitPositive(s[..|s| - 1]);
    }
  }

  /** A numeral is the decimal text of its value. */
  lemma {:induction false} NumeralIsNatToString(s: string)
    requires Numeral(s)
    ensures s == NatToString(DigitsValue(s))
    decreases |s|
  {
    var n := DigitsValue(s);
    var init, d := s[..|s| - 1], (s[|s| - 1] as int) - ('0' as int);
    if |s| > 1 {
      assert init[0] == s[0];
      LeadingDigitPositive(init);
      NumeralIsNatToString(init);
      assert n / 10 == DigitsValue(init) && n % 10 == d;
      assert s == init + [s[|s| - 1]];
    }
  }

  /**
   * The text of an integer is the ONLY number text that reads back as it:
   * no leading zeros and no `-0`.
   */
  lemma NumberTextUnique(s: string, n: int)
    requires NumberText(s) && ParseInt(s) == Some(n)
    ensures s == IntToString(n)
  {
    if Numeral(s) {
      NumeralIsNatToString(s);
    } else {
      NumeralIsNatToString(s[1..]);
      LeadingDigitPositive(s[1..]);
      assert s == "-" + s[1..];
    }
  }
}
