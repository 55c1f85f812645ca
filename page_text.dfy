/**
 * The text handling in scripts/thesis.js: reading the count out of the
 * counter label (`parseInt(text.match(/\d+/)?.[0] || 0)`), writing the
 * label back, and `String.prototype.includes`.
 */
module PageText {

  /** `\d` in a JavaScript regular expression without the `u` flag: an ASCII digit. */
  predicate IsDigit(c: char) {
    '0' <= c <= '9'
  }

  predicate AllDigits(s: string) {
    forall i :: 0 <= i < |s| ==> IsDigit(s[i])
  }

  predicate NoDigits(s: string) {
    forall i :: 0 <= i < |s| ==> !IsDigit(s[i])
  }

  function DigitValue(c: char): (d: nat)
    requires IsDigit(c)
    ensures d < 10
  {
    c as int - '0' as int
  }

  function DigitChar(d: nat): (c: char)
    requires d < 10
    ensures IsDigit(c) && DigitValue(c) == d
  {
    ('0' as int + d) as char
  }

  /** The decimal notation of a natural number, as a template literal writes it. */
  function DecimalString(n: nat): (s: string)
    ensures |s| > 0 && AllDigits(s)
    decreases n
  {
    if n < 10 then [DigitChar(n)] else DecimalString(n / 10) + [DigitChar(n % 10)]
  }

  /** `parseInt` of a run of ASCII digits. */
  function ParseDecimal(s: string): nat
    requires AllDigits(s)
  {
    if s == [] then 0 else ParseDecimal(s[..|s| - 1]) * 10 + DigitValue(s[|s| - 1])
  }

  lemma {:induction false} ParseDecimalRoundTrip(n: nat)
    ensures ParseDecimal(DecimalString(n)) == n
    decreases n
  {
    if n >= 10 {
      var s := DecimalString(n);
      assert s[..|s| - 1] == DecimalString(n / 10);
      ParseDecimalRoundTrip(n / 10);
    }
  }

  /** The text from the first digit on (the start of the first `\d+` match), or empty when there is none. */
  function FromFirstDigit(s: string): (r: string)
    ensures |r| <= |s| && r == s[|s| - |r|..]
    ensures r == [] || IsDigit(r[0])
    ensures forall i :: 0 <= i < |s| - |r| ==> !IsDigit(s[i])
  {
    if s == [] || IsDigit(s[0]) then s
    else
      var r := FromFirstDigit(s[1..]);
      assert forall i :: 1 <= i < |s| - |r| ==> s[i] == s[1..][i - 1];
      r
  }

  /** The longest run of digits at the front (the greedy `\d+`). */
  function LeadingDigits(s: string): (r: string)
    ensures r <= s && AllDigits(r)
    ensures |r| == |s| || !IsDigit(s[|r|])
  {
    if s == [] || !IsDigit(s[0]) then [] else [s[0]] + LeadingDigits(s[1..])
  }

  /** `parseInt(text.match(/\d+/)?.[0] || 0)` (scripts/thesis.js:10). */
  function FirstNumber(text: string): nat {
    var rest := FromFirstDigit(text);
    if rest == [] then 0 else ParseDecimal(LeadingDigits(rest))
  }

  lemma {:induction false} FromFirstDigitSkips(p: string, s: string)
    requires NoDigits(p)
    requires s == [] || IsDigit(s[0])
    ensures FromFirstDigit(p + s) == s
  {
    if p == [] {
      assert p + s == s;
    } else {
      assert (p + s)[0] == p[0];
      assert (p + s)[1..] == p[1..] + s;
      FromFirstDigitSkips(p[1..], s);
    }
  }

  lemma {:induction false} LeadingDigitsOfRun(d: string, r: string)
    requires AllDigits(d)
    requires r == [] || !IsDigit(r[0])
    ensures LeadingDigits(d + r) == d
  {
    if d == [] {
      assert d + r == r;
    } else {
      assert (d + r)[0] == d[0];
      assert (d + r)[1..] == d[1..] + r;
      LeadingDigitsOfRun(d[1..], r);
    }
  }

  /** A text without digits reads as 0. */
  lemma NoDigitsReadsZero(text: string)
    requires NoDigits(text)
    ensures FirstNumber(text) == 0
  {
    FromFirstDigitSkips(text, []);
    assert text + [] == text;
  }

  /** A text reads as the value of its first run of digits, whatever precedes or follows it. */
  lemma FirstRunIsRead(p: string, d: string, r: string)
    requires NoDigits(p) && AllDigits(d) && d != []
    requires r == [] || !IsDigit(r[0])
    ensures FirstNumber(p + d + r) == ParseDecimal(d)
  {
    assert p + d + r == p + (d + r);
    FromFirstDigitSkips(p, d + r);
    LeadingDigitsOfRun(d, r);
  }

  const PROGRESS_PREFIX := "Вы отправили "
  const PROGRESS_SUFFIX := " / 5 тезисов"

  /** The label text once the limit is reached (scripts/thesis.js:41 and :51). */
  const LIMIT_LABEL := "❌ Достигнут лимит 5 тезисов"

  /** `Вы отправили ${currentCount} / 5 тезисов` (scripts/thesis.js:37). */
  function ProgressLabel(n: nat): string {
    PROGRESS_PREFIX + DecimalString(n) + PROGRESS_SUFFIX
  }

  /** The label written after a submission reads back as the same count. */
  lemma ProgressLabelRoundTrip(n: nat)
    ensures FirstNumber(ProgressLabel(n)) == n
  {
    assert NoDigits(PROGRESS_PREFIX);
    assert !IsDigit(PROGRESS_SUFFIX[0]);
    FirstRunIsRead(PROGRESS_PREFIX, DecimalString(n), PROGRESS_SUFFIX);
    ParseDecimalRoundTrip(n);
  }

  /** The limit label reads as 5, so a page rendered with it starts disabled. */
  lemma LimitLabelReadsFive()
    ensures FirstNumber(LIMIT_LABEL) == 5
  {
    var p, d, r := "❌ Достигнут лимит ", "5", " тезисов";
    assert LIMIT_LABEL == p + d + r;
    assert NoDigits(p);
    FirstRunIsRead(p, d, r);
  }

  /** `s.includes(sub)`. */
  predicate Contains(s: string, sub: string)
    decreases |s|
  {
    |sub| <= |s| && (s[..|sub|] == sub || Contains(s[1..], sub))
  }

  /** `sub` occurs in `s` starting at position `i`. */
  predicate OccursAt(s: string, sub: string, i: int) {
    0 <= i <= |s| - |sub| && s[i..i + |sub|] == sub
  }

  /** `includes` holds exactly when `sub` occurs at some position of `s`. */
  lemma {:induction false} ContainsIffOccurs(s: string, sub: string)
    ensures Contains(s, sub) <==> exists i :: OccursAt(s, sub, i)
    decreases |s|
  {
    if |sub| <= |s| && s[..|sub|] == sub {
      assert OccursAt(s, sub, 0);
    } else if |sub| <= |s| {
      ContainsIffOccurs(s[1..], sub);
      if Contains(s[1..], sub) {
        var i :| OccursAt(s[1..], sub, i);
        assert OccursAt(s, sub, i + 1);
      }
      if exists i :: OccursAt(s, sub, i) {
        var i :| OccursAt(s, sub, i);
        assert i != 0;
        assert OccursAt(s[1..], sub, i - 1);
      }
    }
  }
}
