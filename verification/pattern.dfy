/**
 * The metric pattern `^<metric>\s+(\d+)$` of the threshold check, with the
 * metric name taken literally, and the decimal reading of the captured digits.
 */
module MetricPattern {
  import opened Wrappers
  import opened Text

  /** The two character classes of the pattern. */
  datatype CharClass = Spaces | Digits

  predicate InClass(c: char, k: CharClass) {
    match k
    case Spaces => IsSpace(c)
    case Digits => IsDigit(c)
  }

  /**
   * The pattern matches s at p: the metric name is at p, a line start, the
   * whitespace `\s+` fills s[p + |metric|..q], the captured digits `(\d+)`
   * fill s[q..e], and e is a line end.
   */
  ghost predicate MatchSpan(s: string, metric: string, p: nat, q: nat, e: nat) {
    && LineStart(s, p)
    && p + |metric| < q < e <= |s|
    && s[p..p + |metric|] == metric
    && (forall i :: p + |metric| <= i < q ==> IsSpace(s[i]))
    && (forall i :: q <= i < e ==> IsDigit(s[i]))
    && LineEnd(s, e)
  }

  /** The pattern matches s somewhere. */
  ghost predicate Present(s: string, metric: string) {
    exists p: nat, q: nat, e: nat :: MatchSpan(s, metric, p, q, e)
  }

  /** The match a regular-expression search reports: the one that starts first. */
  ghost predicate Leftmost(s: string, metric: string, p: nat, q: nat, e: nat) {
    && MatchSpan(s, metric, p, q, e)
    && forall p': nat, q': nat, e': nat :: p' < p ==> !MatchSpan(s, metric, p', q', e')
  }

  /** The end of the longest run of characters of class k that starts at i. */
  function Span(s: string, i: nat, k: CharClass): (j: nat)
    requires i <= |s|
    ensures i <= j <= |s|
    ensures forall n :: i <= n < j ==> InClass(s[n], k)
    ensures j == |s| || !InClass(s[j], k)
    decreases |s| - i
  {
    if i < |s| && InClass(s[i], k) then Span(s, i + 1, k) else i
  }

  /**
   * Where the pattern can match at a given start, the whitespace and the
   * digits are the longest runs there: backtracking has no other choice.
   */
  lemma MatchSpanIsGreedy(s: string, metric: string, p: nat, q: nat, e: nat)
    requires MatchSpan(s, metric, p, q, e)
    ensures q == Span(s, p + |metric|, Spaces)
    ensures e == Span(s, q, Digits)
  {}

  /** The digits the pattern captures when it matches at p, as (q, e). */
  function MatchAt(s: string, metric: string, p: nat): (r: Option<(nat, nat)>)
    requires p <= |s|
    ensures r.Some? ==> MatchSpan(s, metric, p, r.value.0, r.value.1)
    ensures r.None? ==> forall q: nat, e: nat :: !MatchSpan(s, metric, p, q, e)
  {
    var m := p + |metric|;
    if !LineStart(s, p) || m > |s| || s[p..m] != metric then None
    else
      var q := Span(s, m, Spaces);
      var e := Span(s, q, Digits);
      if q == m || e == q || !LineEnd(s, e) then
        assert forall q': nat, e': nat :: MatchSpan(s, metric, p, q', e') ==> q' == q && e' == e by {
          forall q': nat, e': nat | MatchSpan(s, metric, p, q', e') ensures q' == q && e' == e {
            MatchSpanIsGreedy(s, metric, p, q', e');
          }
        }
        None
      else Some((q, e))
  }

  /** A match found by the search: its start and the bounds of its digits. */
  datatype Match = Match(start: nat, from: nat, to: nat)

  /** The first match that starts at p or later, tried position by position. */
  function FirstMatchFrom(s: string, metric: string, p: nat): (r: Option<Match>)
    requires p <= |s|
    ensures r.Some? ==> p <= r.value.start && MatchSpan(s, metric, r.value.start, r.value.from, r.value.to)
    ensures r.Some? ==> forall p': nat, q: nat, e: nat :: p <= p' < r.value.start ==> !MatchSpan(s, metric, p', q, e)
    ensures r.None? ==> forall p': nat, q: nat, e: nat :: p <= p' ==> !MatchSpan(s, metric, p', q, e)
    decreases |s| - p
  {
    match MatchAt(s, metric, p)
    case Some((q, e)) => Some(Match(p, q, e))
    case None => if p == |s| then None else FirstMatchFrom(s, metric, p + 1)
  }

  /**
   * The digit string `Regexp.last_match(1)` that `response =~ /^metric\s+(\d+)$/`
   * captures, or None when the pattern does not match.
   */
  function Extract(s: string, metric: string): (r: Option<string>)
    ensures r.None? <==> !Present(s, metric)
    ensures r.Some? ==> exists p: nat, q: nat, e: nat :: Leftmost(s, metric, p, q, e) && r.value == s[q..e]
    ensures r.Some? ==> |r.value| > 0 && forall i :: 0 <= i < |r.value| ==> IsDigit(r.value[i])
  {
    match FirstMatchFrom(s, metric, 0)
    case None => None
    case Some(m) =>
      assert Leftmost(s, metric, m.start, m.from, m.to);
      Some(s[m.from..m.to])
  }

  /** The leftmost match is unique, so it alone decides what is captured. */
  lemma LeftmostIsUnique(s: string, metric: string, p: nat, q: nat, e: nat, p': nat, q': nat, e': nat)
    requires Leftmost(s, metric, p, q, e) && Leftmost(s, metric, p', q', e')
    ensures p == p' && q == q' && e == e'
  {
    assert p == p';
    MatchSpanIsGreedy(s, metric, p, q, e);
    MatchSpanIsGreedy(s, metric, p', q', e');
  }

  /** The captured digits are those of any leftmost match. */
  lemma ExtractLeftmost(s: string, metric: string, p: nat, q: nat, e: nat)
    requires Leftmost(s, metric, p, q, e)
    ensures Extract(s, metric) == Some(s[q..e])
  {
    var r := Extract(s, metric);
    var p': nat, q': nat, e': nat :| Leftmost(s, metric, p', q', e') && r.value == s[q'..e'];
    LeftmostIsUnique(s, metric, p, q, e, p', q', e');
  }

  function DigitValue(c: char): (n: nat)
    requires IsDigit(c)
    ensures n < 10
  {
    c as int - '0' as int
  }

  function Pow10(n: nat): (r: nat)
    ensures r >= 1
  {
    if n == 0 then 1 else 10 * Pow10(n - 1)
  }

  /** `to_f` of a digit string: the number it writes in base ten. */
  function DecimalValue(d: string): (n: nat)
    requires forall i :: 0 <= i < |d| ==> IsDigit(d[i])
    ensures n < Pow10(|d|)
    ensures |d| > 0 && d[0] != '0' ==> Pow10(|d| - 1) <= n
    decreases |d|
  {
    if d == [] then 0 else 10 * DecimalValue(d[..|d| - 1]) + DigitValue(d[|d| - 1])
  }

  /** Moving a factor ten inside a product. */
  lemma ShiftPlace(x: int, p: int)
    ensures 10 * (x * p) == x * (10 * p)
  {}

  /**
   * Reading digits left to right: the digits of a, followed by those of b,
   * are worth a shifted by |b| places plus b.
   */
  lemma {:induction false} DecimalValueAppend(a: string, b: string)
    requires forall i :: 0 <= i < |a| ==> IsDigit(a[i])
    requires forall i :: 0 <= i < |b| ==> IsDigit(b[i])
    ensures DecimalValue(a + b) == DecimalValue(a) * Pow10(|b|) + DecimalValue(b)
    decreases |b|
  {
    if b == [] {
      assert a + b == a;
    } else {
      var b' := b[..|b| - 1];
      var ab := a + b;
      assert ab[..|ab| - 1] == a + b';
      assert ab[|ab| - 1] == b[|b| - 1];
      DecimalValueAppend(a, b');
      var x, y, c := DecimalValue(a), DecimalValue(b'), DigitValue(b[|b| - 1]);
      assert DecimalValue(ab) == 10 * (x * Pow10(|b'|) + y) + c;
      ShiftPlace(x, Pow10(|b'|));
    }
  }

  /** Leading zeros do not change the value: "007" reads as 7. */
  lemma {:induction false} LeadingZero(d: string)
    requires forall i :: 0 <= i < |d| ==> IsDigit(d[i])
    ensures DecimalValue("0" + d) == DecimalValue(d)
    decreases |d|
  {
    if d != [] {
      var z := "0" + d;
      assert z[..|z| - 1] == "0" + d[..|d| - 1];
      LeadingZero(d[..|d| - 1]);
    }
  }
}
