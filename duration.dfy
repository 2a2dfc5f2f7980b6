/**
 * Elapsed session time: the split into minutes and seconds that the monitor
 * shows every tick and the "MM:SS" duration stored in a session log
 * (Python's `f"{minutes:02d}:{seconds:02d}"`).
 */
module Duration {
  import opened Wrappers

  /** `elapsed // 60` and `elapsed % 60`. */
  function SplitElapsed(elapsed: nat): (r: (nat, nat))
    ensures r.0 * 60 + r.1 == elapsed
    ensures r.1 < 60
  {
    (elapsed / 60, elapsed % 60)
  }

  predicate IsDigit(c: char) {
    '0' <= c <= '9'
  }

  predicate AllDigits(s: string) {
    forall i :: 0 <= i < |s| ==> IsDigit(s[i])
  }

  function DigitChar(d: nat): (c: char)
    requires d < 10
    ensures IsDigit(c) && c as int - '0' as int == d
  {
    ('0' as int + d) as char
  }

  /** Decimal numeral without leading zeros (Python's `str(n)` for n >= 0). */
  function Decimal(n: nat): (r: string)
    ensures r != [] && AllDigits(r)
  {
    if n < 10 then [DigitChar(n)] else Decimal(n / 10) + [DigitChar(n % 10)]
  }

  /** The `02d` format: at least two digits, zero-padded on the left. */
  function Pad2(n: nat): (r: string)
    ensures |r| >= 2 && AllDigits(r)
  {
    var d := Decimal(n);
    if n < 10 then ['0'] + d else d
  }

  /** The value of a string of decimal digits, read left to right. */
  function DigitsValue(s: string): nat
    requires AllDigits(s)
  {
    if s == [] then 0 else DigitsValue(s[..|s| - 1]) * 10 + (s[|s| - 1] as int - '0' as int)
  }

  /**
   * Reads a plain decimal numeral back; not a call in the source, only the
   * inverse that the duration round trip is stated with.
   */
  function ParseNat(s: string): Option<nat> {
    if s != [] && AllDigits(s) then Some(DigitsValue(s)) else None
  }

  /** The duration string a session log stores. */
  function FormatDuration(elapsed: nat): string {
    var (minutes, seconds) := SplitElapsed(elapsed);
    Pad2(minutes) + ":" + Pad2(seconds)
  }

  /** Position of the first `c` in `s`, if any. */
  function IndexOf(s: string, c: char): (r: Option<nat>)
    ensures r.Some? ==> r.value < |s| && s[r.value] == c && forall i :: 0 <= i < r.value ==> s[i] != c
    ensures r.None? ==> forall i :: 0 <= i < |s| ==> s[i] != c
  {
    if s == [] then None
    else if s[0] == c then Some(0)
    else match IndexOf(s[1..], c)
      case None => None
      case Some(i) => Some(i + 1)
  }

  /** Reads a stored "MM:SS" duration back as a number of seconds. */
  function ParseDuration(s: string): Option<nat> {
    match IndexOf(s, ':')
    case None => None
    case Some(k) =>
      match (ParseNat(s[..k]), ParseNat(s[k + 1..]))
      case (Some(m), Some(sec)) => if sec < 60 then Some(m * 60 + sec) else None
      case _ => None
  }

  lemma {:induction false} DecimalValue(n: nat)
    ensures DigitsValue(Decimal(n)) == n
  {
    if n >= 10 {
      var d := Decimal(n);
      assert d[..|d| - 1] == Decimal(n / 10);
      DecimalValue(n / 10);
    }
  }

  /** A leading zero does not change a numeral's value. */
  lemma {:induction false} LeadingZeroValue(s: string)
    requires AllDigits(s)
    ensures AllDigits(['0'] + s) && DigitsValue(['0'] + s) == DigitsValue(s)
  {
    if s != [] {
      assert (['0'] + s)[..|s|] == ['0'] + s[..|s| - 1];
      LeadingZeroValue(s[..|s| - 1]);
    }
  }

  lemma Pad2Value(n: nat)
    ensures DigitsValue(Pad2(n)) == n
  {
    DecimalValue(n);
    if n < 10 {
      LeadingZeroValue(Decimal(n));
    }
  }

  /** The stored duration string reads back as the elapsed seconds it was made from. */
  lemma DurationRoundTrip(elapsed: nat)
    ensures ParseDuration(FormatDuration(elapsed)) == Some(elapsed)
  {
    var (m, sec) := SplitElapsed(elapsed);
    var pm, ps := Pad2(m), Pad2(sec);
    var s := pm + ":" + ps;
    assert s[|pm|] == ':';
    assert forall i :: 0 <= i < |pm| ==> s[i] == pm[i] && IsDigit(s[i]);
    assert IndexOf(s, ':') == Some(|pm|);
    assert s[..|pm|] == pm;
    assert s[|pm| + 1..] == ps;
    Pad2Value(m);
    Pad2Value(sec);
  }

  /** Distinct elapsed times are stored as distinct duration strings. */
  lemma FormatDurationInjective(a: nat, b: nat)
    requires FormatDuration(a) == FormatDuration(b)
    ensures a == b
  {
    DurationRoundTrip(a);
    DurationRoundTrip(b);
  }
}
