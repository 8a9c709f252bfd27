/**
 * The text the focus timer shows: the countdown as `MM:SS`
 * (`updateDisplay`) and the accumulated focus minutes as `Hh Mm`
 * (`updateStats`). Both split a count with floor division and the
 * JavaScript remainder, then print the parts with `toString`.
 * `ParseClock` and `ParseFocusTime` read the texts back; they are the
 * reference against which the formatting is proved correct.
 */
module TimerDisplay {
  import opened JsRuntime

  /** `Math.floor(n / 60)` and `n % 60`: the split of seconds into minutes
      and seconds, and of minutes into hours and minutes. For a positive
      divisor Dafny's `/` is floor division. */
  function SplitSixty(n: int): (r: (int, int))
    ensures n >= 0 ==> r.0 >= 0 && 0 <= r.1 < 60 && r.0 * 60 + r.1 == n
    ensures n < 0 ==> r.0 < 0 && 0 <= -r.1 < 60
  {
    (n / 60, JsRem(n, 60))
  }

  /** The countdown text: minutes and seconds, each left-padded with zeros
      to two characters, joined by a colon. Below 100 minutes the text is
      five characters with the colon in the middle; a negative countdown
      starts with a minus sign. `ClockRoundTrip` shows that a non-negative
      countdown reads back as the same number of seconds. */
  function FormatClock(t: int): (r: string)
    ensures 0 <= t < 6000 ==> |r| == 5 && r[2] == ':'
    ensures t < 0 ==> |r| >= 1 && r[0] == '-'
  {
    var (minutes, seconds) := SplitSixty(t);
    var mm := PadStart(NumberToString(minutes), 2, '0');
    var ss := PadStart(NumberToString(seconds), 2, '0');
    assert 0 <= t < 6000 ==> 0 <= minutes < 100 && 0 <= seconds < 60;
    assert 0 <= t < 6000 ==> |NumberToString(minutes)| <= 2 && |NumberToString(seconds)| <= 2;
    assert 0 <= t < 6000 ==> |mm| == 2 && |ss| == 2;
    assert t < 0 ==> mm == NumberToString(minutes);
    var r := mm + ":" + ss;
    assert |r| == |mm| + 1 + |ss| && r[|mm|] == ':';
    r
  }

  /** The total-focus-time text, e.g. `2h 5m` (no padding): it ends in `m`
      and a negative total starts with a minus sign. `FocusTimeRoundTrip`
      shows that a non-negative total reads back as the same number of
      minutes. */
  function FormatFocusTime(total: int): (r: string)
    ensures |r| >= 4 && r[|r| - 1] == 'm'
    ensures total < 0 ==> r[0] == '-'
  {
    var (hours, minutes) := SplitSixty(total);
    NumberToString(hours) + "h " + NumberToString(minutes) + "m"
  }

  /** Splits `s` at the first occurrence of `c`. */
  function SplitAt(s: string, c: char): (r: Option<(string, string)>)
    ensures r.None? <==> c !in s
    ensures r.Some? ==> c !in r.value.0 && s == r.value.0 + [c] + r.value.1
  {
    if s == [] then None
    else if s[0] == c then Some(([], s[1..]))
    else match SplitAt(s[1..], c)
      case None => None
      case Some((before, after)) => Some(([s[0]] + before, after))
  }

  /** Reads a `MM:SS` text back as a number of seconds: a run of digits, a
      colon, then exactly two digits below 60. */
  function ParseClock(f: string): Option<nat> {
    match SplitAt(f, ':')
    case None => None
    case Some((mm, ss)) =>
      if IsDigits(mm) && mm != [] && IsDigits(ss) && |ss| == 2 && DigitsValue(ss) < 60
      then Some(DigitsValue(mm) * 60 + DigitsValue(ss))
      else None
  }

  /** Reads an `Hh Mm` text back as a number of minutes. */
  function ParseFocusTime(f: string): Option<nat> {
    if f == [] || f[|f| - 1] != 'm' then None
    else match SplitAt(f[..|f| - 1], 'h')
      case None => None
      case Some((hh, rest)) =>
        if rest != [] && rest[0] == ' ' && IsDigits(hh) && hh != []
           && IsDigits(rest[1..]) && rest[1..] != [] && DigitsValue(rest[1..]) < 60
        then Some(DigitsValue(hh) * 60 + DigitsValue(rest[1..]))
        else None
  }

  lemma {:induction false} SplitAtJoin(a: string, c: char, b: string)
    requires c !in a
    ensures SplitAt(a + [c] + b, c) == Some((a, b))
  {
    var s := a + [c] + b;
    if a == [] {
      assert s[0] == c && s[1..] == b;
    } else {
      assert s[0] == a[0] != c;
      assert s[1..] == a[1..] + [c] + b;
      SplitAtJoin(a[1..], c, b);
      assert [a[0]] + a[1..] == a;
    }
  }

  /** A non-negative countdown prints as `MM:SS` and reads back as the same
      number of seconds; below 100 minutes the text is five characters. */
  lemma ClockRoundTrip(t: nat)
    ensures ParseClock(FormatClock(t)) == Some(t)
    ensures t < 6000 ==> |FormatClock(t)| == 5
  {
    var m, s := t / 60, t % 60;
    assert SplitSixty(t) == (m, s);
    var mm := PadStart(DecimalDigits(m), 2, '0');
    var ss := PadStart(DecimalDigits(s), 2, '0');
    var f := FormatClock(t);
    assert f == mm + [':'] + ss;
    ZeroPadValue(DecimalDigits(m), 2);
    ZeroPadValue(DecimalDigits(s), 2);
    DecimalRoundTrip(m);
    DecimalRoundTrip(s);
    assert |ss| == 2 && DigitsValue(ss) == s;
    assert ':' !in mm;
    SplitAtJoin(mm, ':', ss);
    assert ParseClock(f) == Some(DigitsValue(mm) * 60 + DigitsValue(ss));
  }

  /** A non-negative total prints as `Hh Mm` and reads back as the same
      number of minutes. */
  lemma FocusTimeRoundTrip(total: nat)
    ensures ParseFocusTime(FormatFocusTime(total)) == Some(total)
  {
    var h, m := total / 60, total % 60;
    assert SplitSixty(total) == (h, m);
    var hh := DecimalDigits(h);
    var mm := DecimalDigits(m);
    var rest := [' '] + mm;
    var f := FormatFocusTime(total);
    assert f == hh + ['h'] + rest + ['m'];
    var body := f[..|f| - 1];
    assert body == hh + ['h'] + rest;
    assert 'h' !in hh;
    SplitAtJoin(hh, 'h', rest);
    assert SplitAt(body, 'h') == Some((hh, rest));
    assert rest[1..] == mm;
    DecimalRoundTrip(h);
    DecimalRoundTrip(m);
    assert f != [] && f[|f| - 1] == 'm';
    assert rest != [] && rest[0] == ' ' && IsDigits(hh) && hh != [];
    assert IsDigits(rest[1..]) && rest[1..] != [] && DigitsValue(rest[1..]) < 60;
    assert ParseFocusTime(f) == Some(DigitsValue(hh) * 60 + DigitsValue(mm));
  }
}
