/** The countdown formatter `formatTime`: milliseconds to "HHh MMm SSs". */
module Countdown {
  import opened Options

  /** JavaScript's `%`, which truncates toward zero (Dafny's `%` never goes negative). */
  function JsRem(a: int, b: int): (r: int)
    requires b > 0
    ensures a >= 0 ==> 0 <= r < b
    ensures a < 0 ==> -b < r <= 0
    ensures a >= 0 ==> r == a % b
    ensures exists q :: a == q * b + r
  {
    if a >= 0 then
      assert a == (a / b) * b + a % b;
      a % b
    else
      assert a == (-((-a) / b)) * b + -((-a) % b);
      -((-a) % b)
  }

  /** The three fields of a countdown. */
  datatype Clock = Clock(hours: int, minutes: int, seconds: int)

  /** The arithmetic of `formatTime`. `Math.floor(x / d)` for a positive `d`
      is Dafny's `x / d`, which rounds toward minus infinity. */
  function SplitTime(ms: int): (c: Clock)
    ensures ms >= 0 ==> c.hours >= 0 && 0 <= c.minutes < 60 && 0 <= c.seconds < 60
    ensures ms >= 0 ==> c.hours * 3600 + c.minutes * 60 + c.seconds == ms / 1000
  {
    var totalSeconds := ms / 1000;
    var hours := totalSeconds / 3600;
    var minutes := JsRem(totalSeconds, 3600) / 60;
    var seconds := JsRem(totalSeconds, 60);
    if ms >= 0 then SplitFields(totalSeconds); Clock(hours, minutes, seconds)
    else Clock(hours, minutes, seconds)
  }

  /** For a non-negative count of seconds, the hour / minute / second split
      adds back up to the count. */
  lemma SplitFields(t: int)
    requires t >= 0
    ensures var h, m, s := t / 3600, (t % 3600) / 60, t % 60;
      0 <= m < 60 && 0 <= s < 60 && h * 3600 + m * 60 + s == t
  {
    var h, x := t / 3600, t % 3600;
    var m, s := x / 60, x % 60;
    var q, r := t / 60, t % 60;
    assert t == h * 3600 + x;
    assert x == m * 60 + s;
    assert t == q * 60 + r;
    assert (q - (h * 60 + m)) * 60 == s - r;
  }

  predicate IsDigit(c: char) {
    '0' <= c <= '9'
  }

  predicate AllDigits(s: string) {
    forall i :: 0 <= i < |s| ==> IsDigit(s[i])
  }

  function DigitChar(d: int): (c: char)
    requires 0 <= d < 10
    ensures IsDigit(c) && c as int - '0' as int == d
  {
    ('0' as int + d) as char
  }

  /** The number a string of decimal digits denotes (read most significant
      digit first). */
  function DigitsValue(s: string): int {
    if s == [] then 0
    else DigitsValue(s[..|s| - 1]) * 10 + (s[|s| - 1] as int - '0' as int)
  }

  /** `n.toString()` for a non-negative integer. */
  function NatToString(n: nat): (s: string)
    ensures 1 <= |s| && AllDigits(s)
    ensures DigitsValue(s) == n
    ensures n < 10 ==> |s| == 1
    ensures n < 100 ==> |s| <= 2
    ensures n >= 10 ==> |s| >= 2
    ensures |s| > 1 ==> s[0] != '0'
  {
    if n < 10 then [DigitChar(n)]
    else
      var s := NatToString(n / 10) + [DigitChar(n % 10)];
      assert s[..|s| - 1] == NatToString(n / 10);
      s
  }

  /** `n.toString()` for any integer: a minus sign before a negative one. */
  function IntToString(n: int): (r: string)
    ensures n >= 0 ==> AllDigits(r) && DigitsValue(r) == n && 1 <= |r| && (n < 100 ==> |r| <= 2)
    ensures n >= 0 && |r| > 1 ==> r[0] != '0'
    ensures n < 0 ==> 2 <= |r| && r[0] == '-' && AllDigits(r[1..]) && DigitsValue(r[1..]) == -n
  {
    if n < 0 then
      var r := "-" + NatToString(-n);
      assert r[1..] == NatToString(-n);
      r
    else NatToString(n)
  }

  /** `s.padStart(width, fill)` with a one-character fill. */
  function PadStart(s: string, width: nat, fill: char): (r: string)
    ensures |r| == if |s| < width then width else |s|
    ensures r[|r| - |s|..] == s
    ensures forall i :: 0 <= i < |r| - |s| ==> r[i] == fill
  {
    if |s| >= width then s else seq(width - |s|, _ => fill) + s
  }

  /** One field of the countdown: `n.toString().padStart(2, '0')`. Every
      field is at least two wide; a non-negative one is digits denoting it,
      exactly two wide below 100. */
  function TwoDigits(n: int): (r: string)
    ensures |r| >= 2
    ensures n >= 0 ==> AllDigits(r) && DigitsValue(r) == n && (n < 100 ==> |r| == 2)
    ensures n >= 10 ==> r[0] != '0'
  {
    var d := IntToString(n);
    if n >= 0 && |d| < 2 then
      LeadingZeros(2 - |d|, d);
      assert PadStart(d, 2, '0') == seq(2 - |d|, _ => '0') + d;
      PadStart(d, 2, '0')
    else PadStart(d, 2, '0')
  }

  /** The layout of the countdown text: hours, "h ", minutes, "m ", seconds, "s". */
  function JoinFields(h: string, m: string, s: string): (f: string)
    ensures var k, j := |h|, |h| + 2 + |m|;
      |f| == j + 2 + |s| + 1 && f[..k] == h && f[k] == 'h' && f[k + 1] == ' '
      && f[k + 2..j] == m && f[j] == 'm' && f[j + 1] == ' '
      && f[j + 2..|f| - 1] == s && f[|f| - 1] == 's'
  {
    h + "h " + m + "m " + s + "s"
  }

  /** `formatTime(ms)`. For a non-negative duration the text reads back as
      the whole number of seconds it holds. */
  function FormatTime(ms: int): (r: string)
    ensures |r| >= 11
    ensures ms >= 0 ==> ParseCountdown(r) == Some(ms / 1000)
    ensures 0 <= ms < 100 * 3600 * 1000 ==> |r| == 11
  {
    var c := SplitTime(ms);
    if ms >= 0 then
      ClockRoundTrip(c, ms / 1000);
      ClockWidth(c);
      JoinFields(TwoDigits(c.hours), TwoDigits(c.minutes), TwoDigits(c.seconds))
    else JoinFields(TwoDigits(c.hours), TwoDigits(c.minutes), TwoDigits(c.seconds))
  }

  /** Below 100 hours every field of a clock is exactly two wide, so the
      text is exactly 11 characters. */
  lemma ClockWidth(c: Clock)
    requires c.hours >= 0 && 0 <= c.minutes < 60 && 0 <= c.seconds < 60
    ensures c.hours < 100 ==>
      |JoinFields(TwoDigits(c.hours), TwoDigits(c.minutes), TwoDigits(c.seconds))| == 11
  {
  }

  /** Reads a countdown back: at least two hour digits, then "h ", two minute
      digits below 60, "m ", two second digits below 60 and "s"; gives the
      total number of seconds. */
  function ParseCountdown(s: string): Option<int> {
    if |s| < 11 then None
    else
      var k := |s| - 9;
      if s[k] == 'h' && s[k + 1] == ' ' && s[k + 4] == 'm' && s[k + 5] == ' ' && s[k + 8] == 's'
      then ParseFields(s[..k], s[k + 2..k + 4], s[k + 6..k + 8])
      else None
  }

  /** The value of the hour, minute and second digit groups, if well formed. */
  function ParseFields(hh: string, mm: string, ss: string): Option<int> {
    if AllDigits(hh) && AllDigits(mm) && AllDigits(ss)
       && DigitsValue(mm) < 60 && DigitsValue(ss) < 60
    then Some(DigitsValue(hh) * 3600 + DigitsValue(mm) * 60 + DigitsValue(ss))
    else None
  }

  /** Leading zeros do not change the value of a digit string. */
  lemma {:induction false} LeadingZeros(z: nat, s: string)
    requires AllDigits(s)
    ensures AllDigits(seq(z, _ => '0') + s)
    ensures DigitsValue(seq(z, _ => '0') + s) == DigitsValue(s)
    decreases |s|
  {
    var zs := seq(z, _ => '0');
    if s == [] {
      assert zs + s == zs;
      AllZeros(z);
    } else {
      var t := zs + s;
      assert t[..|t| - 1] == zs + s[..|s| - 1];
      LeadingZeros(z, s[..|s| - 1]);
    }
  }

  lemma {:induction false} AllZeros(z: nat)
    ensures AllDigits(seq(z, _ => '0'))
    ensures DigitsValue(seq(z, _ => '0')) == 0
  {
    if z > 0 {
      var zs := seq(z, _ => '0');
      assert zs[..z - 1] == seq(z - 1, _ => '0');
      AllZeros(z - 1);
    }
  }

  /** A text laid out as `JoinFields` lays it out parses field by field. */
  lemma ParseLaidOut(f: string, h: string, m: string, s: string)
    requires |h| >= 2 && |f| == |h| + 9
    requires f[..|h|] == h && f[|h| + 2..|h| + 4] == m && f[|h| + 6..|h| + 8] == s
    requires f[|h|] == 'h' && f[|h| + 1] == ' ' && f[|h| + 4] == 'm' && f[|h| + 5] == ' ' && f[|h| + 8] == 's'
    ensures ParseCountdown(f) == ParseFields(h, m, s)
  {
  }

  /** Three well-formed fields joined as `formatTime` joins them read back as
      the seconds they denote. */
  lemma ParseJoinedFields(h: string, m: string, s: string, total: int)
    requires AllDigits(h) && AllDigits(m) && AllDigits(s)
    requires |h| >= 2 && |m| == 2 && |s| == 2
    requires DigitsValue(m) < 60 && DigitsValue(s) < 60
    requires DigitsValue(h) * 3600 + DigitsValue(m) * 60 + DigitsValue(s) == total
    ensures ParseCountdown(JoinFields(h, m, s)) == Some(total)
  {
    ParseJoined(h, m, s);
  }

  /** Parsing a joined text gives back exactly its three fields. */
  lemma ParseJoined(h: string, m: string, s: string)
    requires |h| >= 2 && |m| == 2 && |s| == 2
    ensures ParseCountdown(JoinFields(h, m, s)) == ParseFields(h, m, s)
  {
    ParseLaidOut(JoinFields(h, m, s), h, m, s);
  }

  /** A clock with minutes and seconds below 60 renders as text that reads
      back as its total number of seconds. */
  lemma ClockRoundTrip(c: Clock, total: int)
    requires c.hours >= 0 && 0 <= c.minutes < 60 && 0 <= c.seconds < 60
    requires c.hours * 3600 + c.minutes * 60 + c.seconds == total
    ensures ParseCountdown(JoinFields(TwoDigits(c.hours), TwoDigits(c.minutes), TwoDigits(c.seconds))) == Some(total)
  {
    var h, m, s := TwoDigits(c.hours), TwoDigits(c.minutes), TwoDigits(c.seconds);
    ParseJoinedFields(h, m, s, total);
  }
}
