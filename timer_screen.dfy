/**
 * The arithmetic and strings the timer screen shows: the `MM:SS` countdown,
 * the "Session i/every" index and the session label.
 */
module TimerScreen {
  import opened Wrappers
  import opened SessionRules

  predicate IsDigit(c: char) {
    '0' <= c <= '9'
  }

  predicate AllDigits(s: string) {
    forall i :: 0 <= i < |s| ==> IsDigit(s[i])
  }

  /** The character of a decimal digit. */
  function DigitChar(d: nat): (c: char)
    requires d < 10
    ensures IsDigit(c)
    ensures c as int - '0' as int == d
  {
    (d + '0' as int) as char
  }

  /** The value of a decimal digit character. */
  function DigitValue(c: char): (d: nat)
    requires IsDigit(c)
    ensures d < 10
    ensures DigitChar(d) == c
  {
    c as int - '0' as int
  }

  /** `String(n)` for a non-negative integer: its decimal digits, without leading zeros. */
  function DecimalString(n: nat): (s: string)
    ensures |s| >= 1 && AllDigits(s)
    ensures s[0] == '0' ==> n == 0
    ensures n < 10 ==> |s| == 1
    ensures n >= 10 ==> |s| >= 2
    ensures n < 100 ==> |s| <= 2
    decreases n
  {
    if n < 10 then [DigitChar(n)] else DecimalString(n / 10) + [DigitChar(n % 10)]
  }

  /** The number a string of decimal digits denotes (leading zeros allowed). */
  function ParseDecimal(s: string): (n: nat)
    requires AllDigits(s)
    decreases |s|
  {
    if s == [] then 0 else ParseDecimal(s[..|s| - 1]) * 10 + DigitValue(s[|s| - 1])
  }

  /** Parsing the decimal string of `n` gives back `n`. */
  lemma {:induction false} ParseDecimalString(n: nat)
    ensures ParseDecimal(DecimalString(n)) == n
    decreases n
  {
    if n >= 10 {
      var s := DecimalString(n);
      assert s[..|s| - 1] == DecimalString(n / 10);
      ParseDecimalString(n / 10);
    }
  }

  /** `k` copies of the pad character `'0'`. */
  function Zeros(k: nat): (z: string)
    ensures |z| == k && forall i :: 0 <= i < k ==> z[i] == '0'
  {
    seq(k, _ => '0')
  }

  /** Leading zeros do not change the number a digit string denotes. */
  lemma {:induction false} ParseIgnoresLeadingZeros(k: nat, s: string)
    requires AllDigits(s)
    ensures AllDigits(Zeros(k) + s)
    ensures ParseDecimal(Zeros(k) + s) == ParseDecimal(s)
    decreases |s|
  {
    var z := Zeros(k);
    if s == [] {
      assert z + s == z;
      ParseZeros(k);
    } else {
      var t := s[..|s| - 1];
      assert (z + s)[..|z + s| - 1] == z + t;
      assert (z + s)[|z + s| - 1] == s[|s| - 1];
      ParseIgnoresLeadingZeros(k, t);
    }
  }

  /** A string of zeros denotes zero. */
  lemma {:induction false} ParseZeros(k: nat)
    ensures ParseDecimal(Zeros(k)) == 0
    decreases k
  {
    if k > 0 {
      assert Zeros(k)[..k - 1] == Zeros(k - 1);
      ParseZeros(k - 1);
    }
  }

  /** `s.padStart(2, "0")`: left-padded with zeros to two characters, never truncated. */
  function PadTwo(s: string): (r: string)
    ensures |r| == if |s| >= 2 then |s| else 2
    ensures r == Zeros(|r| - |s|) + s
  {
    if |s| >= 2 then s else Zeros(2 - |s|) + s
  }

  /** The minutes field: `String(Math.floor(total / 60)).padStart(2, "0")`. */
  function MinutesField(total: nat): (field: string)
    ensures AllDigits(field)
    ensures |field| == if total / 60 < 10 then 2 else |DecimalString(total / 60)|
  {
    PadTwo(DecimalString(total / 60))
  }

  /** The seconds field: `String(total % 60).padStart(2, "0")`. */
  function SecondsField(total: nat): (field: string)
    ensures AllDigits(field) && |field| == 2
  {
    PadTwo(DecimalString(total % 60))
  }

  /**
   * `formatMMSS`: minutes, a colon, seconds. The seconds field is always two
   * digits, the minutes field at least two and as many as the minutes need.
   */
  function FormatMMSS(total: nat): (r: string)
    ensures |r| >= 5 && r[|r| - 3] == ':'
    ensures r[..|r| - 3] == MinutesField(total) && r[|r| - 2..] == SecondsField(total)
    ensures |r| - 3 == if total / 60 < 10 then 2 else |DecimalString(total / 60)|
  {
    MinutesField(total) + ":" + SecondsField(total)
  }

  /** Number of occurrences of `c` in `s`. */
  function Occurrences(s: string, c: char): (n: nat)
    ensures n <= |s|
    decreases |s|
  {
    if s == [] then 0 else Occurrences(s[..|s| - 1], c) + (if s[|s| - 1] == c then 1 else 0)
  }

  /** A string without `c` has no occurrences of it. */
  lemma {:induction false} NoOccurrences(s: string, c: char)
    requires forall i :: 0 <= i < |s| ==> s[i] != c
    ensures Occurrences(s, c) == 0
    decreases |s|
  {
    if s != [] {
      NoOccurrences(s[..|s| - 1], c);
    }
  }

  /** Occurrences add up over a concatenation. */
  lemma {:induction false} OccurrencesAppend(a: string, b: string, c: char)
    ensures Occurrences(a + b, c) == Occurrences(a, c) + Occurrences(b, c)
    decreases |b|
  {
    if b == [] {
      assert a + b == a;
    } else {
      assert (a + b)[..|a + b| - 1] == a + b[..|b| - 1];
      OccurrencesAppend(a, b[..|b| - 1], c);
    }
  }

  /**
   * The shape of the countdown: exactly one colon, three characters before the
   * end; at least five characters, and exactly five below 100 minutes.
   */
  lemma FormatShape(total: nat)
    ensures var r := FormatMMSS(total);
      && Occurrences(r, ':') == 1
      && |r| >= 5 && r[|r| - 3] == ':'
      && (total < 6000 ==> |r| == 5)
  {
    var mm, ss := MinutesField(total), SecondsField(total);
    NoOccurrences(mm, ':');
    NoOccurrences(ss, ':');
    OccurrencesAppend(mm, ":", ':');
    OccurrencesAppend(mm + ":", ss, ':');
    assert Occurrences(":", ':') == 1 by {
      assert ":"[..0] == [];
    }
  }

  /** Minutes and seconds as read back from a display. */
  datatype MinSec = MinSec(minutes: nat, seconds: nat)

  /** Position of the first `c` in `s`, or `|s|` when there is none. */
  function IndexOf(s: string, c: char): (i: nat)
    ensures i <= |s|
    ensures i < |s| ==> s[i] == c
    ensures forall j :: 0 <= j < i ==> s[j] != c
    decreases |s|
  {
    if s == [] then 0 else if s[0] == c then 0 else 1 + IndexOf(s[1..], c)
  }

  /**
   * Reads a display back: the digits before the first colon and the digits
   * after it, each parsed as a decimal number; `None` for anything else.
   */
  function ParseMMSS(s: string): Option<MinSec> {
    var i := IndexOf(s, ':');
    if i == |s| then None
    else
      var mm, ss := s[..i], s[i + 1..];
      if mm != [] && ss != [] && AllDigits(mm) && AllDigits(ss) then
        Some(MinSec(ParseDecimal(mm), ParseDecimal(ss)))
      else None
  }

  /** Two non-empty digit strings joined by a colon read back as their two numbers. */
  lemma ParseJoined(mm: string, ss: string)
    requires mm != [] && ss != [] && AllDigits(mm) && AllDigits(ss)
    ensures ParseMMSS(mm + ":" + ss) == Some(MinSec(ParseDecimal(mm), ParseDecimal(ss)))
  {
    var r := mm + ":" + ss;
    assert forall j :: 0 <= j < |mm| ==> r[j] == mm[j] && r[j] != ':';
    assert r[|mm|] == ':';
    assert IndexOf(r, ':') == |mm|;
    assert r[..|mm|] == mm;
    assert r[|mm| + 1..] == ss;
  }

  /** A zero-padded decimal field reads back as the number it was made from. */
  lemma ParsePadded(n: nat)
    ensures AllDigits(PadTwo(DecimalString(n)))
    ensures ParseDecimal(PadTwo(DecimalString(n))) == n
  {
    var d := DecimalString(n);
    var p := PadTwo(d);
    ParseIgnoresLeadingZeros(|p| - |d|, d);
    ParseDecimalString(n);
  }

  /**
   * The countdown reads back unchanged: the parsed minutes and seconds are the
   * quotient and remainder of `total` by 60, so they recombine to `total`.
   */
  lemma FormatRoundTrip(total: nat)
    ensures ParseMMSS(FormatMMSS(total)) == Some(MinSec(total / 60, total % 60))
    ensures var p := ParseMMSS(FormatMMSS(total)).value;
      p.seconds < 60 && 60 * p.minutes + p.seconds == total
  {
    var mm, ss := MinutesField(total), SecondsField(total);
    assert FormatMMSS(total) == mm + ":" + ss;
    ParsePadded(total / 60);
    ParsePadded(total % 60);
    ParseJoined(mm, ss);
  }

  /**
   * `sessionIndex = Math.min((workDone % every) + 1, every)`: the position of
   * the current work session in its block, from 1 to `every`; the `min` never
   * takes effect.
   */
  function SessionIndex(workDone: nat, every: int): (r: int)
    requires every >= 1
    ensures 1 <= r <= every
    ensures r - 1 == workDone % every
  {
    if workDone % every + 1 <= every then workDone % every + 1 else every
  }

  /**
   * The index shows `every` exactly when completing the current work session
   * earns the long break.
   */
  lemma IndexAtEndOfBlockIffLongBreak(workDone: nat, settings: Settings)
    requires settings.sessionsBeforeLongBreak >= 1
    ensures SessionIndex(workDone, settings.sessionsBeforeLongBreak) == settings.sessionsBeforeLongBreak
        <==> NextSession(Work, workDone, settings) == LongBreak
  {
    var k := settings.sessionsBeforeLongBreak;
    var q, r := workDone / k, workDone % k;
    if r == k - 1 {
      ModuloUnique(workDone + 1, k, q + 1, 0);
    } else {
      ModuloUnique(workDone + 1, k, q, r + 1);
    }
  }

  /** The name each session type is shown under. */
  function DisplayName(t: SessionType): (name: string)
    ensures name != ""
  {
    match t
    case Work => "Work"
    case ShortBreak => "Short Break"
    case LongBreak => "Long Break"
  }

  /**
   * `sessionLabel = settings.jobName || <display name>`: the job name unless it
   * is empty, otherwise the session type's name; never empty.
   */
  function SessionLabel(jobName: string, t: SessionType): (text: string)
    ensures jobName != "" ==> text == jobName
    ensures jobName == "" ==> text == DisplayName(t)
    ensures text != ""
  {
    if jobName != "" then jobName else DisplayName(t)
  }
}
