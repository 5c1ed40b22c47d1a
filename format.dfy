/**
 * Clock-face formatting of second counts, as both front ends print them:
 * `formatTime` ("HH:MM:SS", each part zero-padded to at least two characters) and
 * `formatDuration` ("Xh Ym", seconds dropped).
 */
module Format {
  import opened Text
  import opened Wrappers

  /** JavaScript `a % b` for `b > 0`: the remainder takes the sign of `a` (truncating division). */
  function JsRem(a: int, b: int): (r: int)
    requires b > 0
    ensures a >= 0 ==> r == a % b
    ensures -b < r < b
    ensures a < 0 ==> r <= 0
  {
    if a >= 0 then a % b else -((-a) % b)
  }

  /** Hours, minutes and seconds of a count, computed as the source does it. */
  datatype Hms = Hms(hours: int, minutes: int, seconds: int)

  /**
   * `Math.floor(s / 3600)`, `Math.floor((s % 3600) / 60)` and `s % 60` with JavaScript's `%`.
   * Dafny's `/` by a positive divisor already rounds toward negative infinity, like `Math.floor`.
   * For a non-negative count the parts are a mixed-radix decomposition of it.
   */
  function Decompose(total: int): (d: Hms)
    ensures total >= 0 ==> d.hours >= 0 && 0 <= d.minutes < 60 && 0 <= d.seconds < 60
    ensures total >= 0 ==> 3600 * d.hours + 60 * d.minutes + d.seconds == total
  {
    Hms(total / 3600, JsRem(total, 3600) / 60, JsRem(total, 60))
  }

  /** `String(n).padStart(2, '0')`. */
  function Two(n: int): string {
    PadStart(IntToString(n), 2, '0')
  }

  /** The template `${hh}:${mm}:${ss}`: three fields joined by colons. */
  function ClockFace(hh: string, mm: string, ss: string): string {
    Join([hh, mm, ss], ':')
  }

  /** `formatTime(seconds)`. */
  function FormatTime(total: int): string {
    var d := Decompose(total);
    ClockFace(Two(d.hours), Two(d.minutes), Two(d.seconds))
  }

  /** `formatDuration(seconds)`: whole hours and minutes, no padding, seconds dropped. */
  function FormatDuration(total: int): string {
    var d := Decompose(total);
    IntToString(d.hours) + "h " + IntToString(d.minutes) + "m"
  }

  /** Reads an "H..H:MM:SS" clock face back into seconds; `None` for anything else. */
  function ParseClock(t: string): Option<int> {
    ParseFields(Split(t, ':'))
  }

  /** Three digit fields, the last two of exactly two characters, as a count of seconds. */
  function ParseFields(parts: seq<string>): Option<int> {
    if |parts| == 3 && AllDigits(parts[0]) && AllDigits(parts[1]) && AllDigits(parts[2])
       && |parts[1]| == 2 && |parts[2]| == 2
    then Some(3600 * DecVal(parts[0]) + 60 * DecVal(parts[1]) + DecVal(parts[2]))
    else None
  }

  /** A zero-padded non-negative number reads back as itself. */
  lemma {:induction false} TwoOfNat(n: nat)
    ensures AllDigits(Two(n)) && |Two(n)| >= 2 && DecVal(Two(n)) == n
    ensures n < 100 ==> |Two(n)| == 2
  {
    var s := Digits(n);
    DecValDigits(n);
    if |s| < 2 {
      assert Two(n) == Repeat('0', 2 - |s|) + s;
      DecValLeadingZeros(2 - |s|, s);
    } else {
      assert Two(n) == s;
    }
  }

  /**
   * For any non-negative count, the displayed "HH:MM:SS" names exactly that many seconds:
   * minutes and seconds take two characters each and the clock face reads back unchanged.
   */
  lemma {:induction false} FormatTimeRoundTrip(total: nat)
    ensures ParseClock(FormatTime(total)) == Some(total)
  {
    var d := Decompose(total);
    var h, m, s := d.hours, d.minutes, d.seconds;
    TwoOfNat(h);
    TwoOfNat(m);
    TwoOfNat(s);
    ParseClockOf(Two(h), Two(m), Two(s), total);
  }

  lemma ParseClockOf(hh: string, mm: string, ss: string, total: int)
    requires AllDigits(hh) && AllDigits(mm) && AllDigits(ss)
    requires |mm| == 2 && |ss| == 2
    requires total == 3600 * DecVal(hh) + 60 * DecVal(mm) + DecVal(ss)
    ensures ParseClock(ClockFace(hh, mm, ss)) == Some(total)
  {
    SplitClockFace(hh, mm, ss);
    FieldsValue(hh, mm, ss, total);
  }

  lemma FieldsValue(hh: string, mm: string, ss: string, total: int)
    requires AllDigits(hh) && AllDigits(mm) && AllDigits(ss)
    requires |mm| == 2 && |ss| == 2
    requires total == 3600 * DecVal(hh) + 60 * DecVal(mm) + DecVal(ss)
    ensures ParseFields([hh, mm, ss]) == Some(total)
  {
  }

  /** Splitting a clock face at its colons gives back the three digit fields. */
  lemma SplitClockFace(hh: string, mm: string, ss: string)
    requires AllDigits(hh) && AllDigits(mm) && AllDigits(ss)
    ensures Split(ClockFace(hh, mm, ss), ':') == [hh, mm, ss]
  {
    NoColonInDigits(hh);
    NoColonInDigits(mm);
    NoColonInDigits(ss);
    SplitUnique(ClockFace(hh, mm, ss), ':', [hh, mm, ss]);
  }

  lemma NoColonInDigits(s: string)
    requires AllDigits(s)
    ensures ':' !in s
  {
    assert forall i :: 0 <= i < |s| ==> s[i] != ':';
  }

  /** A negative count (clock skew between browser and server) prints with minus signs. */
  lemma FormatTimeNegative()
    ensures FormatTime(-5) == "-1:-1:-5"
  {
    assert Decompose(-5) == Hms(-1, -1, -5);
    assert Digits(1) == "1" && Digits(5) == "5";
  }

  /** `formatDuration` depends only on the whole minutes of a non-negative count. */
  lemma {:induction false} FormatDurationDropsSeconds(a: nat, b: nat)
    requires a / 60 == b / 60
    ensures FormatDuration(a) == FormatDuration(b)
  {
    WholeMinutes(a);
    WholeMinutes(b);
  }

  lemma WholeMinutes(a: nat)
    ensures a / 3600 == (a / 60) / 60 && (a % 3600) / 60 == (a / 60) % 60
  {
  }

  /** The minutes field of `formatDuration` is always below 60 for a non-negative count. */
  lemma FormatDurationShape(total: nat)
    ensures FormatDuration(total) == Digits(total / 3600) + "h " + Digits((total % 3600) / 60) + "m"
    ensures (total % 3600) / 60 < 60
  {
  }
}
