/**
 The part of `java.time.LocalTime` that the index-name computation uses: the
 nano-of-day encoding, `truncatedTo(ChronoUnit.MINUTES)` (which the JDK computes by
 flooring the nano-of-day to a whole number of minutes) and `toString()`.
 */
module LocalTimes {
  import opened Strings

  const NanosPerSecond: nat := 1_000_000_000
  const NanosPerMinute: nat := 60_000_000_000
  const NanosPerHour: nat := 3_600_000_000_000
  const NanosPerDay: nat := 86_400_000_000_000

  datatype TimeOfDay = TimeOfDay(hour: nat, minute: nat, second: nat, nano: nat)

  /** A time of day as `LocalTime` admits it: every field within its range. */
  type LocalTime = t: TimeOfDay
    | t.hour < 24 && t.minute < 60 && t.second < 60 && t.nano < 1_000_000_000
    witness TimeOfDay(0, 0, 0, 0)

  /** `LocalTime.toNanoOfDay`. */
  function ToNanoOfDay(t: LocalTime): (nod: nat)
    ensures nod < NanosPerDay
  {
    t.hour * NanosPerHour + t.minute * NanosPerMinute + t.second * NanosPerSecond + t.nano
  }

  /** `LocalTime.ofNanoOfDay`: the inverse of ToNanoOfDay on the nanos of one day. */
  function OfNanoOfDay(nod: nat): (t: LocalTime)
    requires nod < NanosPerDay
    ensures ToNanoOfDay(t) == nod
  {
    var hours := nod / NanosPerHour;
    var afterHours := nod - hours * NanosPerHour;
    var minutes := afterHours / NanosPerMinute;
    var afterMinutes := afterHours - minutes * NanosPerMinute;
    var seconds := afterMinutes / NanosPerSecond;
    TimeOfDay(hours, minutes, seconds, afterMinutes - seconds * NanosPerSecond)
  }

  /** Two times of day with the same nano-of-day are the same time. */
  lemma NanoOfDayInjective(a: LocalTime, b: LocalTime)
    requires ToNanoOfDay(a) == ToNanoOfDay(b)
    ensures a == b
  {
    var x := a.second * NanosPerSecond + a.nano;
    var y := b.second * NanosPerSecond + b.nano;
    assert x < NanosPerMinute && y < NanosPerMinute;
    var p := a.minute * NanosPerMinute + x;
    var q := b.minute * NanosPerMinute + y;
    assert p < NanosPerHour && q < NanosPerHour;
    assert a.hour * NanosPerHour + p == b.hour * NanosPerHour + q;
    SplitUnique(a.hour, p, b.hour, q, NanosPerHour);
    SplitUnique(a.minute, x, b.minute, y, NanosPerMinute);
    SplitUnique(a.second, a.nano, b.second, b.nano, NanosPerSecond);
  }

  /** Converting to the nano-of-day and back gives the time itself. */
  lemma OfNanoOfDayOfToNanoOfDay(t: LocalTime)
    ensures OfNanoOfDay(ToNanoOfDay(t)) == t
  {
    NanoOfDayInjective(OfNanoOfDay(ToNanoOfDay(t)), t);
  }

  /** Quotient and remainder are unique. */
  lemma SplitUnique(q1: nat, r1: nat, q2: nat, r2: nat, k: nat)
    requires r1 < k && r2 < k
    requires q1 * k + r1 == q2 * k + r2
    ensures q1 == q2 && r1 == r2
  {
    if q1 < q2 {
      MulGap(q1, q2, k);
    } else if q2 < q1 {
      MulGap(q2, q1, k);
    }
  }

  lemma {:induction false} MulGap(a: nat, b: nat, k: nat)
    requires a < b
    ensures a * k + k <= b * k
    decreases b - a
  {
    if a + 1 < b {
      MulGap(a, b - 1, k);
    }
    assert (b - 1) * k + k == b * k;
  }

  /**
   `truncatedTo(ChronoUnit.MINUTES)`, computed as the JDK does: floor the nano-of-day
   to a multiple of the length of a minute and convert back.
   */
  function TruncatedToMinutes(t: LocalTime): (r: LocalTime)
  {
    var nod := ToNanoOfDay(t);
    assert nod / NanosPerMinute * NanosPerMinute <= nod;
    OfNanoOfDay(nod / NanosPerMinute * NanosPerMinute)
  }

  /** Truncation to minutes keeps the hour and the minute and zeroes everything below. */
  lemma TruncatedToMinutesFields(t: LocalTime)
    ensures TruncatedToMinutes(t) == TimeOfDay(t.hour, t.minute, 0, 0)
  {
    var whole: LocalTime := TimeOfDay(t.hour, t.minute, 0, 0);
    var nod := ToNanoOfDay(t);
    var below := t.second * NanosPerSecond + t.nano;
    assert below < NanosPerMinute;
    assert nod == (t.hour * 60 + t.minute) * NanosPerMinute + below;
    DivOfSplit(t.hour * 60 + t.minute, below, NanosPerMinute);
    assert ToNanoOfDay(whole) == nod / NanosPerMinute * NanosPerMinute;
    NanoOfDayInjective(TruncatedToMinutes(t), whole);
  }

  lemma DivOfSplit(q: nat, r: nat, k: nat)
    requires 0 < k && r < k
    ensures (q * k + r) / k == q
  {
    var n := q * k + r;
    SplitUnique(n / k, n % k, q, r, k);
  }

  /**
   `LocalTime.toString()`: `HH:mm`, then `:ss` when seconds or nanos are non-zero, then
   a fraction of 3, 6 or 9 digits when nanos are non-zero.
   */
  function ToString(t: LocalTime): string
  {
    var hoursMinutes :=
      (if t.hour < 10 then "0" else "") + DecimalString(t.hour) +
      (if t.minute < 10 then ":0" else ":") + DecimalString(t.minute);
    if t.second > 0 || t.nano > 0 then
      hoursMinutes +
      (if t.second < 10 then ":0" else ":") + DecimalString(t.second) +
      (if t.nano > 0 then "." + FractionString(t.nano) else "")
    else
      hoursMinutes
  }

  /** The fraction of a second as `LocalTime.toString()` writes it: milli-, micro- or nano-second digits. */
  function FractionString(nano: nat): string
  {
    if nano % 1_000_000 == 0 then DecimalString(nano / 1_000_000 + 1_000)[1..]
    else if nano % 1_000 == 0 then DecimalString(nano / 1_000 + 1_000_000)[1..]
    else DecimalString(nano + 1_000_000_000)[1..]
  }

  /** A time on a whole minute renders as `HH:mm`, two zero-padded digits each. */
  lemma ToStringWholeMinute(t: LocalTime)
    requires t.second == 0 && t.nano == 0
    ensures ToString(t) == TwoDigits(t.hour) + ":" + TwoDigits(t.minute)
  {
    PaddedIsTwoDigits(t.hour);
    PaddedIsTwoDigits(t.minute);
    assert (if t.minute < 10 then ":0" else ":") + DecimalString(t.minute)
        == ":" + ((if t.minute < 10 then "0" else "") + DecimalString(t.minute));
  }

  /** A time with whole seconds, not on a whole minute, renders as `HH:mm:ss`. */
  lemma ToStringWholeSecond(t: LocalTime)
    requires t.second > 0 && t.nano == 0
    ensures ToString(t) == TwoDigits(t.hour) + ":" + TwoDigits(t.minute) + ":" + TwoDigits(t.second)
  {
    PaddedIsTwoDigits(t.hour);
    PaddedIsTwoDigits(t.minute);
    PaddedIsTwoDigits(t.second);
    assert (if t.minute < 10 then ":0" else ":") + DecimalString(t.minute)
        == ":" + ((if t.minute < 10 then "0" else "") + DecimalString(t.minute));
    assert (if t.second < 10 then ":0" else ":") + DecimalString(t.second)
        == ":" + ((if t.second < 10 then "0" else "") + DecimalString(t.second));
  }
}
