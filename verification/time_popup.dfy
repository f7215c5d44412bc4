/** The date-time picker's clock arithmetic (narasearch_v1.py, `DateTimePopup`, lines 122-154)
    and the `yyyyMMddHHmm` stamp sent as the query period (lines 674-675). */
module TimePopup {
  import opened Decimal

  datatype Meridiem = Am | Pm

  /** The picker's three controls: the 오전/오후 selector, the hour box and the minute box. */
  datatype Dial = Dial(meridiem: Meridiem, hour: nat, minute: nat)

  /** The ranges the spin boxes enforce: hours 1 to 12, minutes 0 to 50. */
  predicate InRange(d: Dial)
  {
    1 <= d.hour <= 12 && d.minute <= 50
  }

  /** A time of day as a clock shows it. */
  predicate IsClock(h: nat, m: nat)
  {
    h < 24 && m < 60
  }

  /** `set_initial_datetime`: midnight and noon show as 12, afternoon hours lose 12, and the
      minute is rounded down to its ten. */
  function SetInitial(h: nat, m: nat): (d: Dial)
    requires IsClock(h, m)
    ensures InRange(d)
    ensures d.meridiem == Am <==> h < 12
    ensures d.minute % 10 == 0 && d.minute <= m < d.minute + 10
    ensures d.hour == (if h % 12 == 0 then 12 else h % 12)
  {
    var rounded := (m / 10) * 10;
    if h < 12 then Dial(Am, if h != 0 then h else 12, rounded)
    else Dial(Pm, if h != 12 then h - 12 else 12, rounded)
  }

  /** `emit_datetime`: the 24-hour clock time the picker reports. */
  function Emit(d: Dial): (t: (nat, nat))
    requires InRange(d)
    ensures IsClock(t.0, t.1)
    ensures t.1 == d.minute
    ensures t.0 < 12 <==> d.meridiem == Am
    ensures t.0 % 12 == d.hour % 12
  {
    match d.meridiem
    case Pm => (if d.hour != 12 then d.hour + 12 else d.hour, d.minute)
    case Am => (if d.hour == 12 then 0 else d.hour, d.minute)
  }

  /** Opening the picker on a time and confirming at once gives the same hour and the minute
      rounded down to its ten. */
  lemma EmitSetInitial(h: nat, m: nat)
    requires IsClock(h, m)
    ensures Emit(SetInitial(h, m)) == (h, m - m % 10)
  {
  }

  /** Every setting the picker can show on a ten-minute mark is the one it opens on for the time
      it reports: no two settings report the same time. */
  lemma SetInitialEmit(d: Dial)
    requires InRange(d) && d.minute % 10 == 0
    ensures IsClock(Emit(d).0, Emit(d).1) && SetInitial(Emit(d).0, Emit(d).1) == d
  {
  }

  /** The reported times are injective in the setting. */
  lemma EmitInjective(a: Dial, b: Dial)
    requires InRange(a) && InRange(b) && a.minute % 10 == 0 && b.minute % 10 == 0
    requires Emit(a) == Emit(b)
    ensures a == b
  {
    SetInitialEmit(a);
    SetInitialEmit(b);
  }

  function Pow10(w: nat): (p: nat)
    ensures p >= 1
  {
    if w == 0 then 1 else 10 * Pow10(w - 1)
  }

  /** Qt's zero-padded numeric field: exactly `w` digits reading back as `n`. */
  function Padded(n: nat, w: nat): (s: string)
    requires n < Pow10(w)
    ensures |s| == w && AllDigits(s)
    ensures ParseDigits(s) == n
    decreases w
  {
    if w == 0 then "" else Padded(n / 10, w - 1) + [DigitChar(n % 10)]
  }

  /** A moment of the search period as the date-time editors hold it. */
  datatype Moment = Moment(year: nat, month: nat, day: nat, hour: nat, minute: nat)

  predicate Fits(t: Moment)
  {
    t.year <= 9999 && 1 <= t.month <= 12 && 1 <= t.day <= 31 && IsClock(t.hour, t.minute)
  }

  /** `toString('yyyyMMddHHmm')`. */
  function Stamp(t: Moment): (s: string)
    requires Fits(t)
    ensures |s| == 12 && AllDigits(s)
  {
    Padded(t.year, 4) + Padded(t.month, 2) + Padded(t.day, 2) + Padded(t.hour, 2) + Padded(t.minute, 2)
  }

  /** Reading the stamp's fixed-width fields back recovers the moment. */
  function ReadStamp(s: string): (t: Moment)
    requires |s| == 12 && AllDigits(s)
  {
    Moment(ParseDigits(s[..4]), ParseDigits(s[4..6]), ParseDigits(s[6..8]), ParseDigits(s[8..10]), ParseDigits(s[10..]))
  }

  lemma ReadStampOf(t: Moment)
    requires Fits(t)
    ensures ReadStamp(Stamp(t)) == t
  {
    StampFields(Padded(t.year, 4), Padded(t.month, 2), Padded(t.day, 2), Padded(t.hour, 2), Padded(t.minute, 2));
  }

  /** The fixed widths put each field of the stamp at its own offset. */
  lemma StampFields(y: string, mo: string, d: string, h: string, mi: string)
    requires |y| == 4 && |mo| == 2 && |d| == 2 && |h| == 2 && |mi| == 2
    ensures var s := y + mo + d + h + mi;
      s[..4] == y && s[4..6] == mo && s[6..8] == d && s[8..10] == h && s[10..] == mi
  {
    var s := y + mo + d + h + mi;
    assert s[..4] == y;
    assert s[4..6] == mo;
    assert s[6..8] == d;
    assert s[8..10] == h;
    assert s[10..] == mi;
  }

  /** Different moments are sent as different stamps. */
  lemma StampInjective(a: Moment, b: Moment)
    requires Fits(a) && Fits(b) && Stamp(a) == Stamp(b)
    ensures a == b
  {
    ReadStampOf(a);
    ReadStampOf(b);
  }

}
