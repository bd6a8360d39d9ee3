/** Weekly schedules across time zones: schedule/timezone.go.

  Time is counted in whole hours. Hour t of a clock belongs to day t div 24, and days are numbered
  so that day 0 is a Monday, bit 0 of a weekday mask.
 */
module TimeZones {
  import opened Bytes

  // ----- Go's arithmetic -----

  /** Go's % truncates towards zero. */
  function Rem(a: int, m: nat): int
    requires m > 0
  {
    if a >= 0 then a % m else -((-a) % m)
  }

  /** Go's conversion of an int to a byte. */
  function ToByte(a: int): Hour { a % 256 }

  /** The value of an hour stored in a byte. */
  type Hour = h: int | 0 <= h < 256

  function RotateRight(r: byte): byte { ((r >> 1) | ((r & 0x01) << 6)) & 0x7F }

  function RotateLeft(r: byte): byte { ((r << 1) & 0x7F) | ((r >> 6) & 0x01) }

  function LocalToUTC(localHour: Hour, repeat: byte, tz: int): (Hour, byte)
  {
    var adjusted := localHour - tz + 24;
    var utcHour := ToByte(Rem(localHour - tz + 24 * 2, 24));
    var r := repeat & 0x7F;
    (utcHour, if adjusted < 24 then RotateRight(r) else if adjusted >= 48 then RotateLeft(r) else r)
  }

  function UTCToLocal(utcHour: Hour, utcRepeat: byte, tz: int): (Hour, byte)
  {
    var adjusted := utcHour + tz + 24;
    var localHour := ToByte(Rem(utcHour + tz + 24 * 2, 24));
    var r := utcRepeat & 0x7F;
    (localHour, if adjusted < 24 then RotateRight(r) else if adjusted >= 48 then RotateLeft(r) else r)
  }

  // ----- what a schedule means -----

  /** Bit d of a weekday mask. */
  predicate Bit(r: byte, d: int)
    requires 0 <= d < 7
  {
    r & (if d == 0 then 0x01 else if d == 1 then 0x02 else if d == 2 then 0x04 else if d == 3 then 0x08
         else if d == 4 then 0x10 else if d == 5 then 0x20 else 0x40) != 0
  }

  /** The alarm (h, r) fires in hour t of the clock it is set by. */
  predicate Fires(h: int, r: byte, t: int)
  {
    t % 24 == h && Bit(r, (t / 24) % 7)
  }

  /** The alarm (h, r) set by a local clock tz hours ahead of UTC and the alarm (h', r') set by the
      UTC clock fire at the same instants. */
  ghost predicate SameInstants(h: int, r: byte, tz: int, h': int, r': byte)
  {
    forall t :: Fires(h, r, t + tz) <==> Fires(h', r', t)
  }

  lemma RotateBits(r: byte, d: int)
    requires 0 <= d < 7
    ensures Bit(RotateRight(r & 0x7F), d) == Bit(r, (d + 1) % 7)
    ensures Bit(RotateLeft(r & 0x7F), d) == Bit(r, (d + 6) % 7)
    ensures Bit(r & 0x7F, d) == Bit(r, d)
  {
    if d == 0 {
    } else if d == 1 {
    } else if d == 2 {
    } else if d == 3 {
    } else if d == 4 {
    } else if d == 5 {
    } else {
    }
  }

  // ----- the two conversions as one -----

  /** The number of days the code shifts the mask by when the hour moves to x. */
  function Shift(x: int): int { if x < 0 then -1 else if x >= 24 then 1 else 0 }

  function Shifted(r: byte, k: int): byte
  {
    if k < 0 then RotateRight(r & 0x7F) else if k > 0 then RotateLeft(r & 0x7F) else r & 0x7F
  }

  /** The alarm whose hour would be x, before it is brought back into one day. */
  function Converted(x: int, r: byte): (Hour, byte)
  {
    (ToByte(Rem(x + 48, 24)), Shifted(r, Shift(x)))
  }

  lemma BothConvert(h: Hour, r: byte, tz: int)
    ensures LocalToUTC(h, r, tz) == Converted(h - tz, r)
    ensures UTCToLocal(h, r, tz) == Converted(h + tz, r)
  {
  }

  /** The mask moves every weekday by the shift. */
  lemma ShiftedBits(r: byte, x: int, d: int)
    requires 0 <= d < 7
    ensures Bit(Shifted(r, Shift(x)), d) == Bit(r, (d - Shift(x)) % 7)
  {
    RotateBits(r, d);
  }

  /** The hour is the right one unless Go's remainder goes negative. */
  predicate HourKept(x: int) { x >= -48 || x % 24 == 0 }

  lemma HourKeptIff(x: int)
    ensures Converted(x, 0).0 == x % 24 <==> HourKept(x)
    ensures x >= -48 ==> Converted(x, 0).0 == x % 24
  {
    if x + 48 < 0 {
      var n := (-(x + 48)) % 24;
      assert -(x + 48) == 24 * ((-(x + 48)) / 24) + n;
      assert x == -48 - 24 * ((-(x + 48)) / 24) - n;
      if n != 0 {
        NegativeRemainder(x, -3 - (-(x + 48)) / 24, 24 - n);
      } else {
        NegativeRemainder(x, -2 - (-(x + 48)) / 24, 0);
      }
    }
  }

  lemma NegativeRemainder(x: int, q: int, n: int)
    requires x == 24 * q + n && 0 <= n < 24
    ensures x / 24 == q && x % 24 == n
  {
  }

  // ----- when the conversion keeps the instants -----

  /** The exact condition: an alarm with no weekday never fires either way; otherwise the hour must
      be kept, and the mask must either be invariant under rotation or be shifted by the right
      number of days modulo a week. */
  predicate InstantsKept(x: int, r: byte)
  {
    var m := r & 0x7F;
    m == 0 || (HourKept(x) && (m == 0x7F || (x / 24 - Shift(x)) % 7 == 0))
  }

  lemma EmptyMask(r: byte, d: int)
    requires 0 <= d < 7
    ensures r & 0x7F == 0 ==> !Bit(r, d)
    ensures r & 0x7F == 0x7F ==> Bit(r, d)
  {
  }

  lemma SomeBit(r: byte) returns (d: int)
    requires r & 0x7F != 0
    ensures 0 <= d < 7 && Bit(r, d)
  {
    d := if Bit(r, 0) then 0 else if Bit(r, 1) then 1 else if Bit(r, 2) then 2 else if Bit(r, 3) then 3
         else if Bit(r, 4) then 4 else if Bit(r, 5) then 5 else 6;
  }

  /** Weekday d of the mask is set exactly when the weekday s days later is. */
  predicate SameLater(r: byte, s: int, d: int)
    requires 0 <= d < 7
  {
    Bit(r, d) == Bit(r, (d + s) % 7)
  }

  ghost predicate LooksSame(r: byte, s: int)
  {
    forall d | 0 <= d < 7 :: SameLater(r, s, d)
  }

  /** The weekday reached from Monday by k steps of s days. */
  function Orbit(s: nat, k: nat): (d: int)
    requires s < 7
    ensures 0 <= d < 7
  {
    if k == 0 then 0 else Later(Orbit(s, k - 1), s)
  }

  function Later(d: int, s: nat): (e: int)
    requires 0 <= d < 7 && s < 7
    ensures 0 <= e < 7
  {
    if d + s >= 7 then d + s - 7 else d + s
  }

  lemma LaterIsModular(d: int, s: nat)
    requires 0 <= d < 7 && s < 7
    ensures Later(d, s) == (d + s) % 7
  {
  }

  lemma {:induction false} SameAlongOrbit(r: byte, s: nat, k: nat)
    requires s < 7 && LooksSame(r, s)
    ensures Bit(r, 0) == Bit(r, Orbit(s, k))
  {
    if k > 0 {
      SameAlongOrbit(r, s, k - 1);
      assert SameLater(r, s, Orbit(s, k - 1));
      LaterIsModular(Orbit(s, k - 1), s);
    }
  }

  lemma OneMore(s: nat, k: nat, d: int) returns (e: int)
    requires s < 7 && 0 <= d < 7 && Orbit(s, k) == d
    ensures e == Later(d, s) && Orbit(s, k + 1) == e
  {
    e := Later(d, s);
  }

  /** Seven is prime, so the steps reach every weekday. */
  lemma OrbitReaches(s: nat, e: nat) returns (k: nat)
    requires 1 <= s < 7 && e < 7
    ensures Orbit(s, k) == e
  {
    var one := OneMore(s, 0, 0);
    var two := OneMore(s, 1, one);
    var three := OneMore(s, 2, two);
    var four := OneMore(s, 3, three);
    var five := OneMore(s, 4, four);
    var six := OneMore(s, 5, five);
    k := if e == 0 then 0 else if e == one then 1 else if e == two then 2 else if e == three then 3
         else if e == four then 4 else if e == five then 5 else 6;
  }

  /** Only the empty and the full mask look the same s days later. */
  lemma RotationVisible(r: byte, s: nat)
    requires 1 <= s < 7
    ensures LooksSame(r, s) <==> r & 0x7F == 0 || r & 0x7F == 0x7F
  {
    if LooksSame(r, s) {
      forall e: nat | e < 7
        ensures Bit(r, 0) == Bit(r, e)
      {
        var k := OrbitReaches(s, e);
        SameAlongOrbit(r, s, k);
      }
      UniformMask(r);
    } else {
      var d :| 0 <= d < 7 && !SameLater(r, s, d);
      EmptyMask(r, d);
      EmptyMask(r, (d + s) % 7);
    }
  }

  lemma UniformMask(r: byte)
    requires Bit(r, 0) == Bit(r, 1) == Bit(r, 2) == Bit(r, 3) == Bit(r, 4) == Bit(r, 5) == Bit(r, 6)
    ensures r & 0x7F == 0 || r & 0x7F == 0x7F
  {
  }

  lemma OrbitStep(x: int, s: int)
    ensures (x % 7 + s) % 7 == (x + s) % 7
  {
  }

  /** Instant t of UTC, written as day k and hour n, against the local clock. */
  lemma LocalInstant(h: Hour, tz: int, t: int)
    requires h <= 23
    ensures (t + tz) % 24 == h <==> t % 24 == (h - tz) % 24
    ensures (t + tz) % 24 == h ==> (t + tz) / 24 == t / 24 - (h - tz) / 24
  {
    var x := h - tz;
    var k, n := t / 24, t % 24;
    if n == x % 24 {
      NegativeRemainder(t + tz, k - x / 24, h);
    }
    if (t + tz) % 24 == h {
      NegativeRemainder(t, (t + tz) / 24 + x / 24, x % 24);
    }
  }

  /** The converted alarm fires in UTC instant t, in terms of the original mask. */
  lemma ConvertedFires(x: int, r: byte, t: int)
    ensures Fires(Converted(x, r).0, Converted(x, r).1, t)
       <==> t % 24 == Converted(x, r).0 && Bit(r, (t / 24 - Shift(x)) % 7)
  {
    ShiftedBits(r, x, (t / 24) % 7);
    OrbitStep(t / 24, -Shift(x));
  }

  lemma KeptForward(h: Hour, r: byte, tz: int, t: int)
    requires h <= 23 && InstantsKept(h - tz, r)
    ensures Fires(h, r, t + tz) <==> Fires(Converted(h - tz, r).0, Converted(h - tz, r).1, t)
  {
    var x := h - tz;
    ConvertedFires(x, r, t);
    LocalInstant(h, tz, t);
    HourKeptIff(x);
    EmptyMask(r, ((t + tz) / 24) % 7);
    EmptyMask(r, (t / 24 - Shift(x)) % 7);
    if (x / 24 - Shift(x)) % 7 == 0 {
      SameResidue(t / 24 - x / 24, t / 24 - Shift(x));
    }
  }

  lemma SameResidue(a: int, b: int)
    requires (b - a) % 7 == 0
    ensures a % 7 == b % 7
  {
  }

  /** When the hour is lost, some instant at which the local alarm fires is missed. */
  lemma HourMissed(h: Hour, r: byte, tz: int)
    requires h <= 23 && r & 0x7F != 0 && !HourKept(h - tz)
    ensures !SameInstants(h, r, tz, Converted(h - tz, r).0, Converted(h - tz, r).1)
  {
    var x := h - tz;
    var d := SomeBit(r);
    var t := h + 24 * d - tz;
    assert (t + tz) / 24 == d && (t + tz) % 24 == h;
    LocalInstant(h, tz, t);
    HourKeptIff(x);
    assert Fires(h, r, t + tz) && !Fires(Converted(x, r).0, Converted(x, r).1, t);
  }

  /** When the mask is shifted by the wrong number of days, some instant tells. */
  lemma DayMissed(h: Hour, r: byte, tz: int)
    requires h <= 23 && r & 0x7F != 0 && r & 0x7F != 0x7F
    requires HourKept(h - tz) && ((h - tz) / 24 - Shift(h - tz)) % 7 != 0
    ensures !SameInstants(h, r, tz, Converted(h - tz, r).0, Converted(h - tz, r).1)
  {
    var x := h - tz;
    var q, s := x / 24, (x / 24 - Shift(x)) % 7;
    RotationVisible(r, s);
    var d :| 0 <= d < 7 && !SameLater(r, s, d);
    var t := 24 * (d + q) + x % 24;
    NegativeRemainder(t, d + q, x % 24);
    LocalDay(h, r, tz, d, t);
    UTCDay(x, r, d, t);
    assert Fires(h, r, t + tz) != Fires(Converted(x, r).0, Converted(x, r).1, t);
  }

  lemma LocalDay(h: Hour, r: byte, tz: int, d: int, t: int)
    requires h <= 23 && 0 <= d < 7
    requires t % 24 == (h - tz) % 24 && t / 24 == d + (h - tz) / 24
    ensures Fires(h, r, t + tz) <==> Bit(r, d)
  {
    LocalInstant(h, tz, t);
  }

  lemma UTCDay(x: int, r: byte, d: int, t: int)
    requires HourKept(x) && 0 <= d < 7
    requires t % 24 == x % 24 && t / 24 == d + x / 24
    ensures Fires(Converted(x, r).0, Converted(x, r).1, t) <==> Bit(r, (d + (x / 24 - Shift(x)) % 7) % 7)
  {
    HourKeptIff(x);
    ConvertedFires(x, r, t);
    OrbitStep(x / 24 - Shift(x), d);
    assert t / 24 - Shift(x) == x / 24 - Shift(x) + d;
  }

  lemma ConversionKeepsInstants(h: Hour, r: byte, tz: int, h': Hour, r': byte)
    requires h <= 23 && (h', r') == Converted(h - tz, r)
    ensures SameInstants(h, r, tz, h', r') <==> InstantsKept(h - tz, r)
  {
    if InstantsKept(h - tz, r) {
      forall t
        ensures Fires(h, r, t + tz) <==> Fires(h', r', t)
      {
        KeptForward(h, r, tz, t);
      }
    } else if !HourKept(h - tz) {
      HourMissed(h, r, tz);
    } else {
      DayMissed(h, r, tz);
    }
  }

  /** LocalToUTC keeps the instants an alarm fires at exactly under the stated condition. */
  lemma LocalToUTCKeepsInstants(h: Hour, r: byte, tz: int, h': Hour, r': byte)
    requires h <= 23 && (h', r') == LocalToUTC(h, r, tz)
    ensures SameInstants(h, r, tz, h', r') <==> InstantsKept(h - tz, r)
  {
    BothConvert(h, r, tz);
    ConversionKeepsInstants(h, r, tz, h', r');
  }

  /** For the offsets there are, the converted alarm fires in hour t of UTC exactly when the given one
      fires in that hour of the local clock. */
  lemma FiresAlike(h: Hour, r: byte, tz: int, h': Hour, r': byte, t: int)
    requires h <= 23 && -24 <= tz <= 24 && (h', r') == LocalToUTC(h, r, tz)
    ensures Fires(h, r, t + tz) <==> Fires(h', r', t)
  {
    LocalToUTCKeepsInstants(h, r, tz, h', r');
  }

  /** Reading the same fact from the other clock. */
  lemma SwapClocks(h: Hour, r: byte, tz: int, h': Hour, r': byte)
    ensures SameInstants(h, r, tz, h', r') <==> SameInstants(h', r', -tz, h, r)
  {
    if SameInstants(h, r, tz, h', r') {
      forall t
        ensures Fires(h', r', t - tz) <==> Fires(h, r, t)
      {
        assert Fires(h, r, (t - tz) + tz) <==> Fires(h', r', t - tz);
      }
    }
    if SameInstants(h', r', -tz, h, r) {
      forall t
        ensures Fires(h, r, t + tz) <==> Fires(h', r', t)
      {
        assert Fires(h', r', (t + tz) + -tz) <==> Fires(h, r, t + tz);
      }
    }
  }

  /** The same for UTCToLocal, whose result is set by the local clock. */
  lemma UTCToLocalKeepsInstants(h: Hour, r: byte, tz: int, h': Hour, r': byte)
    requires h <= 23 && (h', r') == UTCToLocal(h, r, tz)
    ensures SameInstants(h', r', tz, h, r) <==> InstantsKept(h + tz, r)
  {
    BothConvert(h, r, tz);
    SwapClocks(h', r', tz, h, r);
    ConversionKeepsInstants(h, r, -tz, h', r');
  }

  /** The conversion is right for every hour and mask at all offsets of at most n hours. */
  ghost predicate RightUpTo(n: nat)
  {
    forall h: Hour, r: byte, tz: int | h <= 23 && -(n as int) <= tz <= n ::
      var u := LocalToUTC(h, r, tz); SameInstants(h, r, tz, u.0, u.1)
  }

  /** It is right up to 24 hours, and no further. */
  lemma RightUpTo24(n: nat)
    ensures RightUpTo(n) <==> n <= 24
  {
    if n <= 24 {
      forall h: Hour, r: byte, tz: int | h <= 23 && -(n as int) <= tz <= n
        ensures var u := LocalToUTC(h, r, tz); SameInstants(h, r, tz, u.0, u.1)
      {
        var u := LocalToUTC(h, r, tz);
        LocalToUTCKeepsInstants(h, r, tz, u.0, u.1);
      }
    } else {
      var u := LocalToUTC(0, 0x01, 25);
      LocalToUTCKeepsInstants(0, 0x01, 25, u.0, u.1);
      assert !SameInstants(0, 0x01, 25, u.0, u.1);
    }
  }

  // ----- the conversions compose -----

  lemma ShiftsCompose(r: byte, j: int, k: int)
    requires -1 <= j <= 1 && -1 <= k <= 1 && -1 <= j + k <= 1
    ensures Shifted(Shifted(r, j), k) == Shifted(r, j + k)
  {
    if j < 0 {
    } else if j > 0 {
    } else {
    }
  }

  lemma HoursCompose(x: int, b: int)
    requires -24 <= x < 48 && -24 <= x % 24 + b < 48 && -24 <= x + b < 48
    ensures Shift(x) + Shift(x % 24 + b) == Shift(x + b)
    ensures (x % 24 + b) % 24 == (x + b) % 24
  {
    var q := x / 24;
    NegativeRemainder(x + b, q + (x % 24 + b) / 24, (x % 24 + b) % 24);
  }

  lemma ConvertedCompose(x: int, r: byte, b: int)
    requires -24 <= x < 48 && -24 <= x % 24 + b < 48 && -24 <= x + b < 48
    ensures Converted(x % 24 + b, Shifted(r, Shift(x))) == Converted(x + b, r)
  {
    HoursCompose(x, b);
    ShiftsCompose(r, Shift(x), Shift(x % 24 + b));
    HourKeptIff(x % 24 + b);
    HourKeptIff(x + b);
  }

  /** Converting from offset a to UTC and on to offset b is converting by b - a. */
  lemma OffsetsCompose(h: Hour, r: byte, a: int, b: int)
    requires h <= 23 && -24 <= a <= 24 && -24 <= b <= 24 && -24 <= b - a <= 24
    ensures var u := LocalToUTC(h, r, a); UTCToLocal(u.0, u.1, b) == UTCToLocal(h, r, b - a)
  {
    var x := h - a;
    var u := LocalToUTC(h, r, a);
    assert u == (x % 24, Shifted(r, Shift(x))) by {
      BothConvert(h, r, a);
      HourKeptIff(x);
    }
    BothConvert(u.0, u.1, b);
    BothConvert(h, r, b - a);
    ConvertedCompose(x, r, b);
  }

  /** There and back again, up to the mask bit that is no weekday. */
  lemma RoundTrip(h: Hour, r: byte, tz: int)
    requires h <= 23 && -24 <= tz <= 24
    ensures var u := LocalToUTC(h, r, tz); u.0 <= 23 && UTCToLocal(u.0, u.1, tz) == (h, r & 0x7F)
  {
    OffsetsCompose(h, r, tz, tz);
    HourKeptIff(h - tz);
  }

  // ----- the number of weekdays -----

  function Weekdays(r: byte): nat
  {
    (if Bit(r, 0) then 1 else 0) + (if Bit(r, 1) then 1 else 0) + (if Bit(r, 2) then 1 else 0)
    + (if Bit(r, 3) then 1 else 0) + (if Bit(r, 4) then 1 else 0) + (if Bit(r, 5) then 1 else 0)
    + (if Bit(r, 6) then 1 else 0)
  }

  /** At any offset whatever, both conversions keep the number of weekdays and clear bit 7. */
  lemma WeekdaysKept(h: Hour, r: byte, tz: int)
    ensures var u := LocalToUTC(h, r, tz); Weekdays(u.1) == Weekdays(r) && u.1 & 0x80 == 0
    ensures var l := UTCToLocal(h, r, tz); Weekdays(l.1) == Weekdays(r) && l.1 & 0x80 == 0
  {
    BothConvert(h, r, tz);
    ShiftKeepsWeekdays(r, Shift(h - tz));
    ShiftKeepsWeekdays(r, Shift(h + tz));
  }

  lemma ShiftKeepsWeekdays(r: byte, k: int)
    ensures Weekdays(Shifted(r, k)) == Weekdays(r) && Shifted(r, k) & 0x80 == 0
  {
    RotateBits(r, 0);
    RotateBits(r, 1);
    RotateBits(r, 2);
    RotateBits(r, 3);
    RotateBits(r, 4);
    RotateBits(r, 5);
    RotateBits(r, 6);
  }
}
