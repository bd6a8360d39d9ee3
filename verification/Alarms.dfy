/** Alarm records: schedule/alarm.go, and the way of one alarm from a local schedule to the
  coordinator and back. */
module Alarms {
  import opened Bytes
  import opened Results
  import Commands
  import CommandDecoder
  import TimeZones

  type Hour = TimeZones.Hour

  const KIND_REGULAR: byte := 0x00
  const KIND_FLICK: byte := 0x01
  const KIND_GRADUAL: byte := 0x02
  const KIND_COUNTDOWN: byte := 0x03

  const ACTION_OFF: byte := 0x00
  const COUNTDOWN_ID: byte := 0xC9
  const NO_WEEKDAYS: byte := 0x00

  type Record = Block

  // ----- accessors -----

  function Id(r: Record): byte { r[0] }

  function Repeat(r: Record): byte { r[1] }

  function HourOf(r: Record): byte { r[2] }

  function Minute(r: Record): byte { r[3] }

  function Kind(r: Record): byte { r[4] }

  function Speed(r: Record): byte { r[5] }

  function Duration(r: Record): byte { r[6] }

  predicate Active(r: Record) { r[7] != 0 }

  function Target(r: Record): bv16 { Le16(r[8], r[9]) }

  function Action(r: Record): byte { r[15] }

  // ----- builders -----

  /** The 16 bytes of a record, in the order of the record layout. */
  function Layout(id: byte, repeat: byte, hour: byte, minute: byte, kind: byte, speed: byte, duration: byte,
                  target: bv16, state: byte, action: byte): Record
  {
    [id, repeat, hour, minute, kind, speed, duration, 0x01, Lo(target), Hi(target),
     0x00, 0x00, state, state, state, action]
  }

  function BuiltRecord(id: byte, repeat: byte, hour: byte, minute: byte, kind: byte, speed: byte,
                       target: bv16, action: byte): Result<Record>
  {
    if hour > 23 then Failure(HourOutOfRange)
    else if minute > 59 then Failure(MinuteOutOfRange)
    else Success(Layout(id, repeat, hour, minute, kind, speed, 0, target, 0xFF, action))
  }

  lemma LayoutIs(r: Record, id: byte, repeat: byte, hour: byte, minute: byte, kind: byte, speed: byte, duration: byte,
                 target: bv16, state: byte, action: byte)
    requires r[0] == id && r[1] == repeat && r[2] == hour && r[3] == minute && r[4] == kind && r[5] == speed
    requires r[6] == duration && r[7] == 0x01 && r[8] == Lo(target) && r[9] == Hi(target)
    requires r[10] == r[11] == 0 && r[12] == r[13] == r[14] == state && r[15] == action
    ensures r == Layout(id, repeat, hour, minute, kind, speed, duration, target, state, action)
  {
  }

  /** Slots 0 to 9, which all kinds of record fill in the same order. */
  method FillHead(r: array<byte>, id: byte, repeat: byte, hour: byte, minute: byte, kind: byte, speed: byte,
                  duration: byte, target: bv16)
    requires r.Length == 16
    modifies r
    ensures r[0] == id && r[1] == repeat && r[2] == hour && r[3] == minute && r[4] == kind && r[5] == speed
    ensures r[6] == duration && r[7] == 0x01 && r[8] == Lo(target) && r[9] == Hi(target)
    ensures forall k | 10 <= k < 16 :: r[k] == old(r[k])
  {
    r[0] := id;
    r[1] := repeat;
    r[2] := hour;
    r[3] := minute;
    r[4] := kind;
    r[5] := speed;
    r[6] := duration;
    r[7] := 0x01;
    PutLE16(r, 8, target);
  }

  /** Slots 10 to 15 of a record that is no countdown. */
  method FillTail(r: array<byte>, action: byte)
    requires r.Length == 16
    modifies r
    ensures r[10] == r[11] == 0x00 && r[12] == r[13] == r[14] == 0xFF && r[15] == action
    ensures forall k | 0 <= k < 10 :: r[k] == old(r[k])
  {
    r[10] := 0x00;
    r[11] := 0x00;
    r[12] := 0xFF;
    r[13] := 0xFF;
    r[14] := 0xFF;
    r[15] := action;
  }

  method Build(id: byte, repeat: byte, hour: byte, minute: byte, kind: byte, speed: byte,
               target: bv16, action: byte) returns (res: Result<Record>)
    ensures res == BuiltRecord(id, repeat, hour, minute, kind, speed, target, action)
    ensures hour > 23 ==> res == Failure(HourOutOfRange)
    ensures hour <= 23 && minute > 59 ==> res == Failure(MinuteOutOfRange)
  {
    if hour > 23 {
      return Failure(HourOutOfRange);
    }
    if minute > 59 {
      return Failure(MinuteOutOfRange);
    }
    var r := new byte[16](_ => 0);
    FillHead(r, id, repeat, hour, minute, kind, speed, 0, target);
    FillTail(r, action);
    LayoutIs(r[..], id, repeat, hour, minute, kind, speed, 0, target, 0xFF, action);
    return Success(r[..]);
  }

  function CountdownRecord(target: bv16, durationMin: byte): Result<Record>
  {
    if durationMin == 0 then Failure(ZeroDuration)
    else Success(Layout(COUNTDOWN_ID, NO_WEEKDAYS, 0, 0, KIND_COUNTDOWN, 0, durationMin, target, 0x00, ACTION_OFF))
  }

  method Countdown(target: bv16, durationMin: byte) returns (res: Result<Record>)
    ensures res == CountdownRecord(target, durationMin)
  {
    if durationMin == 0 {
      return Failure(ZeroDuration);
    }
    var r := new byte[16](_ => 0);
    FillHead(r, COUNTDOWN_ID, NO_WEEKDAYS, 0, 0, KIND_COUNTDOWN, 0, durationMin, target);
    r[15] := ACTION_OFF;
    LayoutIs(r[..], COUNTDOWN_ID, NO_WEEKDAYS, 0, 0, KIND_COUNTDOWN, 0, durationMin, target, 0x00, ACTION_OFF);
    return Success(r[..]);
  }

  function OneShot(id: byte, target: bv16, utcHour: byte, utcMin: byte, action: byte): Result<Record>
  {
    BuiltRecord(id, 0x00, utcHour, utcMin, KIND_REGULAR, 0, target, action)
  }

  function Recurring(id: byte, target: bv16, utcHour: byte, utcMin: byte, repeat: byte, action: byte): Result<Record>
  {
    if repeat == 0 then Failure(NoWeekday)
    else BuiltRecord(id, repeat & 0x7F, utcHour, utcMin, KIND_REGULAR, 0, target, action)
  }

  function Transition(id: byte, target: bv16, utcHour: byte, utcMin: byte, repeat: byte, kind: byte, speed: byte,
                      action: byte): Result<Record>
  {
    if kind != KIND_FLICK && kind != KIND_GRADUAL then Failure(BadKind)
    else BuiltRecord(id, repeat & 0x7F, utcHour, utcMin, kind, speed, target, action)
  }

  /** Every record any of the builders makes can be read back field by field, is active, and tells
      its kind: the accessors invert the layout. */
  lemma LayoutReadBack(id: byte, repeat: byte, hour: byte, minute: byte, kind: byte, speed: byte, duration: byte,
                       target: bv16, state: byte, action: byte)
    ensures var r := Layout(id, repeat, hour, minute, kind, speed, duration, target, state, action);
            && Id(r) == id && Repeat(r) == repeat && HourOf(r) == hour && Minute(r) == minute
            && Kind(r) == kind && Speed(r) == speed && Duration(r) == duration && Active(r)
            && Target(r) == target && Action(r) == action
  {
    Le16RoundTrip(target);
  }

  /** A recurring record is meant to have a weekday. The test comes before the masking, so the
      builder refuses only the zero byte: it returns a record without weekdays exactly for 0x80. */
  lemma RecurringWithoutWeekday(id: byte, target: bv16, hour: byte, minute: byte, repeat: byte, action: byte)
    requires hour <= 23 && minute <= 59
    ensures var res := Recurring(id, target, hour, minute, repeat, action);
            && (res.Failure? <==> repeat == 0)
            && (res.Success? ==> (Repeat(res.value) == 0 <==> repeat == 0x80))
  {
  }

  /** What a builder was asked for, as the accessors read it. */
  predicate Says(r: Record, id: byte, target: bv16, hour: byte, minute: byte, repeat: byte, action: byte)
  {
    && Id(r) == id && Target(r) == target && Action(r) == action && Active(r)
    && HourOf(r) == hour && Minute(r) == minute && Repeat(r) == repeat
  }

  /** Every byte of a record that is no countdown, at its place. */
  lemma RecordBytes(id: byte, repeat: byte, hour: byte, minute: byte, kind: byte, speed: byte, target: bv16,
                    action: byte)
    requires hour <= 23 && minute <= 59
    ensures var res := BuiltRecord(id, repeat, hour, minute, kind, speed, target, action);
            && res.Success?
            && res.value[..8] == [id, repeat, hour, minute, kind, speed, 0x00, 0x01]
            && Le16(res.value[8], res.value[9]) == target
            && res.value[10..] == [0x00, 0x00, 0xFF, 0xFF, 0xFF, action]
  {
    Le16RoundTrip(target);
  }

  /** And of a countdown. */
  lemma CountdownBytes(target: bv16, duration: byte)
    requires duration != 0
    ensures var res := CountdownRecord(target, duration);
            && res.Success?
            && res.value[..8] == [0xC9, 0x00, 0x00, 0x00, KIND_COUNTDOWN, 0x00, duration, 0x01]
            && Le16(res.value[8], res.value[9]) == target
            && res.value[10..] == [0x00, 0x00, 0x00, 0x00, 0x00, ACTION_OFF]
  {
    Le16RoundTrip(target);
  }

  /** Where the accessors read, and that every byte but zero counts as active. */
  lemma AccessorsRead(r: Record)
    ensures r[..7] == [Id(r), Repeat(r), HourOf(r), Minute(r), Kind(r), Speed(r), Duration(r)]
    ensures Active(r) <==> r[7] != 0
    ensures Target(r) == r[8] as bv16 + 0x100 * r[9] as bv16 && Action(r) == r[15]
  {
    Le16Little(0, r[8], r[9]);
  }

  /** A recurring alarm is refused exactly for no mask or a time that is none. */
  lemma RecurringReadBack(id: byte, target: bv16, hour: byte, minute: byte, repeat: byte, action: byte)
    ensures var res := Recurring(id, target, hour, minute, repeat, action);
            && (res.Success? <==> repeat != 0 && hour <= 23 && minute <= 59)
            && (res.Success? ==> Says(res.value, id, target, hour, minute, repeat & 0x7F, action))
            && (res.Success? ==> Kind(res.value) == KIND_REGULAR && Speed(res.value) == 0)
  {
    LayoutReadBack(id, repeat & 0x7F, hour, minute, KIND_REGULAR, 0, 0, target, 0xFF, action);
  }

  /** A one-shot alarm is refused exactly for a time that is none, and has no weekday. */
  lemma OneShotReadBack(id: byte, target: bv16, hour: byte, minute: byte, action: byte)
    ensures var res := OneShot(id, target, hour, minute, action);
            && (res.Success? <==> hour <= 23 && minute <= 59)
            && (res.Success? ==> Says(res.value, id, target, hour, minute, 0, action))
            && (res.Success? ==> Kind(res.value) == KIND_REGULAR && Speed(res.value) == 0)
  {
    LayoutReadBack(id, 0, hour, minute, KIND_REGULAR, 0, 0, target, 0xFF, action);
  }

  /** A transition is refused exactly for a time or a kind that is none, and keeps kind and speed. */
  lemma TransitionReadBack(id: byte, target: bv16, hour: byte, minute: byte, repeat: byte, kind: byte, speed: byte,
                           action: byte)
    ensures var res := Transition(id, target, hour, minute, repeat, kind, speed, action);
            && (res.Success? <==> hour <= 23 && minute <= 59 && (kind == KIND_FLICK || kind == KIND_GRADUAL))
            && (res.Success? ==> Says(res.value, id, target, hour, minute, repeat & 0x7F, action))
            && (res.Success? ==> Kind(res.value) == kind && Speed(res.value) == speed)
  {
    LayoutReadBack(id, repeat & 0x7F, hour, minute, kind, speed, 0, target, 0xFF, action);
  }

  /** A countdown is refused exactly for no duration, always turns off, and has the reserved id. */
  lemma CountdownReadBack(target: bv16, duration: byte)
    ensures var res := CountdownRecord(target, duration);
            && (res.Success? <==> duration != 0)
            && (res.Success? ==> Says(res.value, COUNTDOWN_ID, target, 0, 0, NO_WEEKDAYS, ACTION_OFF))
            && (res.Success? ==> Kind(res.value) == KIND_COUNTDOWN && Duration(res.value) == duration)
  {
    LayoutReadBack(COUNTDOWN_ID, NO_WEEKDAYS, 0, 0, KIND_COUNTDOWN, 0, duration, target, 0x00, ACTION_OFF);
  }

  // ----- checksum and the active byte -----

  method XOR(r: Record) returns (x: byte)
    ensures x == Fold(r)
  {
    x := 0;
    for i := 0 to 16
      invariant x == Fold(r[..i])
    {
      assert r[..i + 1][..i] == r[..i];
      x := x ^ r[i];
    }
    assert r[..16] == r;
  }

  method SetActive(r: Record, on: bool) returns (res: Record)
    ensures res == r[7 := if on then 0x01 else 0x00]
  {
    var out := new byte[16](i requires 0 <= i < 16 => r[i]);
    if on {
      out[7] := 0x01;
    } else {
      out[7] := 0x00;
    }
    res := out[..];
  }

  /** Disabling an active record and enabling it again restores it exactly when its active byte was
      the 0x01 that enabling writes; any other non-zero byte counts as active too. Either way each
      rewrite changes the checksum by the difference of the active bytes and nothing else. */
  lemma Toggle(r: Record)
    requires Active(r)
    ensures !Active(r[7 := 0x00]) && Active(r[7 := 0x00][7 := 0x01])
    ensures r[7 := 0x00][7 := 0x01] == r <==> r[7] == 0x01
    ensures Fold(r[7 := 0x00]) == Fold(r) ^ r[7]
    ensures Fold(r[7 := 0x00][7 := 0x01]) ^ Fold(r[7 := 0x00]) == 0x01
  {
    var off := r[7 := 0x00];
    FoldUpdate(r, 7, 0x00);
    FoldUpdate(off, 7, 0x01);
    FoldDelta(Fold(off));
    assert off[7 := 0x01][7] == 0x01;
    if r[7] == 0x01 {
      assert off[7 := 0x01] == r;
    }
  }

  lemma FoldDelta(f: byte)
    ensures (f ^ 0x00 ^ 0x01) ^ f == 0x01
  {
  }

  // ----- an alarm's way through the system -----

  /** What the owner of an alarm asked for, in local time. */
  datatype LocalAlarm = LocalAlarm(id: byte, target: bv16, hour: Hour, minute: byte, repeat: byte, action: byte) {
    predicate Valid() { hour <= 23 && minute <= 59 && repeat & 0x7F != 0 }
  }

  /** The record an application writes for it: convert to UTC, then build a recurring alarm. */
  function Scheduled(a: LocalAlarm, tz: int): Result<Record>
  {
    var (h, r) := TimeZones.LocalToUTC(a.hour, a.repeat, tz);
    Recurring(a.id, a.target, h as byte, a.minute, r, a.action)
  }

  /** What an application shows for a record it reads back. */
  function Shown(r: Record, tz: int): LocalAlarm
  {
    var (h, m) := TimeZones.UTCToLocal(HourOf(r) as int, Repeat(r), tz);
    LocalAlarm(Id(r), Target(r), h, Minute(r), m, Action(r))
  }

  lemma SmallHour(h: int)
    requires 0 <= h <= 23
    ensures (h as byte) as int == h && h as byte <= 23
  {
  }

  /** The converted mask has no bit beside the weekdays, and is empty only if the given one is. */
  lemma MaskSurvives(h: Hour, r: byte, tz: int)
    ensures var m := TimeZones.LocalToUTC(h, r, tz).1; m & 0x7F == m && (m == 0 <==> r & 0x7F == 0)
  {
  }

  lemma ConvertedHour(h: Hour, r: byte, tz: int)
    requires h <= 23 && -24 <= tz <= 24
    ensures TimeZones.LocalToUTC(h, r, tz).0 <= 23
  {
    TimeZones.RoundTrip(h, r, tz);
  }

  /** The alarm is built exactly when it is valid, and then the record says it at the given UTC time. */
  ghost predicate Carries(res: Result<Record>, a: LocalAlarm, h: Hour, m: byte)
  {
    && (res.Success? <==> a.Valid())
    && (res.Success? ==>
          && Says(res.value, a.id, a.target, h as byte, a.minute, m, a.action)
          && HourOf(res.value) as int == h)
  }

  lemma RecordFrom(a: LocalAlarm, h: Hour, m: byte)
    requires a.hour <= 23 && h <= 23 && m & 0x7F == m && (m == 0 <==> a.repeat & 0x7F == 0)
    ensures Carries(Recurring(a.id, a.target, h as byte, a.minute, m, a.action), a, h, m)
  {
    SmallHour(h);
    RecurringReadBack(a.id, a.target, h as byte, a.minute, m, a.action);
  }

  /** Scheduling succeeds exactly when the minute is valid and a weekday is named, and the record
      then carries the UTC hour and mask. */
  lemma ScheduledRecord(a: LocalAlarm, tz: int, h: Hour, m: byte)
    requires a.hour <= 23 && -24 <= tz <= 24 && (h, m) == TimeZones.LocalToUTC(a.hour, a.repeat, tz)
    ensures h <= 23 && Carries(Scheduled(a, tz), a, h, m)
  {
    ConvertedHour(a.hour, a.repeat, tz);
    MaskSurvives(a.hour, a.repeat, tz);
    RecordFrom(a, h, m);
  }

  /** Showing a scheduled record gives the alarm back, up to the mask bit that is no weekday. */
  lemma ScheduledShown(a: LocalAlarm, tz: int)
    requires a.Valid() && -24 <= tz <= 24
    ensures Scheduled(a, tz).Success?
    ensures Shown(Scheduled(a, tz).value, tz) == a.(repeat := a.repeat & 0x7F)
    ensures Active(Scheduled(a, tz).value)
  {
    var (h, m) := TimeZones.LocalToUTC(a.hour, a.repeat, tz);
    ScheduledRecord(a, tz, h, m);
    TimeZones.RoundTrip(a.hour, a.repeat, tz);
  }

  /** End to end: an alarm scheduled in local time, written as two encoded fragments that arrive in
      any order, reassembled by index byte and converted back, is the alarm that was asked for. */
  lemma AlarmEndToEnd(a: LocalAlarm, tz: int, r: Record, ps: seq<seq<byte>>)
    requires a.Valid() && -24 <= tz <= 24
    requires Scheduled(a, tz) == Success(r)
    requires forall p :: p in ps <==> || p == Commands.Encoded(Commands.AlarmFirst(r))
                                      || p == Commands.Encoded(Commands.AlarmSecond(r))
    ensures var got := CommandDecoder.AlarmFromParts(ps);
            && got.Some?
            && Fold(got.value.0 + [got.value.1]) == 0
            && Shown(got.value.0, tz) == a.(repeat := a.repeat & 0x7F)
            && Active(got.value.0)
  {
    ScheduledShown(a, tz);
    CommandDecoder.AlarmReassembles(r, ps);
    FoldWithChecksum(r, Fold(r));
  }

  /** And the alarm written fires, on the coordinator's UTC clock, at exactly the instants the owner
      meant on the local clock. */
  lemma AlarmFiresOnTime(a: LocalAlarm, tz: int, t: int)
    requires a.Valid() && -24 <= tz <= 24
    ensures Scheduled(a, tz).Success?
    ensures var r := Scheduled(a, tz).value;
            TimeZones.Fires(a.hour, a.repeat, t + tz) <==> TimeZones.Fires(HourOf(r) as int, Repeat(r), t)
  {
    var (h, m) := TimeZones.LocalToUTC(a.hour, a.repeat, tz);
    ScheduledRecord(a, tz, h, m);
    TimeZones.FiresAlike(a.hour, a.repeat, tz, h, m, t);
  }
}
