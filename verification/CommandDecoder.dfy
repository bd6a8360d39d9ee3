/** The receiving side of the command set, written as the specification the builders must meet:
  what each builder call means on the wire, a decoder for plaintexts, and reassembly of the
  fragmented commands. */
module CommandDecoder {
  import opened Bytes
  import opened Results
  import opened Commands

  /** A call of one of the builders; a call that makes several fragments appears once for each. */
  datatype Call =
    | CallOnOff(dst: bv16, on: bool)
    | CallGroupOnOff(dst: bv16, on: bool)
    | CallStatusQuery
    | CallStatusPoll(dst: bv16)
    | CallSetUTC(secs: bv64)
    | CallSetGroup(dst: bv16, groups: seq<byte>, mac5: byte)
    | CallQueryGroup(dst: bv16)
    | CallProbeGroup(dst: bv16)
    | CallLEDBlue(dst: bv16, on: bool)
    | CallLEDOrange(dst: bv16, level: byte)
    | CallLEDPurple(dst: bv16, level: byte)
    | CallLEDQuery(dst: bv16, mac5: byte)
    | CallFindMe(dst: bv16, on: bool)
    | CallAlarmFirst(record: Block)
    | CallAlarmSecond(record: Block)
    | CallQueryAlarm(slot: byte, mac5: byte, target: bv16)
    | CallDeleteAlarm(slot: byte, mac5: byte)
    | CallSlotQuery(mac5: byte)
    | CallSun(dst: bv16, sun: SunData, i: nat)
  {
    predicate Valid() { CallSun? ==> i < 3 }
  }

  function Built(c: Call): Command
    requires c.Valid()
  {
    match c
    case CallOnOff(dst, on) => Commands.OnOff(dst, on)
    case CallGroupOnOff(dst, on) => Commands.GroupOnOff(dst, on)
    case CallStatusQuery => Commands.StatusQuery()
    case CallStatusPoll(dst) => Commands.StatusPoll(dst)
    case CallSetUTC(secs) => UtcCommand(secs)
    case CallSetGroup(dst, groups, mac5) => GroupCommand(dst, groups, mac5)
    case CallQueryGroup(dst) => QueryGroupMembership(dst)
    case CallProbeGroup(dst) => Commands.ProbeGroup(dst)
    case CallLEDBlue(dst, on) => LEDSetBlue(dst, on)
    case CallLEDOrange(dst, level) => LEDSetOrange(dst, level)
    case CallLEDPurple(dst, level) => LEDSetPurple(dst, level)
    case CallLEDQuery(dst, mac5) => Commands.LEDQuery(dst, mac5)
    case CallFindMe(dst, start) => Commands.FindMe(dst, start)
    case CallAlarmFirst(record) => AlarmFirst(record)
    case CallAlarmSecond(record) => AlarmSecond(record)
    case CallQueryAlarm(slot, mac5, target) => Commands.QueryAlarm(slot, mac5, target)
    case CallDeleteAlarm(slot, mac5) => Commands.DeleteAlarm(slot, mac5)
    case CallSlotQuery(mac5) => Commands.SlotQuery(mac5)
    case CallSun(dst, sun, i) => SunCommand(dst, sun, i)
  }

  /** What a receiver can know of a call. Fields that a builder masks or truncates appear here in
      their masked or truncated form; everything else appears whole. */
  datatype Wire =
    | OnOff(dst: bv16, on: bool)
    | GroupOnOff(dst: bv16, on: bool)
    | StatusQuery
    | StatusPoll(dst: bv16)
    | SetUTC(secs32: bv32)
    | SetGroup(dst: bv16, count: byte, mac5: byte, slots: Half)
    | QueryGroup(dst: bv16)
    | ProbeGroup(dst: bv16)
    | LEDBlue(dst: bv16, on: bool)
    | LEDOrange(dst: bv16, level4: bv4)
    | LEDPurple(dst: bv16, level4: bv4)
    | LEDQuery(dst: bv16, mac5: byte)
    | FindMe(dst: bv16, on: bool)
    | AlarmHead(bytes: seq<byte>)
    | AlarmTail(bytes: seq<byte>, sum: byte)
    | QueryAlarm(slot: byte, mac5: byte, target: bv16)
    | DeleteAlarm(slot: byte, mac5: byte)
    | SlotQuery(mac5: byte)
    | Sun(dst: bv16, index: byte, piece: Half, trailer: byte)
  {
    predicate Valid()
    {
      && (AlarmHead? ==> |bytes| == 9)
      && (AlarmTail? ==> |bytes| == 7)
      && (Sun? ==> index < 3 && (index < 2 ==> trailer == 0))
    }
  }

  /** The group bytes a 15-byte plaintext has room for, zero-padded to eight. */
  function Slots(groups: seq<byte>): Half
  {
    seq(8, k requires 0 <= k < 8 => if k < |groups| then groups[k] else 0)
  }

  function Meaning(c: Call): Wire
    requires c.Valid()
  {
    match c
    case CallOnOff(dst, on) => Wire.OnOff(dst, on)
    case CallGroupOnOff(dst, on) => Wire.GroupOnOff(dst, on)
    case CallStatusQuery => Wire.StatusQuery
    case CallStatusPoll(dst) => Wire.StatusPoll(dst)
    case CallSetUTC(secs) => Wire.SetUTC(Low32(secs))
    case CallSetGroup(dst, groups, mac5) => Wire.SetGroup(dst, ByteOf(|groups|), mac5, Slots(groups))
    case CallQueryGroup(dst) => Wire.QueryGroup(dst)
    case CallProbeGroup(dst) => Wire.ProbeGroup(dst)
    case CallLEDBlue(dst, on) => Wire.LEDBlue(dst, on)
    case CallLEDOrange(dst, level) => Wire.LEDOrange(dst, (level & 0x0F) as bv4)
    case CallLEDPurple(dst, level) => Wire.LEDPurple(dst, (level & 0x0F) as bv4)
    case CallLEDQuery(dst, mac5) => Wire.LEDQuery(dst, mac5)
    case CallFindMe(dst, start) => Wire.FindMe(dst, start)
    case CallAlarmFirst(record) => Wire.AlarmHead(record[..9])
    case CallAlarmSecond(record) => Wire.AlarmTail(record[9..], Fold(record))
    case CallQueryAlarm(slot, mac5, target) => Wire.QueryAlarm(slot, mac5, target)
    case CallDeleteAlarm(slot, mac5) => Wire.DeleteAlarm(slot, mac5)
    case CallSlotQuery(mac5) => Wire.SlotQuery(mac5)
    case CallSun(dst, sun, i) =>
      Wire.Sun(dst, FragmentIndex(i), sun[i], if i == 2 then Fold(SunBytes(sun)) else 0)
  }

  /** Nothing but padding from byte k on. */
  predicate Quiet(d: seq<byte>, k: nat)
  {
    forall i | k <= i < |d| :: d[i] == 0
  }

  function When(ok: bool, w: Wire): Option<Wire>
  {
    if ok then Some(w) else None
  }

  /** A strict decoder. It dispatches on plaintext length and opcode; only the LED opcode, shared by
      three builders, and the alarm opcode, shared by two fragments, need the data as well. Then it
      checks every byte that carries no argument, down to the padding. */
  function Decode(p: seq<byte>): Option<Wire>
  {
    if |p| < 5 then None
    else
      var dst, op, vendor, d := Le16(p[0], p[1]), p[2], Le16(p[3], p[4]), p[5..];
      if |p| == 7 then
        When(op == OP_STATUS_POLL && vendor == VENDOR_SKYTONE_ALT && d[0] == 0x10 && d[1] == 0, Wire.StatusPoll(dst))
      else if |p| == 10 then DecodeMiddle(dst, op, vendor, d)
      else if |p| == 15 then DecodeLong(dst, op, vendor, d)
      else None
  }

  function DecodeMiddle(dst: bv16, op: byte, vendor: bv16, d: seq<byte>): Option<Wire>
    requires |d| == 5
  {
    if op == OP_STATUS_QUERY then
      When(vendor == VENDOR_SKYTONE && dst == BROADCAST
           && d[0] == 0 && d[1] == 0 && d[2] == 0xD7 && d[3] == 0x69 && d[4] == 0, Wire.StatusQuery)
    else if op == OP_QUERY_GROUP then When(vendor == VENDOR_SKYTONE_ALT && Quiet(d, 0), Wire.QueryGroup(dst))
    else if op == OP_PROBE_GROUP then
      When(vendor == VENDOR_SKYTONE_ALT && d[0] == 0x0A && d[1] == 1 && Quiet(d, 2), Wire.ProbeGroup(dst))
    else None
  }

  function DecodeLong(dst: bv16, op: byte, vendor: bv16, d: seq<byte>): Option<Wire>
    requires |d| == 10
  {
    if op == OP_LED_QUERY then When(vendor == VENDOR_LED_QUERY && Quiet(d, 1), Wire.LEDQuery(dst, d[0]))
    else if vendor != VENDOR_SKYTONE then None
    else if op == OP_LED_SET then DecodeLedSet(dst, d)
    else if op == OP_ON_OFF then When(d[0] <= 1 && Quiet(d, 1), Wire.OnOff(dst, d[0] == 1))
    else if op == OP_GROUP_ON_OFF then
      When((d[0] == 0x0E || d[0] == 0x0D) && d[1] == 0 && d[2] == 0x10 && d[3] == 0 && d[4] == 0 && d[5] == 0
           && Le16(d[6], d[7]) == dst && Quiet(d, 8), Wire.GroupOnOff(dst, d[0] == 0x0E))
    else if op == OP_STATUS_QUERY then When(dst == BROADCAST && Quiet(d, 4), Wire.SetUTC(Le32(d[..4])))
    else if op == OP_SET_GROUP then Some(Wire.SetGroup(dst, d[0], d[1], d[2..]))
    else if op == OP_FIND_ME then
      When(((d[0] == FIND_ME_MODE_BLINK && d[1] == FIND_ME_DURATION) || (d[0] == 0 && d[1] == 0)) && Quiet(d, 2),
           Wire.FindMe(dst, d[0] != 0))
    else if op == OP_SUNRISE_SUNSET then
      When(d[0] < 3 && (d[0] < 2 ==> d[9] == 0), Wire.Sun(dst, d[0], d[1..9], d[9]))
    else if dst == SCHEDULE_COORDINATOR then DecodeAlarmOp(op, d)
    else None
  }

  function DecodeLedSet(dst: bv16, d: seq<byte>): Option<Wire>
    requires |d| == 10
  {
    if d[2] == 0 then
      When(d[0] == LED_CH_BLUE_SELECT && (d[1] == LED_BLUE_ON_LEVEL || d[1] == 0) && Quiet(d, 2),
           Wire.LEDBlue(dst, d[1] != 0))
    else if d[2] != LED_CH_ORANGE_SELECT || d[3] > 0x0F || !Quiet(d, 4) then None
    else if d[0] == 0 then When(d[1] == 0, Wire.LEDOrange(dst, d[3] as bv4))
    else When(d[0] == LED_CH_BLUE_SELECT && d[1] == LED_BLUE_ON_LEVEL, Wire.LEDPurple(dst, d[3] as bv4))
  }

  function DecodeAlarmOp(op: byte, d: seq<byte>): Option<Wire>
    requires |d| == 10
  {
    if op == OP_WRITE_ALARM then
      if d[0] == 0 then Some(Wire.AlarmHead(d[1..]))
      else When(d[0] == 1 && d[9] == 0, Wire.AlarmTail(d[1..8], d[8]))
    else if op == OP_QUERY_ALARM then
      When(d[2] == 0 && Quiet(d, 5), Wire.QueryAlarm(d[0], d[1], Le16(d[3], d[4])))
    else if op == OP_DELETE_ALARM then When(Quiet(d, 2), Wire.DeleteAlarm(d[0], d[1]))
    else if op == OP_SLOT_QUERY then When(Quiet(d, 1), Wire.SlotQuery(d[0]))
    else None
  }

  lemma WireOpcodeKept(op: byte)
    requires op & 0xC0 == 0xC0
    ensures WireOpcode(op) == op
  {
  }

  /** The header of a plaintext comes back, and the opcode shift loses nothing of a wire opcode. */
  lemma HeaderSurvives(c: Command)
    requires c.Encodable() && c.opcode & 0xC0 == 0xC0
    ensures var p := Encoded(c); Le16(p[0], p[1]) == c.destination && p[2] == c.opcode && Le16(p[3], p[4]) == c.vendor
  {
    Le16RoundTrip(c.destination);
    Le16RoundTrip(c.vendor);
    WireOpcodeKept(c.opcode);
  }

  /** Every builder's plaintext decodes to the meaning of the call. */
  lemma DecodeBuilt(c: Call)
    requires c.Valid()
    ensures Decode(Encoded(Built(c))) == Some(Meaning(c))
  {
    var m := Built(c);
    var p := Encoded(m);
    HeaderSurvives(m);
    EncodedData(m);
    if |p| == 15 {
      var d := p[5..];
      assert Decode(p) == DecodeLong(m.destination, m.opcode, m.vendor, d);
      DecodeLongBuilt(c, d);
    }
  }

  lemma DecodeTime(c: Call, d: seq<byte>)
    requires c.Valid() && Built(c).plaintextLen == 15 && d == Encoded(Built(c))[5..]
    requires c.CallSetUTC?
    ensures DecodeLong(Built(c).destination, Built(c).opcode, Built(c).vendor, d) == Some(Meaning(c))
  {
    Le32RoundTrip(Low32(c.secs));
    assert d[..4] == Le32Bytes(Low32(c.secs));
  }

  lemma DecodeGroups(c: Call, d: seq<byte>)
    requires c.Valid() && Built(c).plaintextLen == 15 && d == Encoded(Built(c))[5..]
    requires c.CallSetGroup?
    ensures DecodeLong(Built(c).destination, Built(c).opcode, Built(c).vendor, d) == Some(Meaning(c))
  {
    assert d[2..] == Slots(c.groups);
  }

  lemma DecodeAlarm(c: Call, d: seq<byte>)
    requires c.Valid() && Built(c).plaintextLen == 15 && d == Encoded(Built(c))[5..]
    requires c.CallAlarmFirst? || c.CallAlarmSecond?
    ensures DecodeLong(Built(c).destination, Built(c).opcode, Built(c).vendor, d) == Some(Meaning(c))
  {
    if c.CallAlarmFirst? {
      assert d[1..] == c.record[..9];
    } else {
      assert forall k | 9 <= k < 16 :: c.record[k] == d[k - 8];
      assert d[1..8] == c.record[9..];
    }
  }

  lemma DecodeSun(c: Call, d: seq<byte>)
    requires c.Valid() && Built(c).plaintextLen == 15 && d == Encoded(Built(c))[5..]
    requires c.CallSun?
    ensures DecodeLong(Built(c).destination, Built(c).opcode, Built(c).vendor, d) == Some(Meaning(c))
  {
    assert forall k | 0 <= k < 8 :: c.sun[c.i][k] == d[1 + k];
    assert d[1..9] == c.sun[c.i];
  }

  lemma DecodeLed(c: Call, d: seq<byte>)
    requires c.Valid() && Built(c).plaintextLen == 15 && d == Encoded(Built(c))[5..]
    requires c.CallLEDBlue? || c.CallLEDOrange? || c.CallLEDPurple?
    ensures DecodeLong(Built(c).destination, Built(c).opcode, Built(c).vendor, d) == Some(Meaning(c))
  {
  }

  lemma DecodeSlotOps(c: Call, d: seq<byte>)
    requires c.Valid() && Built(c).plaintextLen == 15 && d == Encoded(Built(c))[5..]
    requires c.CallQueryAlarm? || c.CallDeleteAlarm? || c.CallSlotQuery?
    ensures DecodeLong(Built(c).destination, Built(c).opcode, Built(c).vendor, d) == Some(Meaning(c))
  {
    if c.CallQueryAlarm? {
      Le16RoundTrip(c.target);
    }
  }

  lemma DecodeControl(c: Call, d: seq<byte>)
    requires c.Valid() && Built(c).plaintextLen == 15 && d == Encoded(Built(c))[5..]
    requires c.CallOnOff? || c.CallGroupOnOff?
    ensures DecodeLong(Built(c).destination, Built(c).opcode, Built(c).vendor, d) == Some(Meaning(c))
  {
    if c.CallGroupOnOff? {
      Le16RoundTrip(c.dst);
    }
  }

  lemma DecodeIndicator(c: Call, d: seq<byte>)
    requires c.Valid() && Built(c).plaintextLen == 15 && d == Encoded(Built(c))[5..]
    requires c.CallLEDQuery? || c.CallFindMe?
    ensures DecodeLong(Built(c).destination, Built(c).opcode, Built(c).vendor, d) == Some(Meaning(c))
  {
  }

  lemma DecodeLongBuilt(c: Call, d: seq<byte>)
    requires c.Valid() && Built(c).plaintextLen == 15 && d == Encoded(Built(c))[5..]
    ensures DecodeLong(Built(c).destination, Built(c).opcode, Built(c).vendor, d) == Some(Meaning(c))
  {
    match c
    case CallSetUTC(_) => DecodeTime(c, d);
    case CallSetGroup(_, _, _) => DecodeGroups(c, d);
    case CallAlarmFirst(_) => DecodeAlarm(c, d);
    case CallAlarmSecond(_) => DecodeAlarm(c, d);
    case CallSun(_, _, _) => DecodeSun(c, d);
    case CallLEDBlue(_, _) => DecodeLed(c, d);
    case CallLEDOrange(_, _) => DecodeLed(c, d);
    case CallLEDPurple(_, _) => DecodeLed(c, d);
    case CallQueryAlarm(_, _, _) => DecodeSlotOps(c, d);
    case CallDeleteAlarm(_, _) => DecodeSlotOps(c, d);
    case CallSlotQuery(_) => DecodeSlotOps(c, d);
    case CallLEDQuery(_, _) => DecodeIndicator(c, d);
    case CallFindMe(_, _) => DecodeIndicator(c, d);
    case _ => DecodeControl(c, d);
  }

  // ----- nothing else is accepted -----

  /** A builder call that means w on the wire. */
  function Sender(w: Wire): Call
    requires w.Valid()
  {
    match w
    case OnOff(dst, on) => CallOnOff(dst, on)
    case GroupOnOff(dst, on) => CallGroupOnOff(dst, on)
    case StatusQuery => CallStatusQuery
    case StatusPoll(dst) => CallStatusPoll(dst)
    case SetUTC(secs32) => CallSetUTC(secs32 as bv64)
    case SetGroup(dst, count, mac5, slots) => CallSetGroup(dst, slots + Zeros(248 + count as nat), mac5)
    case QueryGroup(dst) => CallQueryGroup(dst)
    case ProbeGroup(dst) => CallProbeGroup(dst)
    case LEDBlue(dst, on) => CallLEDBlue(dst, on)
    case LEDOrange(dst, level4) => CallLEDOrange(dst, level4 as byte)
    case LEDPurple(dst, level4) => CallLEDPurple(dst, level4 as byte)
    case LEDQuery(dst, mac5) => CallLEDQuery(dst, mac5)
    case FindMe(dst, start) => CallFindMe(dst, start)
    case AlarmHead(bytes) => CallAlarmFirst(bytes + Zeros(7))
    case AlarmTail(bytes, sum) => CallAlarmSecond(WithFold(Zeros(9) + bytes, sum))
    case QueryAlarm(slot, mac5, target) => CallQueryAlarm(slot, mac5, target)
    case DeleteAlarm(slot, mac5) => CallDeleteAlarm(slot, mac5)
    case SlotQuery(mac5) => CallSlotQuery(mac5)
    case Sun(dst, index, piece, trailer) =>
      if index == 2 then CallSun(dst, [WithFold(Zeros(8) + Zeros(8) + piece, trailer)[..8], Zeros(8), piece], 2)
      else CallSun(dst, [piece, piece, piece], if index == 0 then 0 else 1)
  }

  /** The bytes with the first one changed so that the fold is as wanted. */
  function WithFold(s: seq<byte>, sum: byte): (t: seq<byte>)
    requires |s| > 0
    ensures |t| == |s|
  {
    s[0 := sum ^ Fold(s) ^ s[0]]
  }

  lemma WithFoldHasFold(s: seq<byte>, sum: byte)
    requires |s| > 0
    ensures Fold(WithFold(s, sum)) == sum
  {
    FoldUpdate(s, 0, sum ^ Fold(s) ^ s[0]);
  }

  /** Header fields and data are those of a command: its data as far as it fits, then padding. */
  predicate Fits(dst: bv16, op: byte, vendor: bv16, d: seq<byte>, c: Command)
  {
    && c.plaintextLen == |d| + 5 && c.destination == dst && c.opcode == op && c.vendor == vendor
    && op & 0xC0 == 0xC0
    && forall k | 0 <= k < |d| :: d[k] == DataByte(c, k)
  }

  /** Byte k behind the header. */
  function DataByte(c: Command, k: nat): byte
  {
    if k < |c.data| then c.data[k] else 0
  }

  lemma RebuiltHeader(p: seq<byte>, c: Command, i: nat)
    requires |p| >= 5 && Le16(p[0], p[1]) == c.destination && p[2] == c.opcode && Le16(p[3], p[4]) == c.vendor
    requires i < 5 && c.opcode & 0xC0 == 0xC0
    ensures p[i] == PlainByte(c, i)
  {
    Le16Bytes(p[0], p[1]);
    Le16Bytes(p[3], p[4]);
    WireOpcodeKept(c.opcode);
  }

  lemma RebuiltData(p: seq<byte>, c: Command, i: nat)
    requires 5 <= i < |p| && p[5..][i - 5] == DataByte(c, i - 5)
    ensures p[i] == PlainByte(c, i)
  {
  }

  lemma Rebuilt(p: seq<byte>, c: Command)
    requires |p| >= 5 && Fits(Le16(p[0], p[1]), p[2], Le16(p[3], p[4]), p[5..], c)
    ensures p == Encoded(c)
  {
    forall i | 0 <= i < |p|
      ensures p[i] == PlainByte(c, i)
    {
      if i < 5 {
        RebuiltHeader(p, c, i);
      } else {
        RebuiltData(p, c, i);
      }
    }
  }

  lemma FitsMiddle(dst: bv16, op: byte, vendor: bv16, d: seq<byte>, w: Wire)
    requires |d| == 5 && DecodeMiddle(dst, op, vendor, d) == Some(w)
    ensures w.Valid() && Fits(dst, op, vendor, d, Built(Sender(w)))
  {
  }

  lemma FitsTime(dst: bv16, op: byte, vendor: bv16, d: seq<byte>, w: Wire)
    requires |d| == 10 && DecodeLong(dst, op, vendor, d) == Some(w) && w.SetUTC?
    ensures Fits(dst, op, vendor, d, Built(Sender(w)))
  {
    assert d[..4] == [d[0], d[1], d[2], d[3]];
    Le32OfBytes(d[0], d[1], d[2], d[3]);
    LowOfWide(w.secs32);
  }

  lemma LowOfWide(v: bv32)
    ensures Low32(v as bv64) == v
  {
  }

  lemma FitsGroups(dst: bv16, op: byte, vendor: bv16, d: seq<byte>, w: Wire)
    requires |d| == 10 && DecodeLong(dst, op, vendor, d) == Some(w) && w.SetGroup?
    ensures Fits(dst, op, vendor, d, Built(Sender(w)))
  {
    assert op == OP_SET_GROUP && vendor == VENDOR_SKYTONE;
    assert w == Wire.SetGroup(dst, d[0], d[1], d[2..]);
    GroupBytes(d, w);
  }

  lemma GroupBytes(d: seq<byte>, w: Wire)
    requires |d| == 10 && w.SetGroup? && w.count == d[0] && w.mac5 == d[1] && w.slots == d[2..]
    ensures forall k | 0 <= k < 10 :: d[k] == DataByte(Built(Sender(w)), k)
  {
    CountedSlots(w.count, w.slots);
    ListedBytes(d, w.dst, Sender(w).groups, w.mac5);
  }

  lemma ListedBytes(d: seq<byte>, dst: bv16, groups: seq<byte>, mac5: byte)
    requires |d| == 10 && |groups| >= 8 && groups[..8] == d[2..] && ByteOf(|groups|) == d[0] && mac5 == d[1]
    ensures forall k | 0 <= k < 10 :: d[k] == DataByte(GroupCommand(dst, groups, mac5), k)
  {
    assert forall k | 0 <= k < 8 :: groups[..8][k] == d[2..][k];
  }

  /** A count byte of any value goes with any eight slots: the counter wraps. */
  lemma CountedSlots(count: byte, slots: Half)
    ensures var groups := slots + Zeros(248 + count as nat); ByteOf(|groups|) == count && groups[..8] == slots
  {
    var n := count as nat;
    ByteOfWraps(n);
    ByteOfItself(count);
  }

  lemma FitsHead(dst: bv16, op: byte, vendor: bv16, d: seq<byte>, w: Wire)
    requires |d| == 10 && DecodeLong(dst, op, vendor, d) == Some(w) && w.AlarmHead?
    ensures w.Valid() && Fits(dst, op, vendor, d, Built(Sender(w)))
  {
    assert (w.bytes + Zeros(7))[..9] == w.bytes;
  }

  lemma FitsTail(dst: bv16, op: byte, vendor: bv16, d: seq<byte>, w: Wire)
    requires |d| == 10 && DecodeLong(dst, op, vendor, d) == Some(w) && w.AlarmTail?
    ensures w.Valid() && Fits(dst, op, vendor, d, Built(Sender(w)))
  {
    assert op == OP_WRITE_ALARM && vendor == VENDOR_SKYTONE && dst == SCHEDULE_COORDINATOR;
    assert d[0] == 1 && d[9] == 0 && w == Wire.AlarmTail(d[1..8], d[8]);
    TailBytes(d, w);
  }

  lemma TailBytes(d: seq<byte>, w: Wire)
    requires |d| == 10 && d[0] == 1 && d[9] == 0 && w == Wire.AlarmTail(d[1..8], d[8])
    ensures forall k | 0 <= k < 10 :: d[k] == DataByte(Built(Sender(w)), k)
  {
    TailRecord(w.bytes, w.sum);
    assert Built(Sender(w)).data == [0x01] + w.bytes + [w.sum];
    assert d == [0x01] + w.bytes + [w.sum] + [0];
  }

  lemma TailRecord(bytes: seq<byte>, sum: byte)
    requires |bytes| == 7
    ensures var r := WithFold(Zeros(9) + bytes, sum); r[9..] == bytes && Fold(r) == sum
  {
    WithFoldHasFold(Zeros(9) + bytes, sum);
  }

  lemma FitsSun(dst: bv16, op: byte, vendor: bv16, d: seq<byte>, w: Wire)
    requires |d| == 10 && DecodeLong(dst, op, vendor, d) == Some(w) && w.Sun? && w.index < 2
    ensures w.Valid() && Fits(dst, op, vendor, d, Built(Sender(w)))
  {
    assert op == OP_SUNRISE_SUNSET && vendor == VENDOR_SKYTONE;
    assert w == Wire.Sun(dst, d[0], d[1..9], 0) && d[9] == 0;
    SunBytesFit(d, w);
  }

  lemma SunBytesFit(d: seq<byte>, w: Wire)
    requires |d| == 10 && w.Sun? && w.index == d[0] < 2 && w.piece == d[1..9] && w.trailer == d[9] == 0
    ensures forall k | 0 <= k < 10 :: d[k] == DataByte(Built(Sender(w)), k)
  {
    assert Built(Sender(w)).data == [w.index] + w.piece;
    assert d == [w.index] + w.piece + [0];
  }

  lemma FitsLastSun(dst: bv16, op: byte, vendor: bv16, d: seq<byte>, w: Wire)
    requires |d| == 10 && DecodeLong(dst, op, vendor, d) == Some(w) && w.Sun? && w.index >= 2
    ensures w.Valid() && Fits(dst, op, vendor, d, Built(Sender(w)))
  {
    LastTrailer(w);
    assert Built(Sender(w)).data == [2] + w.piece + [w.trailer];
  }

  lemma LastTrailer(w: Wire)
    requires w.Sun? && w.index == 2
    ensures Fold(SunBytes(Sender(w).sun)) == w.trailer
  {
    var s := WithFold(Zeros(8) + Zeros(8) + w.piece, w.trailer);
    WithFoldHasFold(Zeros(8) + Zeros(8) + w.piece, w.trailer);
    assert SunBytes(Sender(w).sun) == s;
  }

  lemma FitsLevel(dst: bv16, op: byte, vendor: bv16, d: seq<byte>, w: Wire)
    requires |d| == 10 && DecodeLong(dst, op, vendor, d) == Some(w) && (w.LEDOrange? || w.LEDPurple?)
    ensures Fits(dst, op, vendor, d, Built(Sender(w)))
  {
    NibbleOf(d[3]);
  }

  lemma NibbleOf(b: byte)
    requires b <= 0x0F
    ensures (b as bv4) as byte & 0x0F == b
  {
  }

  lemma FitsGroupOnOff(dst: bv16, op: byte, vendor: bv16, d: seq<byte>, w: Wire)
    requires |d| == 10 && DecodeLong(dst, op, vendor, d) == Some(w) && w.GroupOnOff?
    ensures Fits(dst, op, vendor, d, Built(Sender(w)))
  {
    Le16Bytes(d[6], d[7]);
  }

  lemma FitsQuery(dst: bv16, op: byte, vendor: bv16, d: seq<byte>, w: Wire)
    requires |d| == 10 && DecodeLong(dst, op, vendor, d) == Some(w) && w.QueryAlarm?
    ensures Fits(dst, op, vendor, d, Built(Sender(w)))
  {
    Le16Bytes(d[3], d[4]);
  }

  lemma FitsPlain(dst: bv16, op: byte, vendor: bv16, d: seq<byte>, w: Wire)
    requires |d| == 10 && DecodeLong(dst, op, vendor, d) == Some(w)
    requires w.OnOff? || w.LEDQuery? || w.DeleteAlarm? || w.SlotQuery?
    ensures Fits(dst, op, vendor, d, Built(Sender(w)))
  {
  }

  lemma FitsSwitch(dst: bv16, op: byte, vendor: bv16, d: seq<byte>, w: Wire)
    requires |d| == 10 && DecodeLong(dst, op, vendor, d) == Some(w) && (w.LEDBlue? || w.FindMe?)
    ensures Fits(dst, op, vendor, d, Built(Sender(w)))
  {
  }

  lemma FitsLong(dst: bv16, op: byte, vendor: bv16, d: seq<byte>, w: Wire)
    requires |d| == 10 && DecodeLong(dst, op, vendor, d) == Some(w)
    ensures w.Valid() && Fits(dst, op, vendor, d, Built(Sender(w)))
  {
    match w
    case SetUTC(_) => FitsTime(dst, op, vendor, d, w);
    case SetGroup(_, _, _, _) => FitsGroups(dst, op, vendor, d, w);
    case AlarmHead(_) => FitsHead(dst, op, vendor, d, w);
    case AlarmTail(_, _) => FitsTail(dst, op, vendor, d, w);
    case Sun(_, index, _, _) =>
      if index < 2 {
        FitsSun(dst, op, vendor, d, w);
      } else {
        FitsLastSun(dst, op, vendor, d, w);
      }
    case LEDOrange(_, _) => FitsLevel(dst, op, vendor, d, w);
    case LEDPurple(_, _) => FitsLevel(dst, op, vendor, d, w);
    case GroupOnOff(_, _) => FitsGroupOnOff(dst, op, vendor, d, w);
    case QueryAlarm(_, _, _) => FitsQuery(dst, op, vendor, d, w);
    case LEDBlue(_, _) => FitsSwitch(dst, op, vendor, d, w);
    case FindMe(_, _) => FitsSwitch(dst, op, vendor, d, w);
    case _ => FitsPlain(dst, op, vendor, d, w);
  }

  lemma ReencodedLong(p: seq<byte>, w: Wire)
    requires |p| == 15 && Decode(p) == Some(w)
    ensures w.Valid() && p == Encoded(Built(Sender(w)))
  {
    FitsLong(Le16(p[0], p[1]), p[2], Le16(p[3], p[4]), p[5..], w);
    Rebuilt(p, Built(Sender(w)));
  }

  lemma ReencodedShort(p: seq<byte>, w: Wire)
    requires |p| != 15 && Decode(p) == Some(w)
    ensures w.Valid() && p == Encoded(Built(Sender(w)))
  {
    if |p| == 10 {
      FitsMiddle(Le16(p[0], p[1]), p[2], Le16(p[3], p[4]), p[5..], w);
    }
    Rebuilt(p, Built(Sender(w)));
  }

  lemma SenderValid(w: Wire)
    requires w.Valid()
    ensures Sender(w).Valid()
  {
  }

  /** Whatever decodes is made by the call chosen for its meaning. */
  lemma Reencoded(p: seq<byte>, w: Wire)
    requires Decode(p) == Some(w)
    ensures w.Valid() && Sender(w).Valid() && p == Encoded(Built(Sender(w)))
  {
    if |p| == 15 {
      ReencodedLong(p, w);
    } else {
      ReencodedShort(p, w);
    }
    SenderValid(w);
  }

  /** A builder call that means w makes p. */
  ghost predicate Makes(c: Call, w: Wire, p: seq<byte>)
  {
    c.Valid() && Meaning(c) == w && p == Encoded(Built(c))
  }

  lemma CallFor(p: seq<byte>, w: Wire) returns (c: Call)
    requires Decode(p) == Some(w)
    ensures c.Valid() && p == Encoded(Built(c))
  {
    Reencoded(p, w);
    c := Sender(w);
  }

  lemma DecodedMakes(c: Call, w: Wire, p: seq<byte>)
    requires c.Valid() && p == Encoded(Built(c)) && Decode(p) == Some(w)
    ensures Makes(c, w, p)
  {
    DecodeBuilt(c);
  }

  lemma MadeDecodes(c: Call, w: Wire, p: seq<byte>)
    requires Makes(c, w, p)
    ensures Decode(p) == Some(w)
  {
    DecodeBuilt(c);
  }

  /** The decoder accepts exactly the plaintexts of the command set: p decodes to w if and only if
      some builder call that means w makes p. */
  lemma DecodeExact(p: seq<byte>, w: Wire)
    ensures Decode(p) == Some(w) <==> exists c: Call :: Makes(c, w, p)
  {
    if Decode(p) == Some(w) {
      var c := CallFor(p, w);
      DecodedMakes(c, w, p);
    }
    if c: Call :| Makes(c, w, p) {
      MadeDecodes(c, w, p);
    }
  }

  /** Two builder calls make the same plaintext exactly when they mean the same. */
  lemma BuildersInjective(a: Call, b: Call)
    requires a.Valid() && b.Valid()
    ensures Encoded(Built(a)) == Encoded(Built(b)) <==> Meaning(a) == Meaning(b)
  {
    DecodeBuilt(a);
    DecodeBuilt(b);
    if Meaning(a) == Meaning(b) {
      Reencoded(Encoded(Built(a)), Meaning(a));
      Reencoded(Encoded(Built(b)), Meaning(b));
    }
  }

  // ----- group lists -----

  /** The group list a node reads: as many slots as the count byte says, at most the eight there are. */
  function GroupsRead(w: Wire): seq<byte>
    requires w.SetGroup?
  {
    var n := w.count as int;
    w.slots[..if n < 8 then n else 8]
  }

  /** A group list reaches the node whole exactly when it has at most eight entries. */
  lemma GroupsReadIff(dst: bv16, groups: seq<byte>, mac5: byte)
    ensures var r := Decode(Encoded(GroupCommand(dst, groups, mac5)));
            && r.Some? && r.value.SetGroup?
            && (GroupsRead(r.value) == groups <==> |groups| <= 8)
            && (|groups| >= 8 ==> r.value.slots == groups[..8])
  {
    DecodeBuilt(CallSetGroup(dst, groups, mac5));
    if |groups| <= 8 {
      CountByte(|groups|);
    }
  }

  lemma CountByte(n: nat)
    requires n <= 8
    ensures ByteOf(n) as int == n
  {
    ByteOfValue(n);
  }

  // ----- fragments -----

  /** The first plaintext in arrival order whose index byte is i. */
  function Part(ps: seq<seq<byte>>, i: byte): (r: Option<seq<byte>>)
    ensures r.Some? ==> r.value in ps && |r.value| == 15 && r.value[5] == i
  {
    if ps == [] then None
    else if |ps[0]| == 15 && ps[0][5] == i then Some(ps[0])
    else Part(ps[1..], i)
  }

  lemma {:induction false} PartFound(ps: seq<seq<byte>>, i: byte, p: seq<byte>)
    requires p in ps && |p| == 15 && p[5] == i
    requires forall q | q in ps && |q| == 15 && q[5] == i :: q == p
    ensures Part(ps, i) == Some(p)
  {
    if ps[0] != p {
      assert p in ps[1..];
      PartFound(ps[1..], i, p);
    }
  }

  /** Alarm record and checksum from the two fragments, found by index byte. */
  function AlarmFromParts(ps: seq<seq<byte>>): Option<(Block, byte)>
  {
    match (Part(ps, 0), Part(ps, 1))
    case (Some(p), Some(q)) => Some((p[6..15] + q[6..13], q[13]))
    case _ => None
  }

  /** The three pieces and the trailer of a sunrise/sunset push, found by index byte. */
  function SunFromParts(ps: seq<seq<byte>>): Option<(SunData, byte)>
  {
    match (Part(ps, 0), Part(ps, 1), Part(ps, 2))
    case (Some(p), Some(q), Some(r)) => Some(([p[6..14], q[6..14], r[6..14]], r[14]))
    case _ => None
  }

  lemma AlarmParts(record: Block)
    ensures var p, q := Encoded(AlarmFirst(record)), Encoded(AlarmSecond(record));
            && p[5] == 0 && p[6..15] == record[..9]
            && q[5] == 1 && q[6..13] == record[9..] && q[13] == Fold(record)
  {
    var c := AlarmSecond(record);
    assert forall k | 0 <= k < 7 :: Encoded(c)[6 + k] == c.data[1 + k] == record[9..][k];
  }

  lemma TwoParts(record: Block, ps: seq<seq<byte>>, p: seq<byte>, q: seq<byte>)
    requires |p| == |q| == 15 && p[5] == 0 && q[5] == 1 && p[6..15] == record[..9] && q[6..13] == record[9..]
    requires forall x :: x in ps <==> x == p || x == q
    ensures AlarmFromParts(ps) == Some((record, q[13]))
  {
    PartFound(ps, 0, p);
    PartFound(ps, 1, q);
    assert record[..9] + record[9..] == record;
  }

  /** In whatever order and however often the two fragments of an alarm arrive, the record comes
      back with its own fold as checksum. */
  lemma AlarmReassembles(record: Block, ps: seq<seq<byte>>)
    requires forall p :: p in ps <==> p == Encoded(AlarmFirst(record)) || p == Encoded(AlarmSecond(record))
    ensures AlarmFromParts(ps) == Some((record, Fold(record)))
  {
    AlarmParts(record);
    TwoParts(record, ps, Encoded(AlarmFirst(record)), Encoded(AlarmSecond(record)));
  }

  lemma SunPart(dst: bv16, f: SunData, i: nat)
    requires i < 3
    ensures var p := Encoded(SunCommand(dst, f, i));
            p[5] == FragmentIndex(i) && p[6..14] == f[i] && p[14] == if i == 2 then Fold(SunBytes(f)) else 0
  {
    assert Encoded(SunCommand(dst, f, i))[6..14] == f[i];
  }

  lemma ThreeParts(f: SunData, ps: seq<seq<byte>>, p: seq<byte>, q: seq<byte>, r: seq<byte>)
    requires |p| == |q| == |r| == 15 && p[5] == 0 && q[5] == 1 && r[5] == 2
    requires p[6..14] == f[0] && q[6..14] == f[1] && r[6..14] == f[2]
    requires forall x :: x in ps <==> x == p || x == q || x == r
    ensures SunFromParts(ps) == Some((f, r[14]))
  {
    PartFound(ps, 0, p);
    PartFound(ps, 1, q);
    PartFound(ps, 2, r);
    assert [p[6..14], q[6..14], r[6..14]] == f;
  }

  /** The same for the three sunrise/sunset fragments: the trailer is the last plaintext byte of
      the fragment with index two, and it is the fold of the 24 bytes. */
  lemma SunReassembles(dst: bv16, f: SunData, ps: seq<seq<byte>>)
    requires forall p :: p in ps <==> || p == Encoded(SunCommand(dst, f, 0))
                                      || p == Encoded(SunCommand(dst, f, 1))
                                      || p == Encoded(SunCommand(dst, f, 2))
    ensures SunFromParts(ps) == Some((f, Fold(SunBytes(f))))
  {
    SunPart(dst, f, 0);
    SunPart(dst, f, 1);
    SunPart(dst, f, 2);
    ThreeParts(f, ps, Encoded(SunCommand(dst, f, 0)), Encoded(SunCommand(dst, f, 1)), Encoded(SunCommand(dst, f, 2)));
  }

  /** A checksummed message folds to zero, and changing any one of its bytes makes it not. */
  lemma ChecksumCatchesOneByte(body: seq<byte>, i: nat, b: byte)
    requires i <= |body|
    ensures var m := body + [Fold(body)];
            Fold(m) == 0 && (Fold(m[i := b]) == 0 <==> b == m[i])
  {
    var m := body + [Fold(body)];
    FoldWithChecksum(body, Fold(body));
    FoldUpdate(m, i, b);
    XorCancels(m[i], b, 0);
  }
}
