/** Command plaintexts and their builders: the command package and the constants of protocol/const.go. */
module Commands {
  import opened Bytes

  const VENDOR_SKYTONE: bv16 := 0x6969
  const VENDOR_SKYTONE_ALT: bv16 := 0x0211
  const VENDOR_LED_QUERY: bv16 := 0x696B

  const OP_TYPE_CLIENT: byte := 3

  const OP_ON_OFF: byte := 0xED
  const OP_GROUP_ON_OFF: byte := 0xE7
  const OP_STATUS_QUERY: byte := 0xC5
  const OP_STATUS_POLL: byte := 0xDA
  const OP_SET_GROUP: byte := 0xEF
  const OP_QUERY_GROUP: byte := 0xD7
  const OP_PROBE_GROUP: byte := 0xDD
  const OP_LED_SET: byte := 0xFF
  const OP_LED_QUERY: byte := 0xD9
  const OP_FIND_ME: byte := 0xF5
  const OP_WRITE_ALARM: byte := 0xCC
  const OP_QUERY_ALARM: byte := 0xCD
  const OP_DELETE_ALARM: byte := 0xCE
  const OP_SLOT_QUERY: byte := 0xF0
  const OP_SUNRISE_SUNSET: byte := 0xD0

  const LED_CH_BLUE_SELECT: byte := 0xA0
  const LED_CH_ORANGE_SELECT: byte := 0xFF
  const LED_BLUE_ON_LEVEL: byte := 0x12
  const FIND_ME_MODE_BLINK: byte := 0x03
  const FIND_ME_DURATION: byte := 0x0F

  const BROADCAST: bv16 := 0xFFFF
  const SCHEDULE_COORDINATOR: bv16 := 0x0030

  datatype Command = Command(destination: bv16, opcode: byte, vendor: bv16, data: seq<byte>, plaintextLen: nat) {
    /** Encode slices the 5-byte header out of its buffer and panics on a shorter one. */
    predicate Encodable() { plaintextLen >= 5 }
  }

  // ----- command.go -----

  function WireOpcode(op: byte): byte { (OP_TYPE_CLIENT << 6) | (op & 0x3F) }

  /** Byte i of the plaintext: header, then as much of the data as fits, then zeros. */
  function PlainByte(c: Command, i: nat): byte
  {
    if i == 0 then Lo(c.destination)
    else if i == 1 then Hi(c.destination)
    else if i == 2 then WireOpcode(c.opcode)
    else if i == 3 then Lo(c.vendor)
    else if i == 4 then Hi(c.vendor)
    else if i - 5 < |c.data| then c.data[i - 5]
    else 0
  }

  function Encoded(c: Command): (p: seq<byte>)
    ensures |p| == c.plaintextLen
  {
    seq(c.plaintextLen, i requires 0 <= i < c.plaintextLen => PlainByte(c, i))
  }

  method Encode(c: Command) returns (p: seq<byte>)
    requires c.Encodable()
    ensures p == Encoded(c)
  {
    var buf := new byte[c.plaintextLen](_ => 0);
    PutLE16(buf, 0, c.destination);
    buf[2] := WireOpcode(c.opcode);
    PutLE16(buf, 3, c.vendor);
    CopyAt(buf, 5, c.data[..if |c.data| < c.plaintextLen - 5 then |c.data| else c.plaintextLen - 5]);
    p := buf[..];
  }

  /** The header: destination and vendor with the low byte first, and between them the type of a client
      in the two high bits and the low six bits of the opcode. */
  lemma EncodedHeader(c: Command)
    requires c.Encodable()
    ensures var p := Encoded(c);
            && c.destination == p[0] as bv16 + 0x100 * p[1] as bv16
            && p[2] & 0xC0 == 0xC0 && p[2] & 0x3F == c.opcode & 0x3F
            && c.vendor == p[3] as bv16 + 0x100 * p[4] as bv16
  {
    Le16Little(c.destination, 0, 0);
    Le16Little(c.vendor, 0, 0);
    TypeBits(c.opcode);
  }

  lemma TypeBits(op: byte)
    ensures WireOpcode(op) & 0xC0 == 0xC0 && WireOpcode(op) & 0x3F == op & 0x3F
  {
  }

  /** The data of a command survives encoding, zero-padded, when it fits behind the header; what does
      not fit is dropped without an error. */
  lemma EncodedData(c: Command)
    requires c.Encodable()
    ensures |c.data| <= c.plaintextLen - 5
        ==> Encoded(c)[5..] == c.data + Zeros(c.plaintextLen - 5 - |c.data|)
    ensures |c.data| > c.plaintextLen - 5 ==> Encoded(c)[5..] == c.data[..c.plaintextLen - 5]
  {
  }

  // ----- control.go -----

  function OnOff(dst: bv16, on: bool): Command
  {
    Command(dst, OP_ON_OFF, VENDOR_SKYTONE, [if on then 0x01 else 0x00], 15)
  }

  function GroupOnOff(group: bv16, on: bool): Command
  {
    var state: byte := if on then 0x0E else 0x0D;
    Command(group, OP_GROUP_ON_OFF, VENDOR_SKYTONE,
            [state, 0x00, 0x10, 0x00, 0x00, 0x00, Lo(group), Hi(group)], 15)
  }

  // ----- status.go -----

  function StatusQuery(): Command
  {
    Command(OP_TYPE_CLIENT as bv16, OP_STATUS_QUERY, VENDOR_SKYTONE, [0x00, 0x00, 0xD7, 0x69, 0x00], 10)
    .(destination := BROADCAST)
  }

  function StatusPoll(dst: bv16): Command
  {
    Command(dst, OP_STATUS_POLL, VENDOR_SKYTONE_ALT, [0x10, 0x00], 7)
  }

  /** The conversion of a signed 64-bit Unix time to uint32: its low 32 bits. */
  function Low32(secs: bv64): bv32 { (secs & 0xFFFF_FFFF) as bv32 }

  /** Seconds are carried modulo 2^32, also those before 1970, and the low byte first. */
  lemma SecondsCarried(secs: bv64)
    ensures Low32(secs) as bv64 == secs % 0x1_0000_0000
    ensures var d := UtcCommand(secs).data;
            && |d| == 5 && d[4] == 0
            && Low32(secs) == d[0] as bv32 + 0x100 * d[1] as bv32 + 0x1_0000 * d[2] as bv32 + 0x100_0000 * d[3] as bv32
  {
    Le32Little(Low32(secs));
    LowIsRemainder(secs);
  }

  lemma LowIsRemainder(secs: bv64)
    ensures Low32(secs) as bv64 == secs % 0x1_0000_0000
  {
  }

  function UtcCommand(secs: bv64): Command
  {
    Command(BROADCAST, OP_STATUS_QUERY, VENDOR_SKYTONE, Le32Bytes(Low32(secs)) + [0x00], 15)
  }

  method SetUTC(now: bv64) returns (c: Command)
    ensures c == UtcCommand(now)
  {
    var secs := Low32(now);
    var data := new byte[5](_ => 0);
    CopyAt(data, 0, Le32Bytes(secs));
    assert data[..] == Le32Bytes(secs) + [0x00];
    c := Command(BROADCAST, OP_STATUS_QUERY, VENDOR_SKYTONE, data[..], 15);
  }

  // ----- group.go -----

  function GroupCommand(dst: bv16, groups: seq<byte>, gwMAC5: byte): Command
  {
    Command(dst, OP_SET_GROUP, VENDOR_SKYTONE, [ByteOf(|groups|), gwMAC5] + groups, 15)
  }

  method SetGroupMembership(dst: bv16, groups: seq<byte>, gwMAC5: byte) returns (c: Command)
    ensures c == GroupCommand(dst, groups, gwMAC5)
  {
    var data := new byte[2 + |groups|](_ => 0);
    data[0] := ByteOf(|groups|);
    data[1] := gwMAC5;
    CopyAt(data, 2, groups);
    assert data[..] == [ByteOf(|groups|), gwMAC5] + groups;
    c := Command(dst, OP_SET_GROUP, VENDOR_SKYTONE, data[..], 15);
  }

  function QueryGroupMembership(dst: bv16): Command
  {
    Command(dst, OP_QUERY_GROUP, VENDOR_SKYTONE_ALT, [0x00, 0x00, 0x00], 10)
  }

  function ProbeGroup(groupAddr: bv16): Command
  {
    Command(groupAddr, OP_PROBE_GROUP, VENDOR_SKYTONE_ALT, [0x0A, 0x01], 10)
  }

  // ----- led.go -----

  function LEDSetBlue(dst: bv16, on: bool): Command
  {
    var level := if on then LED_BLUE_ON_LEVEL else 0;
    Command(dst, OP_LED_SET, VENDOR_SKYTONE, [LED_CH_BLUE_SELECT, level, 0x00, 0x00], 15)
  }

  function LEDSetOrange(dst: bv16, level: byte): Command
  {
    Command(dst, OP_LED_SET, VENDOR_SKYTONE, [0x00, 0x00, LED_CH_ORANGE_SELECT, level & 0x0F], 15)
  }

  function LEDSetPurple(dst: bv16, orangeLevel: byte): Command
  {
    Command(dst, OP_LED_SET, VENDOR_SKYTONE,
            [LED_CH_BLUE_SELECT, LED_BLUE_ON_LEVEL, LED_CH_ORANGE_SELECT, orangeLevel & 0x0F], 15)
  }

  function LEDQuery(dst: bv16, gwMAC5: byte): Command
  {
    Command(dst, OP_LED_QUERY, VENDOR_LED_QUERY, [gwMAC5, 0x00], 15)
  }

  function FindMe(dst: bv16, start: bool): Command
  {
    Command(dst, OP_FIND_ME, VENDOR_SKYTONE,
            if start then [FIND_ME_MODE_BLINK, FIND_ME_DURATION] else [0x00, 0x00], 15)
  }

  // ----- schedule.go -----

  function AlarmFirst(record: Block): Command
  {
    Command(SCHEDULE_COORDINATOR, OP_WRITE_ALARM, VENDOR_SKYTONE, [0x00] + record[..9], 15)
  }

  function AlarmSecond(record: Block): Command
  {
    Command(SCHEDULE_COORDINATOR, OP_WRITE_ALARM, VENDOR_SKYTONE, [0x01] + record[9..] + [Fold(record)], 15)
  }

  method WriteAlarm(record: Block) returns (frag0: Command, frag1: Command)
    ensures frag0 == AlarmFirst(record) && frag1 == AlarmSecond(record)
  {
    var xor: byte := 0;
    for i := 0 to 16
      invariant xor == Fold(record[..i])
    {
      assert record[..i + 1][..i] == record[..i];
      xor := xor ^ record[i];
    }
    assert record[..16] == record;
    frag0 := Command(SCHEDULE_COORDINATOR, OP_WRITE_ALARM, VENDOR_SKYTONE, [0x00] + record[..9], 15);
    var tail := [] + record[9..];
    tail := tail + [xor];
    assert [0x01] + tail == [0x01] + record[9..] + [xor];
    frag1 := Command(SCHEDULE_COORDINATOR, OP_WRITE_ALARM, VENDOR_SKYTONE, [0x01] + tail, 15);
  }

  function QueryAlarm(startSlot: byte, gwMAC5: byte, target: bv16): Command
  {
    Command(SCHEDULE_COORDINATOR, OP_QUERY_ALARM, VENDOR_SKYTONE,
            [startSlot, gwMAC5, 0x00, Lo(target), Hi(target)], 15)
  }

  function DeleteAlarm(slot: byte, gwMAC5: byte): Command
  {
    Command(SCHEDULE_COORDINATOR, OP_DELETE_ALARM, VENDOR_SKYTONE, [slot, gwMAC5, 0x00], 15)
  }

  function SlotQuery(gwMAC5: byte): Command
  {
    Command(SCHEDULE_COORDINATOR, OP_SLOT_QUERY, VENDOR_SKYTONE, [gwMAC5, 0x00], 15)
  }

  // ----- sunrise.go -----

  /** The three 8-byte pieces of one sunrise/sunset push. */
  type SunData = s: seq<Half> | |s| == 3 witness [Zeros(8), Zeros(8), Zeros(8)]

  function FragmentIndex(i: nat): byte
    requires i < 3
  {
    if i == 0 then 0 else if i == 1 then 1 else 2
  }

  function SunBytes(f: SunData): (s: seq<byte>)
    ensures |s| == 24
  {
    var start: seq<byte> := f[0];
    start + f[1] + f[2]
  }

  function SunCommand(dst: bv16, f: SunData, i: nat): Command
    requires i < 3
  {
    var data := [FragmentIndex(i)] + f[i];
    Command(dst, OP_SUNRISE_SUNSET, VENDOR_SKYTONE, if i == 2 then data + [Fold(SunBytes(f))] else data, 15)
  }

  lemma SunFoldStep(done: seq<byte>, piece: Half, x: byte, i: nat)
    requires i < 8 && x == Fold(done + piece[..i])
    ensures x ^ piece[i] == Fold(done + piece[..i + 1])
  {
    var t := done + piece[..i + 1];
    assert t[..|t| - 1] == done + piece[..i];
  }

  method SunriseSunset(dst: bv16, fragments: SunData) returns (out: array<Command>)
    ensures fresh(out) && out.Length == 3
    ensures forall i: nat | i < 3 :: out[i] == SunCommand(dst, fragments, i)
  {
    var xor: byte := 0;
    ghost var done: seq<byte> := [];
    for i := 0 to 3
      invariant done == (if i == 0 then [] else if i == 1 then fragments[0]
                         else if i == 2 then fragments[0] + fragments[1] else SunBytes(fragments))
      invariant xor == Fold(done)
    {
      var f := fragments[i];
      assert done + f[..0] == done;
      for k := 0 to 8
        invariant xor == Fold(done + f[..k])
      {
        SunFoldStep(done, f, xor, k);
        xor := xor ^ f[k];
      }
      assert f[..8] == f;
      done := done + f;
    }
    out := new Command[3](_ => Command(dst, OP_SUNRISE_SUNSET, VENDOR_SKYTONE, [], 15));
    for i := 0 to 3
      invariant forall k | 0 <= k < i ::
          out[k] == Command(dst, OP_SUNRISE_SUNSET, VENDOR_SKYTONE, [FragmentIndex(k)] + fragments[k], 15)
    {
      var data := [FragmentIndex(i)] + fragments[i];
      out[i] := Command(dst, OP_SUNRISE_SUNSET, VENDOR_SKYTONE, data, 15);
    }
    out[2] := out[2].(data := out[2].data + [xor]);
  }
}
