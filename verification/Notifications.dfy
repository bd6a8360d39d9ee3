/** Notification packets: notification.go, against a device that seals them. */
module Notifications {
  import opened Bytes
  import opened Results
  import opened PacketCipher

  const OP_NOTIFY_STATUS_POLL: byte := 0xDB
  const OP_NOTIFY_STATUS_BROADCAST: byte := 0xDC
  const OP_NOTIFY_GROUP_RESPONSE: byte := 0xD4
  const OP_NOTIFY_LED_OR_SLOT: byte := 0xD3
  const OP_NOTIFY_ALARM_FRAGMENT: byte := 0xC2

  datatype Notification = Notification(source: bv16, opcode: byte, vendor: bv16, payload: seq<byte>)

  // ----- the packet -----

  datatype WireFields = WireFields(sno: Sno, src: bv16, tag: Pair, ciphertext: seq<byte>)

  function ParsedWire(raw: seq<byte>): (r: Result<WireFields>)
    ensures r.Success? ==> |r.value.ciphertext| == 13
  {
    if |raw| != 20 then Failure(BadNotificationLength)
    else Success(WireFields(raw[0..3], Le16(raw[3], raw[4]), raw[5..7], raw[7..20]))
  }

  method ParseNotificationWire(raw: seq<byte>) returns (r: Result<WireFields>)
    ensures r == ParsedWire(raw)
  {
    var sno := new byte[3](_ => 0);
    var tag := new byte[2](_ => 0);
    if |raw| != 20 {
      return Failure(BadNotificationLength);
    }
    CopyAt(sno, 0, raw[0..3]);
    var srcAddr := Le16(raw[3], raw[4]);
    CopyAt(tag, 0, raw[5..7]);
    assert sno[..] == raw[0..3] && tag[..] == raw[5..7];
    return Success(WireFields(sno[..], srcAddr, tag[..], raw[7..20]));
  }

  /** The frame a plaintext carries. */
  function Framed(src: bv16, pt: seq<byte>): Result<Notification>
  {
    if |pt| < 3 then Failure(ShortPacket)
    else Success(Notification(src, pt[0], Le16(pt[1], pt[2]), pt[3..]))
  }

  function Opened(aes: Aes, sk: Block, mac: Mac, raw: seq<byte>): Result<Notification>
  {
    match ParsedWire(raw)
    case Failure(e) => Failure(e)
    case Success(w) =>
      match Decrypted(aes, sk, NotificationNonce(mac, w.sno, w.src), w.tag, w.ciphertext)
      case Failure(e) => Failure(e)
      case Success(pt) => Framed(w.src, pt)
  }

  method DecryptNotification(aes: Aes, sk: Block, mac: Mac, raw: seq<byte>) returns (r: Result<Notification>)
    ensures r == Opened(aes, sk, mac, raw)
  {
    var wire := ParseNotificationWire(raw);
    if wire.Failure? {
      return Failure(wire.error);
    }
    var w := wire.value;
    var nonce := NotificationNonce(mac, w.sno, w.src);
    var pt := Decrypt(aes, sk, nonce, w.tag, w.ciphertext);
    if pt.Failure? {
      return Failure(pt.error);
    }
    r := Framed(w.src, pt.value);
  }

  // ----- the device's side, as the specification -----

  function Plaintext(n: Notification): seq<byte>
  {
    [n.opcode, Lo(n.vendor), Hi(n.vendor)] + n.payload
  }

  /** The packet a device sends for a notification: sno, source, tag, ciphertext. */
  function Sealed(aes: Aes, sk: Block, mac: Mac, sno: Sno, n: Notification): seq<byte>
  {
    var nonce := NotificationNonce(mac, sno, n.source);
    sno + [Lo(n.source), Hi(n.source)] + MacTag(aes, sk, nonce, Plaintext(n)) + Crypted(aes, sk, nonce, Plaintext(n))
  }

  lemma FramedExact(src: bv16, pt: seq<byte>, n: Notification)
    ensures Framed(src, pt) == Success(n) <==> src == n.source && pt == Plaintext(n)
  {
    Le16RoundTrip(n.vendor);
    if |pt| >= 3 {
      Le16Bytes(pt[1], pt[2]);
      assert pt == [pt[0], pt[1], pt[2]] + pt[3..];
    }
    assert Plaintext(n)[3..] == n.payload;
  }

  lemma SealedFields(aes: Aes, sk: Block, mac: Mac, sno: Sno, n: Notification)
    requires |n.payload| == 10
    ensures var nonce := NotificationNonce(mac, sno, n.source);
            ParsedWire(Sealed(aes, sk, mac, sno, n)) == Success(WireFields(sno, n.source,
              MacTag(aes, sk, nonce, Plaintext(n)), Crypted(aes, sk, nonce, Plaintext(n))))
  {
    var raw := Sealed(aes, sk, mac, sno, n);
    var nonce := NotificationNonce(mac, sno, n.source);
    Le16RoundTrip(n.source);
    assert raw[0..3] == sno;
    assert raw[5..7] == MacTag(aes, sk, nonce, Plaintext(n));
    assert raw[7..20] == Crypted(aes, sk, nonce, Plaintext(n));
  }

  /** What a device seals, the client opens. */
  lemma OpenSealed(aes: Aes, sk: Block, mac: Mac, sno: Sno, n: Notification)
    requires |n.payload| == 10
    ensures Opened(aes, sk, mac, Sealed(aes, sk, mac, sno, n)) == Success(n)
  {
    var nonce := NotificationNonce(mac, sno, n.source);
    SealedFields(aes, sk, mac, sno, n);
    CryptTwice(aes, sk, nonce, Plaintext(n));
    FramedExact(n.source, Plaintext(n), n);
  }

  lemma WireWhole(raw: seq<byte>, w: WireFields)
    requires ParsedWire(raw) == Success(w)
    ensures raw == w.sno + [Lo(w.src), Hi(w.src)] + w.tag + w.ciphertext && w.sno == raw[..3]
  {
    Le16Bytes(raw[3], raw[4]);
    assert raw == raw[0..3] + [raw[3], raw[4]] + raw[5..7] + raw[7..20];
  }

  lemma OpenedWasSealed(aes: Aes, sk: Block, mac: Mac, raw: seq<byte>, w: WireFields, n: Notification)
    requires ParsedWire(raw) == Success(w) && Opened(aes, sk, mac, raw) == Success(n)
    ensures |n.payload| == 10 && raw == Sealed(aes, sk, mac, w.sno, n)
  {
    var nonce := NotificationNonce(mac, w.sno, w.src);
    var pt := Crypted(aes, sk, nonce, w.ciphertext);
    assert w.tag == MacTag(aes, sk, nonce, pt) && Framed(w.src, pt) == Success(n);
    FramedExact(w.src, pt, n);
    CryptTwice(aes, sk, nonce, w.ciphertext);
    WireWhole(raw, w);
  }

  /** And the client opens nothing else: a packet opens as n exactly when it is the one a device
      holding the key seals for n under the packet's own sno. */
  lemma OpenExact(aes: Aes, sk: Block, mac: Mac, raw: seq<byte>, n: Notification)
    ensures Opened(aes, sk, mac, raw) == Success(n)
       <==> |raw| == 20 && |n.payload| == 10 && raw == Sealed(aes, sk, mac, raw[..3], n)
  {
    if Opened(aes, sk, mac, raw) == Success(n) {
      OpenedWasSealed(aes, sk, mac, raw, ParsedWire(raw).value, n);
    } else if |raw| == 20 && |n.payload| == 10 && raw == Sealed(aes, sk, mac, raw[..3], n) {
      OpenSealed(aes, sk, mac, raw[..3], n);
    }
  }

  /** The two ways a packet is refused. */
  lemma RefusedBecause(aes: Aes, sk: Block, mac: Mac, raw: seq<byte>)
    ensures var r := Opened(aes, sk, mac, raw);
            && (r == Failure(BadNotificationLength) <==> |raw| != 20)
            && (r.Failure? ==> r.error in {BadNotificationLength, TagMismatch})
  {
  }

  // ----- payload parsers -----

  datatype StatusFlags = StatusFlags(online: bool, alarmDev: bool, version: byte)

  function ParseStatusFlags(b: byte): StatusFlags
  {
    StatusFlags(b & 0x01 != 0, b & 0x02 != 0, b >> 2)
  }

  /** The byte in which a device packs its flags and six bits of version. */
  function PackedFlags(f: StatusFlags): byte
  {
    (if f.online then 0x01 else 0x00) | (if f.alarmDev then 0x02 else 0x00) | (f.version << 2)
  }

  /** The parser is the inverse of the packing, on every byte and on all flags that fit. */
  lemma FlagsExact(b: byte, f: StatusFlags)
    ensures ParseStatusFlags(b) == f <==> f.version <= 0x3F && b == PackedFlags(f)
  {
  }

  datatype DeviceStatus = DeviceStatus(address: bv16, on: bool, mac: Mac, metric: byte, deviceType: byte,
                                       deviceSubtype: byte, statusByte: byte, statusFlags: StatusFlags)

  function ParsedStatus(n: Notification): Result<DeviceStatus>
  {
    if n.opcode != OP_NOTIFY_STATUS_POLL then Failure(UnexpectedOpcode)
    else if |n.payload| < 10 then Failure(ShortPacket)
    else
      var p := n.payload;
      Success(DeviceStatus(n.source, p[9] != 0, [0, 0, p[7], p[6], p[5], p[4]], p[8], p[1], p[2], p[3],
                           ParseStatusFlags(p[3])))
  }

  method ParseDeviceStatus(n: Notification) returns (r: Result<DeviceStatus>)
    ensures r == ParsedStatus(n)
  {
    if n.opcode != OP_NOTIFY_STATUS_POLL {
      return Failure(UnexpectedOpcode);
    }
    if |n.payload| < 10 {
      return Failure(ShortPacket);
    }
    var mac := new byte[6](_ => 0);
    mac[5] := n.payload[4];
    mac[4] := n.payload[5];
    mac[3] := n.payload[6];
    mac[2] := n.payload[7];
    assert mac[..] == [0, 0, n.payload[7], n.payload[6], n.payload[5], n.payload[4]];
    return Success(DeviceStatus(n.source, n.payload[9] != 0, mac[..], n.payload[8],
                                n.payload[1], n.payload[2], n.payload[3], ParseStatusFlags(n.payload[3])));
  }

  /** The payload with which a device reports its status; any level but zero counts as on. */
  function StatusPayload(d: DeviceStatus, level: byte): seq<byte>
  {
    [0x00, d.deviceType, d.deviceSubtype, PackedFlags(d.statusFlags), d.mac[5], d.mac[4], d.mac[3], d.mac[2], d.metric,
     level]
  }

  /** A reported status is read back, all but the two address bytes that are not reported. */
  lemma StatusReadBack(d: DeviceStatus, level: byte, vendor: bv16, more: seq<byte>)
    requires d.statusFlags.version <= 0x3F && (d.on <==> level != 0)
    ensures ParsedStatus(Notification(d.address, OP_NOTIFY_STATUS_POLL, vendor, StatusPayload(d, level) + more))
         == Success(d.(mac := [0, 0] + d.mac[2..], statusByte := PackedFlags(d.statusFlags)))
  {
    FlagsExact(PackedFlags(d.statusFlags), d.statusFlags);
    assert [0, 0, d.mac[2], d.mac[3], d.mac[4], d.mac[5]] == [0, 0] + d.mac[2..];
  }

  /** The status in the slot at an offset of a broadcast payload; a zero address marks it empty. */
  function SlotStatus(p: seq<byte>, offset: nat): seq<DeviceStatus>
    requires offset + 4 <= |p|
  {
    if p[offset] == 0 then []
    else [DeviceStatus(p[offset] as bv16, p[offset + 2] != 0, [0, 0, 0, 0, 0, 0], p[offset + 1], 0, 0,
                       p[offset + 3], ParseStatusFlags(p[offset + 3]))]
  }

  /** The statuses in the first k slots. */
  function Statuses(p: seq<byte>, k: nat): seq<DeviceStatus>
    requires 4 * k <= |p|
  {
    if k == 0 then [] else Statuses(p, k - 1) + SlotStatus(p, 4 * (k - 1))
  }

  function ParsedBroadcast(n: Notification): Result<seq<DeviceStatus>>
  {
    if n.opcode != OP_NOTIFY_STATUS_BROADCAST then Failure(UnexpectedOpcode)
    else if |n.payload| < 8 then Failure(ShortPacket)
    else Success(Statuses(n.payload, 2))
  }

  method ParseDeviceStatusBroadcast(n: Notification) returns (r: Result<seq<DeviceStatus>>)
    ensures r == ParsedBroadcast(n)
  {
    if n.opcode != OP_NOTIFY_STATUS_BROADCAST {
      return Failure(UnexpectedOpcode);
    }
    if |n.payload| < 8 {
      return Failure(ShortPacket);
    }
    var out: seq<DeviceStatus> := [];
    for slot := 0 to 2
      invariant out == Statuses(n.payload, slot)
    {
      var offset := 4 * slot;
      var addr := n.payload[offset];
      assert Statuses(n.payload, slot + 1) == out + SlotStatus(n.payload, offset);
      if addr == 0 {
        continue;
      }
      var flags := n.payload[offset + 3];
      out := out + [DeviceStatus(addr as bv16, n.payload[offset + 2] != 0, [0, 0, 0, 0, 0, 0],
                                 n.payload[offset + 1], 0, 0, flags, ParseStatusFlags(flags))];
    }
    return Success(out);
  }

  /** What a device adds to a broadcast about itself. */
  datatype Report = Report(address: byte, metric: byte, brightness: byte, flags: StatusFlags)

  function ReportSlot(d: Report): seq<byte>
  {
    [d.address, d.metric, d.brightness, PackedFlags(d.flags)]
  }

  /** What the application learns of it: nothing from address zero, which marks an empty slot, and
      otherwise a device that is on exactly when it shines, without address bytes or type. */
  function Learned(d: Report): seq<DeviceStatus>
  {
    if d.address == 0 then []
    else [DeviceStatus(d.address as bv16, d.brightness != 0, [0, 0, 0, 0, 0, 0], d.metric, 0, 0,
                       PackedFlags(d.flags), d.flags)]
  }

  lemma SlotReadBack(p: seq<byte>, offset: nat, d: Report)
    requires offset + 4 <= |p| && p[offset..offset + 4] == ReportSlot(d) && d.flags.version <= 0x3F
    ensures SlotStatus(p, offset) == Learned(d)
  {
    var slot := p[offset..offset + 4];
    assert p[offset] == slot[0] && p[offset + 1] == slot[1] && p[offset + 2] == slot[2] && p[offset + 3] == slot[3];
    FlagsExact(slot[3], d.flags);
  }

  /** Two reports are read back in the order of their slots, whatever the source and the padding. */
  lemma BroadcastReadBack(src: bv16, vendor: bv16, a: Report, b: Report, pad: seq<byte>)
    requires a.flags.version <= 0x3F && b.flags.version <= 0x3F
    ensures ParsedBroadcast(Notification(src, OP_NOTIFY_STATUS_BROADCAST, vendor, ReportSlot(a) + ReportSlot(b) + pad))
         == Success(Learned(a) + Learned(b))
  {
    var p := ReportSlot(a) + ReportSlot(b) + pad;
    SlotReadBack(p, 0, a);
    SlotReadBack(p, 4, b);
    assert Statuses(p, 1) == [] + SlotStatus(p, 0);
    assert Statuses(p, 2) == Learned(a) + Learned(b);
  }

  predicate Terminator(b: byte) { b == 0x00 || b == 0xFF }

  /** The groups are the longest prefix of the payload free of terminators. */
  ghost predicate GroupsOf(payload: seq<byte>, groups: seq<byte>)
  {
    && groups <= payload
    && (forall k | 0 <= k < |groups| :: !Terminator(groups[k]))
    && (|groups| < |payload| ==> Terminator(payload[|groups|]))
  }

  method ParseGroupMembership(n: Notification) returns (r: Result<seq<byte>>)
    ensures n.opcode != OP_NOTIFY_GROUP_RESPONSE ==> r == Failure(UnexpectedOpcode)
    ensures n.opcode == OP_NOTIFY_GROUP_RESPONSE ==> r.Success? && GroupsOf(n.payload, r.value)
  {
    if n.opcode != OP_NOTIFY_GROUP_RESPONSE {
      return Failure(UnexpectedOpcode);
    }
    var groups: seq<byte> := [];
    for i := 0 to |n.payload|
      invariant groups == n.payload[..i]
      invariant forall k | 0 <= k < i :: !Terminator(n.payload[k])
    {
      var b := n.payload[i];
      if b == 0x00 || b == 0xFF {
        break;
      }
      groups := groups + [b];
    }
    return Success(groups);
  }

  /** A device's group list, closed by a terminator unless it fills the payload, is what the client
      reads exactly when no group has a terminator's value; and what it reads is determined. */
  lemma GroupsUnique(groups: seq<byte>, pad: seq<byte>, read: seq<byte>)
    requires pad == [] || pad[0] == 0x00 || pad[0] == 0xFF
    ensures GroupsOf(groups + pad, groups) <==> forall k | 0 <= k < |groups| :: groups[k] != 0x00 && groups[k] != 0xFF
    ensures GroupsOf(groups + pad, read) ==> (read == groups <==> GroupsOf(groups + pad, groups))
  {
    var p := groups + pad;
    assert p[..|groups|] == groups;
    assert pad != [] ==> p[|groups|] == pad[0];
    assert forall k | 0 <= k < |groups| :: p[k] == groups[k];
    if GroupsOf(p, groups) && GroupsOf(p, read) {
      LongestIsOne(p, groups, read);
    }
  }

  /** A payload has one longest prefix free of terminators. */
  lemma LongestIsOne(p: seq<byte>, a: seq<byte>, b: seq<byte>)
    requires GroupsOf(p, a) && GroupsOf(p, b)
    ensures a == b
  {
    assert a == p[..|a|] && b == p[..|b|];
  }

  datatype LEDState = LEDState(blueChannel: byte, blueLevel: byte, orangeChannel: byte, orangeLevel: byte)

  function ParseLEDState(n: Notification): Result<LEDState>
  {
    if n.opcode != OP_NOTIFY_LED_OR_SLOT then Failure(UnexpectedOpcode)
    else if |n.payload| < 6 then Failure(ShortPacket)
    else Success(LEDState(n.payload[2], n.payload[3], n.payload[4], n.payload[5]))
  }

  function ParseSlotAssignment(n: Notification): Result<byte>
  {
    if n.opcode != OP_NOTIFY_LED_OR_SLOT then Failure(UnexpectedOpcode)
    else if |n.payload| < 4 then Failure(ShortPacket)
    else Success(n.payload[3])
  }

  /** Both flavours of the response are read back from what a device sends, whatever surrounds it; the
      bytes before it are not looked at. */
  lemma LedAndSlotReadBack(src: bv16, vendor: bv16, led: LEDState, slot: byte, x: byte, y: byte, z: byte,
                           tail: seq<byte>)
    ensures ParseLEDState(Notification(src, OP_NOTIFY_LED_OR_SLOT, vendor,
              [x, y, led.blueChannel, led.blueLevel, led.orangeChannel, led.orangeLevel] + tail)) == Success(led)
    ensures ParseSlotAssignment(Notification(src, OP_NOTIFY_LED_OR_SLOT, vendor, [x, y, z, slot] + tail))
         == Success(slot)
  {
  }

  /** The index of a fragment is declared but never assigned, so it is always zero. */
  datatype AlarmFragment = AlarmFragment(slot: byte, index: byte, data: seq<byte>)

  function ParseAlarmFragment(n: Notification): Result<AlarmFragment>
  {
    if n.opcode != OP_NOTIFY_ALARM_FRAGMENT then Failure(UnexpectedOpcode)
    else if |n.payload| < 1 then Failure(ShortPacket)
    else Success(AlarmFragment(n.payload[0], 0, n.payload[1..]))
  }

  /** A fragment is read back whatever its length, with index zero. */
  lemma FragmentReadBack(src: bv16, vendor: bv16, slot: byte, data: seq<byte>)
    ensures ParseAlarmFragment(Notification(src, OP_NOTIFY_ALARM_FRAGMENT, vendor, [slot] + data))
         == Success(AlarmFragment(slot, 0, data))
  {
    assert ([slot] + data)[1..] == data;
  }

  /** Why a parser refuses: another opcode, and otherwise only a payload too short for its fields. */
  lemma ParserErrors(n: Notification)
    ensures ParsedStatus(n) == Failure(UnexpectedOpcode) <==> n.opcode != 0xDB
    ensures ParsedStatus(n) == Failure(ShortPacket) <==> n.opcode == 0xDB && |n.payload| < 10
    ensures ParsedBroadcast(n) == Failure(UnexpectedOpcode) <==> n.opcode != 0xDC
    ensures ParsedBroadcast(n) == Failure(ShortPacket) <==> n.opcode == 0xDC && |n.payload| < 8
    ensures ParseLEDState(n) == Failure(UnexpectedOpcode) <==> n.opcode != 0xD3
    ensures ParseLEDState(n) == Failure(ShortPacket) <==> n.opcode == 0xD3 && |n.payload| < 6
    ensures ParseSlotAssignment(n) == Failure(UnexpectedOpcode) <==> n.opcode != 0xD3
    ensures ParseSlotAssignment(n) == Failure(ShortPacket) <==> n.opcode == 0xD3 && |n.payload| < 4
    ensures ParseAlarmFragment(n) == Failure(UnexpectedOpcode) <==> n.opcode != 0xC2
    ensures ParseAlarmFragment(n) == Failure(ShortPacket) <==> n.opcode == 0xC2 && n.payload == []
  {
  }

  /** No parser ever finds a decrypted notification too short: each fails on a wrong opcode only. */
  lemma DecryptedIsLongEnough(aes: Aes, sk: Block, mac: Mac, raw: seq<byte>, n: Notification)
    requires Opened(aes, sk, mac, raw) == Success(n)
    ensures |n.payload| == 10
    ensures ParsedStatus(n).Success? <==> n.opcode == OP_NOTIFY_STATUS_POLL
    ensures ParsedBroadcast(n).Success? <==> n.opcode == OP_NOTIFY_STATUS_BROADCAST
    ensures ParseLEDState(n).Success? <==> n.opcode == OP_NOTIFY_LED_OR_SLOT
    ensures ParseSlotAssignment(n).Success? <==> n.opcode == OP_NOTIFY_LED_OR_SLOT
    ensures ParseAlarmFragment(n).Success? <==> n.opcode == OP_NOTIFY_ALARM_FRAGMENT
  {
    OpenExact(aes, sk, mac, raw, n);
  }

  // ----- reading an alarm record back -----

  /** The two notifications in which the coordinator returns a record: nine bytes, then the other
      seven with the checksum and one byte of padding. */
  function RecordPart(src: bv16, vendor: bv16, slot: byte, record: Block, second: bool): Notification
  {
    Notification(src, OP_NOTIFY_ALARM_FRAGMENT, vendor,
                 [slot] + if second then record[9..] + [Fold(record), 0x00] else record[..9])
  }

  /** A record put together from two fragments in the order of their arrival. */
  function Assembled(first: AlarmFragment, second: AlarmFragment): Option<Block>
  {
    if |first.data| == 9 && |second.data| == 9 then Some(first.data + second.data[..7]) else None
  }

  /** What a client makes of an incoming packet: open it, then parse the fragment. */
  function ReadPart(aes: Aes, sk: Block, mac: Mac, raw: seq<byte>): Result<AlarmFragment>
  {
    match Opened(aes, sk, mac, raw)
    case Failure(e) => Failure(e)
    case Success(n) => ParseAlarmFragment(n)
  }

  lemma PartRead(aes: Aes, sk: Block, mac: Mac, sno: Sno, src: bv16, vendor: bv16, slot: byte, record: Block,
                 second: bool)
    ensures ReadPart(aes, sk, mac, Sealed(aes, sk, mac, sno, RecordPart(src, vendor, slot, record, second)))
         == Success(AlarmFragment(slot, 0, if second then record[9..] + [Fold(record), 0x00] else record[..9]))
  {
    var n := RecordPart(src, vendor, slot, record, second);
    OpenSealed(aes, sk, mac, sno, n);
    assert n.payload[1..] == if second then record[9..] + [Fold(record), 0x00] else record[..9];
  }

  /** A record the coordinator sends comes back whole from the two fragments taken in the order of
      their arrival. Their index bytes cannot help, for both read zero, and in the other order the
      fragments give the record only if it happens to look the same. */
  lemma RecordReadBack(aes: Aes, sk: Block, mac: Mac, sno: Sno, sno': Sno, src: bv16, vendor: bv16, slot: byte,
                       record: Block)
    ensures var f := ReadPart(aes, sk, mac, Sealed(aes, sk, mac, sno, RecordPart(src, vendor, slot, record, false)));
            var f' := ReadPart(aes, sk, mac, Sealed(aes, sk, mac, sno', RecordPart(src, vendor, slot, record, true)));
            && f.Success? && f'.Success?
            && Assembled(f.value, f'.value) == Some(record)
            && f.value.index == f'.value.index && f.value.slot == f'.value.slot == slot
            && (Assembled(f'.value, f.value) == Some(record)
                <==> record[..7] == record[9..] && record[7] == Fold(record) && record[8] == 0)
  {
    PartRead(aes, sk, mac, sno, src, vendor, slot, record, false);
    PartRead(aes, sk, mac, sno', src, vendor, slot, record, true);
    SwappedParts(record);
  }

  lemma SwappedParts(record: Block)
    ensures record[..9] + (record[9..] + [Fold(record), 0x00])[..7] == record
    ensures record[9..] + [Fold(record), 0x00] + record[..9][..7] == record
       <==> record[..7] == record[9..] && record[7] == Fold(record) && record[8] == 0
  {
    assert (record[9..] + [Fold(record), 0x00])[..7] == record[9..];
    var swapped := record[9..] + [Fold(record), 0x00] + record[..9][..7];
    assert swapped[..7] == record[9..] && swapped[9..] == record[..7];
    assert swapped[7] == Fold(record) && swapped[8] == 0;
    assert record == record[..7] + [record[7], record[8]] + record[9..];
    assert swapped == swapped[..7] + [swapped[7], swapped[8]] + swapped[9..];
  }
}
