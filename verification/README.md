# Verification of the pigsydust protocol stack

A Dafny model of the Go library's protocol logic, with proofs of what it promises. It covers the
client session under concurrent use, the packet cipher, the pairing handshake, the translation of
weekly schedules between time zones, the command and notification codecs, and the UUID text form.
`dafny verify dfyconfig.toml` checks everything.

| file | models |
|---|---|
| `ClientRuns.dfy`, `ClientTheorems.dfy` | every interleaving of concurrent Login, Send and Notifications calls on one client, with the notification pump; what holds in all of them |
| `Pumps.dfy` | what the notification pump does with the packets and actions of a run, and that no call gets stuck |
| `StaleKeys.dfy` | exactly when a Send races with a Login, and for whom its packet is |
| `Sessions.dfy` | the session record and the client object, one method for each critical section, plus the sequential Login, Send, Notifications and Close |
| `Heartbeats.dfy` | the heartbeat loop under any sequence of Login and Close |
| `PacketCipher.dfy` | nonces, CBC-MAC, CTR mode, Encrypt and Decrypt |
| `LoginHandshake.dfy` | the login request and response, the session key, and the node on the other side |
| `TimeZones.dfy`, `Alarms.dfy` | schedule conversion, alarm records, and an alarm's way from local time to the coordinator and back |
| `Commands.dfy`, `CommandDecoder.dfy` | command builders and `Encode`; a strict decoder and reassembly as their specification |
| `Notifications.dfy` | notification packets and payload parsers, against a device that seals them |
| `Uuids.dfy` | the UUID printer and parser |
| `Bytes.dfy`, `Results.dfy` | bytes, blocks, XOR folds, buffers; results and errors |

Choices that shape the model:

- AES-128 (FIPS 197) is a parameter, a function from a key and a block to a block. That it is
  injective under every key is required only where a lemma says `Invertible`.
- Random values, transport results, incoming packets, cancellation and the time are arbitrary inputs
  or steps. Strings and packets are sequences of 8-bit vectors, so XOR, shifts, masks and wrap-around
  are those of the machine.
- A step of a run is one critical section, one channel operation or one transport operation of one
  caller. The positions kept in a phase (`at`, `drawnAt`, `subscribedAt`) and the history of events
  record the run; no step reads the history.
- The methods of `Sessions.Client` and the steps of `ClientRuns` change the session by the same two
  functions, `Committed` and `Drawn`; `UndisturbedSend`, `UndisturbedLogin` and
  `UndisturbedNotifications` show that a call no other step disturbs does what the sequential method
  does. The fields hbOnce, hbCancel and hbDone appear together as one `Heartbeat` value.
- A Go array value assigned as a whole is an immutable block here; buffers the code fills in place
  are arrays.

Where the code does not do what its documentation says, the model follows the code:

- Send is documented as safe to call from several goroutines at once (client.go:105-106), and Login only
  as coming before any Send (client.go:65-66); nothing forbids a second Login beside a Send. When one
  commits between a Send's two critical sections, the packet is under the old key and numbered by the
  new login (`TornSend`). In runs of logins to one mesh that never repeat a randA, that is exactly when
  a packet is not under the key in force at its draw (`TornIff`). A node that holds another key recovers
  the command exactly when tag and ciphertext coincide (`RecoversIff`), and for some cipher it does not
  (`TornSendIsLost`).
- Login is said to start the heartbeat. It does so exactly when no Close was called since the first
  successful login (`LoginLeavesHeartbeatIff`).
- A recurring alarm is said to need a weekday. The test comes before the mask, so `0x80` gets through
  and nothing else does (`RecurringWithoutWeekday`).
- The conversion between local time and UTC is right for all offsets up to 24 hours and no further;
  the exact condition at any offset is `InstantsKept` (`LocalToUTCKeepsInstants`, `RightUpTo24`).
- An alarm fragment's index is documented as 0 or 1 but is never set, so fragments can be told apart
  only by their order of arrival (`RecordReadBack`).
- One subscription is supported at a time, but the pump gives it back before it closes its channel, so
  the next subscriber can be let in while the first one's channel is still open
  (`SubscriptionsOverlap`): exactly while the first one's pump stands between the two (`OverlapIff`).

## Model

| member | source | states |
|---|---|---|
| ClientTheorems.SnosInOrder | session.go:24-30 | at every moment of every run of any number of concurrent callers, the serial numbers drawn since the last login commit are, in draw order, the counter 0, 1, 2, ... mod 256 followed by that login's salt |
| ClientTheorems.NonceReuse | client.go:117-118 | in every run, two draws of one login give the same command nonce exactly when they are a multiple of 256 apart |
| ClientTheorems.EveryPacket | client.go:107-121 | every packet handed to the transport is the encryption of one Send's encoded command, under the key in force where that Send took its snapshot, with the nonce of the number it drew, which is the next number of the login in force at the draw; snapshot and draw are unique |
| ClientTheorems.UntornSendIsOpened | client.go:108-119 | if no login commits between snapshot and draw, a node holding the key in force at the draw recovers exactly the encoded command |
| ClientTheorems.NodeUnderstands | client.go:105-121 | and if a builder made the command, the node decodes it to what the builder call means |
| ClientTheorems.TornSend | client.go:94-117 | for any two logins with different randA, a run exists in which the second commits between the two sections and leaves a packet under the first one's key with the second one's first number and salt |
| StaleKeys.KeyInForceIff | client.go:94-99 | in a history whose commits carry pairwise distinct keys, the key in force is the same at two places if and only if no login was committed between them |
| StaleKeys.SendIsCurrentIff | client.go:108-117 | in such a history, a packet is under the key in force at its draw if and only if no login was committed between the two critical sections of its Send |
| StaleKeys.TornIff | client.go:107-121 | the same for every run of logins to one mesh in which no randA repeats, where the keys are distinct because AES is injective |
| StaleKeys.RecoversIff | crypto/crypto.go:118-139 | a node with another key recovers a packet's command if and only if tag and ciphertext under both keys coincide |
| StaleKeys.TornSendIsLost | client.go:107-121 | for every command, a run with an injective cipher exists in which a login between the two sections makes the node holding the key in force at the draw miss the command |
| ClientTheorems.PacketsDiffer | client.go:117-120 | two packets drawn for within one login start with different serial numbers unless their draws are a positive multiple of 256 apart |
| ClientTheorems.OneSubscriber | client.go:130-157 | in every run the flag is up exactly while some call is between claiming and giving back the subscription, and never two are |
| ClientTheorems.ClaimRefusedIff | client.go:131-137 | in every run a Notifications call is turned away exactly when another call or its pump holds the subscription, so every failing path and every pump exit has released it |
| ClientTheorems.PumpRefines | client.go:159-188 | in every run, delivered then buffered notifications are a prefix of the readable packets the pump holds as taken, decrypted under the key in force at the subscription, missing at most the one in hand, which only a cancellation loses; the channel never exceeds 64 |
| Pumps.PumpTrace | client.go:167-187 | in every run, the packets taken are exactly those the run gave the pump, in order; the consumer has as many notifications as it read; the pump is at work until it sees its context cancelled or its source end, and for no packet stops |
| Pumps.Serve | client.go:172-186 | from any state of any run, any packets, readable or not and however many, can be taken with the pump still at work and every readable one delivered in order |
| Pumps.Feed | client.go:159 | without a consumer the pump takes any packets of which the channel can hold the readable ones, up to 64 |
| Pumps.Drain | client.go:159-166 | what is buffered can always be read, also after the pump has ended |
| Pumps.NoCallIsStuck | client.go:65-190 | from any state of any run, any call can be brought to its end by its own steps, whatever the other calls are at and whatever the transport answers |
| Pumps.SubscriptionComesFree | client.go:130-166 | from any state of any run, a taken subscription can come free |
| ClientTheorems.ConsumerGetsWhatWasSent | client.go:123-190 | if those packets are what a device sealed, the consumer has the device's notifications in order, all but at most the last, and all of them when the pump ended uncancelled |
| ClientTheorems.OverlapIff | client.go:161-166 | in every run, while one subscriber's channel is open another is let in if and only if the first one's pump has given the subscription back and no call holds it |
| ClientTheorems.SubscriptionsOverlap | client.go:161-166 | a run exists in which a second subscriber has claimed while the first one's channel is not yet closed |
| ClientTheorems.UndisturbedSend | client.go:107-121 | the interleaved steps of a Send, taken alone, give the session and packet, or the refusal, of the sequential Send |
| ClientTheorems.UndisturbedLogin | client.go:67-103 | the interleaved steps of a Login, taken alone, give the session and the result of the sequential Login for every transport outcome and response |
| ClientTheorems.UndisturbedNotifications | client.go:130-157 | the interleaved steps of Notifications, taken alone, give the flag, the error or the key and address of the sequential method |
| ClientRuns.InvKept | client.go:65-190 | every step of every caller keeps the whole invariant of the runs |
| ClientRuns.SessionKept | client.go:94-99 | commits restart the numbering, draws continue it, and no other step touches the session |
| ClientRuns.PumpKept | client.go:167-187 | each step of the pump, its channels and its context keeps that delivered, buffered and in hand are the readable packets taken, in order |
| ClientRuns.HolderKept | client.go:131-166 | every step keeps that the flag is up exactly while some call holds the subscription, and that no two do |
| ClientRuns.HolderEffect | client.go:131-166 | a call becomes holder only by raising a flag that was down, ceases to be one only by lowering it, and every other step leaves the flag alone |
| Sessions.SessionRecord.NextSNO | session.go:24-30 | returns counter and salt, and advances the counter by one with wrap-around, changing nothing else |
| Sessions.DrawNumbers | session.go:27-28 | the draw after k draws is numbered k and leaves the counter at k+1 |
| Sessions.NumberedIs | session.go:28 | number k is the byte k mod 256 followed by the salt |
| Sessions.NonceRepeats | crypto/crypto.go:49-55 | numbered command nonces are equal exactly for numbers equal mod 256 |
| Sessions.Client.CommitLogin | client.go:94-99 | stores key and salt, restarts the counter, marks the session logged in, keeps the address |
| Sessions.Client.Login | client.go:67-103 | builds the request from name, password and randA; commits the derived key only when write, read and response are good, otherwise leaves the session alone; starts the heartbeat only once |
| Sessions.Client.Send | client.go:107-121 | refuses before login, otherwise draws one number and returns the packet of the specification |
| Sessions.Client.Notifications | client.go:130-157 | which error or key it returns, and that it keeps the flag raised exactly on success or when another subscription was active |
| Sessions.Client.Close | client.go:194-200 | leaves a client without a started loop as it is, and any other with its loop gone |
| Sessions.LoginThenSend | client.go:16-29 | after a login against a node, what is sent is opened by that node, whatever the session held before |
| Heartbeats.OneLoop | client.go:202-209 | over any sequence of calls at most one loop is ever started, exactly when some login succeeded |
| Heartbeats.TickIff | client.go:216-226 | the heartbeat can beat at a moment if and only if a login has succeeded and the loop has not exited |
| Heartbeats.BeatsOn | client.go:216-226 | and then it can beat any number of times |
| Heartbeats.LoginLeavesHeartbeatIff | client.go:65-103 | after a successful login a loop runs if and only if no Close was called since the first successful login |
| Heartbeats.NoHeartbeatAfterRelogin | client.go:202-203 | login, close, login ends without a loop |
| Heartbeats.CloseIsFinal | client.go:194-200 | once a Close that found a loop has returned, no loop runs and no tick happens in any later state |
| Heartbeats.CloseNeverStuck | client.go:194-227 | while a Close waits, the loop can exit or the Close can return |
| Heartbeats.CloseEnds | client.go:194-200 | a Close in progress can come to its end in two steps, after which every call can be made |
| PacketCipher.CbcMac | crypto/crypto.go:74-90 | the byte loop computes the block-level MAC for every length: encrypt nonce, length mod 256 and zeros, then fold in each zero-padded chunk and encrypt, keep two bytes |
| PacketCipher.MacTagIs | crypto/crypto.go:74-90 | the tag is the first two bytes of the state of a machine that starts from the encryption of nonce, length mod 256 and seven zeros, and XORs in up to sixteen bytes from the front and encrypts until the data is used up |
| PacketCipher.EmptyMac | crypto/crypto.go:75-81 | without data the state is the encrypted first block |
| PacketCipher.OneChunkChangeIsSeen | crypto/crypto.go:80-89 | for injective AES, equal-length messages that agree outside one chunk have equal full MAC states only if equal, at any length |
| PacketCipher.ShortMessagesNeverCollide | crypto/crypto.go:80-89 | so equal-length messages of at most 16 bytes never share a full MAC state |
| PacketCipher.CtrCrypt | crypto/crypto.go:93-109 | the stateful loop XORs byte i with byte i mod 16 of the encryption of counter i/16 mod 256, nonce and zeros |
| PacketCipher.Keystream | crypto/crypto.go:93-106 | block j of the keystream is the encryption of the counter j mod 256, the nonce and seven zeros |
| PacketCipher.CryptedByKeystream | crypto/crypto.go:107 | every byte is XORed with its keystream byte |
| PacketCipher.CryptTwice | crypto/crypto.go:92-93 | CTR mode is its own inverse at every length |
| PacketCipher.CryptPrefix | crypto/crypto.go:101-107 | and commutes with taking prefixes |
| PacketCipher.CountersDistinctIff | crypto/crypto.go:104 | the counter blocks of a message are pairwise distinct if and only if it has at most 4096 bytes |
| PacketCipher.Encrypt | crypto/crypto.go:118-127 | the packet is sno, tag, ciphertext |
| PacketCipher.PacketLayout | crypto/crypto.go:118-127 | serial number, then the first two bytes of the MAC state of the plaintext, then the encrypted plaintext |
| PacketCipher.Decrypt | crypto/crypto.go:132-139 | the plaintext if its tag matches, otherwise the tag error |
| PacketCipher.DecryptExact | crypto/crypto.go:118-139 | Decrypt returns p for a tag and ciphertext if and only if Encrypt of p gives exactly that packet |
| PacketCipher.EncryptedInjective | crypto/crypto.go:118-127 | under one key and nonce, packets are equal exactly when sno and plaintext are |
| PacketCipher.PeerRecovers | crypto/crypto.go:111-127 | a node that rebuilds the nonce from the packet recovers the plaintext |
| PacketCipher.NonceLayouts | crypto/crypto.go:44-71 | both nonces as address bytes backwards followed by their other parts |
| PacketCipher.NotificationNonceInjective | crypto/crypto.go:65-71 | notification nonces are equal exactly for equal sno and source |
| PacketCipher.ReversedAesConjugates | crypto/crypto.go:29-42 | the reversed cipher is AES conjugated by byte reversal |
| PacketCipher.ReversedAesBackwards | crypto/crypto.go:29-42 | AES on key and plaintext read backwards, the result read backwards |
| PacketCipher.ReversedRotation | crypto/crypto.go:29-42 | a cipher that rotates left rotates right when reversed |
| PacketCipher.ReversedAesInjective | crypto/crypto.go:29-42 | and injective when AES is |
| LoginHandshake.BuildLoginRequest | crypto/login.go:28-44 | tag, randA, and the first half of the encrypted credentials |
| LoginHandshake.RequestHolds | crypto/login.go:28-44 | a request starts with 0x0C and randA, and its last eight bytes are the first half of a block that decrypts under randA and zeros to the credentials |
| LoginHandshake.CredentialsAt | crypto/login.go:33-35 | each byte of the credentials is the XOR of the name's and the password's byte, zero past their ends |
| LoginHandshake.ParseLoginResponse | crypto/login.go:48-58 | too short, wrong tag, or bytes 1 to 8 |
| LoginHandshake.ResponseExact | crypto/login.go:48-58 | a response is read as randB if and only if it is 0x0D, randB and at least eight bytes more |
| LoginHandshake.DeriveSessionKey | crypto/login.go:70-78 | the encryption of both nonces under the credentials |
| LoginHandshake.HandshakeAgrees | crypto/login.go:28-78 | a node knowing name and password accepts the request, its answer parses, and both sides have the same key |
| LoginHandshake.NodeTakesIff | crypto/login.go:28-44 | a node takes exactly the requests a client with its name and password makes, whatever its randA |
| LoginHandshake.SessionKeyHolds | crypto/login.go:60-78 | decrypting the session key under the credentials gives randA followed by randB: key and plaintext are the other way round than in the request |
| LoginHandshake.SessionKeyFresh | crypto/login.go:60-78 | for injective AES, keys under one set of credentials are equal exactly for equal randA and randB |
| LoginHandshake.CredentialsForget | crypto/login.go:33-35 | name and password are interchangeable and bytes past the sixteenth do not matter |
| TimeZones.LocalToUTCKeepsInstants | schedule/timezone.go:14-27 | for every hour up to 23, every mask and every offset, the converted alarm fires at the same instants over all integer time if and only if the stated condition on hour and offset holds |
| TimeZones.UTCToLocalKeepsInstants | schedule/timezone.go:32-45 | the same for the inverse conversion |
| TimeZones.RightUpTo24 | schedule/timezone.go:3-13 | the conversion is right for all hours and masks at all offsets up to n if and only if n is at most 24 |
| TimeZones.OffsetsCompose | schedule/timezone.go:14-45 | converting by a to UTC and by b to local is converting by b - a |
| TimeZones.RoundTrip | schedule/timezone.go:29-45 | conversion there and back gives the hour and the seven weekday bits |
| TimeZones.WeekdaysKept | schedule/timezone.go:5-10 | at every offset both conversions keep the number of weekdays and clear bit 7 |
| TimeZones.RotationVisible | schedule/timezone.go:18-25 | only the empty and the full mask are unchanged by a rotation of one to six days |
| Alarms.Build | schedule/alarm.go:168-193 | refuses hours over 23, then minutes over 59, with the error of each, else fills the sixteen slots |
| Alarms.RecordBytes | schedule/alarm.go:168-193 | all sixteen bytes of a record, the unused state bytes 0x00 0x00 0xFF 0xFF 0xFF among them |
| Alarms.Countdown | schedule/alarm.go:121-139 | refuses a zero duration, else the countdown layout |
| Alarms.CountdownBytes | schedule/alarm.go:121-138 | all sixteen bytes of a countdown, with five zero state bytes |
| Alarms.LayoutReadBack | schedule/alarm.go:66-93 | the accessors read every field of every built record back |
| Alarms.AccessorsRead | schedule/alarm.go:66-93 | the place each accessor reads, and that every active byte but zero counts |
| Alarms.RecurringReadBack | schedule/alarm.go:153-158 | a recurring alarm is refused exactly for the zero mask or a bad hour or minute; otherwise every field asked for is read back, the mask without bit 7 |
| Alarms.OneShotReadBack | schedule/alarm.go:144-146 | a one-shot is refused exactly for a bad hour or minute; otherwise every field asked for is read back, without weekdays |
| Alarms.TransitionReadBack | schedule/alarm.go:161-166 | a transition is refused exactly for a bad time or a kind other than flick and gradual; otherwise every field asked for is read back, the mask without bit 7 |
| Alarms.CountdownReadBack | schedule/alarm.go:121-139 | a countdown is refused exactly for zero minutes; otherwise it has the reserved id, the duration and target asked for, and turns off |
| Alarms.RecurringWithoutWeekday | schedule/alarm.go:153-158 | the builder refuses exactly the zero mask and returns a record without weekdays exactly for 0x80 |
| Alarms.XOR | schedule/alarm.go:97-103 | the fold of all sixteen bytes, the one WriteAlarm sends |
| Alarms.SetActive | schedule/alarm.go:108-116 | a copy that differs in the active byte only |
| Alarms.Toggle | schedule/alarm.go:105-107 | disabling an active record and enabling it again restores it if and only if its active byte was 0x01, and the checksum changes by the difference of the active bytes |
| Alarms.ScheduledRecord | schedule/alarm.go:153-158 | for offsets up to 24 hours, converting and building succeeds exactly for a valid minute and a non-empty mask, and carries the UTC hour and mask |
| Alarms.AlarmEndToEnd | command/schedule.go:20-49 | an alarm scheduled in local time, written as two encoded fragments arriving in any order and number, reassembled by index byte and converted back, is the alarm asked for, with a checksum that folds to zero |
| Alarms.AlarmFiresOnTime | schedule/timezone.go:14-27 | the record fires on the UTC clock at exactly the instants meant on the local clock |
| Commands.Encode | command/command.go:41-48 | header, shifted opcode, as much data as fits, zeros |
| Commands.EncodedData | command/command.go:46 | data that fits comes out zero-padded, data that does not is cut at the plaintext length |
| Commands.EncodedHeader | command/command.go:41-45 | destination and vendor with the low byte first, client type bits and six bits of the opcode between them |
| Commands.SetGroupMembership | command/group.go:20-32 | count byte mod 256, address byte, then all group bytes |
| Commands.SetUTC | command/status.go:54-66 | the low 32 bits of the time, little-endian, and a zero zone byte |
| Commands.SecondsCarried | command/status.go:54-57 | the four bytes carry the seconds modulo 2^32, the low byte first |
| Commands.WriteAlarm | command/schedule.go:20-49 | nine bytes behind index 0; seven bytes and the fold of the record behind index 1 |
| Commands.SunriseSunset | command/sunrise.go:17-44 | three indexed pieces, the third followed by the fold of all 24 bytes |
| CommandDecoder.DecodeBuilt | command/status.go:15-40 | every builder's plaintext decodes to what the call means: length and opcode separate all builders but those that share an opcode, which their data separates |
| CommandDecoder.DecodeExact | command/command.go:41-48 | the strict decoder, which checks every constant and padding byte, reads w from a plaintext if and only if some builder call that means w makes exactly that plaintext |
| CommandDecoder.DecodeControl | command/control.go:7-42 | on/off and group on/off data decode to destination and state |
| CommandDecoder.DecodeIndicator | command/led.go:64-105 | LED query and find-me data decode to destination and argument |
| CommandDecoder.DecodeLed | command/led.go:11-62 | the three LED setters share an opcode and are told apart by their data, levels mod 16 |
| CommandDecoder.DecodeGroups | command/group.go:20-32 | a membership command decodes to its count byte, address byte and first eight groups |
| CommandDecoder.DecodeTime | command/status.go:54-66 | a time command decodes to the seconds mod 2^32 |
| CommandDecoder.DecodeAlarm | command/schedule.go:20-49 | both alarm fragments decode to their record bytes and checksum |
| CommandDecoder.DecodeSlotOps | command/schedule.go:64-110 | query, delete and slot commands decode to their arguments |
| CommandDecoder.DecodeSun | command/sunrise.go:17-44 | each sunrise fragment decodes to index, piece and trailer |
| CommandDecoder.BuildersInjective | command/command.go:41-48 | two builder calls give the same plaintext if and only if they mean the same, up to the masking each builder does |
| CommandDecoder.GroupsReadIff | command/group.go:20-32 | a group list arrives whole if and only if it has at most eight entries, and otherwise its first eight are carried |
| CommandDecoder.AlarmReassembles | command/schedule.go:20-49 | the two fragments, in any order and number, give back the record and its fold |
| CommandDecoder.SunReassembles | command/sunrise.go:17-44 | the three fragments, in any order and number, give back the data and its fold, found in the last plaintext byte of fragment 2 |
| CommandDecoder.ChecksumCatchesOneByte | command/schedule.go:20-24 | a body followed by its fold folds to zero, and after rewriting any one byte it does so only if nothing changed |
| Notifications.ParseNotificationWire | notification.go:29-39 | refuses any length but 20 and splits the rest |
| Notifications.DecryptNotification | notification.go:44-65 | parse, rebuild the nonce, verify, decrypt, split the frame, with each error |
| Notifications.OpenExact | notification.go:44-65 | a packet opens as n if and only if it is 20 bytes, n has a 10-byte payload, and it is what a device holding the key seals for n under the packet's sno |
| Notifications.RefusedBecause | notification.go:41-57 | a packet is refused for its length exactly when it is not 20 bytes, otherwise only for its tag, never as too short |
| Notifications.FlagsExact | notification.go:75-82 | a status byte parses to flags f if and only if it is the byte in which a device packs f and the version fits in six bits |
| Notifications.ParseDeviceStatus | notification.go:111-134 | opcode and length errors, else every field, with the address bytes reversed into place |
| Notifications.StatusReadBack | notification.go:102-134 | a status a device reports is read back with its flags, all but the two address bytes that are not sent |
| Notifications.ParseDeviceStatusBroadcast | notification.go:149-173 | the statuses of the non-empty slots in order |
| Notifications.BroadcastReadBack | notification.go:136-173 | two devices' reports of address, metric, brightness and flags are read back in order, each unless its address is zero, as on exactly when bright |
| Notifications.ParseGroupMembership | notification.go:187-199 | the longest payload prefix free of 0x00 and 0xFF |
| Notifications.GroupsUnique | notification.go:181-199 | the list read is the device's list if and only if no group has a terminator's value |
| Notifications.LedAndSlotReadBack | notification.go:224-257 | both flavours of the 0xD3 response are read back |
| Notifications.FragmentReadBack | notification.go:273-284 | an alarm fragment of any length is read back with index zero |
| Notifications.ParserErrors | notification.go:111-284 | each parser refuses exactly other opcodes and, on its own, exactly payloads shorter than its fields |
| Notifications.DecryptedIsLongEnough | notification.go:111-284 | on a decrypted notification every parser fails on the opcode only, never on the length |
| Notifications.RecordReadBack | notification.go:273-284 | a record the coordinator sends is recovered from its two sealed fragments in arrival order; their index bytes are equal; swapped, they give it only in the stated coincidence |
| Uuids.String | ble/ids.go:11-26 | the canonical 8-4-4-4-12 text, each of the 36 positions written once in order |
| Uuids.HexByte | ble/adapter_linux.go:243-255 | writes the value of a hex digit of either case through the pointer, or reports the character and writes nothing |
| Uuids.ParseUuidString | ble/adapter_linux.go:224-241 | strips dashes, refuses any count but 32, then the first bad digit, else the bytes |
| Uuids.ParsePrinted | ble/ids.go:10-26 | parsing printed text gives back the UUID and nothing else |
| Uuids.PrintParsed | ble/adapter_linux.go:224-241 | any text is accepted exactly when 32 hex digits are left without dashes, and printing the result gives them lower-cased with canonical dashes |
| Uuids.ParsedNumber | ble/adapter_linux.go:224-241 | an accepted text names the big-endian number its hex digits write |
| Uuids.PrintedNumber | ble/ids.go:10-26 | the text of a UUID writes its number, the most significant digit first |
| Uuids.HexDigits | ble/adapter_linux.go:243-255 | the digits are 0-9, a-f and A-F, worth 0 to 15 |
| Uuids.StrippedIs | ble/adapter_linux.go:226 | dashes are left out and nothing else |
| Uuids.SameUuid | ble/adapter_linux.go:224-241 | two accepted texts name the same UUID exactly when they agree up to dashes and case |
| Bytes.Pad16 | internal/byteutil/byteutil.go:8-12 | pads with zeros or truncates to sixteen bytes |
| Bytes.PaddedIs | internal/byteutil/byteutil.go:8-12 | a short string followed by zeros, or the first sixteen bytes of a long one |
| Bytes.Xor16 | internal/byteutil/byteutil.go:15-21 | bytewise XOR |
| Bytes.Reverse16 | internal/byteutil/byteutil.go:24-30 | byte reversal |
| Bytes.ReversedIsBackwards | internal/byteutil/byteutil.go:24-30 | the last byte comes first, and so on to the first |
| Bytes.XorFold | internal/byteutil/byteutil.go:53-59 | the fold of all bytes |
| Bytes.FoldConcat | internal/byteutil/byteutil.go:53-59 | the fold of a concatenation is the XOR of the folds |
| Bytes.FoldUpdate | internal/byteutil/byteutil.go:52-59 | rewriting one byte changes the fold by exactly the difference |
| Bytes.Le16Little | internal/byteutil/byteutil.go:32-40 | the low byte of a 16-bit number comes first |
| Bytes.ByteOfValue | crypto/crypto.go:77 | the wrapping byte counter holds n mod 256 |

## Left out

- D-Bus, BlueZ, tinygo and raw HCI code under ble: I/O and foreign libraries; only the UUID parser is taken from there.
- The AES rounds: they come from the Go standard library and stay an uninterpreted function.
- Randomness and probabilistic claims: nonces and salts are arbitrary inputs, so nothing is said about the chance of a two-byte tag matching by accident.
- Real time, ticker intervals and logging: a tick is a step that can come at any time.
- Concurrent Login and Close: hbCancel and hbDone are read without a lock, so calls of these two are taken to follow each other.
- Integer width of the time zone offset: offsets are unbounded integers, so the overflow of hour minus offset at the ends of the 64-bit range is not modelled.
- Encode on plaintext lengths below 5: the original panics there, so the model requires at least 5, which every builder meets.
- The device class table, address.go, advertisement.go: fixed field reads and finite tables.
- ParseMAC and macFromPath: weaker duplicates of the UUID pair.
- Options, error texts, transport.go and the programs under cmd: wiring.
- The answer to whether a consumer ever reads or a transport ever ends: the theorems are about what every run keeps, not about progress, apart from `CloseNeverStuck`.
