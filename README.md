# WEBOS-XPL remote control, modelled in Dafny

WEBOS-XPL is a terminal remote control for LG webOS televisions, written in Go
(`main.go`). It wakes a TV that is off by broadcasting a Wake-on-LAN magic packet.
It connects to the TV's websocket control port (3000), with up to five dials and
a back-off between them. Next it pairs by sending a `register` frame that carries
a stored pairing key when there is one. A background listener records the key the
TV hands back and offers every inbound frame to a ten-slot channel that nothing
reads, so frames are dropped once ten are held. On that
session, operator commands (play, volume, toasts, app launches, …) become
`request` frames with identifiers `req_1`, `req_2`, …. Pairing keys and MAC
addresses are kept per TV address in a configuration file.

The model has seven modules, one file each:

- `Results` (`results.dfy`): `Option` and `Result`.
- `Hex` (`hex.dfy`): removing the `:`/`-` separators, and Go's `hex.DecodeString` with its two error kinds. The inverse encoder and a colon formatter are there so the round trips can be stated.
- `Wire` (`wire.dfy`): the frame types and a small JSON value type. It also has:
  - the log of side effects (`Event`): probe, broadcast socket, broadcast write, sleep, dial attempt, listener start, frame write;
  - the decimal request identifiers;
  - the `register` frame with its manifest of nineteen permissions.
- `WakeOnLan` (`wol.dfy`): the magic packet.
  - As specification functions: `MagicPacket` and the pointwise `PacketByteAt`.
  - As the in-place construction the Go code performs: `BuildMagicPacket` over an `array`, with `CopyInto` for Go's `copy`.
  - `sendWOL` over a link whose socket and write may fail (`Wake` and `SendWOL`).
- `Commands` (`commands.dfy`): the command facade. Each command maps to its `ssap://` URI and payload, or to the validation error that stops it.
- `Connection` (`connection.dfy`): `Connect` as a function of what the network answers (`ConnectSpec`), with lemmas on the retry loop.
- `Session` (`session.dfy`):
  - the `Config` class, for the configuration file;
  - the `LGTV` class, for the session, with the methods `Connect`, `Send`, `ListenStep` and `Execute`;
  - the pure listener step (`ApplyFrame`, `Offer`) that `ListenStep` is proved against;
  - the start of `main` (`OpenSession`);
  - the end-to-end first-pairing scenario (`FirstPairing`).

Everything outside the program is an input. The probe result, whether the UDP
socket opens and the write succeeds, each dial's outcome and whether the
register write succeeds are fields of a `Network` value. Each frame the
listener reads is an `Inbound` value. Sleeps are recorded as `Sleep(seconds)`
events; nothing waits.

Where the documented behaviour and the code differ, the model follows the code:

- `sendWOL` never checks that the decoded address is six bytes long. Any
  even-length hex string is accepted. A shorter address leaves zero bytes at
  the end of every block, and a longer one is truncated to six bytes
  (`ShortAddressAccepted`, `MagicPacketBlocks`).
- The listener does not keep the pairing key from being reset. Any
  `registered` frame whose `client-key` is a string overwrites the key,
  including the empty string (`EmptyKeyClears`).

## Model

| member | source | states |
|---|---|---|
| Hex.RemoveAll | main.go:53 | every occurrence of the character is removed; every other character keeps its number of occurrences; a string without it is returned unchanged |
| Hex.RemoveAllConcat | main.go:53 | removal distributes over concatenation, so the order of the remaining characters is kept |
| Hex.StripSeparators | main.go:53 | no `:` and no `-` remain, and every other character keeps its number of occurrences |
| Hex.StripSeparatorsIdempotent | main.go:53 | stripping an already stripped address changes nothing |
| Hex.StripSeparatorsConcat | main.go:53 | stripping distributes over concatenation |
| Hex.StripHexText | main.go:53 | a string of hex digits passes through stripping unchanged |
| Hex.HexDecode | main.go:54-57 | succeeds exactly on even-length all-hex input; `OddLength` exactly on odd-length all-hex input; `InvalidByte` exactly when some character is not a hex digit (even when the length is odd); the result has half as many bytes as there are digits |
| Hex.HexDecodeAt | main.go:54 | decoded byte k is 16 × digit 2k + digit 2k+1 (high nibble first) |
| Hex.HexEncode | main.go:54 | the inverse encoding: two hex digits per byte |
| Hex.HexRoundTrip | main.go:54 | decoding the encoding of any byte string gives that byte string back |
| Hex.StripFormatMac | main.go:53 | stripping a colon-separated address leaves exactly its hex digits |
| Hex.MacRoundTrip | main.go:53-54 | strip-then-decode of a colon-separated address of any length gives the address bytes back |
| Wire.Decimal | main.go:249 | the `%d` numeral is non-empty, all digits, and has no leading zero unless the number is 0 |
| Wire.DecimalRoundTrip | main.go:249 | parsing the numeral gives the number back |
| Wire.RequestId | main.go:249 | the identifier is `req_` followed by a non-empty run of decimal digits |
| Wire.RequestIdInjective | main.go:246-249 | `req_m` and `req_n` are the same identifier exactly when m = n |
| Wire.RequestFrame | main.go:247-252 | the request frame has type `request`, id `req_<n>`, and the given URI and payload |
| Wire.Manifest | main.go:169-192 | the manifest is an object with exactly the fields appVersion, manifestVersion and permissions, and the permissions array has one entry per listed permission |
| Wire.ManifestContents | main.go:169-192 | the manifest has exactly appVersion "1.0", manifestVersion 1, and the permission strings in their listed order |
| Wire.PermissionsDistinct | main.go:172-192 | nineteen permissions, no two alike |
| Wire.RegisterPayload | main.go:166-199 | `pairingType` is "PROMPT", `manifest` is the given manifest, `client-key` is present exactly when the key is non-empty and then equals it, and there are no other fields |
| Wire.RegisterFrame | main.go:164-199 | type `register`, id `reg_0`, no URI, and the payload above around the fixed manifest |
| Wire.ClientKeyOf | main.go:220 | a key is found exactly when the payload has a `client-key` field holding a string, and it is that string |
| WakeOnLan.Block | main.go:63-65 | one repetition block is six bytes long |
| WakeOnLan.MagicPacket | main.go:59-65 | the packet is 102 bytes long and starts with six 0xFF bytes |
| WakeOnLan.PacketByteAt | main.go:59-65 | bytes 0-5 are 0xFF; past them, byte k is address byte (k - 6) mod 6 for an address of at least six bytes, and 0 for an empty address |
| WakeOnLan.RepeatLength | main.go:63-65 | sixteen six-byte blocks make 96 bytes |
| WakeOnLan.RepeatAt | main.go:63-65 | byte k of the repetition is byte k mod 6 of the block |
| WakeOnLan.MagicPacketAt | main.go:59-65 | the packet is 102 bytes and agrees byte by byte with the pointwise description of the two fill loops |
| WakeOnLan.MagicPacketBlocks | main.go:59-65 | bytes 0-5 are 0xFF; byte j of block b is address byte j when the address has one, and 0 otherwise |
| WakeOnLan.SixByteAddress | main.go:59-65 | for a six-byte address the packet is 6 × 0xFF followed by sixteen exact copies of the address |
| WakeOnLan.ShortAddressAccepted | main.go:52-65 | a five-byte address is broadcast without error: no length check |
| WakeOnLan.CopyInto | main.go:64 | Go's `copy` into a window writes min(window, source) bytes at the window's start and leaves every other byte unchanged |
| WakeOnLan.BuildMagicPacket | main.go:59-65 | the fresh 102-byte buffer filled in place equals `MagicPacket` of the address |
| WakeOnLan.Wake | main.go:52-78 | whatever is sent starts with opening the broadcast socket on port 9; without an error, exactly the socket and one 102-byte packet write happen |
| WakeOnLan.WakeOutcome | main.go:67-77 | `sendWOL` succeeds exactly when the address decodes, the socket opens and the write succeeds; `SocketError` exactly when the address decodes and the socket does not open; `WriteError` exactly when the address decodes, the socket opens and the write fails |
| WakeOnLan.WakeOnlyBroadcasts | main.go:67-77 | the only side effects are opening the broadcast socket and writing to it |
| WakeOnLan.WakeRejectsBadMac | main.go:53-57 | the address is rejected as invalid exactly when the stripped text is not an even number of hex digits, and then nothing is sent |
| WakeOnLan.WakeBroadcastsPacket | main.go:59-77 | once the socket opens, exactly one 102-byte packet is written: six 0xFF bytes, then sixteen blocks holding the decoded address |
| WakeOnLan.WakeFormattedMac | main.go:52-77 | a colon-separated six-byte address over a working link opens port 9 and broadcasts the standard magic packet, with no error |
| WakeOnLan.SendWOL | main.go:52-78 | the error and events of the imperative sender are those of `Wake`, including the in-place buffer's contents |
| Commands.YouTubeParams | main.go:346-349 | `contentId` is present exactly for a non-empty video id |
| Commands.Build | main.go:266-361 | a command fails exactly when it is a volume outside [0, 100] (`VolumeOutOfRange`) or a video URL without an `http://`/`https://` prefix (`InvalidURL`) |
| Commands.SetVolumeRange | main.go:294-299 | a volume passes exactly when 0 ≤ v ≤ 100 and is then sent as `{volume: v}` to `ssap://audio/setVolume`; -1 and 101 fail, 0 and 100 pass |
| Commands.PlayVideoURLScheme | main.go:334-343 | a video URL passes exactly with an http/https prefix and is then opened as `video/mp4`; `ftp://x` fails |
| Commands.LaunchYouTubeContent | main.go:345-355 | a YouTube launch names `youtube.leanback.v4`, and its params carry `contentId` exactly when a video id is given |
| Commands.CapabilityUris | main.go:266-361 | every accepted command goes to an `ssap://` URI |
| Connection.FirstSuccess | main.go:142-153 | the index where the retry loop stops: every earlier dial failed, and it succeeded unless all five failed |
| Connection.FailedAttempt | main.go:143-152 | the events of a failed attempt i + 1 start with its dial; where the back-off falls is `RetryAlternates` |
| Connection.RetryEvents | main.go:142-153 | no contract of its own: one step is `RetryStep`, the layout `RetryAlternates`, the counts `RetryCounts` |
| Connection.RetryStep | main.go:142-153 | one iteration of the retry loop: a successful dial ends the loop there; a failed one contributes `FailedAttempt` and the loop continues with the next attempt, which decides the first success |
| Connection.RetryAlternates | main.go:142-153 | event k of the loop from attempt i + 1 is dial i + 1 + k/2 when k is even and the 3-second back-off when k is odd; there is an odd number of events, at most 2 × (5 - i) - 1 |
| Connection.RetryCounts | main.go:142-153 | one dial per attempt up to and including the first success (five when none succeeds), and one back-off per failed attempt except the fifth |
| Connection.RetryShape | main.go:142-153 | the dial and back-off counts of `RetryCounts`, attempts numbered within 1..5, nothing else but the back-off, and the loop ends with a dial (the alternation itself is `RetryAlternates`) |
| Connection.RetrySucceedsIff | main.go:142-157 | the loop succeeds exactly when one of the first five dials does |
| Connection.WakePhase | main.go:121-136 | nothing happens when the TV answers the probe or no MAC is known; a failure is exactly `sendWOL`'s; a successful broadcast ends with the 30-second settle wait |
| Connection.WakePhaseQuiet | main.go:121-136 | the wake phase neither dials nor performs a retry back-off |
| Connection.AfterWake | main.go:117-209 | every run starts with the probe; it fails with a wake error exactly when the wake phase failed, leaving the connection state as it was; success means connected and ends with the 2-second grace wait |
| Connection.ConnectSpec | main.go:117-209 | `Connect` always probes first; a reachable TV is dialed right after the probe (attempt 1); success means connected |
| Connection.WakeFailureSkipsDialing | main.go:129-131 | `Connect` fails with a wake error exactly when the TV is offline, a MAC is known and `sendWOL` fails, and then nothing is dialed |
| Connection.NoMacStillDials | main.go:121-145 | an offline TV with no known MAC is dialed right after the probe, and the error, if any, is not a wake error |
| Connection.ConnectFailsIff | main.go:117-209 | `Connect` fails exactly when the wake fails, all five dials fail, or the register frame cannot be written |
| Connection.AllDialsFail | main.go:142-157 | after a clean wake phase, five failed dials make `Connect` return `DialsExhausted` with no transport |
| Connection.RegisterFailure | main.go:161-203 | `Connect` returns `RegisterFailed` exactly when the wake phase is clean, a dial succeeds and the register write fails; the transport then stays open and the listener has been started |
| Connection.AfterWakeDialBound | main.go:138-208 | after a quiet wake phase: at most five dials; success means connected and the register frame was written; exhausted means five dials and not connected; the dial and back-off counts follow the first success |
| Connection.RegisterTail | main.go:161-206 | the listener start, the register write and the grace wait add no dial and no back-off, and the register frame is among the events |
| Connection.ConnectDialBound | main.go:117-209 | `Connect` dials at most five times (no sixth attempt); success means connected and the register frame was written; failure after the dials means all five were made and there is no transport |
| Connection.WakePhaseSent | main.go:121-136 | a wake broadcast that goes out is followed by the 30-second settle wait and nothing else |
| Connection.FirstDialRegisters | main.go:138-208 | after a successful wake phase, a first dial that succeeds is followed by exactly the listener start, the register frame and the grace wait, and the session is connected |
| Connection.WakeThenFirstDial | main.go:117-209 | an unreachable TV with a known MAC whose broadcast goes out and whose first dial succeeds: probe, socket, packet, settle wait, dial 1, listener, register frame, grace wait, connected, no error |
| Connection.FifthAttemptSucceeds | main.go:142-157 | four failing dials then a successful one: success, five dials, four back-offs |
| Session.Lookup | main.go:397-403 | a missing address reads as the empty string |
| Session.Config.Load | main.go:32-41 | the configuration holds the two maps read from the file |
| Session.Config.RememberMac | main.go:393-394 | the MAC is stored under the address; pairing keys are untouched |
| Session.Config.RememberClientKey | main.go:222-224 | the key is stored under the address; MAC addresses are untouched |
| Session.ApplyFrame | main.go:219-226 | only a `registered` frame changes the pairing state, and it adds no stored address other than the TV's |
| Session.Offer | main.go:233-237 | the channel keeps its contents and grows by at most one frame, at the end |
| Session.ApplyFrameEffect | main.go:219-226 | a `registered` frame with a string key installs it in the session and under the TV's address only; any other frame changes nothing |
| Session.ReplayIsNoOp | main.go:219-226 | applying the same frame twice equals applying it once |
| Session.EmptyKeyClears | main.go:219-224 | a `registered` frame with an empty key clears the session's key and stores "" |
| Session.OfferBounded | main.go:233-237 | the channel never exceeds ten frames; a frame is appended exactly when there is room and dropped exactly when the channel is full |
| Session.ReportFor | main.go:219-231 | "paired" exactly for a `registered` frame with a string key; a device error exactly for a `response` frame with a non-empty error |
| Session.IssuedIdsDistinct | main.go:246-249 | strictly increasing counter values give pairwise distinct request identifiers |
| Session.WakeIfOff | main.go:121-136 | the wake step equals the wake phase of `ConnectSpec` |
| Session.ConnectSteps | main.go:117-209 | the imperative probe, wake, dial loop, listener start and register write produce exactly the run `ConnectSpec` describes |
| Session.DialWithRetries | main.go:142-157 | the dial loop succeeds exactly when some attempt within five does, and its events are those of the retry specification |
| Session.LGTV.constructor | main.go:400-404 | a session with the given address, MAC and key, not connected, counter 0, empty channel |
| Session.LGTV.Connect | main.go:117-209 | the error, the events and the new connection state are those of `ConnectSpec` (computed by `ConnectSteps`); the channel is fresh and empty; the session invariant is kept |
| Session.LGTV.Send | main.go:241-260 | not connected: "not connected", nothing changes; connected: the counter grows by one and the frame carries `req_<new counter>`, whether or not the write then fails; identifiers stay strictly increasing |
| Session.LGTV.ListenStep | main.go:211-238 | a read failure closes the session with nothing changed; a frame updates the key and the stored keys as `ApplyFrame` says, is offered to the channel as `Offer` says, and is reported as `ReportFor` says |
| Session.LGTV.Execute | main.go:266-361 | a command failing its own check is rejected, and nothing is sent or counted; otherwise it is `Send` of `Build`'s URI and payload |
| Session.OpenSession | main.go:386-404 | a MAC argument is stored under the address and used; without one, the stored MAC (or none) is used; the stored key is handed to the session |
| Session.FirstPairing | main.go:117-226 | a TV that is off, a colon-separated six-byte MAC and no stored key, at any address: the events are exactly probe, broadcast socket, the standard magic packet, settle wait, dial 1, listener, a `register` frame without `client-key`, grace wait. After the TV answers `registered` with any key, a new session for that address starts with that key and the same MAC |

## Left out

- Real I/O is left out. The TCP probe, the UDP socket, the websocket dial, reads and writes, and the configuration file are all represented by their outcomes (`Network`, `Link`, `Inbound`, the `Config` maps).
- Sleeps do not wait. They appear only as `Sleep(seconds)` events. The 2-second probe timeout is not modelled.
- Concurrency is not modelled. The listener runs beside the command loop in Go, and its steps can interleave with `send`. The model treats each listener step and each command as atomic. The unsynchronised access to `ClientKey` is not captured, nor is the interleaving of the listener's reads with the main goroutine's writes.
- Nothing in the program reads the response channel, so no dequeue is modelled. `responses` is a sequence that only `ListenStep` appends to.
- `os.Exit(0)` on a read failure is represented by the `ConnectionClosed` report. The model does not stop the process.
- Session.LGTV.ListenStep: in Go, the listener reloads the configuration file before storing the key. The model passes the current configuration in as `store`, so an external change to the file between loads is not captured.
- Error messages are left out. The `fmt.Errorf` texts and the console output (banner, emoji status lines, menu) become error kinds and `Report` values. The byte that `hex.DecodeString` names in an `InvalidByteError` is not kept.
- `hex.DecodeString` works on UTF-8 bytes, while the model works on characters. For non-ASCII input Go reports the first invalid byte and the model reports `InvalidByte`; the error kind is the same.
- Session.LGTV.Send: `msgID` is a Go `int` (64-bit). The model uses an unbounded `nat`, so wrap-around after 2^63 - 1 requests is not modelled.
- The interactive menu loop of `main` is left out: reading stdin, parsing the volume number, dispatching menu choices. The commands it calls are modelled by `Commands.Build` and `Session.LGTV.Execute`.
- The usage message for missing arguments is not modelled.
- `configPath` and the JSON encoding of frames are not modelled. An absent (`nil`) payload is modelled as an empty map; the two encode identically because of `omitempty`.
