# Bemfa protocol client: hex decoder and session state machine

This project models, in Dafny, two sequential pieces of the Bemfa cloud
protocol client of an ESP32 voice assistant (`BemfaProtocol`):

1. **The lenient hex decoder** (`CharToHex`, `DecodeHexString`, and the
   `hex_chars` table). A digit of either case decodes to its value, any other
   character to 0; digits are read in pairs, and an odd final digit is
   paired with the string terminator, which decodes to 0. The input is the
   byte content of a `std::string`: each element is one byte (a character
   below 256), so a multi-byte UTF-8 character is several elements, each
   read as a digit on its own. Module `HexCodec` holds a loop-based model of `DecodeHexString`, a recursive reference
   decoder it is proved equal to, and an upper-case encoder built from
   `hex_chars` that the decoder inverts.
2. **The session/channel state machine** (module `BemfaSession`). A
   `Session` record holds the MQTT client (absent, or present and
   connected/disconnected), whether a UDP handle exists, the busy and error
   flags, the session id, the server-hello event bit, the time of the last
   inbound message, the publish topic, and three logs: the outbox of
   publish attempts, the queue of tasks handed to the application
   scheduler, and the messages handed to the incoming-JSON handler. It also
   counts how often the channel-closed handler fired. `OpenAudioChannel`,
   `CloseAudioChannel`, `SendText`, `StartMqttClient`,
   `IsAudioChannelOpened` and the inbound `OnMessage` dispatch are pure
   transitions. The outcomes of client creation, `Connect` and `Publish`
   are boolean parameters. The result of `Subscribe` is ignored by the code,
   so the client only records the topic of the subscribe attempt. Module `BemfaSessionProperties` relates several
   steps, and it folds arbitrary sequences of calls and deliveries from the
   initial state.

Points about the code that shape the model:

- The code has no hello handshake: no hello publish, no wait, no
  `ParseServerHello`, no sequence reset. None is modelled. `OpenAudioChannel` reconnects if needed,
  resets the flags, empties the session id, clears the hello bit and returns
  true. It publishes no hello and waits for nothing. An inbound `"hello"`
  goes to the incoming-JSON handler like any other non-goodbye type.
- `CloseAudioChannel` does not clear the session id. It only drops the UDP
  handle, publishes the goodbye and fires the closed handler.
- Nothing in the code creates a UDP handle or stores a non-empty session
  id. `BemfaSessionProperties.NeverOpenedFromInitial` therefore proves that
  `IsAudioChannelOpened` is false after every run from the initial state.
  `NamedGoodbyeIgnoredAfterOpen` proves that, after an open, a goodbye
  naming a non-empty session never closes the channel.

## Model

| member | source | states |
|---|---|---|
| HexCodec.CharToHex | main/protocols/bemfa_protocol.cc:210-215 | an upper-case digit decodes to its index in `hex_chars`; a lower-case letter decodes to the value of its upper-case form; every non-digit decodes to 0; the result is a nibble (< 16) |
| HexCodec.CharToHexCaseInsensitive | main/protocols/bemfa_protocol.cc:212-213 | lower-casing or upper-casing a character never changes its decoded value |
| HexCodec.CharToHexInvertsTable | main/protocols/bemfa_protocol.cc:203-215 | every `hex_chars` entry decodes back to its index |
| HexCodec.PackByte | main/protocols/bemfa_protocol.cc:226 | shifting `hi` left by four and or-ing `lo` gives a byte from which both nibbles are recovered (high = byte / 16, low = byte % 16) |
| HexCodec.CharAt | main/protocols/bemfa_protocol.cc:226 | reading one past the end yields the terminator, which decodes to 0 |
| HexCodec.DecodeHex | main/protocols/bemfa_protocol.cc:222-230 | recursive reference decoder: output length is ⌈n/2⌉, and the output is empty exactly when the input is |
| HexCodec.DecodeHexAt | main/protocols/bemfa_protocol.cc:225-226 | byte k equals `CharToHex(s[2k]) * 16 + CharToHex(s[2k+1])`, where the terminator stands in past the end |
| HexCodec.DecodeHexString | main/protocols/bemfa_protocol.cc:222-230 | the pairwise loop returns ⌈n/2⌉ bytes; an odd final digit gives `CharToHex(last) * 16`; the result equals the recursive reference decoder, so byte k is built from digits 2k and 2k+1 as `DecodeHexAt` states |
| HexCodec.ByteToHex | main/protocols/bemfa_protocol.cc:203 | a byte renders as exactly two `hex_chars` digits |
| HexCodec.EncodeHex | main/protocols/bemfa_protocol.cc:203 | the upper-case rendering has two characters per byte |
| HexCodec.EncodeHexUsesTable | main/protocols/bemfa_protocol.cc:203 | every character of a rendering comes from `hex_chars` |
| HexCodec.DecodeEncodeRoundTrip | main/protocols/bemfa_protocol.cc:203-230 | decoding the upper-case rendering of any byte sequence returns the original bytes |
| HexCodec.DecodeHexCaseInsensitive | main/protocols/bemfa_protocol.cc:210-230 | lower-casing a whole string never changes its decoding |
| HexCodec.DecodeLowerEncodeRoundTrip | main/protocols/bemfa_protocol.cc:210-230 | the round trip also holds through a lower-case rendering |
| HexCodec.InvalidDigitReadsAsZero | main/protocols/bemfa_protocol.cc:214 | replacing a malformed digit with `0` leaves the decoding unchanged |
| HexCodec.DecodeExamples | main/protocols/bemfa_protocol.cc:222-230 | `"0A1B2C"` decodes to 0x0A 0x1B 0x2C; `""` decodes to the empty sequence; odd-length `"abc"` decodes to 0xAB 0xC0; the UTF-8 bytes C3 A9 31 of `"é1"` decode to 0x00 0x10 |
| BemfaSession.StartMqttClient | main/protocols/bemfa_protocol.cc:52-120 | succeeds iff a client is created and connects; on success the client is connected and has attempted to subscribe to the publish topic; a failed creation leaves no client; a failed connect leaves a disconnected client; nothing but the client changes |
| BemfaSession.Start | main/protocols/bemfa_protocol.cc:44-46 | a connect attempt whose outcome is dropped: it connects iff creation and connect succeed, and only the client changes |
| BemfaSession.SendText | main/protocols/bemfa_protocol.cc:128-145 | without a client or with an empty topic it fails and publishes nothing; otherwise it records exactly one publication of the text on the topic and returns the publish result; only the outbox changes |
| BemfaSession.GoodbyeMessage | main/protocols/bemfa_protocol.cc:170-173 | the goodbye text is the fixed `{"session_id":"` prefix, then the id, then the fixed `","type":"goodbye"}` suffix |
| BemfaSession.GoodbyeSessionId | main/protocols/bemfa_protocol.cc:170-173 | the id slice of a goodbye text has the text's length minus the fixed framing |
| BemfaSession.GoodbyeMessageRoundTrip | main/protocols/bemfa_protocol.cc:170-173 | the goodbye text carries exactly the session id it was built from |
| BemfaSession.GoodbyeMessageInjective | main/protocols/bemfa_protocol.cc:170-173 | different session ids give different goodbye texts |
| BemfaSession.CloseAudioChannel | main/protocols/bemfa_protocol.cc:160-180 | afterwards there is no UDP handle, whatever the prior state; it publishes the goodbye with the current, possibly empty, session id whenever `SendText` can publish; the closed handler fires once iff registered; the session id, flags, client and queues are untouched |
| BemfaSession.OpenAudioChannel | main/protocols/bemfa_protocol.cc:186-200 | fails iff the client was missing or disconnected and the reconnect failed; a connected client is kept; on success the client is connected, the busy and error flags are cleared, the session id is empty and the hello bit is clear, and nothing else changes (UDP handle, outbox, queues); on failure only the client changes |
| BemfaSession.IsAudioChannelOpened | main/protocols/bemfa_protocol.cc:236-238 | the channel is reported open exactly when a UDP handle exists, no error is flagged and the timeout test on the last-incoming time has not fired |
| BemfaSession.DropConnection | main/protocols/bemfa_protocol.cc:187 | the client, if any, stays but is no longer connected; nothing else changes |
| BemfaSession.OnMessage | main/protocols/bemfa_protocol.cc:71-105 | an unparsable payload, or one without `type`, changes nothing; a processed message stamps the last-incoming time; a goodbye naming no session or the current one appends exactly one deferred close, and any other message appends none; a non-goodbye reaches the incoming-JSON handler iff one is registered; nothing else changes, so no close runs inline |
| BemfaSession.RunScheduled | main/protocols/bemfa_protocol.cc:94-96 | running the oldest scheduled task pops it and closes the channel; an empty queue changes nothing |
| BemfaSessionProperties.CloseTwice | main/protocols/bemfa_protocol.cc:160-180 | two consecutive closes leave no handle, publish the same goodbye twice, fire the handler twice if registered, and otherwise end where one close does |
| BemfaSessionProperties.ClosedChannelIsNotOpened | main/protocols/bemfa_protocol.cc:236-238 | after a close the channel is reported closed, whatever the timeout test says |
| BemfaSessionProperties.GoodbyeSchedulesCloseIff | main/protocols/bemfa_protocol.cc:88-97 | a processed message grows the task queue by one iff it is a goodbye with no session id or the current one, and the new task is a close |
| BemfaSessionProperties.GoodbyeThenScheduledClose | main/protocols/bemfa_protocol.cc:88-104 | a matching goodbye followed by one scheduler turn closes the channel, publishes the goodbye, stamps the time and empties the queue again |
| BemfaSessionProperties.NamedGoodbyeIgnoredAfterOpen | main/protocols/bemfa_protocol.cc:93 | after a successful open, a goodbye naming a non-empty session only stamps the time |
| BemfaSessionProperties.HelloIsOnlyForwarded | main/protocols/bemfa_protocol.cc:98-101 | an inbound `"hello"` changes neither the session id nor the hello bit and schedules nothing; it reaches the incoming-JSON handler iff one is registered |
| BemfaSessionProperties.Initial | main/protocols/bemfa_protocol.cc:20-26 | the constructed state has no client and no UDP handle (the header defaults `mqtt_` and `udp_` to null), an empty session id and topic `testtopic` |
| BemfaSessionProperties.StepKeepsIdle | main/protocols/bemfa_protocol.cc:160-200 | no call, delivery, link drop or handler registration creates a UDP handle or stores a non-empty session id |
| BemfaSessionProperties.RunKeepsIdle | main/protocols/bemfa_protocol.cc:160-200 | the same holds for every sequence of calls and deliveries, so the channel is never reported open |
| BemfaSessionProperties.NeverOpenedFromInitial | main/protocols/bemfa_protocol.cc:236-238 | in any run from the initial state, `IsAudioChannelOpened` is false |
| BemfaSessionProperties.AppendKeepsOnTopic | main/protocols/bemfa_protocol.cc:134-139 | appending one publication on the configured topic keeps every recorded publication on that topic |
| BemfaSessionProperties.StepKeepsOnTopic | main/protocols/bemfa_protocol.cc:134-139 | no step changes the publish topic or publishes to any other topic |
| BemfaSessionProperties.RunKeepsOnTopic | main/protocols/bemfa_protocol.cc:134-139 | in every run, every publication goes to the configured topic |

## Left out

- MQTT and UDP transports (`CreateMqtt`, `Connect`, `Subscribe`, `Publish`, `Udp`) are foreign calls. The outcomes of `CreateMqtt`, `Connect` and `Publish` are boolean parameters, and publish attempts are recorded in the outbox with their outcome. `Subscribe`'s result is discarded by the code (bemfa_protocol.cc:117-118); the client records only that a subscribe to the topic was attempted.
- A dropped MQTT link is the `DropConnection` step (the client stays, disconnected); when and why the transport drops is not modelled.
- The handlers `on_incoming_json_` (bemfa_protocol.cc:100) and `on_audio_channel_closed_` (bemfa_protocol.cc:178) are application code outside this model. Their calls are recorded (a log of forwarded messages, a counter of closed notices) and treated as having no other effect on the session. Registering them happens in the base `Protocol` class, which is not part of this model; the `RegisterHandlers` step sets or clears both at any point of a run.
- JSON parsing is a library call. An inbound payload is an optional record with optional `type` and `session_id` strings.
- BemfaSession.OnMessage: a `type` or `session_id` field that is present but not a string (a null `valuestring`) is not modelled. Such fields are treated like string fields.
- BemfaSession.IsAudioChannelOpened: the liveness timeout belongs to the base `Protocol` class, which is not part of this model. It is a caller-supplied predicate over the last-incoming time.
- The FreeRTOS event group, `channel_mutex_` and `Application::Schedule` are concurrency primitives. The event bit is a boolean, the locked region is atomic in this sequential model, and scheduling appends to a task queue. Interleavings of the two contexts are not modelled.
- `SendAudio` (bemfa_protocol.cc:151-153) is empty. The AES context, nonce, UDP server/port and sequence counters are declared but never written by the code. None of these has behaviour to model.
- Constructor configuration (endpoint, client id, topic value, port 9501, keep-alive of 90 s), the destructor and logging are resource plumbing. Only the defaults relevant to the state (no client, no handle, empty session id, topic `testtopic`) appear, in `Initial`.
- BemfaSession.StartMqttClient: overwrites `mqtt_` without deleting the previous client. The model keeps only the newest client and does not track memory ownership.
- HexCodec.DecodeHexString: returns bytes as integers 0..255. The source stores each byte in a `char`, whose signedness is platform-dependent; the bit pattern is the same either way.
