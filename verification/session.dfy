/**
 * The session/channel state of the Bemfa protocol client and its
 * transitions: opening and closing the audio channel, publishing text on
 * the MQTT topic, the liveness query, and the dispatch of inbound MQTT
 * messages.
 *
 * Every step is a pure function of the state and of the outcomes of the
 * calls into the transport (client creation, connect, publish), which are
 * passed in as booleans. Published texts are recorded in an outbox, and
 * work handed to the application scheduler is recorded in a task queue.
 */
module BemfaSession {
  import opened Wrappers

  /** A point on the steady clock; only its identity matters here. */
  type Time = nat

  /**
   * The MQTT client behind `mqtt_`: whether it is connected, and the topic
   * of the `Subscribe` call made after connecting. That call's result is
   * ignored, so the field records the attempt, not an accepted subscription.
   */
  datatype MqttClient = MqttClient(connected: bool, subscribeAttempt: Option<string>)

  /** One call to `Publish`: the topic, the text and whether the transport accepted it. */
  datatype Publication = Publication(topic: string, text: string, delivered: bool)

  /** Work handed to the application scheduler; the only kind is a deferred channel close. */
  datatype Task = CloseAudioChannelTask

  /**
   * An inbound payload after JSON parsing: its `type` and `session_id`
   * string fields, each possibly absent. A payload that does not parse is
   * `None` at the call site.
   */
  datatype InboundJson = InboundJson(msgType: Option<string>, sessionId: Option<string>)

  /**
   * The fields of the protocol object that the core reads or writes.
   * `udpOpen` is `udp_ != nullptr`, `helloEvent` the server-hello bit of the
   * event group, `forwarded` the messages handed to `on_incoming_json_`, and
   * `channelClosedNotices` the number of times `on_audio_channel_closed_`
   * was invoked.
   */
  datatype Session = Session(
    mqtt: Option<MqttClient>,
    udpOpen: bool,
    busySendingAudio: bool,
    errorOccurred: bool,
    sessionId: string,
    helloEvent: bool,
    lastIncomingTime: Time,
    publishTopic: string,
    outbox: seq<Publication>,
    scheduled: seq<Task>,
    forwarded: seq<InboundJson>,
    hasIncomingJsonHandler: bool,
    hasChannelClosedHandler: bool,
    channelClosedNotices: nat)

  /** A new state together with the boolean the operation returns. */
  datatype Reply = Reply(session: Session, ok: bool)

  /** The `type` value that asks for the audio channel to be closed. */
  const GoodbyeType: string := "goodbye"

  predicate IsConnected(s: Session) {
    s.mqtt.Some? && s.mqtt.value.connected
  }

  /** `SendText` reaches `Publish` only with a client and a non-empty topic. */
  predicate CanPublish(s: Session) {
    s.mqtt.Some? && s.publishTopic != ""
  }

  /**
   * `StartMqttClient`: replaces the client with a freshly created one,
   * connects it and then attempts to subscribe it to the publish topic. `created` is
   * whether the board produced a client, `connects` whether `Connect`
   * succeeded. A failed creation leaves no client; a failed connect leaves
   * a disconnected one. Nothing but the client changes.
   */
  function StartMqttClient(s: Session, created: bool, connects: bool): (r: Reply)
    ensures r.ok <==> created && connects
    ensures r.ok ==> r.session.mqtt == Some(MqttClient(true, Some(s.publishTopic)))
    ensures !created ==> r.session.mqtt.None?
    ensures created && !connects ==> r.session.mqtt == Some(MqttClient(false, None))
    ensures IsConnected(r.session) <==> r.ok
    ensures r.session.(mqtt := s.mqtt) == s
  {
    if !created then Reply(s.(mqtt := None), false)
    else if !connects then Reply(s.(mqtt := Some(MqttClient(false, None))), false)
    else Reply(s.(mqtt := Some(MqttClient(true, Some(s.publishTopic)))), true)
  }

  /** `Start`: a best-effort connect whose outcome is not reported. */
  function Start(s: Session, created: bool, connects: bool): (r: Session)
    ensures IsConnected(r) <==> created && connects
    ensures r.(mqtt := s.mqtt) == s
  {
    StartMqttClient(s, created, connects).session
  }

  /**
   * `SendText`: publishes `text` on the configured topic. Without a client
   * or with an empty topic it fails and publishes nothing; otherwise it
   * records exactly one publication and returns what `Publish` returned
   * (`published`). Only the outbox can change.
   */
  function SendText(s: Session, text: string, published: bool): (r: Reply)
    ensures !CanPublish(s) ==> !r.ok && r.session == s
    ensures CanPublish(s) ==> r.ok == published
    ensures CanPublish(s) ==>
      r.session.outbox == s.outbox + [Publication(s.publishTopic, text, published)]
    ensures r.ok ==> r.session.outbox[|s.outbox|].text == text && r.session.outbox[|s.outbox|].delivered
    ensures r.session.(outbox := s.outbox) == s
  {
    if s.mqtt.None? then Reply(s, false)
    else if s.publishTopic == "" then Reply(s, false)
    else Reply(s.(outbox := s.outbox + [Publication(s.publishTopic, text, published)]), published)
  }

  const GoodbyePrefix: string := "{\"session_id\":\""
  const GoodbyeSuffix: string := "\",\"type\":\"goodbye\"}"

  /** The goodbye text `{"session_id":"<id>","type":"goodbye"}`, built with the id unescaped. */
  function GoodbyeMessage(sessionId: string): (m: string)
    ensures |m| == |GoodbyePrefix| + |sessionId| + |GoodbyeSuffix|
    ensures m[..|GoodbyePrefix|] == GoodbyePrefix
    ensures m[|m| - |GoodbyeSuffix|..] == GoodbyeSuffix
  {
    GoodbyePrefix + sessionId + GoodbyeSuffix
  }

  /** Reads the session id back out of a goodbye text produced by `GoodbyeMessage`. */
  function GoodbyeSessionId(m: string): (id: string)
    requires |m| >= |GoodbyePrefix| + |GoodbyeSuffix|
    ensures |id| == |m| - |GoodbyePrefix| - |GoodbyeSuffix|
  {
    m[|GoodbyePrefix|..|m| - |GoodbyeSuffix|]
  }

  /** The goodbye text carries exactly the session id it was built from. */
  lemma GoodbyeMessageRoundTrip(id: string)
    ensures GoodbyeSessionId(GoodbyeMessage(id)) == id
  {
  }

  /** Distinct session ids give distinct goodbye texts. */
  lemma GoodbyeMessageInjective(a: string, b: string)
    requires GoodbyeMessage(a) == GoodbyeMessage(b)
    ensures a == b
  {
    GoodbyeMessageRoundTrip(a);
    GoodbyeMessageRoundTrip(b);
  }

  /**
   * `CloseAudioChannel`: drops the UDP handle if there is one, then tries
   * to publish a goodbye carrying the current (possibly empty) session id
   * whether or not a handle existed, then notifies the registered
   * channel-closed handler once. The session id and the flags are kept.
   */
  function CloseAudioChannel(s: Session, published: bool): (r: Session)
    ensures !r.udpOpen
    ensures CanPublish(s) ==>
      r.outbox == s.outbox + [Publication(s.publishTopic, GoodbyeMessage(s.sessionId), published)]
    ensures !CanPublish(s) ==> r.outbox == s.outbox
    ensures r.channelClosedNotices == s.channelClosedNotices + (if s.hasChannelClosedHandler then 1 else 0)
    ensures r.(udpOpen := s.udpOpen, outbox := s.outbox, channelClosedNotices := s.channelClosedNotices) == s
  {
    var dropped := s.(udpOpen := false);
    var sent := SendText(dropped, GoodbyeMessage(s.sessionId), published).session;
    if sent.hasChannelClosedHandler then sent.(channelClosedNotices := sent.channelClosedNotices + 1)
    else sent
  }

  /**
   * `OpenAudioChannel`: reconnects when there is no connected client, and
   * fails only when that reconnect fails. On success it clears the busy
   * and error flags, empties the session id and clears the hello bit; it
   * does not touch the UDP handle, publishes nothing and waits for nothing.
   */
  function OpenAudioChannel(s: Session, created: bool, connects: bool): (r: Reply)
    ensures r.ok <==> IsConnected(s) || (created && connects)
    ensures IsConnected(s) ==> r.session.mqtt == s.mqtt
    ensures r.ok ==> IsConnected(r.session)
    ensures r.ok ==>
      !r.session.busySendingAudio && !r.session.errorOccurred &&
      r.session.sessionId == "" && !r.session.helloEvent
    ensures r.ok ==>
      r.session.(mqtt := s.mqtt, busySendingAudio := s.busySendingAudio,
                 errorOccurred := s.errorOccurred, sessionId := s.sessionId,
                 helloEvent := s.helloEvent) == s
    ensures !r.ok ==> r.session.(mqtt := s.mqtt) == s
  {
    if IsConnected(s) then ResetFlags(s)
    else
      var started := StartMqttClient(s, created, connects);
      if started.ok then ResetFlags(started.session) else started
  }

  /** The successful tail of `OpenAudioChannel`: transient flags, session id and hello bit cleared. */
  function ResetFlags(s: Session): Reply {
    Reply(s.(busySendingAudio := false, errorOccurred := false, sessionId := "", helloEvent := false), true)
  }

  /**
   * `IsAudioChannelOpened`: the UDP handle exists, no error was flagged and
   * the base class's timeout test, applied to the time of the last inbound
   * message, has not fired.
   */
  function IsAudioChannelOpened(s: Session, isTimeout: Time -> bool): (isOpen: bool)
    ensures isOpen ==> s.udpOpen
    ensures isOpen ==> !s.errorOccurred
    ensures isOpen <==> s.udpOpen && !s.errorOccurred && !isTimeout(s.lastIncomingTime)
  {
    s.udpOpen && !s.errorOccurred && !isTimeout(s.lastIncomingTime)
  }

  /**
   * The transport losing its link: the client stays but reports itself
   * disconnected, which is why `OpenAudioChannel` checks `IsConnected`.
   */
  function DropConnection(s: Session): (r: Session)
    ensures !IsConnected(r)
    ensures r.mqtt.Some? <==> s.mqtt.Some?
    ensures r.mqtt.Some? ==> r.mqtt.value.subscribeAttempt == s.mqtt.value.subscribeAttempt
    ensures r.(mqtt := s.mqtt) == s
  {
    match s.mqtt
    case None => s
    case Some(c) => s.(mqtt := Some(c.(connected := false)))
  }

  /** Registering (or clearing) the incoming-JSON and channel-closed handlers. */
  function RegisterHandlers(s: Session, incoming: bool, closed: bool): (r: Session)
    ensures r.hasIncomingJsonHandler == incoming && r.hasChannelClosedHandler == closed
    ensures r.(hasIncomingJsonHandler := s.hasIncomingJsonHandler, hasChannelClosedHandler := s.hasChannelClosedHandler) == s
  {
    s.(hasIncomingJsonHandler := incoming, hasChannelClosedHandler := closed)
  }

  /** A goodbye applies to this session when it names no session or names this one. */
  predicate GoodbyeMatches(s: Session, m: InboundJson) {
    m.sessionId.None? || m.sessionId.value == s.sessionId
  }

  /** A message the dispatcher acts on: it parsed and has a `type`. */
  predicate Processed(payload: Option<InboundJson>) {
    payload.Some? && payload.value.msgType.Some?
  }

  predicate IsGoodbye(m: InboundJson) {
    m.msgType == Some(GoodbyeType)
  }

  /**
   * The `OnMessage` callback. An unparsable payload or one without `type`
   * is dropped with no change at all. A goodbye that names no session or
   * the current one schedules one deferred close (the close never runs
   * here); any other goodbye is ignored. Any other type, `"hello"`
   * included, goes to the incoming-JSON handler when one is registered.
   * Every processed message stamps `lastIncomingTime` with `now`.
   */
  function OnMessage(s: Session, payload: Option<InboundJson>, now: Time): (r: Session)
    ensures !Processed(payload) ==> r == s
    ensures Processed(payload) ==> r.lastIncomingTime == now
    ensures Processed(payload) && IsGoodbye(payload.value) && GoodbyeMatches(s, payload.value) ==>
      r.scheduled == s.scheduled + [CloseAudioChannelTask]
    ensures !(Processed(payload) && IsGoodbye(payload.value) && GoodbyeMatches(s, payload.value)) ==>
      r.scheduled == s.scheduled
    ensures Processed(payload) && !IsGoodbye(payload.value) && s.hasIncomingJsonHandler ==>
      r.forwarded == s.forwarded + [payload.value]
    ensures !(Processed(payload) && !IsGoodbye(payload.value) && s.hasIncomingJsonHandler) ==>
      r.forwarded == s.forwarded
    ensures r.(lastIncomingTime := s.lastIncomingTime, scheduled := s.scheduled, forwarded := s.forwarded) == s
  {
    match payload
    case None => s
    case Some(m) =>
      if m.msgType.None? then s
      else
        var handled :=
          if m.msgType.value == GoodbyeType then
            if GoodbyeMatches(s, m) then s.(scheduled := s.scheduled + [CloseAudioChannelTask]) else s
          else if s.hasIncomingJsonHandler then s.(forwarded := s.forwarded + [m])
          else s;
        handled.(lastIncomingTime := now)
  }

  /**
   * The application loop running the oldest scheduled task, which is the
   * deferred `CloseAudioChannel` of a goodbye. With nothing scheduled the
   * state is unchanged.
   */
  function RunScheduled(s: Session, published: bool): (r: Session)
    ensures s.scheduled == [] ==> r == s
    ensures s.scheduled != [] ==> r.scheduled == s.scheduled[1..] && !r.udpOpen
    ensures s.scheduled != [] ==> r == CloseAudioChannel(s.(scheduled := s.scheduled[1..]), published)
  {
    if s.scheduled == [] then s
    else
      match s.scheduled[0]
      case CloseAudioChannelTask => CloseAudioChannel(s.(scheduled := s.scheduled[1..]), published)
  }
}
