/**
 * Properties that relate several steps of the Bemfa session model:
 * repeated closes, goodbye handling followed by the deferred close, and
 * what can be reached from the client's initial state by any sequence of
 * calls and inbound messages.
 */
module BemfaSessionProperties {
  import opened Wrappers
  import opened BemfaSession

  /** Closing twice is harmless: the handle stays dropped and each call sends the same goodbye. */
  lemma CloseTwice(s: Session, first: bool, second: bool)
    ensures !CloseAudioChannel(CloseAudioChannel(s, first), second).udpOpen
    ensures CanPublish(s) ==>
      CloseAudioChannel(CloseAudioChannel(s, first), second).outbox ==
        s.outbox + [Publication(s.publishTopic, GoodbyeMessage(s.sessionId), first),
                    Publication(s.publishTopic, GoodbyeMessage(s.sessionId), second)]
    ensures CloseAudioChannel(CloseAudioChannel(s, first), second).channelClosedNotices ==
      s.channelClosedNotices + (if s.hasChannelClosedHandler then 2 else 0)
    ensures CloseAudioChannel(CloseAudioChannel(s, first), second).(outbox := s.outbox, channelClosedNotices := 0) ==
      CloseAudioChannel(s, first).(outbox := s.outbox, channelClosedNotices := 0)
  {
  }

  /** After a close the channel is reported closed, whatever the clock says. */
  lemma ClosedChannelIsNotOpened(s: Session, published: bool, isTimeout: Time -> bool)
    ensures !IsAudioChannelOpened(CloseAudioChannel(s, published), isTimeout)
  {
  }

  /**
   * A processed message adds a task exactly when it is a goodbye for no
   * session or for the current one, and the task added is a close.
   */
  lemma GoodbyeSchedulesCloseIff(s: Session, m: InboundJson, now: Time)
    requires m.msgType.Some?
    ensures |OnMessage(s, Some(m), now).scheduled| == |s.scheduled| + 1 <==>
      IsGoodbye(m) && (m.sessionId.None? || m.sessionId.value == s.sessionId)
    ensures |OnMessage(s, Some(m), now).scheduled| == |s.scheduled| + 1 ==>
      OnMessage(s, Some(m), now).scheduled[|s.scheduled|] == CloseAudioChannelTask
  {
  }

  /**
   * A matching goodbye followed by one turn of the application loop closes
   * the channel and sends the goodbye, leaving the task queue as it was.
   */
  lemma GoodbyeThenScheduledClose(s: Session, m: InboundJson, now: Time, published: bool)
    requires s.scheduled == []
    requires IsGoodbye(m) && GoodbyeMatches(s, m)
    ensures var r := RunScheduled(OnMessage(s, Some(m), now), published);
      && !r.udpOpen
      && r.scheduled == []
      && r.lastIncomingTime == now
      && (CanPublish(s) ==> r.outbox == s.outbox + [Publication(s.publishTopic, GoodbyeMessage(s.sessionId), published)])
  {
  }

  /**
   * Because the handshake is absent, a successful open leaves the session
   * id empty, so a goodbye naming any non-empty session is ignored.
   */
  lemma NamedGoodbyeIgnoredAfterOpen(s: Session, created: bool, connects: bool, id: string, now: Time)
    requires OpenAudioChannel(s, created, connects).ok
    requires id != ""
    ensures var o := OpenAudioChannel(s, created, connects).session;
      OnMessage(o, Some(InboundJson(Some(GoodbyeType), Some(id))), now) == o.(lastIncomingTime := now)
  {
  }

  /**
   * A `"hello"` reply is not a handshake here: it only reaches the
   * incoming-JSON handler and neither the session id nor the hello bit
   * changes.
   */
  lemma HelloIsOnlyForwarded(s: Session, sid: Option<string>, now: Time)
    ensures var r := OnMessage(s, Some(InboundJson(Some("hello"), sid)), now);
      && r.sessionId == s.sessionId
      && r.helloEvent == s.helloEvent
      && r.scheduled == s.scheduled
      && (s.hasIncomingJsonHandler <==> r.forwarded == s.forwarded + [InboundJson(Some("hello"), sid)])
  {
  }

  /** One call into the protocol object, or one delivery from the transport. */
  datatype Event =
    | StartClient(created: bool, connects: bool)
    | Open(created: bool, connects: bool)
    | Close(published: bool)
    | Send(text: string, published: bool)
    | Deliver(payload: Option<InboundJson>, now: Time)
    | RunTask(published: bool)
    | LinkDropped
    | Register(incoming: bool, closed: bool)

  function Step(s: Session, e: Event): Session {
    match e
    case StartClient(c, k) => Start(s, c, k)
    case Open(c, k) => OpenAudioChannel(s, c, k).session
    case Close(p) => CloseAudioChannel(s, p)
    case Send(t, p) => SendText(s, t, p).session
    case Deliver(m, t) => OnMessage(s, m, t)
    case RunTask(p) => RunScheduled(s, published := p)
    case LinkDropped => DropConnection(s)
    case Register(i, c) => RegisterHandlers(s, i, c)
  }

  function Run(s: Session, es: seq<Event>): Session
    decreases |es|
  {
    if es == [] then s else Run(Step(s, es[0]), es[1..])
  }

  /**
   * The state right after construction: no MQTT client, no UDP handle,
   * empty session id, the hard-coded topic, nothing sent or scheduled.
   * Which handlers the application registers is left open.
   */
  function Initial(incomingHandler: bool, closedHandler: bool): (s: Session)
    ensures !s.udpOpen && s.sessionId == "" && s.mqtt.None?
    ensures s.publishTopic == "testtopic" && s.outbox == [] && s.scheduled == []
  {
    Session(None, false, false, false, "", false, 0, "testtopic", [], [], [], incomingHandler, closedHandler, 0)
  }

  /** No UDP handle and no session id. */
  predicate Idle(s: Session) {
    !s.udpOpen && s.sessionId == ""
  }

  /** No single step creates a UDP handle or stores a session id. */
  lemma StepKeepsIdle(s: Session, e: Event)
    requires Idle(s)
    ensures Idle(Step(s, e))
  {
  }

  /**
   * Nothing in the modelled code creates a UDP handle or stores a session
   * id, so from the initial state the channel is never reported open,
   * after any sequence of calls and deliveries.
   */
  lemma {:induction false} RunKeepsIdle(s: Session, es: seq<Event>, isTimeout: Time -> bool)
    requires Idle(s)
    ensures Idle(Run(s, es))
    ensures !IsAudioChannelOpened(Run(s, es), isTimeout)
    decreases |es|
  {
    if es != [] {
      StepKeepsIdle(s, es[0]);
      RunKeepsIdle(Step(s, es[0]), es[1..], isTimeout);
    }
  }

  /** The audio channel is never reported open in any run from the initial state. */
  lemma NeverOpenedFromInitial(es: seq<Event>, incomingHandler: bool, closedHandler: bool, isTimeout: Time -> bool)
    ensures !IsAudioChannelOpened(Run(Initial(incomingHandler, closedHandler), es), isTimeout)
  {
    RunKeepsIdle(Initial(incomingHandler, closedHandler), es, isTimeout);
  }

  /** Every recorded publication went to the configured topic. */
  predicate OnTopic(s: Session) {
    forall i :: 0 <= i < |s.outbox| ==> s.outbox[i].topic == s.publishTopic
  }

  /** Appending at most one publication on the topic keeps every publication on the topic. */
  lemma AppendKeepsOnTopic(s: Session, r: Session, p: Publication)
    requires OnTopic(s)
    requires r.publishTopic == s.publishTopic && p.topic == s.publishTopic
    requires r.outbox == s.outbox || r.outbox == s.outbox + [p]
    ensures OnTopic(r)
  {
  }

  /** No single step changes the topic or publishes anywhere else. */
  lemma StepKeepsOnTopic(s: Session, e: Event)
    requires OnTopic(s)
    ensures Step(s, e).publishTopic == s.publishTopic
    ensures OnTopic(Step(s, e))
  {
    match e
    case Close(p) =>
      AppendKeepsOnTopic(s, CloseAudioChannel(s, p), Publication(s.publishTopic, GoodbyeMessage(s.sessionId), p));
    case Send(t, p) =>
      AppendKeepsOnTopic(s, SendText(s, t, p).session, Publication(s.publishTopic, t, p));
    case RunTask(p) =>
      AppendKeepsOnTopic(s, RunScheduled(s, p), Publication(s.publishTopic, GoodbyeMessage(s.sessionId), p));
    case StartClient(c, k) =>
      assert Start(s, c, k).outbox == s.outbox;
    case Open(c, k) =>
      assert OpenAudioChannel(s, c, k).session.outbox == s.outbox;
    case Deliver(m, t) =>
      assert OnMessage(s, m, t).outbox == s.outbox;
    case LinkDropped =>
      assert DropConnection(s).outbox == s.outbox;
    case Register(i, c) =>
      assert RegisterHandlers(s, i, c).outbox == s.outbox;
  }

  /** Every publication in any run targets the configured topic: no step changes the topic. */
  lemma {:induction false} RunKeepsOnTopic(s: Session, es: seq<Event>)
    requires OnTopic(s)
    ensures Run(s, es).publishTopic == s.publishTopic
    ensures OnTopic(Run(s, es))
    decreases |es|
  {
    if es != [] {
      StepKeepsOnTopic(s, es[0]);
      RunKeepsOnTopic(Step(s, es[0]), es[1..]);
    }
  }
}
