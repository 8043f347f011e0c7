/**
  The tail of the `/chat` handler: once the language model has produced a
  reply, offer a booking appointment (at most once per session), choose up to
  three slots, record the assistant turn and answer; any exception thrown on
  the way is answered with a fixed apology.
 */
module Chat {
  import opened JsValues

  /** The sentence appended to the reply when the booking offer fires. */
  const Invitation: string := "\n\nWould you like to book a 30-minute appointment with our representative?"

  /** The reply sent by the `catch` branch. */
  const Apology: string := "Sorry, a little trouble now. Can we continue talking about MadeToAutomate services?"

  /** How many provider slots an offer shows at most (`slice(0,3)`). */
  const MaxProviderSlots: nat := 3

  /** The message count from which an offer may fire. */
  const OfferAfterMessages: int := 3

  datatype Role = User | Assistant
  datatype Message = Message(role: Role, content: string)

  /** A slot as the scheduling provider (Calendly) returns it. */
  datatype CalendlySlot = CalendlySlot(start: string, schedulingUrl: string)

  /** A slot as the response carries it: provider slots keep their
      scheduling URL, fallback slots have only a start. */
  datatype BookingSlot = BookingSlot(start: string, schedulingUrl: Option<string>)

  /** The outside world consulted when an offer fires.
      - eventTypeEnv: CALENDLY_EVENT_TYPE_URI ("" when unset);
      - firstEventType: what fetchCalendlyFirstEventTypeUri yields;
      - availability: what fetchCalendlyAvailableSlotsForEventType yields for
        a given event type (`None` stands for a null answer);
      - fallback: what generateBookingSlotsFallback yields. */
  datatype SlotSources = SlotSources(
    eventTypeEnv: string,
    firstEventType: Call<JsValue>,
    availability: JsValue -> Call<Option<seq<CalendlySlot>>>,
    fallback: Call<seq<string>>)

  /** The fields of the session object that the handler's tail reads or writes. */
  datatype SessionState = SessionState(
    messageCount: int,
    userName: JsValue,
    userEmail: JsValue,
    askedBooking: bool,
    messages: seq<Message>)

  /** The JSON body of a `/chat` answer; `bookingSlots == None` means the
      field is absent. */
  datatype ChatResponse = ChatResponse(reply: string, sessionId: string, bookingSlots: Option<seq<BookingSlot>>)

  /** The part of the answer that depends on the session and the sources. */
  datatype Reply = Reply(text: string, bookingSlots: Option<seq<BookingSlot>>)

  datatype TailResult = TailResult(state: SessionState, reply: Reply)

  function Min(a: nat, b: nat): nat
  {
    if a <= b then a else b
  }

  /** `.map(s => ({ start: s.start, scheduling_url: s.scheduling_url }))` */
  function FromProvider(cs: seq<CalendlySlot>): (r: seq<BookingSlot>)
    ensures |r| == |cs|
    ensures forall i :: 0 <= i < |cs| ==> r[i] == BookingSlot(cs[i].start, Some(cs[i].schedulingUrl))
  {
    if cs == [] then [] else [BookingSlot(cs[0].start, Some(cs[0].schedulingUrl))] + FromProvider(cs[1..])
  }

  /** `.map(s => ({ start: s }))` */
  function FromFallback(times: seq<string>): (r: seq<BookingSlot>)
    ensures |r| == |times|
    ensures forall i :: 0 <= i < |times| ==> r[i] == BookingSlot(times[i], None)
  {
    if times == [] then [] else [BookingSlot(times[0], None)] + FromFallback(times[1..])
  }

  /** Choose the slots of an offer from the provider's answer, or else from
      the fallback generator, which is only consulted when the provider gave
      nothing. */
  function ChooseSlots(calendlySlots: Option<seq<CalendlySlot>>, fallback: Call<seq<string>>): (r: Call<seq<BookingSlot>>)
    ensures calendlySlots.Some? && |calendlySlots.value| > 0 ==>
      && r.Returned?
      && 1 <= |r.value| <= MaxProviderSlots
      && |r.value| == Min(MaxProviderSlots, |calendlySlots.value|)
      && forall i :: 0 <= i < |r.value| ==>
           r.value[i] == BookingSlot(calendlySlots.value[i].start, Some(calendlySlots.value[i].schedulingUrl))
    ensures !(calendlySlots.Some? && |calendlySlots.value| > 0) ==>
      && (r.Threw? <==> fallback.Threw?)
      && (fallback.Returned? ==>
            && |r.value| == |fallback.value|
            && forall i :: 0 <= i < |r.value| ==> r.value[i] == BookingSlot(fallback.value[i], None))
  {
    if calendlySlots.Some? && |calendlySlots.value| > 0 then
      var cs := calendlySlots.value;
      Returned(FromProvider(cs[..Min(MaxProviderSlots, |cs|)]))
    else
      match fallback
      case Threw => Threw
      case Returned(times) => Returned(FromFallback(times))
  }

  /** Ask the provider for slots: the configured event type if there is one,
      otherwise the first event type the provider lists; no truthy event type
      means no provider answer at all. */
  function ProviderLookup(src: SlotSources): (r: Call<Option<seq<CalendlySlot>>>)
    ensures src.eventTypeEnv != "" ==> r == src.availability(Str(src.eventTypeEnv))
    ensures src.eventTypeEnv == "" && src.firstEventType.Threw? ==> r.Threw?
    ensures src.eventTypeEnv == "" && src.firstEventType.Returned? ==>
      r == if Truthy(src.firstEventType.value) then src.availability(src.firstEventType.value) else Returned(None)
  {
    var eventTypeEnv := EnvOrNull(src.eventTypeEnv);
    var useEventTypeUri: Call<JsValue> :=
      if Truthy(eventTypeEnv) then Returned(eventTypeEnv)
      else match src.firstEventType
        case Threw => Threw
        case Returned(uri) => Returned(Or(eventTypeEnv, uri));
    match useEventTypeUri
    case Threw => Threw
    case Returned(uri) => if Truthy(uri) then src.availability(uri) else Returned(None)
  }

  /** The slots an offer carries, or `Threw` when a step on the way threw. */
  function SlotsFor(src: SlotSources): Call<seq<BookingSlot>>
  {
    match ProviderLookup(src)
    case Threw => Threw
    case Returned(calendlySlots) => ChooseSlots(calendlySlots, src.fallback)
  }

  /** The offer guard. */
  predicate OfferDue(s: SessionState)
  {
    s.messageCount >= OfferAfterMessages && Truthy(s.userName) && Truthy(s.userEmail) && !s.askedBooking
  }

  /** The handler's tail as a function of the session before it and the
      model's reply: the specification of `ChatTail`. */
  function Tail(s: SessionState, replyText: string, src: SlotSources): (t: TailResult)
    // the latch: set exactly when the offer fires, never cleared
    ensures t.state.askedBooking == (s.askedBooking || OfferDue(s))
    ensures t.state.messageCount == s.messageCount
    ensures t.state.userName == s.userName && t.state.userEmail == s.userEmail
    // slots are sent exactly when the offer fires and nothing threw
    ensures t.reply.bookingSlots.Some? <==> OfferDue(s) && SlotsFor(src).Returned?
    ensures t.reply.bookingSlots.Some? ==> t.reply.bookingSlots.value == SlotsFor(src).value
    // the error path: latch set, no assistant turn recorded, the apology sent
    ensures OfferDue(s) && SlotsFor(src).Threw? ==>
      t.reply == Reply(Apology, None) && t.state.messages == s.messages
    // otherwise exactly one assistant turn, equal to the reply sent
    ensures !(OfferDue(s) && SlotsFor(src).Threw?) ==>
      && t.reply.text == (if OfferDue(s) then replyText + Invitation else replyText)
      && t.state.messages == s.messages + [Message(Assistant, t.reply.text)]
  {
    if !OfferDue(s) then
      TailResult(s.(messages := s.messages + [Message(Assistant, replyText)]), Reply(replyText, None))
    else
      var latched := s.(askedBooking := true);
      match SlotsFor(src)
      case Threw => TailResult(latched, Reply(Apology, None))
      case Returned(slots) =>
        var text := replyText + Invitation;
        TailResult(latched.(messages := latched.messages + [Message(Assistant, text)]), Reply(text, Some(slots)))
  }

  /** The session object; the handler updates its fields in place. */
  class Session {
    var messageCount: int
    var userName: JsValue
    var userEmail: JsValue
    var askedBooking: bool
    var messages: seq<Message>

    constructor (messageCount: int, userName: JsValue, userEmail: JsValue, askedBooking: bool, messages: seq<Message>)
      ensures State() == SessionState(messageCount, userName, userEmail, askedBooking, messages)
    {
      this.messageCount := messageCount;
      this.userName := userName;
      this.userEmail := userEmail;
      this.askedBooking := askedBooking;
      this.messages := messages;
    }

    function State(): SessionState
      reads this
    {
      SessionState(messageCount, userName, userEmail, askedBooking, messages)
    }
  }

  /** The handler's tail, from the offer guard to the answer, including the
      `catch` branch. */
  method ChatTail(session: Session, replyText: string, sessionId: string, src: SlotSources)
    returns (resp: ChatResponse)
    modifies session
    ensures var t := Tail(old(session.State()), replyText, src);
      session.State() == t.state && resp == ChatResponse(t.reply.text, sessionId, t.reply.bookingSlots)
  {
    var reply := replyText;
    var bookingSlots: Option<seq<BookingSlot>> := None;
    var threw := false;
    if session.messageCount >= OfferAfterMessages && Truthy(session.userName) && Truthy(session.userEmail)
       && !session.askedBooking
    {
      session.askedBooking := true;
      reply := reply + Invitation;

      var calendlySlots: Option<seq<CalendlySlot>> := None;
      var eventTypeEnv := EnvOrNull(src.eventTypeEnv);
      var useEventTypeUri := eventTypeEnv;
      if !Truthy(eventTypeEnv) {
        match src.firstEventType
        case Threw => threw := true;
        case Returned(uri) => useEventTypeUri := Or(eventTypeEnv, uri);
      }
      if !threw && Truthy(useEventTypeUri) {
        match src.availability(useEventTypeUri)
        case Threw => threw := true;
        case Returned(found) => calendlySlots := found;
      }
      if !threw {
        match ChooseSlots(calendlySlots, src.fallback)
        case Threw => threw := true;
        case Returned(slots) => bookingSlots := Some(slots);
      }
    }

    if threw {
      resp := ChatResponse(Apology, sessionId, None);
    } else {
      session.messages := session.messages + [Message(Assistant, reply)];
      resp := ChatResponse(reply, sessionId, bookingSlots);
    }
  }

  /** Two calls on the same session object: once the offer has fired, the
      next call neither repeats the invitation nor sends slots, although the
      guard's other conditions still hold. */
  method OfferedOnce(session: Session, reply1: string, reply2: string, sessionId: string, src: SlotSources)
    returns (first: ChatResponse, second: ChatResponse)
    requires OfferDue(session.State()) && SlotsFor(src).Returned?
    modifies session
    ensures first.reply == reply1 + Invitation && first.bookingSlots == Some(SlotsFor(src).value)
    ensures second.reply == reply2 && second.bookingSlots == None
    ensures session.askedBooking
    ensures session.messages == old(session.messages) + [Message(Assistant, reply1 + Invitation), Message(Assistant, reply2)]
  {
    first := ChatTail(session, reply1, sessionId, src);
    second := ChatTail(session, reply2, sessionId, src);
  }
}
