/**
  The `/book` handler: validate the request, build the consent record and the
  notification email, save the record, send the email, answer.
  Saving to disk and sending mail are outside the model: whether each one
  completes is an input.
 */
module Booking {
  import opened JsValues

  /** The fields destructured from the request body. A request without a
      body gives `Undefined` in every field (`req.body || {}`). */
  datatype BookingRequest = BookingRequest(
    startTime: JsValue,
    userName: JsValue,
    userEmail: JsValue,
    marketingConsent: JsValue)

  /** The line appended to the consent log. */
  datatype ConsentRecord = ConsentRecord(
    ts: string,
    name: JsValue,
    email: JsValue,
    marketingConsent: bool,
    requestedTime: JsValue)

  /** The notification mail; its text is represented by the values it shows. */
  datatype BookingEmail = BookingEmail(
    to: string,
    subject: string,
    name: JsValue,
    email: JsValue,
    consentLabel: string,
    requestedTime: JsValue)

  datatype BookMessage = MissingBookingInfo | Thanks(name: JsValue) | SendFailed

  /** The HTTP status and JSON body of the answer. */
  datatype BookResponse = BookResponse(status: int, success: bool, message: BookMessage)

  /** The answer, and what was handed to the disk and to the mail transporter
      (`None`: never called). */
  datatype BookOutcome = BookOutcome(
    response: BookResponse,
    saveAttempt: Option<ConsentRecord>,
    mailAttempt: Option<BookingEmail>)

  const Subject: string := "New Discovery Call Booking"
  const Agreed: string := "Agreed"
  const Declined: string := "Declined"

  /** The validation: name, email and start time are all present and non-empty. */
  predicate HasBookingInfo(req: BookingRequest)
  {
    Truthy(req.userName) && Truthy(req.userEmail) && Truthy(req.startTime)
  }

  /** The consent stored on disk: `!!marketingConsent`. */
  predicate ConsentFlag(marketingConsent: JsValue)
  {
    Truthy(marketingConsent)
  }

  /** The consent shown in the email: `marketingConsent === true`. */
  function EmailConsentLabel(marketingConsent: JsValue): string
  {
    if marketingConsent == Bool(true) then Agreed else Declined
  }

  function ConsentRecordOf(req: BookingRequest, ts: string): ConsentRecord
  {
    ConsentRecord(ts, req.userName, req.userEmail, ConsentFlag(req.marketingConsent), req.startTime)
  }

  function BookingEmailOf(req: BookingRequest, adminEmail: string): BookingEmail
  {
    BookingEmail(adminEmail, Subject, req.userName, req.userEmail, EmailConsentLabel(req.marketingConsent), req.startTime)
  }

  /** The handler. `saveOk`: saveConsentToDisk returned without throwing;
      `sendOk`: the transporter's promise resolved; `ts` is the current time. */
  function Book(req: BookingRequest, ts: string, adminEmail: string, saveOk: bool, sendOk: bool): (o: BookOutcome)
    // three outcomes: 400 for a missing field, 200 when both steps complete, else 500
    ensures o.response.status == 400 <==> !HasBookingInfo(req)
    ensures o.response.status == 500 <==> HasBookingInfo(req) && !(saveOk && sendOk)
    ensures o.response.success <==> HasBookingInfo(req) && saveOk && sendOk
    ensures o.response.success <==> o.response.status == 200
    ensures o.response.success ==> o.response.message == Thanks(req.userName)
    ensures o.response.status == 500 ==> !o.response.success && o.response.message == SendFailed
    // a rejected request touches neither the disk nor the mail
    ensures !HasBookingInfo(req) ==>
      o.saveAttempt == None && o.mailAttempt == None && o.response.message == MissingBookingInfo
    // the record is saved for every valid request; the mail only after the save completed
    ensures o.saveAttempt.Some? <==> HasBookingInfo(req)
    ensures o.mailAttempt.Some? <==> HasBookingInfo(req) && saveOk
    ensures o.saveAttempt.Some? ==>
      && o.saveAttempt.value.ts == ts
      && o.saveAttempt.value.name == req.userName
      && o.saveAttempt.value.email == req.userEmail
      && o.saveAttempt.value.requestedTime == req.startTime
      && (o.saveAttempt.value.marketingConsent <==> Truthy(req.marketingConsent))
    ensures o.mailAttempt.Some? ==>
      && o.mailAttempt.value.to == adminEmail
      && o.mailAttempt.value.subject == Subject
      && o.mailAttempt.value.name == req.userName
      && o.mailAttempt.value.email == req.userEmail
      && o.mailAttempt.value.requestedTime == req.startTime
      && (o.mailAttempt.value.consentLabel == Agreed <==> req.marketingConsent == Bool(true))
  {
    if !HasBookingInfo(req) then
      BookOutcome(BookResponse(400, false, MissingBookingInfo), None, None)
    else
      var record := ConsentRecordOf(req, ts);
      if !saveOk then
        BookOutcome(BookResponse(500, false, SendFailed), Some(record), None)
      else
        var mail := BookingEmailOf(req, adminEmail);
        if !sendOk then
          BookOutcome(BookResponse(500, false, SendFailed), Some(record), Some(mail))
        else
          BookOutcome(BookResponse(200, true, Thanks(req.userName)), Some(record), Some(mail))
  }

  /** The email says "Agreed" only for the boolean `true`, and then the record
      says true as well; for any other truthy value the record says true while
      the email says "Declined". */
  lemma ConsentLabelVersusFlag(marketingConsent: JsValue)
    ensures EmailConsentLabel(marketingConsent) == Agreed ==> ConsentFlag(marketingConsent)
    ensures ConsentFlag(marketingConsent) && EmailConsentLabel(marketingConsent) == Declined
        <==> Truthy(marketingConsent) && marketingConsent != Bool(true)
  {
  }

  /** Such a value exists: a form that sends the string "true" is recorded
      as consenting and mailed as declining. */
  lemma ConsentMismatchExists(ts: string, adminEmail: string)
    ensures exists req: BookingRequest ::
      && HasBookingInfo(req)
      && Book(req, ts, adminEmail, true, true).saveAttempt.value.marketingConsent
      && Book(req, ts, adminEmail, true, true).mailAttempt.value.consentLabel == Declined
  {
    var req := BookingRequest(Str("2025-01-06T10:00"), Str("Ann"), Str("ann@x.com"), Str("true"));
    assert HasBookingInfo(req);
    assert EmailConsentLabel(req.marketingConsent) == Declined;
    assert Book(req, ts, adminEmail, true, true).mailAttempt.value.consentLabel == Declined;
  }
}
