# Chat widget backend: booking offer, booking intake and admin gate

A model of the decision rules in `server.js` of a small website chat backend
(an Express service for a "MadeToAutomate" support bot). The model starts
inside the `/chat` handler, after the language model has produced
`replyText`, and ends at the `/consents` token check. Three pieces of
logic are modelled.

- **The booking offer** (`chat.dfy`, `conversation.dfy`). Once a session has
  counted at least three messages and knows the visitor's name and email, the
  handler sets the session's `askedBooking` latch. It then appends a fixed
  invitation to the reply and picks the slots to propose. These are the first
  three the scheduling provider (Calendly) returns, or the fallback
  generator's list when the provider gives none. Finally it records the
  assistant turn and answers. If anything throws after the latch is set, the
  `catch` branch sends a fixed apology. No assistant turn is recorded then,
  and the latch stays set, so that session never gets the offer.
  The session is a class whose fields `ChatTail` updates in place. The
  specification of `ChatTail` is the pure function `Tail`. `Run` chains
  `Tail` over a sequence of calls on one session, and the lemmas about `Run`
  state the once-per-session behaviour. The helper lemmas `RunAppend`,
  `OffersAppend`, `DueStep` and `ThrowStep` split a session into the calls
  before, at and after the one that meets the guard.
- **Booking intake** (`booking.dfy`). `/book` rejects a request whose name,
  email or start time is falsy with 400. Otherwise it saves a consent record,
  then sends a notification email, and answers 200 only when both complete.
  It answers 500 when either throws. Other versions of this service treat
  the mail as best-effort and confirm anyway. This code does not, and the
  model follows this code. The consent record stores
  `!!marketingConsent`, but the email says "Agreed" only for the boolean
  `true`. So a value such as the string `"true"` is recorded as consent and
  mailed as declined. The model keeps this behaviour as written, and
  `ConsentLabelVersusFlag` and `ConsentMismatchExists` exhibit it.
- **The admin gate** (`admin.dfy`). `/consents` is refused with 403 when
  `ADMIN_TOKEN` is set and the provided token (header first, then query
  parameter) is not strictly equal to it. With no token configured,
  everything passes.

JavaScript values are modelled by `JsValues.JsValue`, with truthiness
(`Truthy`), `||` (`Or`) and `process.env.X || null` (`EnvOrNull`) written
out. Every call into code that is not shown becomes an input of type
`Call<T>`: it either throws or returns a value. This covers the Calendly
lookups, `generateBookingSlotsFallback`, `saveConsentToDisk` and
`transporter.sendMail`.

## Model

| member | source | states |
|---|---|---|
| Chat.FromProvider | server.js:17 | each provider slot becomes a response slot with the same start and its scheduling URL, in order, one for one |
| Chat.FromFallback | server.js:19 | each fallback start time becomes a slot with only that start, in order, one for one |
| Chat.ChooseSlots | server.js:15-20 | a non-empty provider answer gives its first min(3, n) slots in order, keeping start and scheduling URL; otherwise the result is the fallback list wrapped as `{start}`, and it throws exactly when the fallback generator throws (`SlotsFor` chains `ProviderLookup` and this choice, lines 9-20) |
| Chat.ProviderLookup | server.js:9-14 | the configured event type is queried when set, and the first-event-type lookup is skipped; otherwise a throwing lookup throws, and a falsy event type gives no provider answer |
| Chat.Tail | server.js:3-30 | the latch is set exactly when the guard (`OfferDue`: count >= 3, truthy name and email, not yet asked) holds, and it is never cleared; slots are sent exactly when the offer fires and nothing throws; on a throw the reply is the apology with no slots and no turn is recorded; otherwise the reply is the model's reply plus exactly the invitation when the offer fires, and otherwise the reply unchanged, and the history grows by exactly that one assistant message |
| Chat.ChatTail | server.js:3-30 | the imperative handler tail leaves the session in the state `Tail` gives and answers with `Tail`'s reply, the session id and the slots |
| Chat.OfferedOnce | server.js:3-5 | on one session object, a call that fires the offer is followed by a call that sends the plain reply and no slots, and both turns are recorded |
| Conversation.LatchedNoOffer | server.js:3-4 | once `askedBooking` is set, every later reply is the model's reply unchanged and carries no slots |
| Conversation.AtMostOneOffer | server.js:3-4 | over any sequence of calls on a session, at most one reply carries slots, and none does when the latch was already set |
| Conversation.FirstDueTurnOffers | server.js:3-27 | in a session whose latch starts clear, when the calls before one call do not meet the guard and that call does, with slots available, the earlier calls reply with the model's reply alone, that call replies with the invitation and the slots, every later call replies with the model's reply alone, and it is the only reply of the whole session with slots |
| Conversation.QuietPrefix | server.js:3 | calls that do not meet the guard leave a clear latch clear, send no slots and reply with the model's reply unchanged |
| Conversation.ScenarioFourCalls | server.js:3-27 | four calls where the name and email arrive on the second: only the third call carries the invitation and three slots, and the fourth gets the plain reply although the guard's other conditions still hold |
| Conversation.ThrowLosesOffer | server.js:3-30 | in a session whose latch starts clear, when the first call meeting the guard throws while choosing slots, it answers with the apology, every other call gets the model's reply alone, and no call of the whole session ever gets the offer |
| Conversation.NoIdentityNoOffer | server.js:3 | if no call has both a truthy name and a truthy email, no reply carries slots and every reply is the model's reply unchanged |
| Conversation.TooFewMessagesNoOffer | server.js:3 | if every call's message count is below 3, no reply carries slots and every reply is the model's reply unchanged |
| Booking.Book | server.js:36-66 | 400 exactly for a missing name, email or start time (`HasBookingInfo`, line 40), with no save and no mail; success, status 200, exactly when both the save and the send complete; 500, with the failure message, exactly when the request is valid and either fails; the mail is sent only after the save completed; the record holds the time, name, email, start time and `!!marketingConsent` (`ConsentFlag`, line 50), and the email goes to the admin address with the fixed subject, the name, email and start time, and says "Agreed" exactly for `true` (`EmailConsentLabel`, line 45) |
| Booking.ConsentLabelVersusFlag | server.js:45-50 | an "Agreed" email implies a true consent record; the record says true while the email says "Declined" exactly for truthy values other than `true` |
| Booking.ConsentMismatchExists | server.js:45-50 | some valid request is saved with consent true and mailed as "Declined" |
| Admin.AdminGate | server.js:71-74 | with no token configured every request passes; otherwise a request is refused exactly when the header (when truthy), or else the query parameter, is not strictly equal to the token (`ProvidedToken` is the `||` chain of line 73) |
| Admin.HeaderShadowsQuery | server.js:73-74 | a truthy wrong header is refused even with the right query token; a request with no token is refused when one is configured |

## Left out

- Everything before line 1 of `server.js` is not part of this model. That is session creation and expiry, message counting, reading the name and email from the request, and the language-model call. Each call takes `messageCount`, `userName`, `userEmail` and the pre-offer `replyText` as inputs. `Conversation` assumes that this earlier code leaves `askedBooking` alone.
- The initial value of `bookingSlots` is declared before line 1. The model takes it to be absent (`undefined` or `null`), and so does the response of the `catch` branch.
- `askedBooking` is a boolean in the model. A session that has never set it (`undefined`) is modelled as `false`, which has the same truthiness.
- The Calendly lookups, `generateBookingSlotsFallback`, `saveConsentToDisk` and `transporter.sendMail` are network, disk and mail I/O. Their results are inputs: a returned value or a throw. The fallback generator's slot rules are not shown, so its list is an opaque input.
- `saveConsentToDisk` is treated as synchronous, as it is called without `await`. A rejected promise from it would not reach the `catch` block, and that case is not modelled.
- Exceptions thrown before line 1, or by `session.messages.push` and `res.json`, are not modelled. In the model, the `catch` branch is reached only through the external calls of the offer step.
- The email text is represented by the values it shows (name, email, consent label, requested time), not as a string. The wording of the template and the thank-you message is not modelled.
- The `fs` reads of `/consents` after the gate are truncated in the source and not modelled.
- Express routing, status and JSON plumbing, `console.error`, the clock (`new Date().toISOString()` is the input `ts`) and `async`/`await` are not modelled.
- JsValues.JsValue: numbers are integers, so NaN (falsy) and fractional values are not modelled. Objects are compared by identity only.
