/**
  A session across several `/chat` calls. What the handler does before the
  offer guard (counting messages, picking up the visitor's name and email,
  calling the language model) is not modelled: each turn supplies the values
  it leaves in the session's `messageCount`, `userName` and `userEmail` and the
  model's reply. `askedBooking` and the history carry over from one turn to
  the next.
 */
module Conversation {
  import opened JsValues
  import opened Chat

  datatype Turn = Turn(
    messageCount: int,
    userName: JsValue,
    userEmail: JsValue,
    replyText: string,
    src: SlotSources)

  /** The session as the unmodelled first part of the handler leaves it. */
  function Enter(s: SessionState, t: Turn): SessionState
  {
    s.(messageCount := t.messageCount, userName := t.userName, userEmail := t.userEmail)
  }

  /** The replies of a sequence of calls on one session. */
  function Run(s: SessionState, turns: seq<Turn>): (rs: seq<Reply>)
    ensures |rs| == |turns|
    decreases |turns|
  {
    if turns == [] then []
    else
      var t := Tail(Enter(s, turns[0]), turns[0].replyText, turns[0].src);
      [t.reply] + Run(t.state, turns[1..])
  }

  /** How many replies carry booking slots. */
  function Offers(rs: seq<Reply>): nat
  {
    if rs == [] then 0 else (if rs[0].bookingSlots.Some? then 1 else 0) + Offers(rs[1..])
  }

  /** Once `askedBooking` is set, every later reply is the model's reply,
      unchanged, without slots. */
  lemma {:induction false} LatchedNoOffer(s: SessionState, turns: seq<Turn>)
    requires s.askedBooking
    ensures Offers(Run(s, turns)) == 0
    ensures forall i :: 0 <= i < |turns| ==> Run(s, turns)[i] == Reply(turns[i].replyText, None)
    decreases |turns|
  {
    if turns != [] {
      var t := Tail(Enter(s, turns[0]), turns[0].replyText, turns[0].src);
      LatchedNoOffer(t.state, turns[1..]);
      assert Run(s, turns) == [t.reply] + Run(t.state, turns[1..]);
    }
  }

  /** The offer reaches a session at most once. */
  lemma {:induction false} AtMostOneOffer(s: SessionState, turns: seq<Turn>)
    ensures Offers(Run(s, turns)) <= 1
    ensures s.askedBooking ==> Offers(Run(s, turns)) == 0
    decreases |turns|
  {
    if s.askedBooking {
      LatchedNoOffer(s, turns);
    } else if turns != [] {
      var t := Tail(Enter(s, turns[0]), turns[0].replyText, turns[0].src);
      assert Run(s, turns) == [t.reply] + Run(t.state, turns[1..]);
      AtMostOneOffer(t.state, turns[1..]);
      if t.reply.bookingSlots.Some? {
        LatchedNoOffer(t.state, turns[1..]);
      }
    }
  }

  /** The session after a sequence of calls. */
  function StateAfter(s: SessionState, turns: seq<Turn>): SessionState
    decreases |turns|
  {
    if turns == [] then s
    else StateAfter(Tail(Enter(s, turns[0]), turns[0].replyText, turns[0].src).state, turns[1..])
  }

  /** The guard's conditions on what a call brings, apart from the latch. */
  predicate MeetsGuard(t: Turn)
  {
    t.messageCount >= OfferAfterMessages && Truthy(t.userName) && Truthy(t.userEmail)
  }

  /** Running two sequences of calls one after the other is running their
      concatenation. */
  lemma {:induction false} RunAppend(s: SessionState, a: seq<Turn>, b: seq<Turn>)
    ensures Run(s, a + b) == Run(s, a) + Run(StateAfter(s, a), b)
    decreases |a|
  {
    if a == [] {
      assert a + b == b;
    } else {
      var t := Tail(Enter(s, a[0]), a[0].replyText, a[0].src);
      assert (a + b)[0] == a[0] && (a + b)[1..] == a[1..] + b;
      RunAppend(t.state, a[1..], b);
    }
  }

  lemma {:induction false} OffersAppend(x: seq<Reply>, y: seq<Reply>)
    ensures Offers(x + y) == Offers(x) + Offers(y)
    decreases |x|
  {
    if x == [] {
      assert x + y == y;
    } else {
      assert (x + y)[0] == x[0] && (x + y)[1..] == x[1..] + y;
      OffersAppend(x[1..], y);
    }
  }

  /** Calls that do not meet the guard leave a clear latch clear, send no
      slots and reply with the model's reply unchanged. */
  lemma {:induction false} QuietPrefix(s: SessionState, pre: seq<Turn>)
    requires !s.askedBooking
    requires forall i :: 0 <= i < |pre| ==> !MeetsGuard(pre[i])
    ensures !StateAfter(s, pre).askedBooking
    ensures Offers(Run(s, pre)) == 0
    ensures forall i :: 0 <= i < |pre| ==> Run(s, pre)[i] == Reply(pre[i].replyText, None)
    decreases |pre|
  {
    if pre != [] {
      var t := Tail(Enter(s, pre[0]), pre[0].replyText, pre[0].src);
      assert Run(s, pre) == [t.reply] + Run(t.state, pre[1..]);
      assert forall i :: 0 <= i < |pre[1..]| ==> pre[1..][i] == pre[i + 1];
      QuietPrefix(t.state, pre[1..]);
    }
  }

  /** The call that fires the offer, and the calls after it. */
  lemma {:induction false} DueStep(mid: SessionState, t: Turn, rest: seq<Turn>)
    requires !mid.askedBooking && MeetsGuard(t) && SlotsFor(t.src).Returned?
    ensures Run(mid, [t] + rest)[0] == Reply(t.replyText + Invitation, Some(SlotsFor(t.src).value))
    ensures forall i :: 0 <= i < |rest| ==> Run(mid, [t] + rest)[1 + i] == Reply(rest[i].replyText, None)
    ensures Offers(Run(mid, [t] + rest)) == 1
  {
    var first := Tail(Enter(mid, t), t.replyText, t.src);
    assert ([t] + rest)[0] == t && ([t] + rest)[1..] == rest;
    assert Run(mid, [t] + rest) == [first.reply] + Run(first.state, rest);
    LatchedNoOffer(first.state, rest);
  }

  /** The call whose offer throws, and the calls after it. */
  lemma {:induction false} ThrowStep(mid: SessionState, t: Turn, rest: seq<Turn>)
    requires !mid.askedBooking && MeetsGuard(t) && SlotsFor(t.src).Threw?
    ensures Run(mid, [t] + rest)[0] == Reply(Apology, None)
    ensures forall i :: 0 <= i < |rest| ==> Run(mid, [t] + rest)[1 + i] == Reply(rest[i].replyText, None)
    ensures Offers(Run(mid, [t] + rest)) == 0
  {
    var first := Tail(Enter(mid, t), t.replyText, t.src);
    assert ([t] + rest)[0] == t && ([t] + rest)[1..] == rest;
    assert Run(mid, [t] + rest) == [first.reply] + Run(first.state, rest);
    LatchedNoOffer(first.state, rest);
  }

  /** The first call that meets the guard, when the slots can be produced,
      replies with the invitation and the slots; every earlier call replies
      with the model's reply alone, every later one too, and no other reply
      of the session carries slots. */
  lemma {:induction false} FirstDueTurnOffers(s: SessionState, pre: seq<Turn>, t: Turn, rest: seq<Turn>)
    requires !s.askedBooking
    requires forall i :: 0 <= i < |pre| ==> !MeetsGuard(pre[i])
    requires MeetsGuard(t) && SlotsFor(t.src).Returned?
    ensures |Run(s, pre + [t] + rest)| == |pre| + 1 + |rest|
    ensures forall i :: 0 <= i < |pre| ==> Run(s, pre + [t] + rest)[i] == Reply(pre[i].replyText, None)
    ensures Run(s, pre + [t] + rest)[|pre|] == Reply(t.replyText + Invitation, Some(SlotsFor(t.src).value))
    ensures forall i :: 0 <= i < |rest| ==> Run(s, pre + [t] + rest)[|pre| + 1 + i] == Reply(rest[i].replyText, None)
    ensures Offers(Run(s, pre + [t] + rest)) == 1
  {
    var head, tail := Run(s, pre), Run(StateAfter(s, pre), [t] + rest);
    assert pre + [t] + rest == pre + ([t] + rest);
    RunAppend(s, pre, [t] + rest);
    QuietPrefix(s, pre);
    DueStep(StateAfter(s, pre), t, rest);
    OffersAppend(head, tail);
    assert Run(s, pre + [t] + rest) == head + tail;
  }

  /** When a step of the offer throws, the latch is already set: that call
      answers with the apology, and no call of the session, before or after
      it, ever gets the offer. */
  lemma {:induction false} ThrowLosesOffer(s: SessionState, pre: seq<Turn>, t: Turn, rest: seq<Turn>)
    requires !s.askedBooking
    requires forall i :: 0 <= i < |pre| ==> !MeetsGuard(pre[i])
    requires MeetsGuard(t) && SlotsFor(t.src).Threw?
    ensures |Run(s, pre + [t] + rest)| == |pre| + 1 + |rest|
    ensures forall i :: 0 <= i < |pre| ==> Run(s, pre + [t] + rest)[i] == Reply(pre[i].replyText, None)
    ensures Run(s, pre + [t] + rest)[|pre|] == Reply(Apology, None)
    ensures forall i :: 0 <= i < |rest| ==> Run(s, pre + [t] + rest)[|pre| + 1 + i] == Reply(rest[i].replyText, None)
    ensures Offers(Run(s, pre + [t] + rest)) == 0
  {
    var head, tail := Run(s, pre), Run(StateAfter(s, pre), [t] + rest);
    assert pre + [t] + rest == pre + ([t] + rest);
    RunAppend(s, pre, [t] + rest);
    QuietPrefix(s, pre);
    ThrowStep(StateAfter(s, pre), t, rest);
    OffersAppend(head, tail);
    assert Run(s, pre + [t] + rest) == head + tail;
  }

  /** A visitor who never gives both a name and an email never gets the
      offer, however many messages they send, and every reply is the model's. */
  lemma {:induction false} NoIdentityNoOffer(s: SessionState, turns: seq<Turn>)
    requires forall i :: 0 <= i < |turns| ==> !Truthy(turns[i].userName) || !Truthy(turns[i].userEmail)
    ensures Offers(Run(s, turns)) == 0
    ensures forall i :: 0 <= i < |turns| ==> Run(s, turns)[i] == Reply(turns[i].replyText, None)
    decreases |turns|
  {
    if turns != [] {
      var t := Tail(Enter(s, turns[0]), turns[0].replyText, turns[0].src);
      assert Run(s, turns) == [t.reply] + Run(t.state, turns[1..]);
      assert forall i :: 0 <= i < |turns[1..]| ==> turns[1..][i] == turns[i + 1];
      NoIdentityNoOffer(t.state, turns[1..]);
    }
  }

  /** Fewer than three counted messages never get the offer either, and
      every reply is the model's. */
  lemma {:induction false} TooFewMessagesNoOffer(s: SessionState, turns: seq<Turn>)
    requires forall i :: 0 <= i < |turns| ==> turns[i].messageCount < OfferAfterMessages
    ensures Offers(Run(s, turns)) == 0
    ensures forall i :: 0 <= i < |turns| ==> Run(s, turns)[i] == Reply(turns[i].replyText, None)
    decreases |turns|
  {
    if turns != [] {
      var t := Tail(Enter(s, turns[0]), turns[0].replyText, turns[0].src);
      assert Run(s, turns) == [t.reply] + Run(t.state, turns[1..]);
      assert forall i :: 0 <= i < |turns[1..]| ==> turns[1..][i] == turns[i + 1];
      TooFewMessagesNoOffer(t.state, turns[1..]);
    }
  }

  /** Four calls on a fresh session, with the name and email given from the
      second call on and the fallback generator supplying three start times:
      only the third call carries the invitation and the slots. */
  lemma ScenarioFourCalls(s: SessionState, times: seq<string>)
    requires !s.askedBooking && |times| == 3
    ensures var src := SlotSources("", Returned(Null), _ => Returned(None), Returned(times));
      var turns := [Turn(1, Undefined, Undefined, "r1", src),
                    Turn(2, Str("Ann"), Str("ann@x.com"), "r2", src),
                    Turn(3, Str("Ann"), Str("ann@x.com"), "r3", src),
                    Turn(4, Str("Ann"), Str("ann@x.com"), "r4", src)];
      && Run(s, turns)[0] == Reply("r1", None)
      && Run(s, turns)[1] == Reply("r2", None)
      && Run(s, turns)[2] == Reply("r3" + Invitation, Some(FromFallback(times)))
      && |Run(s, turns)[2].bookingSlots.value| == 3
      && Run(s, turns)[3] == Reply("r4", None)
  {
    var src := SlotSources("", Returned(Null), _ => Returned(None), Returned(times));
    var pre := [Turn(1, Undefined, Undefined, "r1", src), Turn(2, Str("Ann"), Str("ann@x.com"), "r2", src)];
    var t := Turn(3, Str("Ann"), Str("ann@x.com"), "r3", src);
    var rest := [Turn(4, Str("Ann"), Str("ann@x.com"), "r4", src)];
    assert ProviderLookup(src) == Returned(None);
    assert SlotsFor(src) == Returned(FromFallback(times));
    FirstDueTurnOffers(s, pre, t, rest);
    assert pre + [t] + rest == [pre[0], pre[1], t, rest[0]];
  }
}
