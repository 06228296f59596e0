/** NewsletterService: the double opt-in. Subscribing stores a token that
    is valid for 24 hours and mails it; confirming with that token marks
    the subscriber confirmed and clears the token. The service is not
    transactional: every save stands on its own, and a mail that fails
    after a save raises with the saved row kept. The token generator, the
    clock and whether the mail server accepts a mail are parameters
    (`token`, `now` in seconds, `mailWorks`); the mails that go out are
    appended to the store's outbox. */
module NewsletterService {
  import opened Common
  import opened Model

  /** plusHours(24), in seconds. */
  const TokenLifetime: int := 24 * 60 * 60

  const AlreadySubscribed: string := "Diese E-Mail-Adresse ist bereits angemeldet."
  const CheckInbox: string :=
    "Bitte \U{FC}berpr\U{FC}fen Sie Ihr Postfach und best\U{E4}tigen Sie Ihre Anmeldung."
  const InvalidLink: string := "Ung\U{FC}ltiger Best\U{E4}tigungslink."
  const ExpiredLink: string :=
    "Der Best\U{E4}tigungslink ist abgelaufen. Bitte melden Sie sich erneut an."
  const Welcome: string := "Ihre Anmeldung wurde erfolgreich best\U{E4}tigt!"
  /** The RuntimeException EmailService raises when a send fails. */
  const MailNotSent: string := "E-Mail konnte nicht gesendet werden."

  /** The mails that go out after a save: the one mail, or none when the
      mail server refuses it. */
  function Sent(mail: Email, mailWorks: bool): seq<Email> {
    if mailWorks then [mail] else []
  }

  /** The reply once the rows are saved: the message, or the send's
      RuntimeException escaping to the caller. */
  function Reply(message: string, mailWorks: bool): Result<string> {
    if mailWorks then Ok(message) else Err(Runtime(MailNotSent))
  }

  /** The rows findByEmail can return. */
  function WithEmail(subs: map<int, Subscriber>, email: string): (r: set<int>)
    ensures forall i :: i in r <==> i in subs && subs[i].email == email
  {
    set i | i in subs && subs[i].email == email
  }

  /** The rows findByConfirmationToken can return. */
  function Holders(subs: map<int, Subscriber>, token: string): (r: set<int>)
    ensures forall i :: i in r <==> i in subs && subs[i].confirmationToken == Some(token)
  {
    set i | i in subs && subs[i].confirmationToken == Some(token)
  }

  /** With unique emails, a row found by email is the only one. */
  lemma EmailFindsOne(subs: map<int, Subscriber>, email: string, i: int)
    requires SubscribersValid(subs) && i in WithEmail(subs, email)
    ensures WithEmail(subs, email) == {i}
  {
    assert forall j :: j in WithEmail(subs, email) ==> j == i;
  }

  /** What subscribe leaves behind once it got past the lookup: the rows,
      the mails that went out and what the caller sees. */
  datatype Subscription = Subscription(
    subscribers: map<int, Subscriber>, nextId: int, sent: seq<Email>, reply: Result<string>)

  /** subscribe as a function of the subscriber table: a confirmed email
      is told so and nothing changes; an unconfirmed one gets a new token
      and expiry; a new one gets a row; both latter are mailed the token,
      and a refused mail leaves the saved row and raises. */
  function Subscribed(subs: map<int, Subscriber>, nextId: int, email: string, token: string, now: int,
                      mailWorks: bool): (r: Result<Subscription>)
    ensures r.Ok? <==> |WithEmail(subs, email)| <= 1
    ensures r.Err? ==> r.error == IncorrectResultSize
    ensures WithEmail(subs, email) == {} ==>
      r == Ok(Subscription(subs[nextId := Subscriber(email, Some(token), Some(now + TokenLifetime), false)],
                           nextId + 1, Sent(VerificationEmail(email, token), mailWorks), Reply(CheckInbox, mailWorks)))
    ensures forall i :: i in WithEmail(subs, email) && |WithEmail(subs, email)| == 1 ==>
      if subs[i].confirmed then r == Ok(Subscription(subs, nextId, [], Ok(AlreadySubscribed)))
      else r == Ok(Subscription(
        subs[i := subs[i].(confirmationToken := Some(token), tokenExpiresAt := Some(now + TokenLifetime))],
        nextId, Sent(VerificationEmail(email, token), mailWorks), Reply(CheckInbox, mailWorks)))
  {
    var found := WithEmail(subs, email);
    if |found| > 1 then Err(IncorrectResultSize)
    else if found == {} then
      Ok(Subscription(subs[nextId := Subscriber(email, Some(token), Some(now + TokenLifetime), false)],
                      nextId + 1, Sent(VerificationEmail(email, token), mailWorks), Reply(CheckInbox, mailWorks)))
    else
      assert forall i :: i in found ==> found == {i} by {
        forall i | i in found ensures found == {i} {
          SingleElement(found, i);
        }
      }
      if exists i :: i in found && subs[i].confirmed then Ok(Subscription(subs, nextId, [], Ok(AlreadySubscribed)))
      else
        var updated := map k | k in subs ::
          if subs[k].email == email
          then subs[k].(confirmationToken := Some(token), tokenExpiresAt := Some(now + TokenLifetime))
          else subs[k];
        assert forall i :: i in found ==>
          updated == subs[i := subs[i].(confirmationToken := Some(token), tokenExpiresAt := Some(now + TokenLifetime))];
        Ok(Subscription(updated, nextId, Sent(VerificationEmail(email, token), mailWorks), Reply(CheckInbox, mailWorks)))
  }

  lemma SingleElement(s: set<int>, x: int)
    requires x in s && |s| <= 1
    ensures s == {x}
  {
    assert |s - {x}| == |s| - 1;
    assert s - {x} == {};
  }

  /** What a confirmation that got past its checks leaves behind: the
      rows, the welcome mail if it went out, and what the caller sees. */
  datatype Confirmation = Confirmation(subscribers: map<int, Subscriber>, sent: seq<Email>, reply: Result<string>)

  /** confirmSubscription as a function of the subscriber table. A refused
      welcome mail raises after the confirmation has been saved. */
  ghost function Confirmed(subs: map<int, Subscriber>, token: string, now: int, mailWorks: bool): (r: Result<Confirmation>)
    ensures Holders(subs, token) == {} ==> r == Err(IllegalArgument(InvalidLink))
    ensures |Holders(subs, token)| > 1 ==> r == Err(IncorrectResultSize)
    ensures forall i :: i in Holders(subs, token) && |Holders(subs, token)| == 1 ==>
      var s := subs[i];
      && (s.tokenExpiresAt.None? ==> r == Err(NullPointer))
      && (s.tokenExpiresAt.Some? && s.tokenExpiresAt.value < now ==> r == Err(IllegalArgument(ExpiredLink)))
      && (s.tokenExpiresAt.Some? && now <= s.tokenExpiresAt.value ==>
            r == Ok(Confirmation(
              subs[i := s.(confirmed := true, confirmationToken := None, tokenExpiresAt := None)],
              Sent(WelcomeEmail(s.email), mailWorks), Reply(Welcome, mailWorks))))
  {
    var found := Holders(subs, token);
    if found == {} then Err(IllegalArgument(InvalidLink))
    else if |found| > 1 then Err(IncorrectResultSize)
    else
      EmptyOrElement(found);
      var i :| i in found;
      SingleElement(found, i);
      var s := subs[i];
      if s.tokenExpiresAt.None? then Err(NullPointer)
      else if s.tokenExpiresAt.value < now then Err(IllegalArgument(ExpiredLink))
      else Ok(Confirmation(
        subs[i := s.(confirmed := true, confirmationToken := None, tokenExpiresAt := None)],
        Sent(WelcomeEmail(s.email), mailWorks), Reply(Welcome, mailWorks)))
  }

  /** subscribe keeps emails unique and every token paired with an expiry. */
  lemma SubscribeKeepsValid(subs: map<int, Subscriber>, nextId: int, email: string, token: string, now: int, mailWorks: bool)
    requires SubscribersValid(subs) && nextId !in subs
    ensures Subscribed(subs, nextId, email, token, now, mailWorks).Ok?
    ensures SubscribersValid(Subscribed(subs, nextId, email, token, now, mailWorks).value.subscribers)
  {
    var found := WithEmail(subs, email);
    if found != {} {
      EmptyOrElement(found);
      var i :| i in found;
      EmailFindsOne(subs, email, i);
    }
  }

  /** confirmSubscription keeps the table valid. */
  lemma ConfirmKeepsValid(subs: map<int, Subscriber>, token: string, now: int, mailWorks: bool)
    requires SubscribersValid(subs) && Confirmed(subs, token, now, mailWorks).Ok?
    ensures SubscribersValid(Confirmed(subs, token, now, mailWorks).value.subscribers)
  {
    var found := Holders(subs, token);
    EmptyOrElement(found);
    var i :| i in found;
    SingleElement(found, i);
  }

  /** The link mailed by subscribe confirms within 24 hours, provided no
      other row holds the same token, and afterwards the email's row is
      confirmed and carries no token. */
  lemma {:induction false} LinkWorksWithinLifetime(
    subs: map<int, Subscriber>, nextId: int, email: string, token: string, now: int, later: int,
    mailWorks: bool)
    requires SubscribersValid(subs) && nextId !in subs && Holders(subs, token) == {}
    requires now <= later <= now + TokenLifetime
    requires WithEmail(subs, email) == {} || exists i :: i in WithEmail(subs, email) && !subs[i].confirmed
    ensures Subscribed(subs, nextId, email, token, now, mailWorks).Ok?
    ensures var after := Subscribed(subs, nextId, email, token, now, mailWorks).value.subscribers;
      && Confirmed(after, token, later, mailWorks).Ok?
      && var done := Confirmed(after, token, later, mailWorks).value.subscribers;
         forall i :: i in done && done[i].email == email ==>
           done[i].confirmed && done[i].confirmationToken.None?
  {
    SubscribeKeepsValid(subs, nextId, email, token, now, mailWorks);
    var after := Subscribed(subs, nextId, email, token, now, mailWorks).value.subscribers;
    var found := WithEmail(subs, email);
    var j: int;
    if found == {} {
      j := nextId;
    } else {
      EmptyOrElement(found);
      j :| j in found;
      EmailFindsOne(subs, email, j);
    }
    assert Holders(after, token) == {j};
    var done := Confirmed(after, token, later, mailWorks).value.subscribers;
    forall i | i in done && done[i].email == email
      ensures done[i].confirmed && done[i].confirmationToken.None?
    {
      assert i in WithEmail(after, email);
      assert WithEmail(after, email) == {j} by {
        EmailFindsOne(after, email, j);
      }
    }
  }

  /** After 24 hours the same link is refused as expired. */
  lemma {:induction false} LinkExpires(
    subs: map<int, Subscriber>, nextId: int, email: string, token: string, now: int, later: int,
    mailWorks: bool)
    requires SubscribersValid(subs) && nextId !in subs && Holders(subs, token) == {}
    requires later > now + TokenLifetime
    requires WithEmail(subs, email) == {} || exists i :: i in WithEmail(subs, email) && !subs[i].confirmed
    ensures Subscribed(subs, nextId, email, token, now, mailWorks).Ok?
    ensures Confirmed(Subscribed(subs, nextId, email, token, now, mailWorks).value.subscribers, token, later, mailWorks)
         == Err(IllegalArgument(ExpiredLink))
  {
    SubscribeKeepsValid(subs, nextId, email, token, now, mailWorks);
    var after := Subscribed(subs, nextId, email, token, now, mailWorks).value.subscribers;
    var found := WithEmail(subs, email);
    var j: int;
    if found == {} {
      j := nextId;
    } else {
      EmptyOrElement(found);
      j :| j in found;
      EmailFindsOne(subs, email, j);
    }
    assert Holders(after, token) == {j};
  }

  /** A token that confirmed once is gone: confirming with it again is an
      invalid link. */
  lemma {:induction false} ConfirmOnlyOnce(subs: map<int, Subscriber>, token: string, now: int, later: int,
                                          mailWorks: bool, retryMail: bool)
    requires Confirmed(subs, token, now, mailWorks).Ok?
    ensures Confirmed(Confirmed(subs, token, now, mailWorks).value.subscribers, token, later, retryMail) == Err(IllegalArgument(InvalidLink))
  {
    var found := Holders(subs, token);
    EmptyOrElement(found);
    var i :| i in found;
    SingleElement(found, i);
    var after := Confirmed(subs, token, now, mailWorks).value.subscribers;
    assert Holders(after, token) == {} by {
      forall k | k in after ensures after[k].confirmationToken != Some(token) {
        if k != i {
          assert k !in found;
        }
      }
    }
  }

  /** The mail server decides only the reply and the outbox: subscribe
      saves the same rows whether or not its mail goes out, and a refused
      verification mail reaches the caller as the send's RuntimeException. */
  lemma SubscribeMailFailureKeepsRows(subs: map<int, Subscriber>, nextId: int, email: string, token: string, now: int)
    ensures Subscribed(subs, nextId, email, token, now, false).Ok? <==> Subscribed(subs, nextId, email, token, now, true).Ok?
    ensures Subscribed(subs, nextId, email, token, now, false).Ok? ==>
      var f, w := Subscribed(subs, nextId, email, token, now, false).value, Subscribed(subs, nextId, email, token, now, true).value;
      && f.subscribers == w.subscribers && f.nextId == w.nextId && f.sent == []
      && (w.sent == [] ==> f.reply == w.reply)
      && (w.sent != [] ==> f.reply == Err(Runtime(MailNotSent)))
  {
    var found := WithEmail(subs, email);
    if found != {} && |found| <= 1 {
      EmptyOrElement(found);
      var i :| i in found;
      SingleElement(found, i);
    }
  }

  /** A refused welcome mail still leaves the subscriber confirmed and the
      token spent: the caller sees the RuntimeException, and following the
      link again is refused as invalid. */
  lemma FailedWelcomeMailStillConfirms(subs: map<int, Subscriber>, token: string, now: int, later: int, retryMail: bool)
    requires Confirmed(subs, token, now, true).Ok?
    ensures Confirmed(subs, token, now, false).Ok?
    ensures var f := Confirmed(subs, token, now, false).value;
      && f.subscribers == Confirmed(subs, token, now, true).value.subscribers
      && f.sent == [] && f.reply == Err(Runtime(MailNotSent))
      && Confirmed(f.subscribers, token, later, retryMail) == Err(IllegalArgument(InvalidLink))
  {
    var found := Holders(subs, token);
    EmptyOrElement(found);
    var i :| i in found;
    SingleElement(found, i);
    ConfirmOnlyOnce(subs, token, now, later, false, retryMail);
  }

  /** getCount counts every row, confirmed or not: subscribe adds one
      exactly for an unknown email, and confirming never changes it. */
  function Count(subs: map<int, Subscriber>): (n: nat)
  {
    |subs|
  }

  lemma SubscribeCount(subs: map<int, Subscriber>, nextId: int, email: string, token: string, now: int, mailWorks: bool)
    requires SubscribersValid(subs) && nextId !in subs
    ensures Subscribed(subs, nextId, email, token, now, mailWorks).Ok?
    ensures var after := Subscribed(subs, nextId, email, token, now, mailWorks).value.subscribers;
      Count(after) == Count(subs) + (if WithEmail(subs, email) == {} then 1 else 0)
  {
    SubscribeKeepsValid(subs, nextId, email, token, now, mailWorks);
    var found := WithEmail(subs, email);
    if found != {} {
      EmptyOrElement(found);
      var i :| i in found;
      EmailFindsOne(subs, email, i);
      assert Subscribed(subs, nextId, email, token, now, mailWorks).value.subscribers.Keys == subs.Keys;
    }
  }

  lemma ConfirmCount(subs: map<int, Subscriber>, token: string, now: int, mailWorks: bool)
    requires Confirmed(subs, token, now, mailWorks).Ok?
    ensures Count(Confirmed(subs, token, now, mailWorks).value.subscribers) == Count(subs)
  {
    var found := Holders(subs, token);
    EmptyOrElement(found);
    var i :| i in found;
    SingleElement(found, i);
    assert Confirmed(subs, token, now, mailWorks).value.subscribers.Keys == subs.Keys;
  }

  // ---------------------------------------------------------------------
  // The service methods

  /** EmailService.sendHtmlEmail: the mail joins the outbox when the mail
      server takes it; otherwise nothing is sent and the caller is told. */
  method SendMail(st: Store, mail: Email, mailWorks: bool) returns (delivered: bool)
    modifies st`outbox
    ensures st.outbox == old(st.outbox) + Sent(mail, mailWorks) && delivered == mailWorks
  {
    if mailWorks {
      st.outbox := st.outbox + [mail];
    }
    delivered := mailWorks;
  }

  /** subscribe */
  method Subscribe(st: Store, email: string, token: string, now: int, mailWorks: bool) returns (r: Result<string>)
    requires st.Valid()
    modifies st`subscribers, st`nextId, st`outbox
    ensures st.Valid()
    ensures var s := Subscribed(old(st.subscribers), old(st.nextId), email, token, now, mailWorks);
      && s.Ok?
      && st.subscribers == s.value.subscribers && st.nextId == s.value.nextId
      && st.outbox == old(st.outbox) + s.value.sent && r == s.value.reply
  {
    SubscribeKeepsValid(st.subscribers, st.nextId, email, token, now, mailWorks);
    var found := WithEmail(st.subscribers, email);
    if found == {} {
      var id := st.FreshId();
      st.subscribers := st.subscribers[id := Subscriber(email, Some(token), Some(now + TokenLifetime), false)];
    } else {
      var i := ElementOf(found);
      EmailFindsOne(st.subscribers, email, i);
      var subscriber := st.subscribers[i];
      if subscriber.confirmed {
        return Ok(AlreadySubscribed);
      }
      subscriber := subscriber.(confirmationToken := Some(token), tokenExpiresAt := Some(now + TokenLifetime));
      st.subscribers := st.subscribers[i := subscriber];
    }
    var delivered := SendMail(st, VerificationEmail(email, token), mailWorks);
    r := if delivered then Ok(CheckInbox) else Err(Runtime(MailNotSent));
  }

  /** confirmSubscription */
  method Confirm(st: Store, token: string, now: int, mailWorks: bool) returns (r: Result<string>)
    requires st.Valid()
    modifies st`subscribers, st`outbox
    ensures st.Valid()
    ensures Confirmed(old(st.subscribers), token, now, mailWorks).Err? ==>
      && r == Err(Confirmed(old(st.subscribers), token, now, mailWorks).error)
      && st.subscribers == old(st.subscribers) && st.outbox == old(st.outbox)
    ensures Confirmed(old(st.subscribers), token, now, mailWorks).Ok? ==>
      var c := Confirmed(old(st.subscribers), token, now, mailWorks).value;
      r == c.reply && st.subscribers == c.subscribers && st.outbox == old(st.outbox) + c.sent
  {
    var found := Holders(st.subscribers, token);
    if found == {} {
      return Err(IllegalArgument(InvalidLink));
    }
    if |found| > 1 {
      return Err(IncorrectResultSize);
    }
    var i := ElementOf(found);
    SingleElement(found, i);
    var subscriber := st.subscribers[i];
    if subscriber.tokenExpiresAt.value < now {
      return Err(IllegalArgument(ExpiredLink));
    }
    ConfirmKeepsValid(st.subscribers, token, now, mailWorks);
    subscriber := subscriber.(confirmed := true, confirmationToken := None, tokenExpiresAt := None);
    st.subscribers := st.subscribers[i := subscriber];
    var delivered := SendMail(st, WelcomeEmail(subscriber.email), mailWorks);
    r := if delivered then Ok(Welcome) else Err(Runtime(MailNotSent));
  }

  /** getCount */
  method GetCount(st: Store) returns (n: nat)
    ensures n == Count(st.subscribers)
  {
    n := |st.subscribers|;
  }
}
