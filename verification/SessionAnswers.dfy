/** What each call of the session protocol does with the answers it gets, spelled out field by
    field: the bodies it sends, when it renews, when it authenticates, and when it resends. */
module SessionAnswers {
  import opened Prelude
  import opened Session
  import opened SessionProofs

  // -------------------------------------------------------- one exchange

  /** The next reply is a 2xx whose data decodes. */
  predicate Accepts(replies: seq<Reply>) {
    && replies != [] && replies[0].Answer? && 200 <= replies[0].status <= 299
    && (replies[0].data.Null? || replies[0].data.Object?)
  }

  function Rest(replies: seq<Reply>): seq<Reply> {
    if replies == [] then [] else replies[1..]
  }

  /** A decoded session: a member that the reply carries replaces the old one, if any. */
  predicate Merges(before: Option<Ticket>, f: TicketFields, after: Option<Ticket>) {
    && after.Some?
    && after.value.username == (if f.username.Some? then f.username.value else if before.Some? then before.value.username else "")
    && after.value.ticket == (if f.ticket.Some? then f.ticket.value else if before.Some? then before.value.ticket else "")
    && after.value.csrf == (if f.csrf.Some? then f.csrf.value else if before.Some? then before.value.csrf else "")
  }

  /** A ticket exchange uses up one reply, and succeeds exactly when that is accepted; the
      session it leaves behind is the one the reply carries. */
  lemma ExchangeAnswers(env: Env, c: Client, creds: Option<Credentials>)
    ensures var (err, c') := PostTicket(env, c, creds);
            && (err.None? <==> Accepts(c.replies))
            && c'.replies == Rest(c.replies) && c'.tickets == c.tickets + [creds]
            && c'.sent == c.sent + (if c.replies == [] || c.replies[0].NotSent? then []
                                    else [Sent("POST", env.base + "/access/ticket", TicketBody(creds), c.replies[0])])
            && (Accepts(c.replies) && c.replies[0].data.Object? ==> Merges(c.session, c.replies[0].data.fields, c'.session))
            && (Accepts(c.replies) && c.replies[0].data.Null? ==> c'.session.None?)
            && (c.replies == [] || !c.replies[0].Answer? || !(200 <= c.replies[0].status <= 299) ==> c'.session == c.session)
  {
    hide CreateSession;
    assert TICKET_PATH[0] == '/' && Url(env.base, TICKET_PATH) == TicketUrl(env);
  }

  // ------------------------------------------------------ CreateSession

  /** The body of an authentication with full credentials: the caller's, with the WithOTP code
      if there is one, and with the default realm if neither they nor the username have one. */
  function FullBody(env: Env, otp: string): Option<Credentials> {
    if env.credentials.None? then None
    else
      var own := env.credentials.value;
      Some(Credentials(
        own.username,
        own.password,
        if otp == "" then own.otp else otp,
        own.path,
        own.privs,
        if own.realm == "" && '@' !in own.username then env.realm else own.realm))
  }

  /** What CreateSession reads on the clock. */
  function TimeOfCheck(env: Env, c: Client): int {
    c.clock + env.drift(c.readings)
  }

  predicate Fresh(env: Env, c: Client) {
    c.session.Some? && TimeOfCheck(env, c) < c.expiresAt
  }

  predicate Renewable(env: Env, c: Client) {
    c.session.Some? && c.session.value.ticket != "" && !Fresh(env, c)
  }

  lemma AuthenticateAnswers(env: Env, c: Client)
    ensures var (err, c') := Authenticate(env, c);
            && c'.tickets == c.tickets + [FullBody(env, c.otp)] && c'.replies == Rest(c.replies)
            && (err.None? <==> Accepts(c.replies))
            && (err.None? ==> c'.expiresAt == c'.clock + 3_600_000_000_000)
            && c'.otp == (if env.credentials.Some? then "" else c.otp)
  {
    hide PostTicket;
    var (creds, c1) := SessionCredentials(env, c);
    CredentialsAre(env, c);
    ExchangeAnswers(env, c1, creds);
    TicketExchange(env, c1, creds);
  }

  lemma CredentialsAre(env: Env, c: Client)
    ensures var (creds, c') := SessionCredentials(env, c);
            creds == FullBody(env, c.otp) && c' == c.(otp := if env.credentials.Some? then "" else c.otp)
  {}

  lemma RefreshAnswers(env: Env, c: Client)
    requires c.session.Some? && c.session.value.ticket != ""
    ensures var (err, c') := RefreshLocked(env, c);
            && c'.tickets == c.tickets + [Some(Credentials(c.session.value.username, c.session.value.ticket, "", "", "", ""))]
            && c'.replies == Rest(c.replies) && c'.otp == c.otp
            && (err.None? <==> Accepts(c.replies))
            && (err.None? ==> c'.expiresAt == c'.clock + 3_600_000_000_000)
            && (Accepts(c.replies) && c.replies[0].data.Object? ==> Merges(c.session, c.replies[0].data.fields, c'.session))
            && (err.None? ==> |c'.sent| == |c.sent| + 1)
  {
    hide PostTicket;
    var creds := Some(Renewal(c.session.value));
    ExchangeAnswers(env, c, creds);
    TicketExchange(env, c, creds);
  }

  /** Without a session, or with an empty ticket, there is nothing to renew. */
  lemma NothingToRefresh(env: Env, c: Client)
    requires c.session.None? || c.session.value.ticket == ""
    ensures RefreshLocked(env, c) == (Some(NoSession), c)
  {}

  /** While the session is fresh CreateSession is refused and sends nothing. */
  lemma FreshIsRefused(env: Env, c: Client)
    ensures CreateSession(env, c).0 == Some(SessionExists) ==> Fresh(env, c)
    ensures Fresh(env, c) ==>
              CreateSession(env, c).0 == Some(SessionExists) &&
              CreateSession(env, c).1 == c.(clock := TimeOfCheck(env, c), readings := c.readings + 1)
  {
    hide RefreshLocked, Authenticate;
    if !Fresh(env, c) {
      AuthenticateGrows(env, c);
      if c.session.Some? {
        AuthenticateGrows(env, RefreshLocked(env, Tick(env, c)).1);
      }
    }
  }

  /** An expired session is renewed first: its own ticket goes out as the password, without a
      one-time password. If that is accepted nothing else is sent and the code is kept; the
      full credentials follow only when it is not. */
  lemma RenewalComesFirst(env: Env, c: Client)
    requires Renewable(env, c)
    ensures var (err, c') := CreateSession(env, c);
            var renewal := Some(Credentials(c.session.value.username, c.session.value.ticket, "", "", "", ""));
            if Accepts(c.replies) then
              && err.None? && c'.tickets == c.tickets + [renewal] && c'.replies == Rest(c.replies)
              && |c'.sent| == |c.sent| + 1 && c'.otp == c.otp && c'.expiresAt == c'.clock + 3_600_000_000_000
              && (c.replies[0].data.Object? ==> Merges(c.session, c.replies[0].data.fields, c'.session))
            else
              && c'.tickets == c.tickets + [renewal, FullBody(env, c.otp)] && c'.replies == Rest(Rest(c.replies))
              && (err.None? <==> Accepts(Rest(c.replies)))
              && (err.None? ==> c'.expiresAt == c'.clock + 3_600_000_000_000)
              && c'.otp == (if env.credentials.Some? then "" else c.otp)
  {
    hide RefreshLocked, Authenticate;
    var c1 := Tick(env, c);
    RefreshAnswers(env, c1);
    AuthenticateAnswers(env, RefreshLocked(env, c1).1);
  }

  /** Without a session to renew CreateSession sends the full credentials, once. */
  lemma OtherwiseAuthenticates(env: Env, c: Client)
    requires !Fresh(env, c) && !Renewable(env, c)
    ensures var (err, c') := CreateSession(env, c);
            && c'.tickets == c.tickets + [FullBody(env, c.otp)] && c'.replies == Rest(c.replies)
            && (err.None? <==> Accepts(c.replies))
            && (err.None? ==> c'.expiresAt == c'.clock + 3_600_000_000_000)
            && c'.otp == (if env.credentials.Some? then "" else c.otp)
  {
    hide RefreshLocked, Authenticate;
    AuthenticateAnswers(env, c);
    if c.session.Some? {
      NothingToRefresh(env, Tick(env, c));
      AuthenticateAnswers(env, Tick(env, c));
    }
  }

  /** Login sends what it is given, whatever session there is, and leaves the expiry alone. */
  lemma LoginAnswers(env: Env, c: Client, username: string, password: string)
    ensures var (err, c') := Login(env, c, username, password);
            && c'.tickets == c.tickets + [Some(Credentials(username, password, "", "", "", ""))]
            && (err.None? <==> Accepts(c.replies)) && c'.expiresAt == c.expiresAt && c'.otp == c.otp
            && (Accepts(c.replies) && c.replies[0].data.Object? ==> Merges(c.session, c.replies[0].data.fields, c'.session))
  {
    hide PostTicket;
    var creds := Some(Credentials(username, password, "", "", "", ""));
    ExchangeAnswers(env, c, creds);
    TicketExchange(env, c, creds);
  }

  // ---------------------------------------------------------------- Req

  /** An answer other than 401 and 403 ends a request: it was sent once, and the answer alone
      decides the result. */
  lemma AnswerEndsReq(env: Env, c: Client, verb: string, path: string, payload: Payload, target: Target)
    requires c.replies != [] && !c.replies[0].NotSent? && !target.IntoSession?
    requires c.replies[0].Answer? ==> c.replies[0].status != 401 && c.replies[0].status != 403
    ensures var x := Sent(verb, if path != "" && path[0] == '/' then env.base + path else path, payload, c.replies[0]);
            var (err, c') := Req(env, c, verb, path, payload, target);
            c' == c.(replies := c.replies[1..], sent := c.sent + [x]) && Explains(x, target, err)
  {
    hide CreateSession;
  }

  /** A 401 or 403 is returned as not authorized, after one send, when there are no credentials,
      when it came from the ticket endpoint, or when the session is fresh. */
  lemma ForbiddenEndsReq(env: Env, c: Client, verb: string, path: string, payload: Payload, target: Target)
    requires c.replies != [] && c.replies[0].Answer? && (c.replies[0].status == 401 || c.replies[0].status == 403)
    requires env.credentials.None? || Url(env.base, path) == env.base + "/access/ticket" || Fresh(env, c)
    ensures var x := Sent(verb, Url(env.base, path), payload, c.replies[0]);
            var (err, c') := Req(env, c, verb, path, payload, target);
            err == Some(NotAuthorized) && c'.sent == c.sent + [x] && c'.replies == c.replies[1..]
  {
    hide CreateSession;
    var c1 := c.(replies := c.replies[1..], sent := c.sent + [Sent(verb, Url(env.base, path), payload, c.replies[0])]);
    FreshIsRefused(env, c1);
  }

  /** Otherwise a 401 or 403 makes Req establish a session, and when that succeeds send the same
      request again; the next answer then decides. */
  lemma ForbiddenIsRecovered(env: Env, c: Client, verb: string, path: string, payload: Payload, target: Target,
                             first: Reply, ticket: Reply, second: Reply, rest: seq<Reply>)
    requires !target.IntoSession? && c.replies == [first, ticket, second] + rest
    requires first.Answer? && (first.status == 401 || first.status == 403) && env.credentials.Some?
    requires Url(env.base, path) != env.base + "/access/ticket" && !Fresh(env, c) && Accepts([ticket])
    requires !second.NotSent? && (second.Answer? ==> second.status != 401 && second.status != 403)
    ensures var (err, c') := Req(env, c, verb, path, payload, target);
            var url := Url(env.base, path);
            var again := Sent(verb, Url(env.base, url), payload, second);
            && c'.replies == rest && |c'.tickets| == |c.tickets| + 1
            && |c'.sent| == |c.sent| + 3 && c.sent <= c'.sent
            && c'.sent[|c.sent|] == Sent(verb, url, payload, first)
            && IsTicketExchange(env, c'.sent[|c.sent| + 1]) && c'.sent[|c.sent| + 1].reply == ticket
            && c'.sent[|c.sent| + 2] == again && Explains(again, target, err)
  {
    hide CreateSession, Url, Explains;
    var url := Url(env.base, path);
    var x := Sent(verb, url, payload, first);
    var c1 := c.(replies := c.replies[1..], sent := c.sent + [x]);
    assert c1.replies == [ticket, second] + rest;
    SessionIsEstablished(env, c1, ticket, [second] + rest);
    var (err, c2) := CreateSession(env, c1);
    assert c2.replies[0] == second && c2.replies[1..] == rest;
    assert Req(env, c, verb, path, payload, target) == Req(env, c2, verb, url, payload, target);
    AnswerEndsReq(env, c2, verb, url, payload, target);
  }

  /** With an accepted ticket reply next, CreateSession takes exactly that one. */
  lemma SessionIsEstablished(env: Env, c: Client, ticket: Reply, rest: seq<Reply>)
    requires !Fresh(env, c) && c.replies == [ticket] + rest && Accepts([ticket])
    ensures var (err, c') := CreateSession(env, c);
            && err.None? && c'.replies == rest && |c'.tickets| == |c.tickets| + 1
            && exists x :: IsTicketExchange(env, x) && x.reply == ticket && c'.sent == c.sent + [x]
  {
    hide PostTicket, RefreshLocked, Authenticate;
    assert c.replies[0] == ticket && c.replies[1..] == rest;
    var c1 := if c.session.Some? then Tick(env, c) else c;
    if Renewable(env, c) {
      RenewalComesFirst(env, c);
      RefreshExchanges(env, c1);
      assert RefreshLocked(env, c1).0.None?;
    } else {
      OtherwiseAuthenticates(env, c);
      if c.session.Some? {
        NothingToRefresh(env, c1);
      }
      AuthenticateExchanges(env, c1);
    }
  }

  lemma RefreshExchanges(env: Env, c: Client)
    requires c.session.Some? && c.session.value.ticket != "" && Accepts(c.replies)
    ensures var (err, c') := RefreshLocked(env, c);
            err.None? && exists x :: IsTicketExchange(env, x) && x.reply == c.replies[0] && c'.sent == c.sent + [x]
  {
    hide PostTicket;
    var creds := Some(Renewal(c.session.value));
    ExchangeAnswers(env, c, creds);
    assert IsTicketExchange(env, Sent("POST", env.base + "/access/ticket", TicketBody(creds), c.replies[0]));
  }

  lemma AuthenticateExchanges(env: Env, c: Client)
    requires Accepts(c.replies)
    ensures var (err, c') := Authenticate(env, c);
            err.None? && exists x :: IsTicketExchange(env, x) && x.reply == c.replies[0] && c'.sent == c.sent + [x]
  {
    hide PostTicket, SessionCredentials;
    CredentialsFrame(env, c);
    var (creds, c1) := SessionCredentials(env, c);
    ExchangeAnswers(env, c1, creds);
    assert IsTicketExchange(env, Sent("POST", env.base + "/access/ticket", TicketBody(creds), c.replies[0]));
  }

  // ------------------------------------------------------------- Refused

  /** Some request could not be sent: the replies ran out, or the last one used says so. */
  predicate Stuck(c: Client, c': Client) {
    && |c'.replies| <= |c.replies|
    && (c'.replies == [] ||
        (|c'.replies| < |c.replies| && c.replies[|c.replies| - |c'.replies| - 1].NotSent?))
  }

  predicate Consumes(c: Client, c': Client) {
    |c'.replies| <= |c.replies| && c'.replies == c.replies[|c.replies| - |c'.replies|..]
  }

  lemma CreateSessionConsumes(env: Env, c: Client)
    ensures var (err, c') := CreateSession(env, c);
            Consumes(c, c') && (err == Some(Refused) ==> Stuck(c, c'))
  {
    hide RefreshLocked, Authenticate;
    var c1 := if c.session.Some? then Tick(env, c) else c;
    RefreshConsumes(env, c1);
    AuthenticateConsumes(env, c1);
    AuthenticateConsumes(env, RefreshLocked(env, c1).1);
  }

  lemma ExchangeConsumes(env: Env, c: Client, creds: Option<Credentials>)
    ensures var (err, c') := PostTicket(env, c, creds);
            Consumes(c, c') && (err == Some(Refused) ==> Stuck(c, c'))
  {
    hide CreateSession, HandleResponse;
    assert TICKET_PATH[0] == '/' && Url(env.base, TICKET_PATH) == TicketUrl(env);
    ExchangeAnswers(env, c, creds);
    if c.replies != [] && c.replies[0].Answer? {
      var c1 := c.(tickets := c.tickets + [creds], replies := c.replies[1..],
                   sent := c.sent + [Sent("POST", TicketUrl(env), TicketBody(creds), c.replies[0])]);
      NotRefused(c1, c.replies[0].status, c.replies[0].data, IntoSession);
    }
  }

  lemma NotRefused(c: Client, status: int, data: Data, target: Target)
    ensures HandleResponse(c, status, data, target).0 != Some(Refused)
  {}

  lemma RefreshConsumes(env: Env, c: Client)
    ensures var (err, c') := RefreshLocked(env, c);
            Consumes(c, c') && (err == Some(Refused) ==> Stuck(c, c'))
  {
    hide PostTicket;
    if c.session.Some? {
      ExchangeConsumes(env, c, Some(Renewal(c.session.value)));
    }
  }

  lemma AuthenticateConsumes(env: Env, c: Client)
    ensures var (err, c') := Authenticate(env, c);
            Consumes(c, c') && (err == Some(Refused) ==> Stuck(c, c'))
  {
    hide PostTicket, SessionCredentials;
    CredentialsFrame(env, c);
    var (creds, c1) := SessionCredentials(env, c);
    ExchangeConsumes(env, c1, creds);
  }

  /** Using up more replies, before and after. */
  lemma ConsumesFirst(c: Client, c1: Client, c': Client)
    requires c.replies != [] && c1.replies == c.replies[1..] && Consumes(c1, c')
    ensures Consumes(c, c') && (Stuck(c1, c') ==> Stuck(c, c'))
  {}

  lemma NothingConsumed(c: Client)
    ensures Consumes(c, c) && (c.replies == [] ==> Stuck(c, c))
  {}

  lemma OneConsumed(c: Client, c': Client)
    requires c.replies != [] && c'.replies == c.replies[1..]
    ensures Consumes(c, c') && (c.replies[0].NotSent? ==> Stuck(c, c'))
  {}

  lemma ConsumesThen(c: Client, c1: Client, c': Client)
    requires Consumes(c, c1) && Consumes(c1, c')
    ensures Consumes(c, c') && (Stuck(c1, c') ==> Stuck(c, c'))
  {
    if |c'.replies| < |c1.replies| {
      assert c1.replies[|c1.replies| - |c'.replies| - 1] == c.replies[|c.replies| - |c'.replies| - 1];
    }
  }

  /** Req says that a request was refused only when one was. */
  lemma {:induction false} RefusedMeansUnsent(env: Env, c: Client, verb: string, path: string, payload: Payload, target: Target)
    requires !target.IntoSession?
    ensures var (err, c') := Req(env, c, verb, path, payload, target);
            Consumes(c, c') && (err == Some(Refused) ==> Stuck(c, c'))
    decreases |c.replies|
  {
    hide CreateSession, Url, TicketUrl, HandleResponse, Consumes, Stuck;
    var url := Url(env.base, path);
    NothingConsumed(c);
    if c.replies != [] {
      var reply := c.replies[0];
      var used := c.(replies := c.replies[1..]);
      var c1 := used.(sent := c.sent + [Sent(verb, url, payload, reply)]);
      OneConsumed(c, used);
      OneConsumed(c, c1);
      if reply.Answer? {
        NotRefused(c1, reply.status, reply.data, target);
        ResponseHandling(c1, reply.status, reply.data, target);
      }
      if reply.Answer? && (reply.status == 401 || reply.status == 403) && url != TicketUrl(env) && env.credentials.Some? {
        CreateSessionConsumes(env, c1);
        var (err, c2) := CreateSession(env, c1);
        if err.None? {
          RefusedMeansUnsent(env, c2, verb, url, payload, target);
          ConsumesThen(c1, c2, Req(env, c2, verb, url, payload, target).1);
          ConsumesFirst(c, c1, Req(env, c2, verb, url, payload, target).1);
        } else {
          ConsumesFirst(c, c1, c2);
        }
      }
    }
  }
}
