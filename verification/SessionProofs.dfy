/** Properties of the session protocol over every reply sequence and every clock. */
module SessionProofs {
  import opened Prelude
  import opened Session

  // ------------------------------------------------------------ one exchange

  predicate IsTicketExchange(env: Env, x: Sent) {
    x.url == TicketUrl(env) && x.payload.TicketBody?
  }

  /** The premise of the time bounds: no accepted ticket reply is {"data":null}. */
  predicate TicketsCarrySessions(env: Env, sent: seq<Sent>) {
    forall x | x in sent && IsTicketExchange(env, x) && x.reply.Answer? :: !x.reply.data.Null?
  }

  /** A ticket exchange touches the session, the reply stream and the trace, nothing else;
      in particular it never creates a session itself. */
  lemma TicketExchange(env: Env, c: Client, creds: Option<Credentials>)
    ensures var (err, c') := PostTicket(env, c, creds);
            && c'.tickets == c.tickets + [creds]
            && c'.expiresAt == c.expiresAt && c'.otp == c.otp && c'.stamps == c.stamps
            && c'.clock == c.clock && c'.readings == c.readings
            && (c'.sent == c.sent || exists x :: IsTicketExchange(env, x) && c'.sent == c.sent + [x])
            && (c.session.Some? && TicketsCarrySessions(env, c'.sent) ==> c'.session.Some?)
            && (err.None? && TicketsCarrySessions(env, c'.sent) ==> c'.session.Some?)
            && err != Some(SessionExists)
  {
    hide CreateSession;
    assert TICKET_PATH[0] == '/' && Url(env.base, TICKET_PATH) == TicketUrl(env);
    if c.replies != [] && !c.replies[0].NotSent? {
      var x := Sent("POST", TicketUrl(env), TicketBody(creds), c.replies[0]);
      assert PostTicket(env, c, creds).1.sent == c.sent + [x];
      assert x in c.sent + [x];
    }
  }

  // ---------------------------------------------- spacing of authentications

  /** What keeps successful CreateSession calls apart. */
  predicate Healthy(c: Client) {
    Spaced(c.stamps) &&
    (c.stamps != [] ==>
      var last := c.stamps[|c.stamps| - 1];
      c.session.Some? && last + HOUR <= c.expiresAt && last <= c.clock)
  }

  predicate Grows(c: Client, c': Client) {
    c.sent <= c'.sent && c.stamps <= c'.stamps && c.clock <= c'.clock
  }

  lemma PrefixCarriesSessions(env: Env, sent: seq<Sent>, longer: seq<Sent>)
    requires sent <= longer && TicketsCarrySessions(env, longer)
    ensures TicketsCarrySessions(env, sent)
  {
    forall x | x in sent ensures x in longer {
      var i :| 0 <= i < |sent| && sent[i] == x;
      assert longer[i] == x;
    }
  }

  // The trace, the stamps and the clock only grow; a success of CreateSession adds one stamp.

  lemma RefreshGrows(env: Env, c: Client)
    ensures var (err, c') := RefreshLocked(env, c);
            Grows(c, c') && c'.stamps == c.stamps && c'.otp == c.otp
            && (err.None? ==> c'.expiresAt == c'.clock + HOUR)
            && (err.Some? ==> c'.expiresAt == c.expiresAt && c'.clock == c.clock)
            && (TicketsCarrySessions(env, c'.sent) && (c.session.Some? || err.None?) ==> c'.session.Some?)
  {
    hide PostTicket;
    if c.session.Some? && c.session.value.ticket != "" {
      TicketExchange(env, c, Some(Renewal(c.session.value)));
    }
  }

  /** Choosing the credentials changes nothing but the one-time password. */
  lemma CredentialsFrame(env: Env, c: Client)
    ensures var c' := SessionCredentials(env, c).1; c' == c.(otp := c'.otp)
  {}

  lemma AuthenticateGrows(env: Env, c: Client)
    ensures var (err, c') := Authenticate(env, c);
            && Grows(c, c')
            && (err.None? ==> c'.stamps == c.stamps + [c'.clock] && c'.expiresAt == c'.clock + HOUR)
            && (err.Some? ==> c'.stamps == c.stamps && c'.expiresAt == c.expiresAt && c'.clock == c.clock)
            && (TicketsCarrySessions(env, c'.sent) && (c.session.Some? || err.None?) ==> c'.session.Some?)
            && err != Some(SessionExists)
  {
    hide PostTicket, SessionCredentials;
    CredentialsFrame(env, c);
    var (creds, c1) := SessionCredentials(env, c);
    TicketExchange(env, c1, creds);
  }

  lemma CreateSessionGrows(env: Env, c: Client)
    ensures var (err, c') := CreateSession(env, c);
            && Grows(c, c')
            && |c'.stamps| == |c.stamps| + (if err.None? then 1 else 0)
  {
    hide RefreshLocked, Authenticate;
    if c.session.None? {
      AuthenticateGrows(env, c);
    } else {
      var c1 := Tick(env, c);
      RefreshGrows(env, c1);
      AuthenticateGrows(env, RefreshLocked(env, c1).1);
    }
  }

  /** CreateSession keeps successes an hour apart: it refuses while the last one is fresh. */
  lemma CreateSessionIsHealthy(env: Env, c: Client)
    requires Healthy(c) && TicketsCarrySessions(env, CreateSession(env, c).1.sent)
    ensures Healthy(CreateSession(env, c).1)
  {
    hide RefreshLocked, Authenticate;
    if c.session.None? {
      AuthenticateGrows(env, c);
    } else {
      var c1 := Tick(env, c);
      RefreshGrows(env, c1);
      if c1.expiresAt <= c1.clock {
        var (err, c2) := RefreshLocked(env, c1);
        AuthenticateGrows(env, c2);
        if err.Some? {
          PrefixCarriesSessions(env, c2.sent, Authenticate(env, c2).1.sent);
        }
      }
    }
  }

  /** One reply of Req for something other than the ticket endpoint. */
  lemma {:induction false} ReqGrows(env: Env, c: Client, verb: string, path: string, payload: Payload, target: Target)
    requires !target.IntoSession?
    ensures Grows(c, Req(env, c, verb, path, payload, target).1)
    decreases |c.replies|
  {
    hide CreateSession;
    var url := Url(env.base, path);
    if c.replies != [] && !c.replies[0].NotSent? {
      var reply := c.replies[0];
      var c1 := c.(replies := c.replies[1..], sent := c.sent + [Sent(verb, url, payload, reply)]);
      if reply.Answer? && (reply.status == 401 || reply.status == 403) && url != TicketUrl(env) && env.credentials.Some? {
        CreateSessionGrows(env, c1);
        var (err, c2) := CreateSession(env, c1);
        if err.None? {
          ReqGrows(env, c2, verb, url, payload, target);
        }
      }
    }
  }

  /** Req on the caller's behalf keeps authentications an hour apart. */
  lemma {:induction false} ReqIsHealthy(env: Env, c: Client, verb: string, path: string, payload: Payload, target: Target)
    requires !target.IntoSession? && Healthy(c)
    requires TicketsCarrySessions(env, Req(env, c, verb, path, payload, target).1.sent)
    ensures Healthy(Req(env, c, verb, path, payload, target).1)
    decreases |c.replies|
  {
    hide CreateSession;
    var url := Url(env.base, path);
    if c.replies != [] && !c.replies[0].NotSent? {
      var reply := c.replies[0];
      var c1 := c.(replies := c.replies[1..], sent := c.sent + [Sent(verb, url, payload, reply)]);
      if reply.Answer? && (reply.status == 401 || reply.status == 403) && url != TicketUrl(env) && env.credentials.Some? {
        var (err, c2) := CreateSession(env, c1);
        if err.None? {
          ReqGrows(env, c2, verb, url, payload, target);
          PrefixCarriesSessions(env, c2.sent, Req(env, c2, verb, url, payload, target).1.sent);
        }
        CreateSessionIsHealthy(env, c1);
        if err.None? {
          ReqIsHealthy(env, c2, verb, url, payload, target);
        }
      }
    }
  }

  lemma PerformIsHealthy(env: Env, c: Client, op: Op)
    requires Healthy(c) && TicketsCarrySessions(env, Perform(env, c, op).1.sent)
    ensures Healthy(Perform(env, c, op).1) && Grows(c, Perform(env, c, op).1)
  {
    hide Req, CreateSession, RefreshLocked, PostTicket;
    PerformGrows(env, c, op);
    match op
    case DoReq(verb, path, payload, decode) =>
      ReqIsHealthy(env, c, verb, path, UserBody(payload), if decode then IntoCaller else Discard);
    case DoCreateSession => CreateSessionIsHealthy(env, c);
    case DoRefreshTicket => RefreshGrows(env, c);
    case DoLogin(username, password) =>
      TicketExchange(env, c, Some(Credentials(username, password, "", "", "", "")));
  }

  lemma PerformGrows(env: Env, c: Client, op: Op)
    ensures Grows(c, Perform(env, c, op).1)
  {
    hide Req, CreateSession, RefreshLocked, PostTicket;
    match op
    case DoReq(verb, path, payload, decode) =>
      ReqGrows(env, c, verb, path, UserBody(payload), if decode then IntoCaller else Discard);
    case DoCreateSession => CreateSessionGrows(env, c);
    case DoRefreshTicket => RefreshGrows(env, c);
    case DoLogin(username, password) =>
      TicketExchange(env, c, Some(Credentials(username, password, "", "", "", "")));
  }

  lemma {:induction false} RunGrows(env: Env, c: Client, ops: seq<Op>)
    ensures Grows(c, RunOps(env, c, ops))
    decreases |ops|
  {
    if ops != [] {
      PerformGrows(env, c, ops[0]);
      RunGrows(env, Perform(env, c, ops[0]).1, ops[1..]);
    }
  }

  /** Over any run of Req, CreateSession, RefreshTicket and Login from a new client,
      successive successful CreateSession calls are at least one hour apart. */
  lemma {:induction false} AuthenticationsAreSpaced(env: Env, c: Client, ops: seq<Op>)
    requires Healthy(c) && TicketsCarrySessions(env, RunOps(env, c, ops).sent)
    ensures Healthy(RunOps(env, c, ops)) && Spaced(RunOps(env, c, ops).stamps)
    decreases |ops|
  {
    hide Perform;
    if ops != [] {
      var c1 := Perform(env, c, ops[0]).1;
      RunGrows(env, c1, ops[1..]);
      PrefixCarriesSessions(env, c1.sent, RunOps(env, c, ops).sent);
      PerformIsHealthy(env, c, ops[0]);
      AuthenticationsAreSpaced(env, c1, ops[1..]);
    }
  }

  // ------------------------------------------------------- bound on resends

  /** The requests other than those to the ticket endpoint, in order. */
  function Own(env: Env, sent: seq<Sent>): seq<Sent> {
    if sent == [] then []
    else
      var last := sent[|sent| - 1];
      Own(env, sent[..|sent| - 1]) + (if last.url == TicketUrl(env) then [] else [last])
  }

  lemma OwnOfAppend(env: Env, sent: seq<Sent>, x: Sent)
    ensures Own(env, sent + [x]) == Own(env, sent) + (if x.url == TicketUrl(env) then [] else [x])
  {
    assert (sent + [x])[..|sent|] == sent;
  }

  lemma TicketExchangeIsNotOwn(env: Env, c: Client, creds: Option<Credentials>)
    ensures Own(env, PostTicket(env, c, creds).1.sent) == Own(env, c.sent)
  {
    hide PostTicket;
    TicketExchange(env, c, creds);
    var c' := PostTicket(env, c, creds).1;
    if c'.sent != c.sent {
      var x :| IsTicketExchange(env, x) && c'.sent == c.sent + [x];
      OwnOfAppend(env, c.sent, x);
    }
  }

  lemma CreateSessionIsNotOwn(env: Env, c: Client)
    ensures Own(env, CreateSession(env, c).1.sent) == Own(env, c.sent)
  {
    hide RefreshLocked, Authenticate, Own;
    var c1 := if c.session.Some? then Tick(env, c) else c;
    RefreshIsNotOwn(env, c1);
    AuthenticateIsNotOwn(env, c1);
    AuthenticateIsNotOwn(env, RefreshLocked(env, c1).1);
  }

  lemma RefreshIsNotOwn(env: Env, c: Client)
    ensures Own(env, RefreshLocked(env, c).1.sent) == Own(env, c.sent)
  {
    hide PostTicket, Own, Renewal;
    if c.session.Some? {
      TicketExchangeIsNotOwn(env, c, Some(Renewal(c.session.value)));
    }
  }

  lemma AuthenticateIsNotOwn(env: Env, c: Client)
    ensures Own(env, Authenticate(env, c).1.sent) == Own(env, c.sent)
  {
    hide PostTicket, Own, SessionCredentials;
    CredentialsFrame(env, c);
    var (creds, c1) := SessionCredentials(env, c);
    TicketExchangeIsNotOwn(env, c1, creds);
  }

  predicate SameCall(xs: seq<Sent>, verb: string, url: string, payload: Payload) {
    forall x | x in xs :: x.verb == verb && x.url == url && x.payload == payload
  }

  lemma ResponseHandling(c: Client, status: int, data: Data, target: Target)
    requires !target.IntoSession?
    ensures var (err, c') := HandleResponse(c, status, data, target);
            c' == c && (err.None? ==> Success(status)) && err != Some(SessionExists)
  {}

  /** Every resend repeats the method, URL and body; there is at most one send more than there
      are re-authentications; and success means that the last send was answered 2xx. */
  lemma {:induction false} ReqResends(env: Env, c: Client, verb: string, path: string, payload: Payload, target: Target)
    returns (sends: seq<Sent>)
    requires !target.IntoSession? && Url(env.base, path) != TicketUrl(env)
    requires !(Rooted(path) && Rooted(env.base))
    ensures var (err, c') := Req(env, c, verb, path, payload, target);
            && Own(env, c'.sent) == Own(env, c.sent) + sends
            && SameCall(sends, verb, Url(env.base, path), payload)
            && |sends| <= 1 + |c'.stamps| - |c.stamps|
            && c.stamps <= c'.stamps
            && (err.None? ==> sends != [] && sends[|sends| - 1].reply.Answer? && Success(sends[|sends| - 1].reply.status))
            && err != Some(SessionExists)
    decreases |c.replies|
  {
    hide CreateSession, HandleResponse, Own, Url, Rooted, TicketUrl, Success;
    sends := [];
    var url := Url(env.base, path);
    if c.replies != [] && !c.replies[0].NotSent? {
      var reply := c.replies[0];
      var x := Sent(verb, url, payload, reply);
      var c1 := c.(replies := c.replies[1..], sent := c.sent + [x]);
      OwnOfAppend(env, c.sent, x);
      sends := [x];
      if reply.Answer? {
        ResponseHandling(c1, reply.status, reply.data, target);
      }
      if reply.Answer? && (reply.status == 401 || reply.status == 403) && env.credentials.Some? {
        CreateSessionGrows(env, c1);
        CreateSessionIsNotOwn(env, c1);
        var (err, c2) := CreateSession(env, c1);
        if err.None? {
          ResendKeepsUrl(env.base, path);
          var rest := ReqResends(env, c2, verb, url, payload, target);
          sends := [x] + rest;
        }
      }
    }
  }

  // ------------------------------------------- accepted null ticket replies

  /** An accepted ticket reply whose data is null: it takes the session away. */
  predicate IsNullTicket(env: Env, x: Sent) {
    IsTicketExchange(env, x) && x.reply.Answer? && Success(x.reply.status) && x.reply.data.Null?
  }

  function NullTicketsIn(env: Env, sent: seq<Sent>): nat {
    if sent == [] then 0
    else NullTicketsIn(env, sent[..|sent| - 1]) + (if IsNullTicket(env, sent[|sent| - 1]) then 1 else 0)
  }

  lemma NullTicketsOfAppend(env: Env, sent: seq<Sent>, x: Sent)
    ensures NullTicketsIn(env, sent + [x]) == NullTicketsIn(env, sent) + (if IsNullTicket(env, x) then 1 else 0)
  {
    assert (sent + [x])[..|sent|] == sent;
  }

  /** One while the client has no session. */
  function Bare(c: Client): nat {
    if c.session.None? then 1 else 0
  }

  lemma OnlyNullTakesAway(c: Client, status: int, data: Data)
    ensures var (err, c') := HandleResponse(c, status, data, IntoSession);
            var nulls := if Success(status) && data.Null? then 1 else 0;
            c'.sent == c.sent && nulls >= if err.None? then Bare(c') else Max(0, Bare(c') - Bare(c))
  {}

  /** Only an accepted null reply takes a session away, or ends a successful exchange without. */
  lemma ExchangeIsPaid(env: Env, c: Client, creds: Option<Credentials>)
    ensures var (err, c') := PostTicket(env, c, creds);
            NullTicketsIn(env, c'.sent) - NullTicketsIn(env, c.sent) >= if err.None? then Bare(c') else Max(0, Bare(c') - Bare(c))
  {
    hide CreateSession, NullTicketsIn, HandleResponse, Success;
    assert TICKET_PATH[0] == '/' && Url(env.base, TICKET_PATH) == TicketUrl(env);
    if c.replies != [] && !c.replies[0].NotSent? {
      var x := Sent("POST", TicketUrl(env), TicketBody(creds), c.replies[0]);
      var c1 := c.(tickets := c.tickets + [creds], replies := c.replies[1..], sent := c.sent + [x]);
      NullTicketsOfAppend(env, c.sent, x);
      if x.reply.Answer? {
        OnlyNullTakesAway(c1, x.reply.status, x.reply.data);
      }
    }
  }

  lemma RefreshIsPaid(env: Env, c: Client)
    ensures var (err, c') := RefreshLocked(env, c);
            NullTicketsIn(env, c'.sent) - NullTicketsIn(env, c.sent) >= if err.None? then Bare(c') else Max(0, Bare(c') - Bare(c))
  {
    hide PostTicket, NullTicketsIn;
    if c.session.Some? && c.session.value.ticket != "" {
      hide Renewal;
      var creds := Some(Renewal(c.session.value));
      ExchangeIsPaid(env, c, creds);
      var (err, c1) := PostTicket(env, c, creds);
      assert RefreshLocked(env, c) == if err.Some? then (err, c1) else (None, Extend(env, c1));
    } else {
      assert RefreshLocked(env, c) == (Some(NoSession), c);
    }
  }

  lemma StampingFrame(env: Env, c: Client)
    ensures var c' := Stamped(Extend(env, c)); c'.sent == c.sent && c'.session == c.session
  {}

  lemma AuthenticateIsPaid(env: Env, c: Client)
    ensures var (err, c') := Authenticate(env, c);
            NullTicketsIn(env, c'.sent) - NullTicketsIn(env, c.sent) >= if err.None? then Bare(c') else Max(0, Bare(c') - Bare(c))
  {
    hide PostTicket, NullTicketsIn, SessionCredentials, Stamped, Extend;
    CredentialsFrame(env, c);
    var (creds, c1) := SessionCredentials(env, c);
    ExchangeIsPaid(env, c1, creds);
    StampingFrame(env, PostTicket(env, c1, creds).1);
  }

  function LastStamp(c: Client): int
    requires c.stamps != []
  {
    c.stamps[|c.stamps| - 1]
  }

  /** The last success is not in the future, and the expiry is an hour after it. */
  predicate Timed(c: Client) {
    c.stamps != [] && LastStamp(c) <= c.clock && LastStamp(c) + HOUR <= c.expiresAt
  }

  /** A success of CreateSession comes an hour after the one before it, unless the session was
      taken away meanwhile; and it pays for the next such exception with a null reply. */
  lemma CreateSessionIsPaced(env: Env, c: Client)
    ensures var (err, c') := CreateSession(env, c);
            var nulls := NullTicketsIn(env, c'.sent) - NullTicketsIn(env, c.sent);
            && nulls >= (if err.None? then Bare(c') else Max(0, Bare(c') - Bare(c)))
            && (err.None? ==> Timed(c') && c'.stamps == c.stamps + [LastStamp(c')])
            && (err.Some? ==> c'.stamps == c.stamps && (Timed(c) ==> Timed(c')))
            && (err.None? && Timed(c) ==> LastStamp(c') - LastStamp(c) >= HOUR * (1 - Bare(c)))
  {
    hide RefreshLocked, Authenticate, NullTicketsIn;
    var c1 := if c.session.Some? then Tick(env, c) else c;
    var c2 := if c.session.Some? then RefreshLocked(env, c1).1 else c1;
    if c.session.Some? {
      RefreshIsPaid(env, c1);
      RefreshGrows(env, c1);
    }
    AuthenticateIsPaid(env, c2);
    AuthenticateGrows(env, c2);
  }

  /** From c on, successes are paced by the clock and by null replies. */
  predicate Paced(env: Env, c: Client, c': Client)
    requires c.stamps != []
  {
    && Timed(c') && |c.stamps| <= |c'.stamps|
    && LastStamp(c') - LastStamp(c) + HOUR * (NullTicketsIn(env, c'.sent) - NullTicketsIn(env, c.sent))
       >= HOUR * (|c'.stamps| - |c.stamps| + Bare(c') - Bare(c))
  }

  /** The request is not a ticket exchange, neither when it is sent nor when it is resent. */
  predicate Ordinary(env: Env, path: string, payload: Payload) {
    payload.TicketBody? ==> Url(env.base, path) != TicketUrl(env) && !(Rooted(path) && Rooted(env.base))
  }

  lemma {:induction false} ReqIsPaced(env: Env, c: Client, verb: string, path: string, payload: Payload, target: Target)
    requires Timed(c) && !target.IntoSession? && Ordinary(env, path, payload)
    ensures Paced(env, c, Req(env, c, verb, path, payload, target).1)
    decreases |c.replies|
  {
    hide CreateSession, HandleResponse, NullTicketsIn, Url, Rooted, TicketUrl;
    var url := Url(env.base, path);
    if c.replies != [] && !c.replies[0].NotSent? {
      var reply := c.replies[0];
      var x := Sent(verb, url, payload, reply);
      var c1 := c.(replies := c.replies[1..], sent := c.sent + [x]);
      NullTicketsOfAppend(env, c.sent, x);
      if reply.Answer? {
        ResponseHandling(c1, reply.status, reply.data, target);
      }
      if reply.Answer? && (reply.status == 401 || reply.status == 403) && url != TicketUrl(env) && env.credentials.Some? {
        CreateSessionIsPaced(env, c1);
        var (err, c2) := CreateSession(env, c1);
        if err.None? {
          ResendKeepsUrl(env.base, path);
          ReqIsPaced(env, c2, verb, url, payload, target);
        }
      }
    }
  }

  /** The same for a whole request, counted from its first success. */
  lemma ReqPace(env: Env, c: Client, verb: string, path: string, payload: Payload, target: Target)
    requires !target.IntoSession? && Url(env.base, path) != TicketUrl(env) && !(Rooted(path) && Rooted(env.base))
    ensures var c' := Req(env, c, verb, path, payload, target).1;
            && |c.stamps| <= |c'.stamps|
            && (|c.stamps| < |c'.stamps| ==>
                  Timed(c') &&
                  LastStamp(c') - c'.stamps[|c.stamps|] + HOUR * (NullTicketsIn(env, c'.sent) - NullTicketsIn(env, c.sent))
                  >= HOUR * (|c'.stamps| - |c.stamps| - 1 + Bare(c')))
  {
    hide CreateSession, HandleResponse, NullTicketsIn, Url, Rooted, TicketUrl;
    var url := Url(env.base, path);
    if c.replies != [] && !c.replies[0].NotSent? {
      var reply := c.replies[0];
      var x := Sent(verb, url, payload, reply);
      var c1 := c.(replies := c.replies[1..], sent := c.sent + [x]);
      NullTicketsOfAppend(env, c.sent, x);
      if reply.Answer? {
        ResponseHandling(c1, reply.status, reply.data, target);
      }
      if reply.Answer? && (reply.status == 401 || reply.status == 403) && env.credentials.Some? {
        CreateSessionIsPaced(env, c1);
        var (err, c2) := CreateSession(env, c1);
        if err.None? {
          ResendKeepsUrl(env.base, path);
          ReqIsPaced(env, c2, verb, url, payload, target);
          ReqGrows(env, c2, verb, url, payload, target);
        }
      }
    }
  }

  /** The pace of a run with at least one success: every success after the first one takes an
      hour of the clock or a null reply. */
  predicate RunPaced(env: Env, c: Client) {
    c.stamps != [] ==>
      && Timed(c)
      && HOUR * (|c.stamps| - 1 + Bare(c)) <= LastStamp(c) - c.stamps[0] + HOUR * NullTicketsIn(env, c.sent)
  }

  lemma PacedKeepsRunPaced(env: Env, c: Client, c': Client)
    requires c.stamps != [] && c.stamps <= c'.stamps && RunPaced(env, c) && Paced(env, c, c')
    ensures RunPaced(env, c')
  {
    assert c'.stamps[0] == c.stamps[0];
  }

  lemma RefreshIsPaced(env: Env, c: Client)
    ensures c.stamps == [] ==> RefreshLocked(env, c).1.stamps == []
    ensures Timed(c) ==> Paced(env, c, RefreshLocked(env, c).1)
  {
    hide RefreshLocked, NullTicketsIn;
    RefreshGrows(env, c);
    RefreshIsPaid(env, c);
  }

  lemma LoginIsPaced(env: Env, c: Client, creds: Option<Credentials>)
    ensures c.stamps == [] ==> PostTicket(env, c, creds).1.stamps == []
    ensures Timed(c) ==> Paced(env, c, PostTicket(env, c, creds).1)
  {
    hide PostTicket, NullTicketsIn;
    TicketExchange(env, c, creds);
    ExchangeIsPaid(env, c, creds);
  }

  lemma {:induction false} PerformIsPaced(env: Env, c: Client, op: Op)
    requires RunPaced(env, c)
    ensures RunPaced(env, Perform(env, c, op).1)
  {
    hide Req, CreateSession, RefreshLocked, PostTicket, NullTicketsIn, Paced;
    PerformGrows(env, c, op);
    match op {
      case DoReq(verb, path, payload, decode) =>
        var target := if decode then IntoCaller else Discard;
        if c.stamps == [] {
          ReqStartsPaced(env, c, verb, path, UserBody(payload), target);
        } else {
          ReqIsPaced(env, c, verb, path, UserBody(payload), target);
        }
      case DoCreateSession => CreateSessionKeepsPace(env, c);
      case DoRefreshTicket => RefreshIsPaced(env, c);
      case DoLogin(username, password) => LoginIsPaced(env, c, Some(Credentials(username, password, "", "", "", "")));
    }
    if c.stamps != [] && !op.DoCreateSession? {
      PacedKeepsRunPaced(env, c, Perform(env, c, op).1);
    }
  }

  lemma CreateSessionKeepsPace(env: Env, c: Client)
    requires RunPaced(env, c)
    ensures RunPaced(env, CreateSession(env, c).1)
  {
    hide CreateSession, NullTicketsIn;
    CreateSessionIsPaced(env, c);
  }

  /** A request that makes the first success of all. */
  lemma {:induction false} ReqStartsPaced(env: Env, c: Client, verb: string, path: string, payload: Payload, target: Target)
    requires c.stamps == [] && !target.IntoSession? && Ordinary(env, path, payload)
    ensures RunPaced(env, Req(env, c, verb, path, payload, target).1)
  {
    hide CreateSession, HandleResponse, NullTicketsIn, Url, Rooted, TicketUrl, Paced;
    var url := Url(env.base, path);
    if c.replies != [] && !c.replies[0].NotSent? {
      var reply := c.replies[0];
      var x := Sent(verb, url, payload, reply);
      var c1 := c.(replies := c.replies[1..], sent := c.sent + [x]);
      if reply.Answer? {
        ResponseHandling(c1, reply.status, reply.data, target);
      }
      if reply.Answer? && (reply.status == 401 || reply.status == 403) && url != TicketUrl(env) && env.credentials.Some? {
        CreateSessionIsPaced(env, c1);
        CreateSessionKeepsPace(env, c1);
        var (err, c2) := CreateSession(env, c1);
        if err.None? {
          ResendKeepsUrl(env.base, path);
          ReqIsPaced(env, c2, verb, url, payload, target);
          ReqGrows(env, c2, verb, url, payload, target);
          PacedKeepsRunPaced(env, c2, Req(env, c2, verb, url, payload, target).1);
        }
      }
    }
  }

  /** Over any run from a new client and with any ticket replies, successful CreateSession calls
      number at most one more than the hours between the first and the last, and the null
      ticket replies. */
  lemma {:induction false} AuthenticationsArePaced(env: Env, c: Client, ops: seq<Op>)
    requires RunPaced(env, c)
    ensures RunPaced(env, RunOps(env, c, ops))
    decreases |ops|
  {
    hide Perform, RunPaced;
    if ops != [] {
      PerformIsPaced(env, c, ops[0]);
      AuthenticationsArePaced(env, Perform(env, c, ops[0]).1, ops[1..]);
    }
  }

  /** One Req sends its request at most 2 + floor(D / 1h) + n times, D being the clock time from
      its first successful re-authentication to its return and n the number of null ticket
      replies it accepted; one less if it ends without a session. Without a re-authentication
      it sends at most once. */
  lemma SendsAreBounded(env: Env, c: Client, verb: string, path: string, payload: Payload, target: Target)
    requires !target.IntoSession? && Url(env.base, path) != TicketUrl(env)
    requires !(Rooted(path) && Rooted(env.base))
    ensures var c' := Req(env, c, verb, path, payload, target).1;
            var sends := |Own(env, c'.sent)| - |Own(env, c.sent)|;
            && |c.stamps| <= |c'.stamps|
            && sends <= if |c'.stamps| == |c.stamps| then 1
                        else 2 + (c'.clock - c'.stamps[|c.stamps|]) / HOUR
                               + NullTicketsIn(env, c'.sent) - NullTicketsIn(env, c.sent) - Bare(c')
  {
    hide Req;
    var sends := ReqResends(env, c, verb, path, payload, target);
    ReqPace(env, c, verb, path, payload, target);
  }

  /** Ticket replies that carry sessions leave no null reply to count. */
  lemma {:induction false} NoNullTickets(env: Env, sent: seq<Sent>)
    requires TicketsCarrySessions(env, sent)
    ensures NullTicketsIn(env, sent) == 0
  {
    if sent != [] {
      var front := sent[..|sent| - 1];
      PrefixCarriesSessions(env, front, sent);
      NoNullTickets(env, front);
      assert sent[|sent| - 1] in sent;
    }
  }

  /** So with ticket replies that carry sessions the clock alone bounds the sends. */
  lemma SendsAreBoundedByTime(env: Env, c: Client, verb: string, path: string, payload: Payload, target: Target)
    requires !target.IntoSession? && Url(env.base, path) != TicketUrl(env)
    requires !(Rooted(path) && Rooted(env.base))
    requires TicketsCarrySessions(env, Req(env, c, verb, path, payload, target).1.sent)
    ensures var c' := Req(env, c, verb, path, payload, target).1;
            var sends := |Own(env, c'.sent)| - |Own(env, c.sent)|;
            && |c.stamps| <= |c'.stamps|
            && sends <= if |c'.stamps| == |c.stamps| then 1
                        else 2 + (c'.clock - c'.stamps[|c.stamps|]) / HOUR
  {
    hide Req;
    SendsAreBounded(env, c, verb, path, payload, target);
    NoNullTickets(env, Req(env, c, verb, path, payload, target).1.sent);
  }

  /** Replies that make a client without a session loop: each 401 is followed by a ticket
      reply whose data is null. */
  function NullTickets(n: nat): seq<Reply> {
    if n == 0 then [Answer(200, Null)]
    else [Answer(401, Null), Answer(200, Null)] + NullTickets(n - 1)
  }

  /** The bound is reached, and no bound without the null replies holds: from any URL, with a
      clock that stands still, one Req accepts n of them and sends its request n + 1 times. */
  lemma {:induction false} NullTicketsAreUnbounded(env: Env, c: Client, verb: string, path: string, payload: Payload, target: Target, n: nat)
    requires !target.IntoSession? && Url(env.base, path) != TicketUrl(env) && !(Rooted(path) && Rooted(env.base))
    requires env.credentials.Some? && forall k: nat :: env.drift(k) == 0
    requires c.session.None? && c.replies == NullTickets(n)
    ensures var (err, c') := Req(env, c, verb, path, payload, target);
            && err.None? && c'.session.None? && c'.clock == c.clock
            && |Own(env, c'.sent)| == |Own(env, c.sent)| + n + 1
            && NullTicketsIn(env, c'.sent) == NullTicketsIn(env, c.sent) + n
    decreases n
  {
    hide CreateSession, Own, NullTicketsIn, Url, Rooted, TicketUrl;
    var url := Url(env.base, path);
    var x := Sent(verb, url, payload, c.replies[0]);
    OwnOfAppend(env, c.sent, x);
    NullTicketsOfAppend(env, c.sent, x);
    if n > 0 {
      var c1 := c.(replies := c.replies[1..], sent := c.sent + [x]);
      assert c1.replies == [Answer(200, Null)] + NullTickets(n - 1);
      NullTicketAuthenticates(env, c1, NullTickets(n - 1));
      var c2 := CreateSession(env, c1).1;
      ResendKeepsUrl(env.base, path);
      NullTicketsAreUnbounded(env, c2, verb, url, payload, target, n - 1);
    }
  }

  lemma NullReplyToTicket(env: Env, c: Client, creds: Option<Credentials>, rest: seq<Reply>)
    requires c.replies == [Answer(200, Null)] + rest
    ensures var (err, c') := PostTicket(env, c, creds);
            && err.None? && c'.session.None? && c'.replies == rest
            && NullTicketsIn(env, c'.sent) == NullTicketsIn(env, c.sent) + 1
  {
    hide CreateSession;
    assert TICKET_PATH[0] == '/' && Url(env.base, TICKET_PATH) == TicketUrl(env);
    assert c.replies[0] == Answer(200, Null) && c.replies[1..] == rest;
    NullTicketsOfAppend(env, c.sent, Sent("POST", TicketUrl(env), TicketBody(creds), c.replies[0]));
  }

  lemma NullTicketAuthenticates(env: Env, c: Client, rest: seq<Reply>)
    requires env.credentials.Some? && env.drift(c.readings) == 0
    requires c.session.None? && c.replies == [Answer(200, Null)] + rest
    ensures var (err, c') := CreateSession(env, c);
            && err.None? && c'.session.None? && c'.replies == rest && c'.clock == c.clock
            && Own(env, c'.sent) == Own(env, c.sent)
            && NullTicketsIn(env, c'.sent) == NullTicketsIn(env, c.sent) + 1
  {
    hide PostTicket, NullTicketsIn;
    CreateSessionIsNotOwn(env, c);
    var (creds, c1) := SessionCredentials(env, c);
    NullReplyToTicket(env, c1, creds, rest);
    TicketExchange(env, c1, creds);
  }

  // ------------------------------------------------- errors and answers

  predicate Forbids(status: int) {
    status == 401 || status == 403
  }

  /** errors.Is(err, ErrNotAuthorized), through StatusError.Is. */
  predicate IsNotAuthorized(err: Err) {
    err.NotAuthorized? || (err.BadStatus? && Forbids(err.status))
  }

  /** errors.Is(err, ErrNotFound), through StatusError.Is. */
  predicate IsNotFound(err: Err) {
    err.BadStatus? && err.status == 404
  }

  /** The result that one answer accounts for, when it is decoded to target. */
  predicate Explains(x: Sent, target: Target, err: Option<Err>) {
    match x.reply
    case NotSent => false
    case NoAnswer => err == Some(NoResponse)
    case Answer(status, data) =>
      if Forbids(status) then err == Some(NotAuthorized)
      else if !(200 <= status <= 299) then err == Some(BadStatus(status))
      else err == if data.Unreadable? || (data.Rejected? && !target.Discard?) then Some(BadBody) else None
  }

  /** The call made at least one request, and its last one, a ticket exchange, explains the
      result; or its last step was a request that could not be sent. */
  predicate TicketExplained(env: Env, before: seq<Sent>, err: Option<Err>, after: seq<Sent>) {
    err == Some(Refused) ||
    (before < after && IsTicketExchange(env, after[|after| - 1]) && Explains(after[|after| - 1], IntoSession, err))
  }

  /** The same for Req, whose last request may also be its own. */
  predicate Explained(env: Env, before: seq<Sent>, target: Target, err: Option<Err>, after: seq<Sent>) {
    TicketExplained(env, before, err, after) || (before < after && Explains(after[|after| - 1], target, err))
  }

  lemma PostTicketIsExplained(env: Env, c: Client, creds: Option<Credentials>)
    ensures var (err, c') := PostTicket(env, c, creds); TicketExplained(env, c.sent, err, c'.sent)
  {
    hide CreateSession;
    assert TICKET_PATH[0] == '/' && Url(env.base, TICKET_PATH) == TicketUrl(env);
    if c.replies != [] && !c.replies[0].NotSent? {
      var x := Sent("POST", TicketUrl(env), TicketBody(creds), c.replies[0]);
      assert PostTicket(env, c, creds).1.sent == c.sent + [x];
    }
  }

  /** A refused CreateSession sends nothing; otherwise its last ticket exchange explains its
      result, whatever became of an earlier renewal. */
  lemma CreateSessionIsExplained(env: Env, c: Client)
    ensures var (err, c') := CreateSession(env, c);
            && c.sent <= c'.sent
            && (if err == Some(SessionExists) then c'.sent == c.sent else TicketExplained(env, c.sent, err, c'.sent))
  {
    hide PostTicket;
    CreateSessionGrows(env, c);
    var c1 := if c.session.Some? then Tick(env, c) else c;
    if c1.session.Some? {
      PostTicketIsExplained(env, c1, Some(Renewal(c1.session.value)));
      RefreshGrows(env, c1);
    }
    var c2 := if c1.session.Some? then RefreshLocked(env, c1).1 else c1;
    var (creds, c3) := SessionCredentials(env, c2);
    PostTicketIsExplained(env, c3, creds);
  }

  /** Whatever Req returns, the last request that it made, its own or one to the ticket
      endpoint, was answered accordingly. */
  lemma {:induction false} ReqIsExplained(env: Env, c: Client, verb: string, path: string, payload: Payload, target: Target)
    requires !target.IntoSession?
    ensures var (err, c') := Req(env, c, verb, path, payload, target); Explained(env, c.sent, target, err, c'.sent)
    decreases |c.replies|
  {
    hide CreateSession, Url, TicketUrl;
    var url := Url(env.base, path);
    if c.replies != [] && !c.replies[0].NotSent? {
      var reply := c.replies[0];
      var x := Sent(verb, url, payload, reply);
      var c1 := c.(replies := c.replies[1..], sent := c.sent + [x]);
      if reply.Answer? && Forbids(reply.status) && url != TicketUrl(env) && env.credentials.Some? {
        CreateSessionIsExplained(env, c1);
        var (err, c2) := CreateSession(env, c1);
        if err.None? {
          ReqIsExplained(env, c2, verb, url, payload, target);
          assert Req(env, c, verb, path, payload, target) == Req(env, c2, verb, url, payload, target);
        }
      }
    }
  }

  /** IsNotAuthorized and IsNotFound say what the last answer was: 401 or 403, and 404. */
  lemma ErrorsMatchAnswers(env: Env, c: Client, verb: string, path: string, payload: Payload, target: Target)
    requires !target.IntoSession?
    ensures var (err, c') := Req(env, c, verb, path, payload, target);
            err.Some? && !err.value.Refused? ==>
              && c.sent < c'.sent
              && var last := c'.sent[|c'.sent| - 1].reply;
                 && (IsNotAuthorized(err.value) <==> last.Answer? && Forbids(last.status))
                 && (IsNotFound(err.value) <==> last.Answer? && last.status == 404)
                 && !err.value.SessionExists? && !err.value.NoSession?
  {
    hide Req;
    ReqIsExplained(env, c, verb, path, payload, target);
  }

  // --------------------------------------------------------------- the OTP

  function WithOtp(tickets: seq<Option<Credentials>>, code: string): nat {
    if tickets == [] then 0
    else
      var last := tickets[|tickets| - 1];
      WithOtp(tickets[..|tickets| - 1], code) + (if last.Some? && last.value.otp == code then 1 else 0)
  }

  lemma WithOtpOfAppend(tickets: seq<Option<Credentials>>, creds: Option<Credentials>, code: string)
    ensures WithOtp(tickets + [creds], code) ==
            WithOtp(tickets, code) + (if creds.Some? && creds.value.otp == code then 1 else 0)
  {
    assert (tickets + [creds])[..|tickets|] == tickets;
  }

  /** The code is either still in the client or in exactly one ticket body, never both. */
  predicate OtpAccounted(c: Client, code: string) {
    (c.otp == code && WithOtp(c.tickets, code) == 0) || (c.otp == "" && WithOtp(c.tickets, code) == 1)
  }

  /** The caller put no one-time password into the credentials themselves. */
  predicate PlainCredentials(env: Env) {
    env.credentials.Some? ==> env.credentials.value.otp == ""
  }

  /** A renewal carries no OTP and does not spend one. */
  lemma RenewalCarriesNoOtp(env: Env, c: Client, code: string)
    requires code != ""
    ensures var c' := RefreshLocked(env, c).1;
            c'.otp == c.otp && WithOtp(c'.tickets, code) == WithOtp(c.tickets, code)
  {
    hide PostTicket;
    if c.session.Some? && c.session.value.ticket != "" {
      var renewal := Renewal(c.session.value);
      TicketExchange(env, c, Some(renewal));
      WithOtpOfAppend(c.tickets, Some(renewal), code);
    }
  }

  /** The first authentication with full credentials spends the code, even if it fails. */
  lemma AuthenticateSpendsOtp(env: Env, c: Client, code: string)
    requires code != "" && PlainCredentials(env) && OtpAccounted(c, code)
    ensures var c' := Authenticate(env, c).1;
            OtpAccounted(c', code) && (env.credentials.Some? ==> c'.otp == "")
  {
    hide PostTicket;
    var (creds, c1) := SessionCredentials(env, c);
    TicketExchange(env, c1, creds);
    WithOtpOfAppend(c1.tickets, creds, code);
  }

  lemma CreateSessionAccountsOtp(env: Env, c: Client, code: string)
    requires code != "" && PlainCredentials(env) && OtpAccounted(c, code)
    ensures OtpAccounted(CreateSession(env, c).1, code)
  {
    hide RefreshLocked, Authenticate;
    var c1 := if c.session.Some? then Tick(env, c) else c;
    RenewalCarriesNoOtp(env, c1, code);
    AuthenticateSpendsOtp(env, c1, code);
    AuthenticateSpendsOtp(env, RefreshLocked(env, c1).1, code);
  }

  lemma {:induction false} ReqAccountsOtp(env: Env, c: Client, verb: string, path: string, payload: Payload, target: Target, code: string)
    requires code != "" && PlainCredentials(env) && OtpAccounted(c, code)
    ensures OtpAccounted(Req(env, c, verb, path, payload, target).1, code)
    decreases |c.replies|
  {
    hide CreateSession;
    var url := Url(env.base, path);
    if c.replies != [] && !c.replies[0].NotSent? {
      var c1 := c.(replies := c.replies[1..], sent := c.sent + [Sent(verb, url, payload, c.replies[0])]);
      CreateSessionAccountsOtp(env, c1, code);
      var (err, c2) := CreateSession(env, c1);
      if |c2.replies| < |c.replies| {
        ReqAccountsOtp(env, c2, verb, url, payload, target, code);
      }
    }
  }

  /** Over any run, the WithOTP code is in at most one ticket body handed to Req; it is in
      exactly one as soon as the client no longer holds it. */
  lemma {:induction false} OtpIsUsedOnce(env: Env, c: Client, ops: seq<Op>, code: string)
    requires code != "" && PlainCredentials(env) && OtpAccounted(c, code)
    ensures OtpAccounted(RunOps(env, c, ops), code)
    decreases |ops|
  {
    hide Req, CreateSession, RefreshLocked, PostTicket;
    if ops != [] {
      var op := ops[0];
      match op {
        case DoReq(verb, path, payload, decode) =>
          ReqAccountsOtp(env, c, verb, path, UserBody(payload), if decode then IntoCaller else Discard, code);
        case DoCreateSession => CreateSessionAccountsOtp(env, c, code);
        case DoRefreshTicket => RenewalCarriesNoOtp(env, c, code);
        case DoLogin(username, password) =>
          var creds := Credentials(username, password, "", "", "", "");
          TicketExchange(env, c, Some(creds));
          WithOtpOfAppend(c.tickets, Some(creds), code);
      }
      OtpIsUsedOnce(env, Perform(env, c, op).1, ops[1..], code);
    }
  }
}
