/** The session protocol: what Req, CreateSession and the ticket calls do to the client.

    A run is driven by a finite list of replies (one per request the client makes) and by a
    clock that may advance by any amount before each reading. */
module Session {
  import opened Prelude

  const HOUR: int := 3_600_000_000_000
  const TICKET_PATH := "/access/ticket"

  datatype Ticket = Ticket(username: string, ticket: string, csrf: string)

  /** The members a JSON session object carries; an absent one leaves the field alone. */
  datatype TicketFields = TicketFields(username: Option<string>, ticket: Option<string>, csrf: Option<string>)

  datatype Credentials = Credentials(
    username: string, password: string, otp: string, path: string, privs: string, realm: string)

  datatype Payload = NoPayload | TicketBody(creds: Option<Credentials>) | UserBody(data: string)

  /** The "data" of a reply: null, an object, or something the decoder rejects, possibly
      after it filled in some fields; or a body that cannot be read. */
  datatype Data =
    | Null
    | Object(fields: TicketFields)
    | Rejected(applied: Option<TicketFields>)
    | Unreadable

  /** NotSent: the request could not be built or an interceptor refused it. */
  datatype Reply = NotSent | NoAnswer | Answer(status: int, data: Data)

  datatype Err = Refused | NoResponse | NotAuthorized | BadStatus(status: int) | BadBody | SessionExists | NoSession

  datatype Sent = Sent(verb: string, url: string, payload: Payload, reply: Reply)

  /** Where handleResponse decodes to: nowhere, the caller's value, or c.session. */
  datatype Target = Discard | IntoCaller | IntoSession

  datatype Env = Env(base: string, credentials: Option<Credentials>, realm: string, drift: nat -> nat)

  /** The client: tickets lists the bodies handed to Req by Ticket, stamps the clock value
      of each successful CreateSession. */
  datatype Client = Client(
    session: Option<Ticket>,
    expiresAt: int,
    otp: string,
    clock: int,
    readings: nat,
    replies: seq<Reply>,
    sent: seq<Sent>,
    tickets: seq<Option<Credentials>>,
    stamps: seq<int>)

  predicate Rooted(path: string) {
    path != "" && path[0] == '/'
  }

  function Url(base: string, path: string): string {
    if Rooted(path) then base + path else path
  }

  function TicketUrl(env: Env): string {
    env.base + TICKET_PATH
  }

  /** Req passes the full URL to itself when it resends; the URL is then the same again
      exactly when it is not a rooted path under a rooted base. */
  lemma ResendKeepsUrl(base: string, path: string)
    ensures Url(base, Url(base, path)) == Url(base, path) <==> !(Rooted(path) && Rooted(base))
    ensures !(Rooted(path) && Rooted(base)) ==> !(Rooted(Url(base, path)) && Rooted(base))
  {
    if Rooted(path) && Rooted(base) {
      assert |Url(base, Url(base, path))| > |Url(base, path)|;
    } else if Rooted(path) && base == "" {
      assert base + path == path;
    }
  }

  /** Reading the clock. */
  function Tick(env: Env, c: Client): Client {
    c.(clock := c.clock + env.drift(c.readings), readings := c.readings + 1)
  }

  function Patched(s: Option<Ticket>, f: TicketFields): Ticket {
    var t := if s.Some? then s.value else Ticket("", "", "");
    Ticket(if f.username.Some? then f.username.value else t.username,
           if f.ticket.Some? then f.ticket.value else t.ticket,
           if f.csrf.Some? then f.csrf.value else t.csrf)
  }

  predicate Success(status: int) {
    200 <= status <= 299
  }

  function HandleResponse(c: Client, status: int, data: Data, target: Target): (Option<Err>, Client) {
    if !Success(status) then (Some(BadStatus(status)), c)
    else if data.Unreadable? then (Some(BadBody), c)
    else if target.Discard? then (None, c)
    else if target.IntoCaller? then (if data.Rejected? then Some(BadBody) else None, c)
    else
      match data
      case Null => (None, c.(session := None))
      case Object(f) => (None, c.(session := Some(Patched(c.session, f))))
      case Rejected(applied) =>
        (Some(BadBody), if applied.Some? then c.(session := Some(Patched(c.session, applied.value))) else c)
      case Unreadable => (Some(BadBody), c)
  }

  /** sessionCredentials: the OTP moves out of the client into the returned copy. */
  function SessionCredentials(env: Env, c: Client): (Option<Credentials>, Client) {
    if env.credentials.None? then (None, c)
    else
      var own := env.credentials.value;
      var merged := if c.otp != "" then own.(otp := c.otp) else own;
      var placed :=
        if env.realm != "" && merged.realm == "" && '@' !in merged.username
        then merged.(realm := env.realm) else merged;
      (Some(placed), c.(otp := ""))
  }

  function Renewal(t: Ticket): Credentials {
    Credentials(t.username, t.ticket, "", "", "", "")
  }

  // ------------------------------------------------------------ operations

  function Req(env: Env, c: Client, verb: string, path: string, payload: Payload, target: Target): (r: (Option<Err>, Client))
    ensures |r.1.replies| <= |c.replies|
    decreases |c.replies|, 0
  {
    var url := Url(env.base, path);
    if c.replies == [] || c.replies[0].NotSent? then
      (Some(Refused), if c.replies == [] then c else c.(replies := c.replies[1..]))
    else
      var reply := c.replies[0];
      var c1 := c.(replies := c.replies[1..], sent := c.sent + [Sent(verb, url, payload, reply)]);
      if reply.NoAnswer? then (Some(NoResponse), c1)
      else if reply.status == 401 || reply.status == 403 then
        if url == TicketUrl(env) || env.credentials.None? then (Some(NotAuthorized), c1)
        else
          var (err, c2) := CreateSession(env, c1);
          if err.Some? then (Some(if err.value.SessionExists? then NotAuthorized else err.value), c2)
          else Req(env, c2, verb, url, payload, target)
      else HandleResponse(c1, reply.status, reply.data, target)
  }

  function PostTicket(env: Env, c: Client, creds: Option<Credentials>): (r: (Option<Err>, Client))
    ensures |r.1.replies| <= |c.replies|
    decreases |c.replies|, 1
  {
    Req(env, c.(tickets := c.tickets + [creds]), "POST", TICKET_PATH, TicketBody(creds), IntoSession)
  }

  /** expiresAt = time.Now().Add(time.Hour) */
  function Extend(env: Env, c: Client): Client {
    var c1 := Tick(env, c);
    c1.(expiresAt := c1.clock + HOUR)
  }

  function RefreshLocked(env: Env, c: Client): (r: (Option<Err>, Client))
    ensures |r.1.replies| <= |c.replies|
    decreases |c.replies|, 2
  {
    if c.session.None? || c.session.value.ticket == "" then (Some(NoSession), c)
    else
      var (err, c1) := PostTicket(env, c, Some(Renewal(c.session.value)));
      if err.Some? then (err, c1) else (None, Extend(env, c1))
  }

  /** A successful CreateSession, recorded with the time it counted from. */
  function Stamped(c: Client): Client {
    c.(stamps := c.stamps + [c.expiresAt - HOUR])
  }

  function Authenticate(env: Env, c: Client): (r: (Option<Err>, Client))
    ensures |r.1.replies| <= |c.replies|
    decreases |c.replies|, 2
  {
    var (creds, c1) := SessionCredentials(env, c);
    var (err, c2) := PostTicket(env, c1, creds);
    if err.Some? then (err, c2) else (None, Stamped(Extend(env, c2)))
  }

  function CreateSession(env: Env, c: Client): (r: (Option<Err>, Client))
    ensures |r.1.replies| <= |c.replies|
    decreases |c.replies|, 3
  {
    if c.session.None? then Authenticate(env, c)
    else
      var c1 := Tick(env, c);
      if c1.clock < c1.expiresAt then (Some(SessionExists), c1)
      else
        var (err, c2) := RefreshLocked(env, c1);
        if err.None? then (None, Stamped(c2)) else Authenticate(env, c2)
  }

  function Login(env: Env, c: Client, username: string, password: string): (Option<Err>, Client) {
    PostTicket(env, c, Some(Credentials(username, password, "", "", "", "")))
  }

  // ----------------------------------------------------------- whole runs

  /** Clock values at least one hour apart. */
  predicate Spaced(stamps: seq<int>) {
    forall i | 0 < i < |stamps| :: stamps[i - 1] + HOUR <= stamps[i]
  }

  datatype Op =
    | DoReq(verb: string, path: string, payload: string, decode: bool)
    | DoCreateSession
    | DoRefreshTicket
    | DoLogin(username: string, password: string)

  function Perform(env: Env, c: Client, op: Op): (Option<Err>, Client) {
    match op
    case DoReq(verb, path, payload, decode) =>
      Req(env, c, verb, path, UserBody(payload), if decode then IntoCaller else Discard)
    case DoCreateSession => CreateSession(env, c)
    case DoRefreshTicket => RefreshLocked(env, c)
    case DoLogin(username, password) => Login(env, c, username, password)
  }

  function RunOps(env: Env, c: Client, ops: seq<Op>): Client
    decreases |ops|
  {
    if ops == [] then c
    else RunOps(env, Perform(env, c, ops[0]).1, ops[1..])
  }
}
