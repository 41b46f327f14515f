/** The client object: its session fields, its mutex, and the methods that update them. */
module SessionClient {
  import opened Prelude

  import opened S = Session

  /** The caller's own *Credentials, which the client only points at. */
  class CredentialsBox {
    var value: Credentials

    constructor (value: Credentials)
      ensures this.value == value
    {
      this.value := value;
    }
  }

  class AuthClient {
    const base: string
    const realm: string
    const drift: nat -> nat
    const credentials: CredentialsBox?

    var session: Option<Ticket>
    var expiresAt: int
    var otp: string
    /** sessionMux */
    var locked: bool

    var clock: int
    var readings: nat
    var replies: seq<Reply>
    var sent: seq<Sent>
    var tickets: seq<Option<Credentials>>
    ghost var stamps: seq<int>

    constructor (base: string, realm: string, credentials: CredentialsBox?, otp: string,
                 session: Option<Ticket>, drift: nat -> nat, now: int, replies: seq<Reply>)
      ensures !locked && this.credentials == credentials && this.base == base
      ensures this.realm == realm && this.drift == drift
      ensures State() == Client(session, 0, otp, now, 0, replies, [], [], [])
    {
      this.base, this.realm, this.credentials, this.otp := base, realm, credentials, otp;
      this.session, this.drift, this.clock, this.replies := session, drift, now, replies;
      expiresAt, locked, readings, sent, tickets, stamps := 0, false, 0, [], [], [];
    }

    ghost function State(): Client
      reads this
    {
      Client(session, expiresAt, otp, clock, readings, replies, sent, tickets, stamps)
    }

    ghost function Environment(): Env
      reads this, if credentials != null then {credentials} else {}
    {
      Env(base, if credentials != null then Some(credentials.value) else None, realm, drift)
    }

    method Lock()
      requires !locked
      modifies this`locked
      ensures locked
    {
      locked := true;
    }

    method Unlock()
      requires locked
      modifies this`locked
      ensures !locked
    {
      locked := false;
    }

    method Now() returns (now: int)
      modifies this`clock, this`readings
      ensures State() == Tick(Environment(), old(State())) && now == clock
    {
      clock := clock + drift(readings);
      readings := readings + 1;
      now := clock;
    }

    method HandleResponse(status: int, data: Data, target: Target) returns (err: Option<Err>)
      modifies this`session
      ensures (err, State()) == S.HandleResponse(old(State()), status, data, target)
    {
      if !Success(status) {
        return Some(BadStatus(status));
      }
      if data.Unreadable? {
        return Some(BadBody);
      }
      if target.IntoSession? {
        match data {
          case Null => session := None;
          case Object(f) => session := Some(Patched(session, f));
          case Rejected(applied) =>
            if applied.Some? {
              session := Some(Patched(session, applied.value));
            }
            return Some(BadBody);
        }
      } else if target.IntoCaller? && data.Rejected? {
        return Some(BadBody);
      }
      err := None;
    }

    /** While the mutex is held, Req is only called for the ticket endpoint, and there it
        never asks for a new session; so the mutex is never locked twice. */
    method Req(verb: string, path: string, payload: Payload, target: Target) returns (err: Option<Err>)
      requires locked ==> Url(base, path) == TicketUrl(Environment())
      modifies this
      ensures (err, State()) == S.Req(old(Environment()), old(State()), verb, path, payload, target)
      ensures locked == old(locked)
      decreases |replies|, 0
    {
      hide S.CreateSession, S.HandleResponse;
      var url := Url(base, path);
      if |replies| == 0 {
        return Some(Refused);
      }
      var reply := replies[0];
      replies := replies[1..];
      if reply.NotSent? {
        return Some(Refused);
      }
      sent := sent + [Sent(verb, url, payload, reply)];
      if reply.NoAnswer? {
        return Some(NoResponse);
      }
      if reply.status == 401 || reply.status == 403 {
        if url == base + TICKET_PATH {
          return Some(NotAuthorized);
        }
        if credentials != null {
          err := CreateSession();
          if err.Some? {
            if err.value.SessionExists? {
              return Some(NotAuthorized);
            }
            return;
          }
          err := Req(verb, url, payload, target);
          return;
        }
        return Some(NotAuthorized);
      }
      err := HandleResponse(reply.status, reply.data, target);
    }

    method PostTicket(creds: CredentialsBox?) returns (err: Option<Err>)
      requires locked
      modifies this
      ensures (err, State()) == S.PostTicket(old(Environment()), old(State()),
                                             if creds != null then Some(old(creds.value)) else None)
      ensures locked
      decreases |replies|, 1
    {
      var body := if creds != null then Some(creds.value) else None;
      tickets := tickets + [body];
      err := Req("POST", TICKET_PATH, TicketBody(body), IntoSession);
    }

    /** Never writes to the caller's credentials: merged fields go into a fresh copy. */
    method SessionCredentials() returns (creds: CredentialsBox?)
      modifies this`otp
      ensures (if creds != null then Some(creds.value) else None, State())
              == S.SessionCredentials(Environment(), old(State()))
      ensures creds == credentials || fresh(creds)
    {
      if credentials == null {
        return null;
      }
      if otp == "" && realm == "" {
        return credentials;
      }
      var merged := credentials.value;
      if otp != "" {
        merged := merged.(otp := otp);
        otp := "";
      }
      if realm != "" && merged.realm == "" && '@' !in merged.username {
        merged := merged.(realm := realm);
      }
      creds := new CredentialsBox(merged);
    }

    method RefreshTicketLocked() returns (err: Option<Err>)
      requires locked
      modifies this
      ensures (err, State()) == S.RefreshLocked(old(Environment()), old(State()))
      ensures locked
      decreases |replies|, 2
    {
      if session.None? || session.value.ticket == "" {
        return Some(NoSession);
      }
      var renewal := new CredentialsBox(Renewal(session.value));
      err := PostTicket(renewal);
      if err.Some? {
        return;
      }
      var now := Now();
      expiresAt := now + HOUR;
    }

    /** The second half of CreateSession: full credentials. */
    method AuthenticateLocked() returns (err: Option<Err>)
      requires locked
      modifies this
      ensures (err, State()) == S.Authenticate(old(Environment()), old(State()))
      ensures locked
      decreases |replies|, 2
    {
      hide S.PostTicket;
      var creds := SessionCredentials();
      err := PostTicket(creds);
      if err.Some? {
        return;
      }
      var now := Now();
      expiresAt := now + HOUR;
      stamps := stamps + [expiresAt - HOUR];
    }

    method CreateSession() returns (err: Option<Err>)
      requires !locked
      modifies this
      ensures (err, State()) == S.CreateSession(old(Environment()), old(State()))
      ensures !locked
      decreases |replies|, 3
    {
      hide S.RefreshLocked, S.Authenticate;
      Lock();
      if session.Some? {
        var now := Now();
        if now < expiresAt {
          Unlock();
          return Some(SessionExists);
        }
      }
      if session.Some? {
        err := RefreshTicketLocked();
        if err.None? {
          stamps := stamps + [expiresAt - HOUR];
          Unlock();
          return;
        }
      }
      err := AuthenticateLocked();
      Unlock();
    }

    method RefreshTicket() returns (err: Option<Err>)
      requires !locked
      modifies this
      ensures (err, State()) == S.RefreshLocked(old(Environment()), old(State()))
      ensures !locked
    {
      Lock();
      err := RefreshTicketLocked();
      Unlock();
    }

    method Login(username: string, password: string) returns (err: Option<Err>)
      requires !locked
      modifies this
      ensures (err, State()) == S.Login(old(Environment()), old(State()), username, password)
      ensures !locked
    {
      Lock();
      var creds := new CredentialsBox(Credentials(username, password, "", "", "", ""));
      err := PostTicket(creds);
      Unlock();
    }
  }
}
