/** The two models of the session protocol agree: whatever the sequential client does, answer by
    answer, one goroutine of the interleaving machine can do step by step. */
module SessionSimulation {
  import opened Prelude
  import opened Session
  import S = Session
  import P = SessionProofs
  import opened M = SessionInterleaving

  type Steps = seq<(nat, Action)>

  // ------------------------------------------------------------- running

  lemma {:induction false} Chain(s: System, a: Steps, m: System, b: Steps)
    requires Execute(s, a) == Some(m)
    ensures Execute(s, a + b) == Execute(m, b)
    decreases |a|
  {
    hide Step;
    if a == [] {
      assert a + b == b;
    } else {
      assert (a + b)[1..] == a[1..] + b;
      Chain(Step(s, a[0].0, a[0].1).value, a[1..], m, b);
    }
  }

  lemma Once(s: System, g: nat, a: Action)
    requires Step(s, g, a).Some?
    ensures Execute(s, [(g, a)]) == Step(s, g, a)
  {
    hide Step;
    assert [(g, a)][1..] == [];
    assert Execute(Step(s, g, a).value, []) == Step(s, g, a);
  }

  /** One more step. */
  lemma Then(s: System, a: Steps, m: System, g: nat, x: Action)
    requires Execute(s, a) == Some(m) && Step(m, g, x).Some?
    ensures Execute(s, a + [(g, x)]) == Step(m, g, x)
  {
    hide Step, Execute;
    Chain(s, a, m, [(g, x)]);
    Once(m, g, x);
  }

  /** s with goroutine g in stack st. */
  function At(s: System, g: nat, st: Stack): System
    requires g < |s.stacks|
  {
    s.(stacks := s.stacks[g := st])
  }

  lemma StepOfReq(s: System, g: nat, st: Stack, a: Action)
    requires g < |s.stacks| && st != [] && Top(st).ReqFrame? && !a.Pass? && ReqMove(st, s.stamps, a).Move?
    ensures Step(At(s, g, st), g, a) == Some(M.Apply(At(s, g, st), g, ReqMove(st, s.stamps, a)))
  {
    hide ReqMove;
  }

  lemma StepOfOp(s: System, g: nat, st: Stack, a: Action)
    requires g < |s.stacks| && st != [] && Top(st).OpFrame? && !a.Pass?
    requires OpMove(st, s.holder.None?, s.hasSession, s.clock < s.expiresAt, s.otp, s.stamps, a).Move?
    ensures Step(At(s, g, st), g, a) ==
            Some(M.Apply(At(s, g, st), g, OpMove(st, s.holder.None?, s.hasSession, s.clock < s.expiresAt, s.otp, s.stamps, a)))
  {
    hide OpMove;
  }

  lemma AtTwice(s: System, g: nat, st: Stack, st': Stack)
    requires g < |s.stacks|
    ensures At(At(s, g, st), g, st') == At(s, g, st')
  {}

  // ------------------------------------------------------- one exchange

  /** The machine's data are those of the client. */
  predicate SameData(env: Env, c: Client, s: System) {
    && s.hasSession == c.session.Some? && s.expiresAt == c.expiresAt && s.clock == c.clock && s.stamps == c.stamps
    && (s.sawNullTicket <==> P.NullTicketsIn(env, c.sent) > 0)
  }

  /** Data that a ticket exchange may change. */
  function Exchanged(s: System, hasSession: bool, sawNullTicket: bool): System {
    s.(hasSession := hasSession, sawNullTicket := sawNullTicket)
  }

  /** The actions that stand for the next reply to a ticket request. */
  function TicketActions(replies: seq<Reply>): seq<Action> {
    if replies == [] || replies[0].NotSent? then [Refuse]
    else if replies[0].NoAnswer? then [Transmit, Fail(false)]
    else if replies[0].status == 401 || replies[0].status == 403 then [Transmit, Unauthorized(false)]
    else if !(200 <= replies[0].status <= 299) then [Transmit, Fail(false)]
    else
      match replies[0].data
      case Null => [Transmit, M.Success(true)]
      case Object(_) => [Transmit, M.Success(false)]
      case Rejected(applied) => [Transmit, Fail(applied.Some?)]
      case Unreadable => [Transmit, Fail(false)]
  }

  function ByG(g: nat, actions: seq<Action>): Steps {
    seq(|actions|, i requires 0 <= i < |actions| => (g, actions[i]))
  }

  /** A ticket request on top of any stack runs to its end, with the client's outcome. */
  lemma SimulatesExchange(env: Env, c: Client, creds: Option<Credentials>, s: System, g: nat, below: Stack)
    returns (steps: Steps, s': System)
    requires g < |s.stacks| && below != [] && SameData(env, c, s)
    ensures var (err, c') := PostTicket(env, c, creds);
            && s' == Exchanged(s, s'.hasSession, s'.sawNullTicket) && SameData(env, c', s')
            && Execute(At(s, g, below + [TICKET_CALL]), steps) == Some(At(s', g, Return(below + [TICKET_CALL], err.None?, s.stamps)))
  {
    hide Execute, ReqMove, P.NullTicketsIn, Return, Step, PostTicket;
    var (err, c') := PostTicket(env, c, creds);
    var st := below + [TICKET_CALL];
    ExchangeData(env, c, creds);
    s' := Exchanged(s, c'.session.Some?, P.NullTicketsIn(env, c'.sent) > 0);
    var actions := TicketActions(c.replies);
    TicketMoves(below, s.stamps);
    if actions == [Refuse] {
      steps := [(g, Refuse)];
      StepOfReq(s, g, st, Refuse);
      AtTwice(s, g, st, Return(st, false, s.stamps));
      Once(At(s, g, st), g, Refuse);
    } else {
      var sent := Replace(st, ReqFrame(TicketEndpoint, OnWire, 1, []));
      steps := [(g, Transmit)] + [(g, actions[1])];
      StepOfReq(s, g, st, Transmit);
      AtTwice(s, g, st, sent);
      Once(At(s, g, st), g, Transmit);
      StepOfReq(s, g, sent, actions[1]);
      AtTwice(s, g, sent, Return(st, err.None?, s.stamps));
      Then(At(s, g, st), [(g, Transmit)], At(s, g, sent), g, actions[1]);
    }
  }

  /** The moves of a ticket request, in either phase. */
  lemma TicketMoves(below: Stack, stamps: seq<int>)
    requires below != []
    ensures var st := below + [TICKET_CALL];
            var sent := Replace(st, ReqFrame(TicketEndpoint, OnWire, 1, []));
            && st != [] && Top(st) == TICKET_CALL && sent != [] && Top(sent) == ReqFrame(TicketEndpoint, OnWire, 1, [])
            && ReqMove(st, stamps, Refuse) == Move(Return(st, false, stamps), Nothing)
            && ReqMove(st, stamps, Transmit) == Move(sent, Nothing)
            && ReqMove(sent, stamps, Unauthorized(false)) == Move(Return(st, false, stamps), Nothing)
            && ReqMove(sent, stamps, Fail(false)) == Move(Return(st, false, stamps), Nothing)
            && ReqMove(sent, stamps, Fail(true)) == Move(Return(st, false, stamps), SetSession(true))
            && ReqMove(sent, stamps, M.Success(true)) == Move(Return(st, true, stamps), SetSession(false))
            && ReqMove(sent, stamps, M.Success(false)) == Move(Return(st, true, stamps), SetSession(true))
  {
    var st := below + [TICKET_CALL];
    var sent := Replace(st, ReqFrame(TicketEndpoint, OnWire, 1, []));
    assert sent[..|sent| - 1] == st[..|st| - 1];
  }

  /** What an exchange does to the data that the machine sees. */
  lemma ExchangeData(env: Env, c: Client, creds: Option<Credentials>)
    ensures var (err, c') := PostTicket(env, c, creds);
            var actions := TicketActions(c.replies);
            && c'.expiresAt == c.expiresAt && c'.clock == c.clock && c'.stamps == c.stamps && c'.otp == c.otp
            && P.NullTicketsIn(env, c'.sent) == P.NullTicketsIn(env, c.sent) + (if |actions| == 2 && actions[1] == M.Success(true) then 1 else 0)
            && (err.None? <==> |actions| == 2 && actions[1].Success?)
            && (actions == [Refuse] ||
                (|actions| == 2 && actions[0] == Transmit && (actions[1].Fail? || actions[1].Success? || actions[1] == Unauthorized(false))))
            && c'.session.Some? == (if |actions| == 2 && actions[1].Success? then !actions[1].nullData
                                    else if |actions| == 2 && actions[1] == Fail(true) then true
                                    else c.session.Some?)
  {
    hide CreateSession, P.NullTicketsIn;
    assert TICKET_PATH[0] == '/' && Url(env.base, TICKET_PATH) == TicketUrl(env);
    P.TicketExchange(env, c, creds);
    if c.replies != [] && !c.replies[0].NotSent? {
      P.NullTicketsOfAppend(env, c.sent, Sent("POST", TicketUrl(env), TicketBody(creds), c.replies[0]));
    }
  }

  // ------------------------------------------------- locked operations

  function Op(below: Stack, kind: OpKind, phase: OpPhase): Stack {
    below + [OpFrame(kind, phase)]
  }

  lemma OpFrames(below: Stack, kind: OpKind, phase: OpPhase, next: OpPhase, ok: bool, stamps: seq<int>)
    ensures Op(below, kind, phase) != [] && Top(Op(below, kind, phase)) == OpFrame(kind, phase)
    ensures Continue(Op(below, kind, phase), next) ==
            Op(below, kind, next) + (if next.Renewing? || next.Authenticating? then [TICKET_CALL] else [])
    ensures Return(Op(below, kind, phase) + [TICKET_CALL], ok, stamps) ==
            Op(below, kind, if phase.Renewing? then RenewalReturned(ok) else AuthReturned(ok))
  {
    var st := Op(below, kind, phase);
    assert st[..|st| - 1] == below;
    assert (st + [TICKET_CALL])[..|st|] == st;
    assert Replace(st, Resumed(Top(st), ok, stamps)) == below + [Resumed(Top(st), ok, stamps)];
    assert Op(below, kind, next) + [] == Op(below, kind, next);
  }

  /** A step of a locked operation other than its release. */
  lemma PhaseStep(s: System, g: nat, below: Stack, kind: OpKind, phase: OpPhase, a: Action)
    requires g < |s.stacks| && !a.Pass? && !phase.Releasing?
    requires PhaseMove(kind, phase, s.holder.None?, s.hasSession, s.clock < s.expiresAt, s.otp, a).Some?
    ensures var (next, effect) := PhaseMove(kind, phase, s.holder.None?, s.hasSession, s.clock < s.expiresAt, s.otp, a).value;
            Execute(At(s, g, Op(below, kind, phase)), [(g, a)]) ==
            Some(M.Apply(s, g, Move(Op(below, kind, next) + (if next.Renewing? || next.Authenticating? then [TICKET_CALL] else []), effect)))
  {
    hide PhaseMove, Continue, Execute, Step;
    var st := Op(below, kind, phase);
    var (next, effect) := PhaseMove(kind, phase, s.holder.None?, s.hasSession, s.clock < s.expiresAt, s.otp, a).value;
    OpFrames(below, kind, phase, next, false, []);
    StepOfOp(s, g, st, a);
    AtTwice(s, g, st, Continue(st, next));
    Once(At(s, g, st), g, a);
  }

  lemma Passes(s: System, g: nat, st: Stack, d: nat)
    requires g < |s.stacks|
    ensures Execute(At(s, g, st), [(g, Pass(d))]) == Some(At(s.(clock := s.clock + d), g, st))
  {
    hide Execute;
    Once(At(s, g, st), g, Pass(d));
  }

  /** The release: the mutex is free and the caller goes on. */
  lemma Releases(s: System, g: nat, below: Stack, kind: OpKind, ok: bool)
    requires g < |s.stacks|
    ensures Execute(At(s, g, Op(below, kind, Releasing(ok))), [(g, Unlock)]) ==
            Some(At(s.(holder := None), g, Return(Op(below, kind, Releasing(ok)), ok, s.stamps)))
  {
    hide Execute, Step, Return;
    var st := Op(below, kind, Releasing(ok));
    assert Top(st) == OpFrame(kind, Releasing(ok));
    StepOfOp(s, g, st, Unlock);
    AtTwice(s, g, st, Return(st, ok, s.stamps));
    Once(At(s, g, st), g, Unlock);
  }

  /** The expiry after a success, and the stamp of a CreateSession. */
  function StampedFor(env: Env, kind: OpKind, c: Client): Client {
    if kind.CreateOp? then Stamped(Extend(env, c)) else Extend(env, c)
  }

  function AfterStamp(env: Env, c: Client, kind: OpKind, s: System): System {
    var now := s.clock + env.drift(c.readings);
    s.(clock := now, expiresAt := now + HOUR, stamps := if kind.CreateOp? then s.stamps + [now] else s.stamps)
  }

  lemma StampData(env: Env, c: Client, kind: OpKind, s: System)
    requires SameData(env, c, s)
    ensures SameData(env, StampedFor(env, kind, c), AfterStamp(env, c, kind, s))
  {}

  lemma SimulatesStamp(env: Env, c: Client, s: System, g: nat, below: Stack, kind: OpKind, phase: OpPhase) returns (steps: Steps)
    requires g < |s.stacks| && SameData(env, c, s)
    requires phase == RenewalReturned(true) || (phase == AuthReturned(true) && kind.CreateOp?)
    ensures SameData(env, StampedFor(env, kind, c), AfterStamp(env, c, kind, s))
    ensures Execute(At(s, g, Op(below, kind, phase)), steps) == Some(At(AfterStamp(env, c, kind, s), g, Op(below, kind, Releasing(true))))
  {
    hide Execute, SameData, Op;
    StampData(env, c, kind, s);
    var d := env.drift(c.readings);
    var later := s.(clock := s.clock + d);
    Passes(s, g, Op(below, kind, phase), d);
    var go := Proceed(false, false);
    PhaseStep(later, g, below, kind, phase, go);
    assert Op(below, kind, Releasing(true)) + [] == Op(below, kind, Releasing(true));
    steps := [(g, Pass(d))] + [(g, go)];
    Chain(At(s, g, Op(below, kind, phase)), [(g, Pass(d))], At(later, g, Op(below, kind, phase)), [(g, go)]);
  }

  /** A renewal, from the moment it is under way. */
  lemma SimulatesRenewal(env: Env, c: Client, s: System, g: nat, below: Stack, kind: OpKind) returns (steps: Steps, s': System)
    requires g < |s.stacks| && SameData(env, c, s) && c.session.Some? && c.session.value.ticket != ""
    ensures var (err, c') := RefreshLocked(env, c);
            && SameData(env, if err.None? && kind.CreateOp? then Stamped(c') else c', s')
            && s'.stacks == s.stacks && s'.holder == s.holder && s'.otp == s.otp && s'.otpBodies == s.otpBodies
            && Execute(At(s, g, Op(below, kind, Renewing) + [TICKET_CALL]), steps) ==
               Some(At(s', g, Op(below, kind, if err.None? then Releasing(true) else RenewalReturned(false))))
  {
    hide Execute, SameData, Op, PostTicket;
    var creds := Some(Renewal(c.session.value));
    var (err, c1) := PostTicket(env, c, creds);
    assert Op(below, kind, Renewing) != [] by {
      OpFrames(below, kind, Renewing, Renewing, false, []);
    }
    var m;
    steps, m := SimulatesExchange(env, c, creds, s, g, Op(below, kind, Renewing));
    OpFrames(below, kind, Renewing, Renewing, err.None?, s.stamps);
    s' := m;
    if err.None? {
      var rest := SimulatesStamp(env, c1, m, g, below, kind, RenewalReturned(true));
      s' := AfterStamp(env, c1, kind, m);
      Chain(At(s, g, Op(below, kind, Renewing) + [TICKET_CALL]), steps, At(m, g, Op(below, kind, RenewalReturned(true))), rest);
      steps := steps + rest;
    }
  }

  /** The code as the machine sees it. */
  predicate SameOtp(c: Client, code: string, s: System) {
    P.OtpAccounted(c, code) && s.otp == (c.otp != "") && s.otpBodies == (if c.otp == "" then 1 else 0)
  }

  predicate Same(env: Env, c: Client, code: string, s: System) {
    SameData(env, c, s) && SameOtp(c, code, s)
  }

  /** The last phase of an operation whose ticket request, with full credentials, has returned. */
  lemma SimulatesEnd(env: Env, c: Client, s: System, g: nat, below: Stack, ok: bool) returns (steps: Steps, s': System)
    requires g < |s.stacks| && SameData(env, c, s)
    ensures SameData(env, if ok then Stamped(Extend(env, c)) else c, s')
    ensures s'.stacks == s.stacks && s'.holder == s.holder && s'.otp == s.otp && s'.otpBodies == s.otpBodies
    ensures Execute(At(s, g, Op(below, CreateOp, AuthReturned(ok))), steps) == Some(At(s', g, Op(below, CreateOp, Releasing(ok))))
  {
    hide Execute, SameData, Op, Extend, Stamped;
    if ok {
      steps := SimulatesStamp(env, c, s, g, below, CreateOp, AuthReturned(true));
      s' := AfterStamp(env, c, CreateOp, s);
    } else {
      var go := Proceed(false, false);
      PhaseStep(s, g, below, CreateOp, AuthReturned(false), go);
      assert Op(below, CreateOp, Releasing(false)) + [] == Op(below, CreateOp, Releasing(false));
      steps, s' := [(g, go)], s;
    }
  }

  /** The machine once the code has moved into the body. */
  function Spent(s: System, spends: bool): System {
    s.(otp := s.otp && !spends, otpBodies := s.otpBodies + if spends then 1 else 0)
  }

  lemma Spends(s: System, g: nat, below: Stack, spends: bool)
    requires g < |s.stacks|
    ensures Execute(At(s, g, Op(below, CreateOp, Merging(spends))), [(g, Proceed(false, false))]) ==
            Some(At(Spent(s, spends), g, Op(below, CreateOp, Authenticating) + [TICKET_CALL]))
  {
    hide Execute, Op;
    PhaseStep(s, g, below, CreateOp, Merging(spends), Proceed(false, false));
  }

  /** An authentication in full, from the moment the code was read. */
  lemma SimulatesAuthentication(env: Env, c: Client, code: string, s: System, g: nat, below: Stack) returns (steps: Steps, s': System, ok: bool)
    requires g < |s.stacks| && Same(env, c, code, s) && code != "" && P.PlainCredentials(env)
    ensures var (err, c') := Authenticate(env, c);
            && ok == err.None? && Same(env, c', code, s') && s'.stacks == s.stacks && s'.holder == s.holder
            && Execute(At(s, g, Op(below, CreateOp, Merging(s.otp && env.credentials.Some?))), steps) ==
               Some(At(s', g, Op(below, CreateOp, Releasing(ok))))
  {
    hide Execute, SameData, Op, PostTicket, SessionCredentials, Extend, Stamped, Return, PhaseMove;
    var spends := s.otp && env.credentials.Some?;
    var go := Proceed(false, false);
    var (creds, c1) := SessionCredentials(env, c);
    P.AuthenticateSpendsOtp(env, c, code);
    OtpAfterCredentials(env, c, s);
    var spent := Spent(s, spends);
    Spends(s, g, below, spends);
    var start := At(s, g, Op(below, CreateOp, Merging(spends)));
    var called := At(spent, g, Op(below, CreateOp, Authenticating) + [TICKET_CALL]);
    OpFrames(below, CreateOp, Authenticating, Authenticating, false, []);
    var (err, c2) := PostTicket(env, c1, creds);
    ok := err.None?;
    var exchange, m := SimulatesExchange(env, c1, creds, spent, g, Op(below, CreateOp, Authenticating));
    OpFrames(below, CreateOp, Authenticating, Authenticating, ok, spent.stamps);
    Chain(start, [(g, go)], called, exchange);
    var rest;
    rest, s' := SimulatesEnd(env, c2, m, g, below, ok);
    Chain(start, [(g, go)] + exchange, At(m, g, Op(below, CreateOp, AuthReturned(ok))), rest);
    steps := [(g, go)] + exchange + rest;
    AuthenticationOtp(env, c, creds, c1);
  }

  lemma OtpAfterCredentials(env: Env, c: Client, s: System)
    requires SameData(env, c, s)
    ensures var c1 := SessionCredentials(env, c).1;
            && c1.otp == (if env.credentials.Some? then "" else c.otp)
            && forall otp, bodies :: SameData(env, c1, s.(otp := otp, otpBodies := bodies))
  {}

  lemma AuthenticationOtp(env: Env, c: Client, creds: Option<Credentials>, c1: Client)
    requires (creds, c1) == SessionCredentials(env, c)
    ensures Authenticate(env, c).1.otp == c1.otp
  {
    hide PostTicket, SessionCredentials;
    P.TicketExchange(env, c1, creds);
  }

  /** Taking a free mutex. */
  lemma Locks(s: System, g: nat, below: Stack, kind: OpKind)
    requires g < |s.stacks| && s.holder.None?
    ensures Execute(At(s, g, Op(below, kind, Acquire)), [(g, Lock)]) == Some(At(s.(holder := Some(g)), g, Op(below, kind, Held)))
  {
    hide Execute;
    PhaseStep(s, g, below, kind, Acquire, Lock);
    assert Op(below, kind, Held) + [] == Op(below, kind, Held);
  }

  /** CreateSession from its first statement to its last, while the mutex is held. */
  lemma SimulatesHeld(env: Env, c: Client, code: string, s: System, g: nat, below: Stack) returns (steps: Steps, s': System)
    requires g < |s.stacks| && Same(env, c, code, s) && code != "" && P.PlainCredentials(env)
    ensures var (err, c') := CreateSession(env, c);
            && Same(env, c', code, s') && s'.stacks == s.stacks && s'.holder == s.holder
            && Execute(At(s, g, Op(below, CreateOp, Held)), steps) == Some(At(s', g, Op(below, CreateOp, Releasing(err.None?))))
  {
    hide Execute, SameOtp, Op, RefreshLocked, Authenticate, PhaseMove;
    var held := Op(below, CreateOp, Held);
    if c.session.None? {
      var go := Proceed(true, env.credentials.Some?);
      HeldMoves(env, s, go);
      PhaseStep(s, g, below, CreateOp, Held, go);
      assert Op(below, CreateOp, Merging(s.otp && env.credentials.Some?)) + [] == Op(below, CreateOp, Merging(s.otp && env.credentials.Some?));
      var rest, ok;
      rest, s', ok := SimulatesAuthentication(env, c, code, s, g, below);
      steps := [(g, go)] + rest;
      Chain(At(s, g, held), [(g, go)], At(s, g, Op(below, CreateOp, Merging(s.otp && env.credentials.Some?))), rest);
    } else {
      var d := env.drift(c.readings);
      var c1, s1 := Tick(env, c), s.(clock := s.clock + d);
      TickIsSame(env, c, code, s);
      Passes(s, g, held, d);
      var rest;
      rest, s' := SimulatesCheck(env, c1, code, s1, g, below);
      steps := [(g, Pass(d))] + rest;
      Chain(At(s, g, held), [(g, Pass(d))], At(s1, g, held), rest);
    }
  }

  lemma TickIsSame(env: Env, c: Client, code: string, s: System)
    requires Same(env, c, code, s)
    ensures Same(env, Tick(env, c), code, s.(clock := s.clock + env.drift(c.readings)))
  {}

  /** What the first statement of CreateSession leads to. */
  lemma HeldMoves(env: Env, s: System, go: Action)
    requires go.Proceed?
    ensures PhaseMove(CreateOp, Held, s.holder.None?, s.hasSession, s.clock < s.expiresAt, s.otp, go) ==
            Some((if s.hasSession && s.clock < s.expiresAt then Releasing(false)
                  else if s.hasSession && !go.ticketEmpty then Renewing
                  else Merging(s.otp && go.haveCredentials), Nothing))
    ensures PhaseMove(CreateOp, RenewalReturned(false), s.holder.None?, s.hasSession, s.clock < s.expiresAt, s.otp, go) ==
            Some((Merging(s.otp && go.haveCredentials), Nothing))
  {}

  /** The part of CreateSession after the clock was read. */
  function AfterCheck(env: Env, c: Client): (Option<Err>, Client) {
    if c.clock < c.expiresAt then (Some(SessionExists), c)
    else
      var (err, c1) := RefreshLocked(env, c);
      if err.None? then (None, Stamped(c1)) else Authenticate(env, c1)
  }

  lemma SimulatesCheck(env: Env, c: Client, code: string, s: System, g: nat, below: Stack) returns (steps: Steps, s': System)
    requires g < |s.stacks| && Same(env, c, code, s) && code != "" && P.PlainCredentials(env) && c.session.Some?
    ensures var (err, c') := AfterCheck(env, c);
            && Same(env, c', code, s') && s'.stacks == s.stacks && s'.holder == s.holder
            && Execute(At(s, g, Op(below, CreateOp, Held)), steps) == Some(At(s', g, Op(below, CreateOp, Releasing(err.None?))))
  {
    hide Execute, Op, RefreshLocked, Authenticate, PhaseMove;
    var empty := c.session.value.ticket == "";
    var go := Proceed(empty, env.credentials.Some?);
    var held := Op(below, CreateOp, Held);
    HeldMoves(env, s, go);
    PhaseStep(s, g, below, CreateOp, Held, go);
    assert forall phase :: Op(below, CreateOp, phase) + [] == Op(below, CreateOp, phase);
    if c.clock < c.expiresAt {
      steps, s' := [(g, go)], s;
    } else if empty {
      NothingToRenew(env, c);
      var rest, ok;
      rest, s', ok := SimulatesAuthentication(env, c, code, s, g, below);
      steps := [(g, go)] + rest;
      Chain(At(s, g, held), [(g, go)], At(s, g, Op(below, CreateOp, Merging(s.otp && env.credentials.Some?))), rest);
    } else {
      var renewal, m := SimulatesRenewal(env, c, s, g, below, CreateOp);
      var renewing := At(s, g, Op(below, CreateOp, Renewing) + [TICKET_CALL]);
      Chain(At(s, g, held), [(g, go)], renewing, renewal);
      steps, s' := [(g, go)] + renewal, m;
      P.RenewalCarriesNoOtp(env, c, code);
      var (err, c1) := RefreshLocked(env, c);
      if err.Some? {
        HeldMoves(env, m, go);
        PhaseStep(m, g, below, CreateOp, RenewalReturned(false), go);
        var returned := At(m, g, Op(below, CreateOp, RenewalReturned(false)));
        Chain(At(s, g, held), steps, returned, [(g, go)]);
        var rest, ok;
        rest, s', ok := SimulatesAuthentication(env, c1, code, m, g, below);
        Chain(At(s, g, held), steps + [(g, go)], At(m, g, Op(below, CreateOp, Merging(m.otp && env.credentials.Some?))), rest);
        steps := steps + [(g, go)] + rest;
      }
    }
  }

  lemma NothingToRenew(env: Env, c: Client)
    requires c.session.None? || c.session.value.ticket == ""
    ensures RefreshLocked(env, c) == (Some(NoSession), c)
  {}

  /** CreateSession, called on top of any stack while the mutex is free. */
  lemma SimulatesCreate(env: Env, c: Client, code: string, s: System, g: nat, below: Stack) returns (steps: Steps, s': System)
    requires g < |s.stacks| && Same(env, c, code, s) && code != "" && P.PlainCredentials(env) && s.holder.None?
    ensures var (err, c') := CreateSession(env, c);
            && Same(env, c', code, s') && s'.stacks == s.stacks && s'.holder.None?
            && Execute(At(s, g, Op(below, CreateOp, Acquire)), steps) ==
               Some(At(s', g, Return(Op(below, CreateOp, Releasing(err.None?)), err.None?, s'.stamps)))
  {
    hide Execute, Op, CreateSession, Return;
    var locked := s.(holder := Some(g));
    var start := At(s, g, Op(below, CreateOp, Acquire));
    Locks(s, g, below, CreateOp);
    var middle, m := SimulatesHeld(env, c, code, locked, g, below);
    Chain(start, [(g, Lock)], At(locked, g, Op(below, CreateOp, Held)), middle);
    var ok := CreateSession(env, c).0.None?;
    Releases(m, g, below, CreateOp, ok);
    Chain(start, [(g, Lock)] + middle, At(m, g, Op(below, CreateOp, Releasing(ok))), [(g, Unlock)]);
    s' := m.(holder := None);
    steps := [(g, Lock)] + middle + [(g, Unlock)];
  }

  // ------------------------------------------------------------- requests

  /** A request of the caller's, from when it is ready until the goroutine is idle again. */
  lemma {:induction false} SimulatesReq(env: Env, c: Client, code: string, verb: string, path: string, payload: Payload, target: Target,
                                        s: System, g: nat, sends: nat, auths: seq<int>) returns (steps: Steps, s': System)
    requires g < |s.stacks| && Same(env, c, code, s) && code != "" && P.PlainCredentials(env) && s.holder.None?
    requires !target.IntoSession? && !payload.TicketBody?
    ensures var c' := Req(env, c, verb, path, payload, target).1;
            && Same(env, c', code, s') && s'.stacks == s.stacks && s'.holder.None?
            && Execute(At(s, g, [ReqFrame(Elsewhere, Ready, sends, auths)]), steps) == Some(At(s', g, []))
    decreases |c.replies|
  {
    hide Execute, CreateSession, HandleResponse, Return, ReqMove, Url, TicketUrl, SameOtp;
    var start := At(s, g, [ReqFrame(Elsewhere, Ready, sends, auths)]);
    var url := Url(env.base, path);
    OwnMoves(sends, auths, s.stamps);
    if c.replies == [] || c.replies[0].NotSent? {
      steps, s' := [(g, Refuse)], s;
      StepOfReq(s, g, [ReqFrame(Elsewhere, Ready, sends, auths)], Refuse);
      AtTwice(s, g, [ReqFrame(Elsewhere, Ready, sends, auths)], []);
      Once(start, g, Refuse);
      SameButReplies(env, c, code, s, Req(env, c, verb, path, payload, target).1);
    } else {
      var reply := c.replies[0];
      var x := Sent(verb, url, payload, reply);
      var c1 := c.(replies := c.replies[1..], sent := c.sent + [x]);
      OwnSendIsSame(env, c, code, s, x, c1);
      var wire := [ReqFrame(Elsewhere, OnWire, sends + 1, auths)];
      StepOfReq(s, g, [ReqFrame(Elsewhere, Ready, sends, auths)], Transmit);
      AtTwice(s, g, [ReqFrame(Elsewhere, Ready, sends, auths)], wire);
      Once(start, g, Transmit);
      if reply.Answer? {
        P.ResponseHandling(c1, reply.status, reply.data, target);
      }
      var forbidden := reply.Answer? && (reply.status == 401 || reply.status == 403);
      if forbidden && url != TicketUrl(env) && env.credentials.Some? {
        var (err, c2) := CreateSession(env, c1);
        var asked, m, auths' := SimulatesAsking(env, c1, code, s, g, sends + 1, auths);
        Chain(start, [(g, Transmit)], At(s, g, wire), asked);
        if err.None? {
          var ready := [ReqFrame(Elsewhere, Ready, sends + 1, auths')];
          var rest;
          rest, s' := SimulatesReq(env, c2, code, verb, url, payload, target, m, g, sends + 1, auths');
          Chain(start, [(g, Transmit)] + asked, At(m, g, ready), rest);
          steps := [(g, Transmit)] + asked + rest;
        } else {
          steps, s' := [(g, Transmit)] + asked, m;
        }
      } else {
        StepOfReq(s, g, wire, Fail(false));
        AtTwice(s, g, wire, []);
        Then(start, [(g, Transmit)], At(s, g, wire), g, Fail(false));
        steps, s' := [(g, Transmit)] + [(g, Fail(false))], s;
      }
    }
  }

  lemma OwnMoves(sends: nat, auths: seq<int>, stamps: seq<int>)
    ensures var wire := [ReqFrame(Elsewhere, OnWire, sends + 1, auths)];
            && ReqMove([ReqFrame(Elsewhere, Ready, sends, auths)], stamps, Refuse) == Move([], Nothing)
            && ReqMove([ReqFrame(Elsewhere, Ready, sends, auths)], stamps, Transmit) == Move(wire, Nothing)
            && ReqMove(wire, stamps, Fail(false)) == Move([], Nothing)
            && ReqMove(wire, stamps, Unauthorized(true)) ==
               Move(Op([ReqFrame(Elsewhere, AwaitingSession, sends + 1, auths)], CreateOp, Acquire), Nothing)
  {
    hide Replace, Return;
    var ready, wire := ReqFrame(Elsewhere, Ready, sends, auths), ReqFrame(Elsewhere, OnWire, sends + 1, auths);
    OneFrame(ready, wire, stamps);
    OneFrame(wire, ReqFrame(Elsewhere, AwaitingSession, sends + 1, auths), stamps);
  }

  /** From a 401 to the moment the request is ready again, or has been given up. */
  lemma SimulatesAsking(env: Env, c: Client, code: string, s: System, g: nat, sends: nat, auths: seq<int>)
    returns (steps: Steps, s': System, auths': seq<int>)
    requires g < |s.stacks| && Same(env, c, code, s) && code != "" && P.PlainCredentials(env) && s.holder.None?
    requires sends > 0
    ensures var (err, c') := CreateSession(env, c);
            && Same(env, c', code, s') && s'.stacks == s.stacks && s'.holder.None?
            && Execute(At(s, g, [ReqFrame(Elsewhere, OnWire, sends, auths)]), steps) ==
               Some(At(s', g, if err.None? then [ReqFrame(Elsewhere, Ready, sends, auths')] else []))
  {
    hide Execute, CreateSession, Return, ReqMove, SameOtp, SameData, Op, Step;
    var wire, waiting := [ReqFrame(Elsewhere, OnWire, sends, auths)], [ReqFrame(Elsewhere, AwaitingSession, sends, auths)];
    var asking := Op(waiting, CreateOp, Acquire);
    OwnMoves(sends - 1, auths, s.stamps);
    StepOfReq(s, g, wire, Unauthorized(true));
    AtTwice(s, g, wire, asking);
    Once(At(s, g, wire), g, Unauthorized(true));
    var created, m := SimulatesCreate(env, c, code, s, g, waiting);
    var ok := CreateSession(env, c).0.None?;
    ReturnsToReq(sends, auths, ok, m.stamps);
    auths' := if ok && m.stamps != [] then auths + [m.stamps[|m.stamps| - 1]] else auths;
    var back := [ReqFrame(Elsewhere, SessionReturned(ok), sends, auths')];
    Chain(At(s, g, wire), [(g, Unauthorized(true))], At(s, g, asking), created);
    BackMoves(sends, auths', m.stamps);
    var last := if ok then Resend else GiveUp;
    StepOfReq(m, g, back, last);
    AtTwice(m, g, back, if ok then [ReqFrame(Elsewhere, Ready, sends, auths')] else []);
    Then(At(s, g, wire), [(g, Unauthorized(true))] + created, At(m, g, back), g, last);
    steps, s' := [(g, Unauthorized(true))] + created + [(g, last)], m;
  }

  lemma OneFrame(f: Frame, f': Frame, stamps: seq<int>)
    ensures Replace([f], f') == [f'] && Return([f], false, stamps) == [] && Top([f]) == f
  {}

  lemma BackMoves(sends: nat, auths: seq<int>, stamps: seq<int>)
    ensures ReqMove([ReqFrame(Elsewhere, SessionReturned(true), sends, auths)], stamps, Resend)
            == Move([ReqFrame(Elsewhere, Ready, sends, auths)], Nothing)
    ensures ReqMove([ReqFrame(Elsewhere, SessionReturned(false), sends, auths)], stamps, GiveUp) == Move([], Nothing)
  {
    hide Replace, Return;
    OneFrame(ReqFrame(Elsewhere, SessionReturned(true), sends, auths), ReqFrame(Elsewhere, Ready, sends, auths), stamps);
    OneFrame(ReqFrame(Elsewhere, SessionReturned(false), sends, auths), ReqFrame(Elsewhere, Ready, sends, auths), stamps);
  }

  lemma ReturnsToReq(sends: nat, auths: seq<int>, ok: bool, stamps: seq<int>)
    ensures Return(Op([ReqFrame(Elsewhere, AwaitingSession, sends, auths)], CreateOp, Releasing(ok)), ok, stamps) ==
            [ReqFrame(Elsewhere, SessionReturned(ok), sends, if ok && stamps != [] then auths + [stamps[|stamps| - 1]] else auths)]
  {
    var f := ReqFrame(Elsewhere, AwaitingSession, sends, auths);
    assert Op([f], CreateOp, Releasing(ok))[..1] == [f];
  }

  lemma SameButReplies(env: Env, c: Client, code: string, s: System, c': Client)
    requires Same(env, c, code, s) && c' == c.(replies := c'.replies)
    ensures Same(env, c', code, s)
  {}

  lemma OwnSendIsSame(env: Env, c: Client, code: string, s: System, x: Sent, c': Client)
    requires Same(env, c, code, s) && !x.payload.TicketBody? && c' == c.(replies := c'.replies, sent := c.sent + [x])
    ensures Same(env, c', code, s)
  {
    P.NullTicketsOfAppend(env, c.sent, x);
  }

  // ----------------------------------------------------------- operations

  /** RefreshTicket, between lock and unlock. */
  lemma SimulatesRefresh(env: Env, c: Client, code: string, s: System, g: nat) returns (steps: Steps, s': System)
    requires g < |s.stacks| && Same(env, c, code, s) && code != "" && s.holder.None?
    ensures var c' := RefreshLocked(env, c).1;
            && Same(env, c', code, s') && s'.stacks == s.stacks && s'.holder.None?
            && Execute(At(s, g, Op([], RefreshOp, Acquire)), steps) == Some(At(s', g, []))
  {
    hide Execute, Op, RefreshLocked;
    var locked := s.(holder := Some(g));
    var start := At(s, g, Op([], RefreshOp, Acquire));
    Locks(s, g, [], RefreshOp);
    var empty := c.session.None? || c.session.value.ticket == "";
    var go := Proceed(empty, false);
    PhaseStep(locked, g, [], RefreshOp, Held, go);
    assert forall phase :: Op([], RefreshOp, phase) + [] == Op([], RefreshOp, phase);
    Chain(start, [(g, Lock)], At(locked, g, Op([], RefreshOp, Held)), [(g, go)]);
    steps := [(g, Lock)] + [(g, go)];
    var m, ok := locked, false;
    if empty {
      NothingToRenew(env, c);
    } else {
      var renewal;
      renewal, m := SimulatesRenewal(env, c, locked, g, [], RefreshOp);
      P.RenewalCarriesNoOtp(env, c, code);
      Chain(start, steps, At(locked, g, Op([], RefreshOp, Renewing) + [TICKET_CALL]), renewal);
      steps := steps + renewal;
      ok := RefreshLocked(env, c).0.None?;
      if !ok {
        PhaseStep(m, g, [], RefreshOp, RenewalReturned(false), go);
        Chain(start, steps, At(m, g, Op([], RefreshOp, RenewalReturned(false))), [(g, go)]);
        steps := steps + [(g, go)];
      }
    }
    Releases(m, g, [], RefreshOp, ok);
    ReturnsToCaller(RefreshOp, ok, m.stamps);
    Chain(start, steps, At(m, g, Op([], RefreshOp, Releasing(ok))), [(g, Unlock)]);
    steps, s' := steps + [(g, Unlock)], m.(holder := None);
  }

  lemma ReturnsToCaller(kind: OpKind, ok: bool, stamps: seq<int>)
    ensures Return(Op([], kind, Releasing(ok)), ok, stamps) == []
  {
    assert Op([], kind, Releasing(ok))[..0] == [];
  }

  lemma SimulatesLogin(env: Env, c: Client, code: string, s: System, g: nat, username: string, password: string)
    returns (steps: Steps, s': System)
    requires g < |s.stacks| && Same(env, c, code, s) && code != "" && s.holder.None?
    ensures var c' := Login(env, c, username, password).1;
            && Same(env, c', code, s') && s'.stacks == s.stacks && s'.holder.None?
            && Execute(At(s, g, Op([], LoginOp, Acquire)), steps) == Some(At(s', g, []))
  {
    hide Execute, Op, PostTicket, Return, PhaseMove, SameData, SameOtp;
    var creds := Some(Credentials(username, password, "", "", "", ""));
    var locked := s.(holder := Some(g));
    var start := At(s, g, Op([], LoginOp, Acquire));
    var go := Proceed(false, false);
    LoginKeepsOtp(env, c, code, s, creds);
    SameWithHolder(env, c, s, Some(g));
    Locks(s, g, [], LoginOp);
    LoginPhases(locked, g);
    var called := At(locked, g, Op([], LoginOp, Authenticating) + [TICKET_CALL]);
    Chain(start, [(g, Lock)], At(locked, g, Op([], LoginOp, Held)), [(g, go)]);
    OpFrames([], LoginOp, Authenticating, Authenticating, false, []);
    var ok := PostTicket(env, c, creds).0.None?;
    var exchange, m := SimulatesExchange(env, c, creds, locked, g, Op([], LoginOp, Authenticating));
    OpFrames([], LoginOp, Authenticating, Authenticating, ok, locked.stamps);
    Chain(start, [(g, Lock)] + [(g, go)], called, exchange);
    steps := [(g, Lock)] + [(g, go)] + exchange;
    LoginEnds(m, g, ok);
    Chain(start, steps, At(m, g, Op([], LoginOp, AuthReturned(ok))), [(g, go)] + [(g, Unlock)]);
    steps, s' := steps + ([(g, go)] + [(g, Unlock)]), m.(holder := None);
    SameWithHolder(env, PostTicket(env, c, creds).1, m, None);
  }

  lemma SameWithHolder(env: Env, c: Client, s: System, holder: Option<nat>)
    ensures SameData(env, c, s) == SameData(env, c, s.(holder := holder))
  {}

  lemma LoginPhases(s: System, g: nat)
    requires g < |s.stacks|
    ensures Execute(At(s, g, Op([], LoginOp, Held)), [(g, Proceed(false, false))]) ==
            Some(At(s, g, Op([], LoginOp, Authenticating) + [TICKET_CALL]))
  {
    hide Execute, Op;
    PhaseStep(s, g, [], LoginOp, Held, Proceed(false, false));
  }

  lemma LoginEnds(s: System, g: nat, ok: bool)
    requires g < |s.stacks|
    ensures Execute(At(s, g, Op([], LoginOp, AuthReturned(ok))), [(g, Proceed(false, false))] + [(g, Unlock)]) ==
            Some(At(s.(holder := None), g, []))
  {
    hide Execute, Op;
    var go := Proceed(false, false);
    PhaseStep(s, g, [], LoginOp, AuthReturned(ok), go);
    assert Op([], LoginOp, Releasing(ok)) + [] == Op([], LoginOp, Releasing(ok));
    Releases(s, g, [], LoginOp, ok);
    ReturnsToCaller(LoginOp, ok, s.stamps);
    Chain(At(s, g, Op([], LoginOp, AuthReturned(ok))), [(g, go)], At(s, g, Op([], LoginOp, Releasing(ok))), [(g, Unlock)]);
  }

  lemma LoginKeepsOtp(env: Env, c: Client, code: string, s: System, creds: Option<Credentials>)
    requires SameOtp(c, code, s) && code != "" && creds.Some? && creds.value.otp == ""
    ensures forall s': System | s'.otp == s.otp && s'.otpBodies == s.otpBodies :: SameOtp(PostTicket(env, c, creds).1, code, s')
  {
    hide PostTicket;
    P.TicketExchange(env, c, creds);
    P.WithOtpOfAppend(c.tickets, creds, code);
  }

  /** The frame that a call from outside starts with. */
  function Entry(op: S.Op): Frame {
    match op
    case DoReq(_, _, _, _) => ReqFrame(Elsewhere, Ready, 0, [])
    case DoCreateSession => OpFrame(CreateOp, Acquire)
    case DoRefreshTicket => OpFrame(RefreshOp, Acquire)
    case DoLogin(_, _) => OpFrame(LoginOp, Acquire)
  }

  /** One call from outside, on an idle goroutine while the mutex is free. */
  lemma SimulatesCall(env: Env, c: Client, code: string, s: System, g: nat, op: S.Op) returns (steps: Steps, s': System)
    requires g < |s.stacks| && Same(env, c, code, s) && code != "" && P.PlainCredentials(env) && s.holder.None?
    requires s.stacks[g] == []
    ensures var c' := Perform(env, c, op).1;
            Same(env, c', code, s') && s'.stacks == s.stacks && s'.holder.None? && Execute(s, steps) == Some(s')
  {
    hide Execute, Req, CreateSession, RefreshLocked, Same, PostTicket;
    assert s == At(s, g, []);
    var f := Entry(op);
    Calls(s, g, f);
    var rest, m;
    match op {
      case DoReq(verb, path, payload, decode) =>
        rest, m := SimulatesReq(env, c, code, verb, path, UserBody(payload), if decode then IntoCaller else Discard, s, g, 0, []);
      case DoCreateSession =>
        rest, m := SimulatesCreate(env, c, code, s, g, []);
        ReturnsToCaller(CreateOp, CreateSession(env, c).0.None?, m.stamps);
      case DoRefreshTicket =>
        rest, m := SimulatesRefresh(env, c, code, s, g);
      case DoLogin(username, password) =>
        rest, m := SimulatesLogin(env, c, code, s, g, username, password);
    }
    assert [f] == [] + [f];
    Chain(s, [(g, Call(f))], At(s, g, [f]), rest);
    assert At(m, g, []) == m;
    steps, s' := [(g, Call(f))] + rest, m;
  }

  lemma Calls(s: System, g: nat, f: Frame)
    requires g < |s.stacks| && s.stacks[g] == [] && EntryPoint(f)
    ensures Execute(s, [(g, Call(f))]) == Some(At(s, g, [f]))
  {
    hide Execute;
    Once(s, g, Call(f));
  }

  /** Every run of the sequential client is a run of the interleaving machine: one goroutine,
      with the others where they are, can take the machine through the same sessions, expiries,
      clock readings, stamps and uses of the one-time password. */
  lemma {:induction false} RunsAreInterleavings(env: Env, c: Client, code: string, ops: seq<S.Op>, s: System, g: nat) returns (steps: Steps, s': System)
    requires g < |s.stacks| && Same(env, c, code, s) && code != "" && P.PlainCredentials(env) && s.holder.None?
    requires s.stacks[g] == []
    ensures Same(env, RunOps(env, c, ops), code, s') && s'.stacks == s.stacks && s'.holder.None?
    ensures Execute(s, steps) == Some(s')
    decreases |ops|
  {
    hide Same, Perform;
    steps, s' := [], s;
    if ops != [] {
      var first, m := SimulatesCall(env, c, code, s, g, ops[0]);
      var rest;
      rest, s' := RunsAreInterleavings(env, Perform(env, c, ops[0]).1, code, ops[1..], m, g);
      Chain(s, first, m, rest);
      steps := first + rest;
    }
  }
}
