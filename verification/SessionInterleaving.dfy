/** Goroutines sharing one client: every interleaving of Req, CreateSession, RefreshTicket
    and Login, as a state machine over explicit call stacks and one non-reentrant mutex. */
module SessionInterleaving {
  import opened Prelude
  import opened Session

  /** A request goes to the ticket endpoint or elsewhere. */
  datatype Endpoint = TicketEndpoint | Elsewhere

  datatype ReqPhase =
    | Ready                 // about to send
    | OnWire                // waiting for the answer
    | AwaitingSession       // got a 401; CreateSession is the frame above
    | SessionReturned(ok: bool)

  datatype OpKind = CreateOp | RefreshOp | LoginOp

  datatype OpPhase =
    | Acquire               // about to call sessionMux.Lock
    | Held                  // holds the mutex, first statement next
    | Renewing              // the renewal request is the frame above
    | RenewalReturned(ok: bool)
    | Merging(code: bool)   // has read c.otp for the full credentials, and not yet cleared it
    | Authenticating        // the full-credentials request is the frame above
    | AuthReturned(ok: bool)
    | Releasing(ok: bool)   // about to unlock and return

  /** sends and auths are the history of one Req: its transmissions, and the clock values
      of the CreateSession calls it made successfully. */
  datatype Frame =
    | ReqFrame(endpoint: Endpoint, reqPhase: ReqPhase, sends: nat, auths: seq<int>)
    | OpFrame(kind: OpKind, phase: OpPhase)

  /** A goroutine's call stack, innermost call last; empty when it is not in the client. */
  type Stack = seq<Frame>

  /** otp says whether the client still holds a WithOTP code, otpBodies counts the ticket
      bodies that carried it. */
  datatype System = System(
    stacks: seq<Stack>,
    holder: Option<nat>,
    hasSession: bool,
    expiresAt: int,
    clock: int,
    stamps: seq<int>,
    sawNullTicket: bool,
    otp: bool,
    otpBodies: nat)

  /** What happens next: a goroutine moves, or time passes. */
  datatype Action =
    | Call(frame: Frame)
    | Transmit
    | Refuse
    | Unauthorized(haveCredentials: bool)
    | Fail(allocates: bool)
    | Success(nullData: bool)
    | Lock
    | Proceed(ticketEmpty: bool, haveCredentials: bool)
    | Unlock
    | Resend
    | GiveUp
    | Pass(d: nat)

  function Top(st: Stack): Frame
    requires st != []
  {
    st[|st| - 1]
  }

  function Replace(st: Stack, f: Frame): Stack
    requires st != []
  {
    st[..|st| - 1] + [f]
  }

  /** The caller's frame once the call above it has returned. */
  function Resumed(f: Frame, ok: bool, stamps: seq<int>): Frame {
    match f
    case ReqFrame(e, _, sends, auths) =>
      ReqFrame(e, SessionReturned(ok), sends,
               if ok && stamps != [] then auths + [stamps[|stamps| - 1]] else auths)
    case OpFrame(kind, phase) =>
      OpFrame(kind, if phase.Renewing? then RenewalReturned(ok) else AuthReturned(ok))
  }

  function Return(st: Stack, ok: bool, stamps: seq<int>): Stack
    requires st != []
  {
    var rest := st[..|st| - 1];
    if rest == [] then [] else Replace(rest, Resumed(Top(rest), ok, stamps))
  }

  const TICKET_CALL := ReqFrame(TicketEndpoint, Ready, 0, [])

  /** The calls a goroutine may start from outside. */
  predicate EntryPoint(f: Frame) {
    f == ReqFrame(Elsewhere, Ready, 0, []) || (f.OpFrame? && f.phase.Acquire?)
  }

  /** What a move does besides changing the mover's stack. */
  datatype Effect =
    | Nothing
    | TakeMutex
    | FreeMutex
    | Stamp(kind: OpKind)       // sessionExpiresAt = time.Now().Add(time.Hour)
    | SpendOtp(code: bool)      // the code moves from the client into a ticket body
    | SetSession(present: bool) // a ticket reply was decoded into c.session

  datatype Move = Blocked | Move(stack: Stack, effect: Effect)

  function Apply(s: System, g: nat, m: Move): System
    requires g < |s.stacks| && m.Move?
  {
    var s' := s.(stacks := s.stacks[g := m.stack]);
    match m.effect
    case Nothing => s'
    case TakeMutex => s'.(holder := Some(g))
    case FreeMutex => s'.(holder := None)
    case Stamp(kind) =>
      s'.(expiresAt := s.clock + HOUR, stamps := if kind.CreateOp? then s.stamps + [s.clock] else s.stamps)
    case SpendOtp(code) =>
      s'.(otp := s.otp && !code, otpBodies := s.otpBodies + if code then 1 else 0)
    case SetSession(present) => s'.(hasSession := present, sawNullTicket := s.sawNullTicket || !present)
  }

  /** What goroutine g would do. */
  function NextMove(s: System, g: nat, a: Action): Move
    requires g < |s.stacks|
  {
    var st := s.stacks[g];
    if st == [] then
      if a.Call? && EntryPoint(a.frame) then Move([a.frame], Nothing) else Blocked
    else if Top(st).ReqFrame? then ReqMove(st, s.stamps, a)
    else OpMove(st, s.holder.None?, s.hasSession, s.clock < s.expiresAt, s.otp, s.stamps, a)
  }

  /** One atomic step of goroutine g; None when it is not enabled. */
  function Step(s: System, g: nat, a: Action): Option<System> {
    if a.Pass? then Some(s.(clock := s.clock + a.d))
    else if g >= |s.stacks| || NextMove(s, g, a).Blocked? then None
    else Some(Apply(s, g, NextMove(s, g, a)))
  }

  function ReqMove(st: Stack, stamps: seq<int>, a: Action): Move
    requires st != [] && Top(st).ReqFrame?
  {
    var f := Top(st);
    match f.reqPhase
    case Ready =>
      if a.Transmit? then Move(Replace(st, f.(reqPhase := OnWire, sends := f.sends + 1)), Nothing)
      else if a.Refuse? then Move(Return(st, false, stamps), Nothing)
      else Blocked
    case OnWire =>
      if a.Unauthorized? then
        if f.endpoint.TicketEndpoint? || !a.haveCredentials then Move(Return(st, false, stamps), Nothing)
        else Move(Replace(st, f.(reqPhase := AwaitingSession)) + [OpFrame(CreateOp, Acquire)], Nothing)
      else if a.Fail? then
        Move(Return(st, false, stamps), if f.endpoint.TicketEndpoint? && a.allocates then SetSession(true) else Nothing)
      else if a.Success? then
        Move(Return(st, true, stamps), if f.endpoint.TicketEndpoint? then SetSession(!a.nullData) else Nothing)
      else Blocked
    case AwaitingSession => Blocked
    case SessionReturned(ok) =>
      if ok && a.Resend? then Move(Replace(st, f.(reqPhase := Ready)), Nothing)
      else if !ok && a.GiveUp? then Move(Return(st, false, stamps), Nothing)
      else Blocked
  }

  /** Replaces the operation on top and, when it now waits for its ticket request, pushes it. */
  function Continue(st: Stack, phase: OpPhase): Stack
    requires st != [] && Top(st).OpFrame?
  {
    var st' := Replace(st, Top(st).(phase := phase));
    if phase.Renewing? || phase.Authenticating? then st' + [TICKET_CALL] else st'
  }

  /** What a locked operation does next, other than releasing the mutex; None when it waits. */
  function PhaseMove(kind: OpKind, phase: OpPhase, mutexFree: bool, hasSession: bool, unexpired: bool, otp: bool,
                     a: Action): Option<(OpPhase, Effect)>
  {
    match phase
    case Acquire => if a.Lock? && mutexFree then Some((Held, TakeMutex)) else None
    case Held =>
      if !a.Proceed? then None
      else if kind.CreateOp? && hasSession && unexpired then Some((Releasing(false), Nothing))
      else if !kind.LoginOp? && hasSession && !a.ticketEmpty then Some((Renewing, Nothing))
      else
        (match kind
         case CreateOp => Some((Merging(otp && a.haveCredentials), Nothing))
         case RefreshOp => Some((Releasing(false), Nothing))
         case LoginOp => Some((Authenticating, Nothing)))
    case Renewing => None
    case RenewalReturned(ok) =>
      if !a.Proceed? then None
      else if ok then Some((Releasing(true), Stamp(kind)))
      else if kind.CreateOp? then Some((Merging(otp && a.haveCredentials), Nothing))
      else Some((Releasing(false), Nothing))
    case Merging(code) => if a.Proceed? then Some((Authenticating, SpendOtp(code))) else None
    case Authenticating => None
    case AuthReturned(ok) =>
      if a.Proceed? then Some((Releasing(ok), if ok && kind.CreateOp? then Stamp(kind) else Nothing)) else None
    case Releasing(_) => None
  }

  function OpMove(st: Stack, mutexFree: bool, hasSession: bool, unexpired: bool, otp: bool, stamps: seq<int>, a: Action): Move
    requires st != [] && Top(st).OpFrame?
  {
    var OpFrame(kind, phase) := Top(st);
    if phase.Releasing? then
      if a.Unlock? then Move(Return(st, phase.ok, stamps), FreeMutex) else Blocked
    else
      var next := PhaseMove(kind, phase, mutexFree, hasSession, unexpired, otp, a);
      if next.None? then Blocked else Move(Continue(st, next.value.0), next.value.1)
  }

  /** n idle goroutines and a client that may have been given a session. */
  predicate Initial(s: System) {
    (forall g | 0 <= g < |s.stacks| :: s.stacks[g] == []) && s.holder.None? && s.stamps == [] && s.otpBodies == 0
  }

  function Execute(s: System, steps: seq<(nat, Action)>): Option<System>
    decreases |steps|
  {
    if steps == [] then Some(s)
    else
      var next := Step(s, steps[0].0, steps[0].1);
      if next.None? then None else Execute(next.value, steps[1..])
  }

  // -------------------------------------------------------------- invariant

  /** The stacks a locked operation can have: itself, or itself below its ticket request. */
  predicate OpShape(st: Stack) {
    && 1 <= |st| <= 2 && st[0].OpFrame?
    && (|st| == 1 ==> !st[0].phase.Renewing? && !st[0].phase.Authenticating?)
    && (|st| == 2 ==>
          && (st[0].phase.Renewing? || st[0].phase.Authenticating?)
          && st[1].ReqFrame? && st[1].endpoint.TicketEndpoint? && st[1].auths == []
          && (st[1].reqPhase.Ready? || st[1].reqPhase.OnWire?))
  }

  predicate Shape(st: Stack) {
    st == [] ||
    (if st[0].OpFrame? then OpShape(st)
     else
       && st[0].endpoint.Elsewhere?
       && (st[0].reqPhase.AwaitingSession? <==> |st| > 1)
       && (|st| > 1 ==> OpShape(st[1..]) && st[1].kind.CreateOp?))
  }

  /** The locked operation of a stack, if it is in one. */
  function OpOf(st: Stack): Option<Frame> {
    if st == [] then None
    else if st[0].OpFrame? then Some(st[0])
    else if |st| > 1 then Some(st[1])
    else None
  }

  predicate Holding(st: Stack) {
    var op := OpOf(st);
    op.Some? && op.value.OpFrame? && !op.value.phase.Acquire?
  }

  /** A CreateSession that has passed its freshness check and has not stamped yet. */
  predicate Committed(st: Stack) {
    var op := OpOf(st);
    op.Some? && op.value.OpFrame? && op.value.kind.CreateOp? &&
    (op.value.phase.Renewing? || op.value.phase.RenewalReturned? || op.value.phase.Merging? ||
     op.value.phase.Authenticating? || op.value.phase.AuthReturned?)
  }

  /** A locked operation whose ticket request has just succeeded. */
  predicate Granted(st: Stack) {
    var op := OpOf(st);
    op.Some? && op.value.OpFrame? &&
    (op.value.phase == RenewalReturned(true) || op.value.phase == AuthReturned(true))
  }

  /** A CreateSession that has read the one-time password and is about to clear it. */
  predicate Copied(st: Stack) {
    var op := OpOf(st);
    op.Some? && op.value.OpFrame? && op.value.phase == Merging(true)
  }

  /** The code is in the client or in one ticket body, and whoever read it can still rely on it. */
  predicate OtpOnce(s: System) {
    && s.otpBodies + (if s.otp then 1 else 0) <= 1
    && forall g | 0 <= g < |s.stacks| :: Copied(s.stacks[g]) ==> s.otp
  }

  predicate Exclusion(s: System) {
    (s.holder.Some? ==> s.holder.value < |s.stacks|) &&
    forall g | 0 <= g < |s.stacks| :: Shape(s.stacks[g]) && (Holding(s.stacks[g]) <==> s.holder == Some(g))
  }

  predicate Timely(s: System) {
    && Spaced(s.stamps)
    && (s.stamps != [] ==>
          var last := s.stamps[|s.stamps| - 1];
          s.hasSession && last + HOUR <= s.expiresAt && last <= s.clock)
    && (forall g | 0 <= g < |s.stacks| ::
          && (Committed(s.stacks[g]) && s.stamps != [] ==> s.expiresAt <= s.clock)
          && (Granted(s.stacks[g]) ==> s.hasSession))
  }

  // ------------------------------------------------- how stacks keep shape

  /** Returning from a request leaves the locked operation below it, now resumed; returning
      from a locked operation leaves no locked operation at all. */
  lemma ReturnShapes(st: Stack, ok: bool, stamps: seq<int>)
    requires Shape(st) && st != []
    requires if Top(st).ReqFrame? then !Top(st).reqPhase.AwaitingSession? else Top(st).phase.Releasing?
    ensures var st' := Return(st, ok, stamps);
            && Shape(st')
            && Holding(st') == (Top(st).ReqFrame? && Holding(st))
            && Committed(st') == (Top(st).ReqFrame? && Committed(st))
            && Granted(st') == (Top(st).ReqFrame? && Holding(st) && ok)
            && !Copied(st')
  {
    if |st| == 2 {
      assert st[..1] == [st[0]];
    } else if |st| == 3 {
      assert st[..2] == [st[0], st[1]];
      assert Return(st, ok, stamps)[1..] == [Resumed(st[1], ok, stamps)];
    }
  }

  lemma ContinueShapes(st: Stack, phase: OpPhase)
    requires Shape(st) && st != [] && Top(st).OpFrame?
    ensures OpOf(st) == Some(Top(st))
    ensures Shape(Continue(st, phase)) && OpOf(Continue(st, phase)) == Some(Top(st).(phase := phase))
  {
    var f := Top(st).(phase := phase);
    if |st| == 2 {
      assert Replace(st, f) == [st[0], f];
      assert Replace(st, f)[1..] == [f] && (Replace(st, f) + [TICKET_CALL])[1..] == [f, TICKET_CALL];
    } else {
      assert Replace(st, f) == [f];
    }
  }

  /** A request's move keeps the locked operation below it; only that one sets the session. */
  lemma ReqMoveShapes(st: Stack, stamps: seq<int>, a: Action)
    requires Shape(st) && st != [] && Top(st).ReqFrame? && ReqMove(st, stamps, a).Move?
    ensures var Move(st', effect) := ReqMove(st, stamps, a);
            && Shape(st')
            && Holding(st') == Holding(st) && Committed(st') == Committed(st)
            && (effect.Nothing? || (effect.SetSession? && Holding(st)))
            && (Granted(st') ==> effect.SetSession?)
            && !Copied(st')
  {
    hide Copied, Return, Replace, Shape, Holding, Committed, Granted;
    var f := Top(st);
    if !f.reqPhase.AwaitingSession? {
      ReturnShapes(st, true, stamps);
      ReturnShapes(st, false, stamps);
    }
    if !f.reqPhase.AwaitingSession? {
      ReplaceRequest(st, f.(reqPhase := OnWire, sends := f.sends + 1));
      ReplaceRequest(st, f.(reqPhase := Ready));
      if f.endpoint.TicketEndpoint? {
        TicketHolds(st);
      }
      if f.endpoint.Elsewhere? {
        AskForSession(st, f.(reqPhase := AwaitingSession));
      }
    }
  }

  lemma ReplaceRequest(st: Stack, f: Frame)
    requires Shape(st) && st != [] && Top(st).ReqFrame?
    requires f.ReqFrame? && f.endpoint == Top(st).endpoint && f.auths == Top(st).auths
    requires f.reqPhase.Ready? || f.reqPhase.OnWire?
    requires !Top(st).reqPhase.AwaitingSession?
    ensures var st' := Replace(st, f);
            Shape(st') && Holding(st') == Holding(st) && Committed(st') == Committed(st) && !Granted(st') && !Copied(st')
  {
    if |st| == 2 {
      assert Replace(st, f) == [st[0], f];
    } else if |st| == 3 {
      assert Replace(st, f) == [st[0], st[1], f] && Replace(st, f)[1..] == [st[1], f];
    }
  }

  lemma TicketHolds(st: Stack)
    requires Shape(st) && st != [] && Top(st).ReqFrame? && Top(st).endpoint.TicketEndpoint?
    ensures Holding(st)
  {}

  lemma AskForSession(st: Stack, f: Frame)
    requires Shape(st) && st != [] && Top(st).ReqFrame? && f.ReqFrame? && f.reqPhase.AwaitingSession?
    requires f.endpoint.Elsewhere? && Top(st).endpoint.Elsewhere? && !Top(st).reqPhase.AwaitingSession?
    ensures var st' := Replace(st, f) + [OpFrame(CreateOp, Acquire)];
            Shape(st') && !Holding(st) && !Holding(st') && !Committed(st) && !Committed(st') && !Granted(st') && !Copied(st')
  {
    assert |st| == 1;
    assert Replace(st, f) + [OpFrame(CreateOp, Acquire)] == [f, OpFrame(CreateOp, Acquire)];
    assert [f, OpFrame(CreateOp, Acquire)][1..] == [OpFrame(CreateOp, Acquire)];
  }

  /** An operation's move takes or frees the mutex, and stamps only after a granted ticket. */
  lemma OpMoveShapes(st: Stack, mutexFree: bool, hasSession: bool, unexpired: bool, otp: bool, stamps: seq<int>, a: Action)
    requires Shape(st) && st != [] && Top(st).OpFrame?
    requires OpMove(st, mutexFree, hasSession, unexpired, otp, stamps, a).Move?
    ensures var Move(st', effect) := OpMove(st, mutexFree, hasSession, unexpired, otp, stamps, a);
            && Shape(st') && !Granted(st') && !effect.SetSession?
            && Holding(st) == !effect.TakeMutex? && Holding(st') == !effect.FreeMutex?
            && (effect.TakeMutex? ==> mutexFree)
            && (effect.Stamp? ==> Granted(st) && !Committed(st') && (effect.kind.CreateOp? ==> Committed(st)))
            && (Committed(st') ==> Committed(st) || !hasSession || !unexpired)
            && (Copied(st') ==> otp && effect.Nothing?)
            && (effect.SpendOtp? && effect.code ==> Copied(st))
  {
    hide Shape, Continue, Return, OpOf;
    var f := Top(st);
    if f.phase.Releasing? {
      hide Holding, Committed, Granted, Copied;
      ReturnShapes(st, f.phase.ok, stamps);
      ReleasingHolds(st);
    } else {
      ContinueShapes(st, PhaseMove(f.kind, f.phase, mutexFree, hasSession, unexpired, otp, a).value.0);
    }
  }

  lemma ReleasingHolds(st: Stack)
    requires Shape(st) && st != [] && Top(st).OpFrame? && Top(st).phase.Releasing?
    ensures Holding(st)
  {}

  /** The facts that every move of goroutine g shares, as the proofs below need them. */
  lemma MoveShapes(s: System, g: nat, a: Action)
    requires Exclusion(s) && g < |s.stacks| && NextMove(s, g, a).Move?
    ensures var (st, Move(st', effect)) := (s.stacks[g], NextMove(s, g, a));
            && Shape(st')
            && Holding(st') == (if effect.TakeMutex? then true else if effect.FreeMutex? then false else Holding(st))
            && (effect.TakeMutex? ==> s.holder.None?)
            && (effect.FreeMutex? || effect.Stamp? || effect.SetSession? || effect.SpendOtp? ==> Holding(st))
            && (Copied(st') ==> s.otp && effect.Nothing?)
            && (effect.SpendOtp? && effect.code ==> Copied(st))
            && (Granted(st') ==> effect.SetSession?)
            && (Committed(st') ==> !effect.Stamp? && (Committed(st) || !s.hasSession || s.expiresAt <= s.clock))
            && (effect.Stamp? ==> Granted(st) && (effect.kind.CreateOp? ==> Committed(st)))
  {
    hide ReqMove, OpMove, Shape, Holding, Committed, Granted, Copied;
    var st := s.stacks[g];
    if st == [] {
      EntryShapes(a.frame);
    } else if Top(st).ReqFrame? {
      ReqMoveShapes(st, s.stamps, a);
    } else {
      OpMoveShapes(st, s.holder.None?, s.hasSession, s.clock < s.expiresAt, s.otp, s.stamps, a);
    }
  }

  lemma StepKeepsExclusion(s: System, g: nat, a: Action)
    requires Exclusion(s) && Step(s, g, a).Some?
    ensures Exclusion(Step(s, g, a).value)
  {
    hide NextMove, Shape, Holding;
    if !a.Pass? {
      MoveShapes(s, g, a);
    }
  }

  lemma EntryShapes(f: Frame)
    requires EntryPoint(f)
    ensures Shape([f]) && !Holding([f]) && !Committed([f]) && !Granted([f]) && !Copied([f])
    ensures !Holding([])
  {}

  lemma CommittedHolds(st: Stack)
    ensures Committed(st) || Granted(st) || Copied(st) ==> Holding(st)
  {}

  lemma StepKeepsOtpOnce(s: System, g: nat, a: Action)
    requires Exclusion(s) && OtpOnce(s) && Step(s, g, a).Some?
    ensures OtpOnce(Step(s, g, a).value)
  {
    hide NextMove, Shape, Holding, Committed, Granted, Copied;
    if !a.Pass? {
      MoveShapes(s, g, a);
      var s' := Apply(s, g, NextMove(s, g, a));
      forall h | 0 <= h < |s.stacks| ensures Copied(s'.stacks[h]) ==> s'.otp {
        CommittedHolds(s.stacks[h]);
        assert h != g ==> s'.stacks[h] == s.stacks[h];
      }
    }
  }

  lemma StepKeepsTimely(s: System, g: nat, a: Action)
    requires Exclusion(s) && Step(s, g, a).Some? && !Step(s, g, a).value.sawNullTicket
    requires Timely(s)
    ensures Timely(Step(s, g, a).value)
  {
    hide NextMove, Shape, Holding, Committed, Granted, Copied;
    if !a.Pass? {
      MoveShapes(s, g, a);
      var s' := Apply(s, g, NextMove(s, g, a));
      CommittedHolds(s.stacks[g]);
      forall h | 0 <= h < |s.stacks|
        ensures Committed(s'.stacks[h]) && s'.stamps != [] ==> s'.expiresAt <= s'.clock
        ensures Granted(s'.stacks[h]) ==> s'.hasSession
      {
        CommittedHolds(s.stacks[h]);
        assert h != g ==> s'.stacks[h] == s.stacks[h];
      }
      assert Spaced(s'.stamps);
    }
  }

  // ------------------------------------------------------- history of a Req

  /** A Req's own authentications are among the client's, and each resend needed one. */
  predicate HistoryOk(st: Stack, stamps: seq<int>) {
    st != [] && st[0].ReqFrame? ==>
      var f := st[0];
      && Spaced(f.auths)
      && f.sends <= |f.auths| + (if f.reqPhase.Ready? || f.reqPhase == SessionReturned(true) then 0 else 1)
      && (f.auths != [] ==> stamps != [] && f.auths[|f.auths| - 1] <= stamps[|stamps| - 1])
      && (|st| == 2 && st[1].OpFrame? && st[1].phase == Releasing(true) ==>
            stamps != [] && (f.auths != [] ==> f.auths[|f.auths| - 1] + HOUR <= stamps[|stamps| - 1]))
  }

  predicate Histories(s: System) {
    forall g | 0 <= g < |s.stacks| :: HistoryOk(s.stacks[g], s.stamps)
  }

  /** A later stamp does not disturb the history of a goroutine that is not moving. */
  lemma HistorySurvivesStamp(st: Stack, stamps: seq<int>, now: int)
    requires HistoryOk(st, stamps) && (stamps != [] ==> stamps[|stamps| - 1] + HOUR <= now)
    ensures HistoryOk(st, stamps + [now])
  {}

  lemma ReturnKeepsHistory(st: Stack, ok: bool, stamps: seq<int>)
    requires Shape(st) && st != [] && HistoryOk(st, stamps)
    requires if Top(st).ReqFrame? then !Top(st).reqPhase.AwaitingSession? else Top(st).phase == Releasing(ok)
    ensures HistoryOk(Return(st, ok, stamps), stamps)
  {
    if |st| == 2 {
      assert st[..1] == [st[0]];
      assert Return(st, ok, stamps) == [Resumed(st[0], ok, stamps)];
    } else if |st| == 3 {
      assert st[..2] == [st[0], st[1]];
      assert Return(st, ok, stamps) == [st[0], Resumed(st[1], ok, stamps)];
    }
  }

  lemma ReqMoveKeepsHistory(st: Stack, stamps: seq<int>, a: Action)
    requires Shape(st) && st != [] && Top(st).ReqFrame? && ReqMove(st, stamps, a).Move?
    requires HistoryOk(st, stamps)
    ensures HistoryOk(ReqMove(st, stamps, a).stack, stamps)
  {
    hide Return;
    if !Top(st).reqPhase.AwaitingSession? {
      ReturnKeepsHistory(st, true, stamps);
      ReturnKeepsHistory(st, false, stamps);
    }
  }

  lemma ContinueKeepsHistory(st: Stack, phase: OpPhase, stamps: seq<int>)
    requires Shape(st) && st != [] && Top(st).OpFrame? && phase != Releasing(true)
    requires HistoryOk(st, stamps)
    ensures HistoryOk(Continue(st, phase), stamps)
  {}

  /** The release after a stamp; only a CreateSession can have a Req below it. */
  lemma StampKeepsHistory(st: Stack, stamps: seq<int>, now: int)
    requires Shape(st) && st != [] && Top(st).OpFrame? && HistoryOk(st, stamps)
    requires Top(st).kind.CreateOp? && stamps != [] ==> stamps[|stamps| - 1] + HOUR <= now
    ensures HistoryOk(Continue(st, Releasing(true)), if Top(st).kind.CreateOp? then stamps + [now] else stamps)
  {}

  lemma OpMoveKeepsHistory(st: Stack, mutexFree: bool, hasSession: bool, unexpired: bool, otp: bool, stamps: seq<int>, a: Action, now: int)
    requires Shape(st) && st != [] && Top(st).OpFrame? && HistoryOk(st, stamps)
    requires OpMove(st, mutexFree, hasSession, unexpired, otp, stamps, a).Move?
    requires Committed(st) && stamps != [] ==> stamps[|stamps| - 1] + HOUR <= now
    ensures var Move(st', effect) := OpMove(st, mutexFree, hasSession, unexpired, otp, stamps, a);
            HistoryOk(st', if effect.Stamp? && effect.kind.CreateOp? then stamps + [now] else stamps)
  {
    hide HistoryOk, Shape, Return, Continue;
    var f := Top(st);
    ContinueShapes(st, f.phase);
    if f.phase.Releasing? {
      ReturnKeepsHistory(st, f.phase.ok, stamps);
    } else {
      var phase := PhaseMove(f.kind, f.phase, mutexFree, hasSession, unexpired, otp, a).value.0;
      if phase != Releasing(true) {
        ContinueKeepsHistory(st, phase, stamps);
      } else {
        StampKeepsHistory(st, stamps, now);
      }
    }
  }

  predicate Invariant(s: System) {
    Exclusion(s) && OtpOnce(s) && (!s.sawNullTicket ==> Timely(s) && Histories(s))
  }

  lemma StepKeepsInvariant(s: System, g: nat, a: Action)
    requires Invariant(s) && Step(s, g, a).Some?
    ensures Invariant(Step(s, g, a).value)
  {
    hide Step, HistoryOk, Timely, Exclusion, OtpOnce;
    StepKeepsExclusion(s, g, a);
    StepKeepsOtpOnce(s, g, a);
    NullTicketIsRemembered(s, g, a);
    if !Step(s, g, a).value.sawNullTicket {
      StepKeepsTimely(s, g, a);
      StepKeepsHistories(s, g, a);
    }
  }

  lemma NullTicketIsRemembered(s: System, g: nat, a: Action)
    requires Step(s, g, a).Some?
    ensures s.sawNullTicket ==> Step(s, g, a).value.sawNullTicket
  {
    hide ReqMove, OpMove;
  }

  lemma MoverKeepsHistory(s: System, g: nat, a: Action)
    requires Exclusion(s) && Timely(s) && Histories(s)
    requires g < |s.stacks| && NextMove(s, g, a).Move?
    ensures var m := NextMove(s, g, a);
            var stamps := Apply(s, g, m).stamps;
            && HistoryOk(m.stack, stamps)
            && (stamps == s.stamps ||
                  (stamps == s.stamps + [s.clock] && (s.stamps != [] ==> s.stamps[|s.stamps| - 1] + HOUR <= s.clock)))
  {
    hide ReqMove, OpMove, Shape, HistoryOk, Committed, Holding, Granted;
    MoveShapes(s, g, a);
    var st := s.stacks[g];
    assert HistoryOk(st, s.stamps) && Shape(st);
    if st == [] {
      EntryHistory(a.frame, s.stamps);
    } else if Top(st).ReqFrame? {
      ReqMoveShapes(st, s.stamps, a);
      ReqMoveKeepsHistory(st, s.stamps, a);
    } else {
      OpMoveKeepsHistory(st, s.holder.None?, s.hasSession, s.clock < s.expiresAt, s.otp, s.stamps, a, s.clock);
    }
  }

  lemma EntryHistory(f: Frame, stamps: seq<int>)
    requires EntryPoint(f)
    ensures HistoryOk([f], stamps)
  {}

  lemma StepKeepsHistories(s: System, g: nat, a: Action)
    requires Exclusion(s) && Timely(s) && Histories(s) && Step(s, g, a).Some?
    ensures Histories(Step(s, g, a).value)
  {
    hide Timely, Exclusion, HistoryOk, NextMove;
    if !a.Pass? {
      MoverKeepsHistory(s, g, a);
      var s' := Apply(s, g, NextMove(s, g, a));
      forall h | 0 <= h < |s.stacks| && h != g
        ensures HistoryOk(s'.stacks[h], s'.stamps)
      {
        assert s'.stacks[h] == s.stacks[h];
        if s'.stamps != s.stamps {
          HistorySurvivesStamp(s.stacks[h], s.stamps, s.clock);
        }
      }
    }
  }

  // ---------------------------------------------------------- main theorems

  /** Every reachable state satisfies the invariant. */
  lemma {:induction false} ReachableStatesAreSafe(s: System, steps: seq<(nat, Action)>)
    requires Invariant(s) && Execute(s, steps).Some?
    ensures Invariant(Execute(s, steps).value)
    decreases |steps|
  {
    hide Step, Invariant;
    if steps != [] {
      StepKeepsInvariant(s, steps[0].0, steps[0].1);
      ReachableStatesAreSafe(Step(s, steps[0].0, steps[0].1).value, steps[1..]);
    }
  }

  lemma InitialStatesAreSafe(s: System)
    requires Initial(s)
    ensures Invariant(s)
  {}

  predicate Reaches(s0: System, steps: seq<(nat, Action)>, s: System) {
    Initial(s0) && Execute(s0, steps) == Some(s)
  }

  /** A goroutine whose ticket request is on the wire. */
  predicate ExchangesTicket(st: Stack) {
    exists i | 0 <= i < |st| :: st[i].ReqFrame? && st[i].endpoint.TicketEndpoint? && st[i].reqPhase.OnWire?
  }

  /** At most one ticket exchange is in flight. */
  lemma OneTicketInFlight(s0: System, steps: seq<(nat, Action)>, s: System, g: nat, h: nat)
    requires Reaches(s0, steps, s) && g < |s.stacks| && h < |s.stacks|
    requires ExchangesTicket(s.stacks[g]) && ExchangesTicket(s.stacks[h])
    ensures g == h
  {
    InitialStatesAreSafe(s0);
    ReachableStatesAreSafe(s0, steps);
    assert Holding(s.stacks[g]) && Holding(s.stacks[h]);
  }

  /** No goroutine is about to lock the mutex while it holds it; a request to the ticket
      endpoint in particular never asks for a session. */
  lemma MutexIsNeverReacquired(s0: System, steps: seq<(nat, Action)>, s: System, g: nat)
    requires Reaches(s0, steps, s) && g < |s.stacks| && s.stacks[g] != []
    requires Top(s.stacks[g]).OpFrame? && Top(s.stacks[g]).phase.Acquire?
    ensures s.holder != Some(g)
    ensures forall i | 0 <= i < |s.stacks[g]| - 1 ::
              s.stacks[g][i].ReqFrame? && s.stacks[g][i].endpoint.Elsewhere?
  {
    InitialStatesAreSafe(s0);
    ReachableStatesAreSafe(s0, steps);
    assert Shape(s.stacks[g]);
  }

  /** Deadlock freedom: while some goroutine is inside the client, some goroutine can move. */
  lemma SomeGoroutineCanMove(s0: System, steps: seq<(nat, Action)>, s: System, g: nat)
    requires Reaches(s0, steps, s) && g < |s.stacks| && s.stacks[g] != []
    ensures exists h: nat, a: Action :: !a.Pass? && !a.Call? && Step(s, h, a).Some?
  {
    InitialStatesAreSafe(s0);
    ReachableStatesAreSafe(s0, steps);
    CanMove(s, if s.holder.Some? then s.holder.value else g);
  }

  function NextAction(f: Frame): Action {
    match f
    case ReqFrame(_, phase, _, _) =>
      if phase.Ready? then Transmit
      else if phase.OnWire? then Fail(false)
      else if phase == SessionReturned(true) then Resend
      else GiveUp
    case OpFrame(_, phase) =>
      if phase.Acquire? then Lock else if phase.Releasing? then Unlock else Proceed(false, false)
  }

  lemma CanMove(s: System, g: nat)
    requires g < |s.stacks| && s.stacks[g] != [] && Shape(s.stacks[g])
    requires s.holder.None? || Holding(s.stacks[g])
    ensures var a := NextAction(Top(s.stacks[g])); !a.Pass? && !a.Call? && Step(s, g, a).Some?
  {
    assert OpOf(s.stacks[g]) == Some(Top(s.stacks[g])) || Top(s.stacks[g]).ReqFrame?;
  }

  /** Successive successful CreateSession calls are at least one hour apart, in every
      interleaving in which no accepted ticket reply was null. */
  lemma AuthenticationsAreSpaced(s0: System, steps: seq<(nat, Action)>, s: System)
    requires Reaches(s0, steps, s) && !s.sawNullTicket
    ensures Spaced(s.stamps)
  {
    InitialStatesAreSafe(s0);
    ReachableStatesAreSafe(s0, steps);
  }

  /** In every interleaving at most one ticket body carries the WithOTP code, and none does
      while the client still holds it. */
  lemma OtpIsUsedOnce(s0: System, steps: seq<(nat, Action)>, s: System)
    requires Reaches(s0, steps, s)
    ensures s.otpBodies <= 1 && (s.otp ==> s.otpBodies == 0)
  {
    InitialStatesAreSafe(s0);
    ReachableStatesAreSafe(s0, steps);
  }

  /** The send bound holds for each Req in every interleaving, whatever the other goroutines do. */
  lemma SendsAreBounded(s0: System, steps: seq<(nat, Action)>, s: System, g: nat)
    requires Reaches(s0, steps, s) && !s.sawNullTicket
    requires g < |s.stacks| && s.stacks[g] != [] && s.stacks[g][0].ReqFrame?
    ensures var f := s.stacks[g][0];
            f.sends <= if f.auths == [] then 1 else 2 + (s.clock - f.auths[0]) / HOUR
  {
    InitialStatesAreSafe(s0);
    ReachableStatesAreSafe(s0, steps);
    var f := s.stacks[g][0];
    assert HistoryOk(s.stacks[g], s.stamps);
    if f.auths != [] {
      Spread(f.auths, |f.auths| - 1);
    }
  }

  lemma {:induction false} Spread(stamps: seq<int>, j: nat)
    requires Spaced(stamps) && j < |stamps|
    ensures stamps[j] >= stamps[0] + j * HOUR
  {
    if j > 0 {
      Spread(stamps, j - 1);
    }
  }
}
