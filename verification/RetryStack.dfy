/** One request travelling through a stack of retrying RoundTrippers.

    A shared *http.Client is wrapped once per library client, so the transport is a
    recursive value: a base, or a retry layer over another transport. The base is an
    oracle: it may read any part of the body and return any response or error. */
module RetryStack {
  import opened Prelude
  import opened RetryPolicy

  datatype Transport = Base | Layer(policy: Policy, inner: Transport)

  predicate ValidStack(t: Transport) {
    t.Layer? ==> t.policy.Valid() && ValidStack(t.inner)
  }

  /** req.Body: nil or NoBody, or a reader with its unread bytes; a faulty reader makes
      io.ReadAll fail. */
  datatype Body = NoBody | Reader(unread: seq<bv8>, faulty: bool)

  /** req.GetBody: nil, the caller's own function, or the one snapshotBody installs. */
  datatype GetBody = Unset | FromCaller(bytes: seq<bv8>) | FromBuffer(bytes: seq<bv8>)

  /** One answer of the base: how much of the body it read, and what it returned. */
  datatype Reply = Reply(read: nat, answer: Option<(int, string)>, failed: bool)

  /** Everything the code cannot know beforehand. Ticks number the observations of the
      context; from doneFrom on, ctx.Err() is non-nil. */
  datatype Script = Script(
    reply: nat -> Reply,
    doneFrom: Option<nat>,
    timerWins: nat -> bool,
    raw: nat -> nat,
    getBodyFails: nat -> bool,
    now: nat -> int,
    dates: string -> Option<int>)
  {
    predicate Done(tick: nat) {
      doneFrom.Some? && doneFrom.value <= tick
    }

    /** What base call k returns. */
    function OutcomeOf(k: nat): Outcome {
      var r := reply(k);
      Outcome(if r.answer.Some? then Some(Response(k, r.answer.value.0, r.answer.value.1)) else None,
              if r.failed then Some(Network(k)) else None)
    }
  }

  /** The request and the accounting around it: sent lists the body each base call began
      with, slept adds the requested sleeps, open holds the responses that were opened and
      not yet drained and closed; tick, draws and renewals index the script. */
  datatype Wire = Wire(
    body: Body,
    getBody: GetBody,
    sent: seq<Body>,
    slept: int,
    open: set<nat>,
    tick: nat,
    draws: nat,
    renewals: nat)

  predicate IsIdempotent(verb: string) {
    verb in ["GET", "HEAD", "PUT", "DELETE", "OPTIONS", "TRACE"]
  }

  const CANCELLED := Outcome(None, Some(ContextDone))
  const UNREADABLE := Outcome(None, Some(BodyUnreadable))

  // ------------------------------------------------------- specification

  function BaseCall(s: Script, w: Wire): (Outcome, Wire) {
    var k := |w.sent|;
    var left :=
      match w.body
      case NoBody => NoBody
      case Reader(unread, faulty) => Reader(unread[Min(s.reply(k).read, |unread|)..], faulty);
    (s.OutcomeOf(k),
     w.(body := left,
        sent := w.sent + [w.body],
        open := if s.reply(k).answer.Some? then w.open + {k} else w.open))
  }

  /** snapshotBody: None when the body cannot be read; otherwise the rewind source is
      whatever GetBody is afterwards. */
  function Snapshot(w: Wire): Option<Wire> {
    if w.getBody != Unset || w.body == NoBody then Some(w)
    else if w.body.faulty then None
    else Some(w.(body := Reader(w.body.unread, false), getBody := FromBuffer(w.body.unread)))
  }

  /** req.Body = rewind(): a caller's GetBody that fails yields an empty body. */
  function Rewound(s: Script, w: Wire): Wire {
    match w.getBody
    case Unset => w
    case FromBuffer(bytes) => w.(body := Reader(bytes, false))
    case FromCaller(bytes) =>
      w.(body := Reader(if s.getBodyFails(w.renewals) then [] else bytes, false),
         renewals := w.renewals + 1)
  }

  /** computeBackoff, drainResponse and contextSleep: the wire afterwards, and whether
      the sleep ran to its end. */
  function Pause(s: Script, p: Policy, attempt: nat, res: Option<Response>, w: Wire): (bool, Wire)
    requires p.Valid()
  {
    var plan := PlanBackoff(p, attempt, res, s.now(w.tick), s.dates);
    var delay := DelayOf(plan, s.raw(w.draws));
    var done := s.Done(w.tick) && (delay <= 0 || !s.timerWins(w.tick));
    (!done,
     w.(open := if res.Some? then w.open - {res.value.id} else w.open,
        slept := w.slept + delay,
        draws := if plan.Sample? then w.draws + 1 else w.draws,
        tick := w.tick + 1))
  }

  /** What a layer does before calling its inner transport. */
  function Prepared(s: Script, attempt: nat, w: Wire): Wire {
    if attempt > 0 then Rewound(s, w) else w
  }

  predicate Replayable(verb: string, w: Wire) {
    IsIdempotent(verb) || w.getBody != Unset
  }

  /** What a layer does with the inner result: return it, report the cancellation, or
      (None) pause and go round again. */
  function Digest(s: Script, verb: string, p: Policy, attempt: nat, out: Outcome, w: Wire): (r: (Option<Outcome>, Wire))
    requires p.Valid()
    ensures r.0.None? ==> attempt != p.maxAttempts - 1
  {
    var w1 := if out.err.Some? then w.(tick := w.tick + 1) else w;
    if out.err.Some? && s.Done(w.tick) then (Some(CANCELLED), w1)
    else if !p.condition(out) || !Replayable(verb, w) || attempt == p.maxAttempts - 1 then (Some(out), w1)
    else
      var (completed, w2) := Pause(s, p, attempt, out.res, w1);
      (if completed then None else Some(CANCELLED), w2)
  }

  function Run(s: Script, verb: string, t: Transport, w: Wire): (Outcome, Wire)
    requires ValidStack(t)
    decreases t, 0
  {
    match t
    case Base => BaseCall(s, w)
    case Layer(p, inner) =>
      var w1 := w.(tick := w.tick + 1);
      if s.Done(w.tick) then (CANCELLED, w1)
      else
        var snapshot := Snapshot(w1);
        if snapshot.None? then (UNREADABLE, w1)
        else Attempts(s, verb, p, inner, 0, snapshot.value)
  }

  function Attempts(s: Script, verb: string, p: Policy, inner: Transport, attempt: nat, w: Wire): (Outcome, Wire)
    requires p.Valid() && ValidStack(inner) && attempt < p.maxAttempts
    decreases inner, 1 + p.maxAttempts - attempt
  {
    var (out, tried) := Run(s, verb, inner, Prepared(s, attempt, w));
    var (result, w') := Digest(s, verb, p, attempt, out, tried);
    if result.Some? then (result.value, w')
    else Attempts(s, verb, p, inner, attempt + 1, w')
  }

  /** Between two attempts a layer sends nothing, leaves the body and its rewind source
      alone, and sleeps at most maxBackoff; it does not sleep after its last attempt. */
  lemma DigestFrame(s: Script, verb: string, p: Policy, attempt: nat, out: Outcome, w: Wire)
    requires p.Valid()
    ensures var (result, w') := Digest(s, verb, p, attempt, out, w);
            && w'.sent == w.sent && w'.body == w.body && w'.getBody == w.getBody && w'.renewals == w.renewals
            && w.slept <= w'.slept <= w.slept + p.maxBackoff
            && (attempt == p.maxAttempts - 1 ==> w'.slept == w.slept)
  {
    var w1 := if out.err.Some? then w.(tick := w.tick + 1) else w;
    DelayInRange(p, attempt, out.res, s.now(w1.tick), s.dates, s.raw(w1.draws));
  }

  /** Once a layer has taken its snapshot, no inner layer changes GetBody. */
  predicate Settled(w: Wire) {
    w.getBody != Unset || w.body == NoBody
  }

  lemma {:induction false} RunKeepsGetBody(s: Script, verb: string, t: Transport, w: Wire)
    requires ValidStack(t) && Settled(w)
    ensures Run(s, verb, t, w).1.getBody == w.getBody && Settled(Run(s, verb, t, w).1)
    decreases t, 0
  {
    if t.Layer? && !s.Done(w.tick) {
      AttemptsKeepGetBody(s, verb, t.policy, t.inner, 0, w.(tick := w.tick + 1));
    }
  }

  lemma {:induction false} AttemptsKeepGetBody(s: Script, verb: string, p: Policy, inner: Transport, attempt: nat, w: Wire)
    requires p.Valid() && ValidStack(inner) && attempt < p.maxAttempts && Settled(w)
    ensures var (_, w') := Attempts(s, verb, p, inner, attempt, w); w'.getBody == w.getBody && Settled(w')
    decreases inner, 1 + p.maxAttempts - attempt
  {
    hide Digest;
    RunKeepsGetBody(s, verb, inner, Prepared(s, attempt, w));
    var (out, tried) := Run(s, verb, inner, Prepared(s, attempt, w));
    DigestFrame(s, verb, p, attempt, out, tried);
    var (result, w') := Digest(s, verb, p, attempt, out, tried);
    if result.None? {
      AttemptsKeepGetBody(s, verb, p, inner, attempt + 1, w');
    }
  }

  // ------------------------------------------------------ implementation

  /** The *http.Request together with the connection that carries it. */
  class Exchange {
    const script: Script
    const verb: string
    var body: Body
    var getBody: GetBody
    var sent: seq<Body>
    var slept: int
    var open: set<nat>
    var tick: nat
    var draws: nat
    var renewals: nat

    constructor (script: Script, verb: string, body: Body, getBody: GetBody)
      ensures this.script == script && this.verb == verb
      ensures State() == Wire(body, getBody, [], 0, {}, 0, 0, 0)
    {
      this.script, this.verb, this.body, this.getBody := script, verb, body, getBody;
      sent, slept, open, tick, draws, renewals := [], 0, {}, 0, 0, 0;
    }

    function State(): Wire
      reads this
    {
      Wire(body, getBody, sent, slept, open, tick, draws, renewals)
    }

    method ContextErr() returns (done: bool)
      modifies this`tick
      ensures done == script.Done(old(tick)) && tick == old(tick) + 1
    {
      done := script.Done(tick);
      tick := tick + 1;
    }

    method BaseRoundTrip() returns (out: Outcome)
      modifies this
      ensures (out, State()) == BaseCall(script, old(State()))
    {
      var k := |sent|;
      var reply := script.reply(k);
      sent := sent + [body];
      if body.Reader? {
        body := Reader(body.unread[Min(reply.read, |body.unread|)..], body.faulty);
      }
      if reply.answer.Some? {
        open := open + {k};
      }
      out := script.OutcomeOf(k);
    }

    /** Returns the rewind function as the GetBody it serves from; Unset stands for nil. */
    method SnapshotBody() returns (rewind: GetBody, failed: bool)
      modifies this
      ensures failed <==> Snapshot(old(State())).None?
      ensures failed ==> State() == old(State())
      ensures !failed ==> State() == Snapshot(old(State())).value && rewind == getBody && Settled(State())
    {
      failed := false;
      if getBody != Unset {
        return getBody, false;
      }
      if body == NoBody {
        return Unset, false;
      }
      if body.faulty {
        return Unset, true;
      }
      var buf := body.unread;
      body := Reader(buf, false);
      getBody := FromBuffer(buf);
      rewind := getBody;
    }

    method Rewind(rewind: GetBody)
      requires rewind == getBody != Unset
      modifies this
      ensures State() == Rewound(script, old(State()))
    {
      if rewind.FromBuffer? {
        body := Reader(rewind.bytes, false);
      } else {
        var fails := script.getBodyFails(renewals);
        renewals := renewals + 1;
        body := Reader(if fails then [] else rewind.bytes, false);
      }
    }

    method ComputeBackoff(p: Policy, attempt: nat, res: Option<Response>) returns (delay: int)
      requires p.Valid()
      modifies this`draws
      ensures var plan := PlanBackoff(p, attempt, res, script.now(tick), script.dates);
              && delay == DelayOf(plan, script.raw(old(draws)))
              && draws == (if plan.Sample? then old(draws) + 1 else old(draws))
    {
      if res.Some? {
        var header := ParseRetryAfter(res.value.retryAfter, script.now(tick), script.dates);
        if header.Some? {
          delay := header.value;
          if delay > p.maxBackoff {
            delay := p.maxBackoff;
          }
          if delay < 0 {
            delay := 0;
          }
          return;
        }
      }
      var window := JitterWindow(p.initialBackoff, p.maxBackoff, attempt);
      if window <= 0 {
        return 0;
      }
      delay := script.raw(draws) % window;
      draws := draws + 1;
    }

    method DrainResponse(res: Option<Response>)
      modifies this`open
      ensures open == if res.Some? then old(open) - {res.value.id} else old(open)
    {
      if res.Some? {
        open := open - {res.value.id};
      }
    }

    method Sleep(delay: int) returns (completed: bool)
      modifies this`slept, this`tick
      ensures completed == !(script.Done(old(tick)) && (delay <= 0 || !script.timerWins(old(tick))))
      ensures slept == old(slept) + delay && tick == old(tick) + 1
    {
      slept := slept + delay;
      var timerWins := delay > 0 && script.timerWins(tick);
      var done := ContextErr();
      completed := !done || timerWins;
    }

    /** The part of the loop body after the inner call; None means "next attempt". */
    method AfterAttempt(p: Policy, idempotent: bool, attempt: nat, out: Outcome) returns (result: Option<Outcome>)
      requires p.Valid() && idempotent == Replayable(verb, State())
      modifies this
      ensures (result, State()) == Digest(script, verb, p, attempt, out, old(State()))
    {
      hide PlanBackoff, DelayOf;
      if out.err.Some? {
        var cancelled := ContextErr();
        if cancelled {
          return Some(CANCELLED);
        }
      }
      if !p.condition(out) {
        return Some(out);
      }
      if !idempotent {
        return Some(out);
      }
      if attempt == p.maxAttempts - 1 {
        return Some(out);
      }
      var delay := ComputeBackoff(p, attempt, out.res);
      DrainResponse(out.res);
      var completed := Sleep(delay);
      result := if completed then None else Some(CANCELLED);
    }

    method RoundTrip(t: Transport) returns (out: Outcome)
      requires ValidStack(t)
      modifies this
      ensures (out, State()) == Run(script, verb, t, old(State()))
      decreases t, 0
    {
      hide Attempts;
      if t.Base? {
        out := BaseRoundTrip();
        return;
      }
      var done := ContextErr();
      if done {
        return CANCELLED;
      }
      var rewind, failed := SnapshotBody();
      if failed {
        return UNREADABLE;
      }
      out := Retry(t.policy, t.inner, rewind);
    }

    method Retry(p: Policy, inner: Transport, rewind: GetBody) returns (out: Outcome)
      requires p.Valid() && ValidStack(inner) && rewind == getBody && Settled(State())
      modifies this
      ensures (out, State()) == Attempts(script, verb, p, inner, 0, old(State()))
      decreases inner, 1
    {
      hide Digest, Run, PlanBackoff;
      ghost var answer := Attempts(script, verb, p, inner, 0, State());
      var idempotent := IsIdempotent(verb) || rewind != Unset;
      var attempt := 0;
      while attempt < p.maxAttempts
        invariant 0 <= attempt < p.maxAttempts
        invariant rewind == getBody && Settled(State())
        invariant answer == Attempts(script, verb, p, inner, attempt, State())
      {
        ghost var prepared := Prepared(script, attempt, State());
        if attempt > 0 && rewind != Unset {
          Rewind(rewind);
        }
        assert State() == prepared;
        RunKeepsGetBody(script, verb, inner, prepared);
        out := RoundTrip(inner);
        ghost var tried := State();
        DigestFrame(script, verb, p, attempt, out, tried);
        var result := AfterAttempt(p, idempotent, attempt, out);
        if result.Some? {
          return result.value;
        }
        attempt := attempt + 1;
      }
      assert false; // the return after the source's loop cannot be reached
    }
  }
}
