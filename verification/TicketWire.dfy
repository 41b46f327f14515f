/** Ticket bodies on the wire: a body handed to Req once may be sent several times by the
    retrying transport below. */
module TicketWire {
  import opened Prelude
  import opened RetryStack
  import opened RetryProofs
  import S = Session
  import P = SessionProofs

  /** What became of one ticket body: Req did not get to send it, or it was one RoundTrip. */
  datatype Fate = Unsent | Sent(script: Script, wire: Wire)

  /** The number of base calls it became. */
  function BaseCalls(t: Transport, f: Fate): nat
    requires ValidStack(t)
  {
    match f
    case Unsent => 0
    case Sent(script, wire) =>
      RunIsBounded(script, "POST", t, wire);
      |Run(script, "POST", t, wire).1.sent| - |wire.sent|
  }

  predicate Carries(creds: Option<S.Credentials>, code: string) {
    creds.Some? && creds.value.otp == code
  }

  /** The number of base calls whose body carries the code. */
  function CallsWith(t: Transport, tickets: seq<Option<S.Credentials>>, fates: seq<Fate>, code: string): nat
    requires ValidStack(t) && |fates| == |tickets|
  {
    if tickets == [] then 0
    else
      var n := |tickets| - 1;
      CallsWith(t, tickets[..n], fates[..n], code) + (if Carries(tickets[n], code) then BaseCalls(t, fates[n]) else 0)
  }

  lemma {:induction false} EachBodyIsBounded(t: Transport, tickets: seq<Option<S.Credentials>>, fates: seq<Fate>, code: string)
    requires ValidStack(t) && |fates| == |tickets|
    ensures CallsWith(t, tickets, fates, code) <= Times(P.WithOtp(tickets, code), Limit(t))
  {
    hide Run;
    if tickets != [] {
      var n := |tickets| - 1;
      EachBodyIsBounded(t, tickets[..n], fates[..n], code);
      if fates[n].Sent? {
        RunIsBounded(fates[n].script, "POST", t, fates[n].wire);
      }
    }
  }

  /** Over any run of the client, whatever the transport stack and its outside world do, the
      WithOTP code is on the wire at most m1 * ... * mn times. */
  lemma CodeOnWireIsBounded(env: S.Env, c: S.Client, ops: seq<S.Op>, code: string, t: Transport, fates: seq<Fate>)
    requires code != "" && P.PlainCredentials(env) && P.OtpAccounted(c, code)
    requires ValidStack(t) && |fates| == |S.RunOps(env, c, ops).tickets|
    ensures CallsWith(t, S.RunOps(env, c, ops).tickets, fates, code) <= Limit(t)
  {
    P.OtpIsUsedOnce(env, c, ops, code);
    EachBodyIsBounded(t, S.RunOps(env, c, ops).tickets, fates, code);
  }

  /** Sent, with every answer retriable and the body replayable, as those of Req are. */
  ghost predicate AlwaysRetried(t: Transport, f: Fate) {
    f.Sent? && Relentless(f.script, t) && CanReplay("POST", f.wire)
  }

  /** The bound is reached: when every answer is retriable, a code that left the client is on
      the wire exactly that often. */
  lemma CodeOnWireIsExhaustive(env: S.Env, c: S.Client, ops: seq<S.Op>, code: string, t: Transport, fates: seq<Fate>)
    requires code != "" && P.PlainCredentials(env) && P.OtpAccounted(c, code)
    requires ValidStack(t) && |fates| == |S.RunOps(env, c, ops).tickets|
    requires forall f | f in fates :: AlwaysRetried(t, f)
    ensures CallsWith(t, S.RunOps(env, c, ops).tickets, fates, code) ==
            if S.RunOps(env, c, ops).otp == "" then Limit(t) else 0
  {
    P.OtpIsUsedOnce(env, c, ops, code);
    EachBodyIsExhaustive(t, S.RunOps(env, c, ops).tickets, fates, code);
  }

  lemma {:induction false} EachBodyIsExhaustive(t: Transport, tickets: seq<Option<S.Credentials>>, fates: seq<Fate>, code: string)
    requires ValidStack(t) && |fates| == |tickets| && forall f | f in fates :: AlwaysRetried(t, f)
    ensures CallsWith(t, tickets, fates, code) == Times(P.WithOtp(tickets, code), Limit(t))
  {
    hide Run, Relentless, CanReplay;
    if tickets != [] {
      var n := |tickets| - 1;
      EachBodyIsExhaustive(t, tickets[..n], fates[..n], code);
      assert fates[n] in fates;
      RunIsExhaustive(fates[n].script, "POST", t, fates[n].wire);
    }
  }
}
