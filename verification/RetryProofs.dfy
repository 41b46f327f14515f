/** Properties of every run of a retry stack, whatever the base answers. */
module RetryProofs {
  import opened Prelude
  import opened RetryPolicy
  import opened RetryStack

  /** The product of the attempt limits. */
  function Limit(t: Transport): nat
    requires ValidStack(t)
  {
    match t
    case Base => 1
    case Layer(p, inner) => p.maxAttempts * Limit(inner)
  }

  /** T(layer) = (m - 1) * maxBackoff + m * T(inner). */
  function SleepLimit(t: Transport): nat
    requires ValidStack(t)
  {
    match t
    case Base => 0
    case Layer(p, inner) => (p.maxAttempts - 1) * p.maxBackoff + p.maxAttempts * SleepLimit(inner)
  }

  function Depth(t: Transport): nat {
    match t
    case Base => 0
    case Layer(_, inner) => 1 + Depth(inner)
  }

  /** n * x by repeated addition, which keeps the inductions below linear. */
  function Times(n: nat, x: nat): nat {
    if n == 0 then 0 else x + Times(n - 1, x)
  }

  lemma {:induction false} TimesIsProduct(n: nat, x: nat)
    ensures Times(n, x) == n * x
  {
    if n > 0 {
      TimesIsProduct(n - 1, x);
      assert n * x == x + (n - 1) * x;
    }
  }

  // -------------------------------------------------------- calls and sleep

  /** One RoundTrip makes at most m1 * ... * mn base calls and sleeps at most T(stack). */
  lemma {:induction false} RunIsBounded(s: Script, verb: string, t: Transport, w: Wire)
    requires ValidStack(t)
    ensures var (_, w') := Run(s, verb, t, w);
            && |w.sent| <= |w'.sent| <= |w.sent| + Limit(t)
            && w.slept <= w'.slept <= w.slept + SleepLimit(t)
    decreases t, 0
  {
    hide Attempts;
    if t.Layer? {
      TimesIsProduct(t.policy.maxAttempts, Limit(t.inner));
      TimesIsProduct(t.policy.maxAttempts, SleepLimit(t.inner));
      TimesIsProduct(t.policy.maxAttempts - 1, t.policy.maxBackoff);
      if !s.Done(w.tick) && Snapshot(w.(tick := w.tick + 1)).Some? {
        AttemptsAreBounded(s, verb, t.policy, t.inner, 0, Snapshot(w.(tick := w.tick + 1)).value);
      }
    }
  }

  lemma {:induction false} AttemptsAreBounded(s: Script, verb: string, p: Policy, inner: Transport, attempt: nat, w: Wire)
    requires p.Valid() && ValidStack(inner) && attempt < p.maxAttempts
    ensures var (_, w') := Attempts(s, verb, p, inner, attempt, w);
            && |w.sent| <= |w'.sent| <= |w.sent| + Times(p.maxAttempts - attempt, Limit(inner))
            && w.slept <= w'.slept
            && w'.slept <= w.slept + Times(p.maxAttempts - attempt - 1, p.maxBackoff)
                                   + Times(p.maxAttempts - attempt, SleepLimit(inner))
    decreases inner, 1 + p.maxAttempts - attempt
  {
    hide Digest;
    RunIsBounded(s, verb, inner, Prepared(s, attempt, w));
    var (out, tried) := Run(s, verb, inner, Prepared(s, attempt, w));
    DigestFrame(s, verb, p, attempt, out, tried);
    var (result, w') := Digest(s, verb, p, attempt, out, tried);
    if result.None? {
      AttemptsAreBounded(s, verb, p, inner, attempt + 1, w');
    }
  }

  /** With the context never done, a retriable outcome of a replayable request is returned
      on the last attempt and goes round again on every other one. */
  lemma DigestRetries(s: Script, verb: string, p: Policy, attempt: nat, out: Outcome, w: Wire)
    requires p.Valid() && s.doneFrom.None? && p.condition(out) && Replayable(verb, w)
    ensures Digest(s, verb, p, attempt, out, w).0 == if attempt == p.maxAttempts - 1 then Some(out) else None
  {}

  /** Every base answer is retriable for every layer, and the context is never done. */
  ghost predicate Relentless(s: Script, t: Transport) {
    s.doneFrom.None? &&
    (t.Layer? ==> (forall k: nat :: t.policy.condition(s.OutcomeOf(k))) && Relentless(s, t.inner))
  }

  /** A body that a layer can send again, or a verb that allows it without one. */
  predicate CanReplay(verb: string, w: Wire) {
    w.getBody != Unset || (w.body.Reader? && !w.body.faulty) || (w.body == NoBody && IsIdempotent(verb))
  }

  /** The bound is reached: with only retriable answers and a replayable request, the stack
      makes exactly m1 * ... * mn base calls and returns the answer of the last one. */
  lemma {:induction false} RunIsExhaustive(s: Script, verb: string, t: Transport, w: Wire)
    requires ValidStack(t) && Relentless(s, t) && CanReplay(verb, w)
    ensures var (out, w') := Run(s, verb, t, w);
            |w'.sent| == |w.sent| + Limit(t) && Limit(t) >= 1 && out == s.OutcomeOf(|w'.sent| - 1)
    decreases t, 0
  {
    hide Attempts;
    if t.Layer? {
      TimesIsProduct(t.policy.maxAttempts, Limit(t.inner));
      var settled := Snapshot(w.(tick := w.tick + 1)).value;
      AttemptsAreExhaustive(s, verb, t.policy, t.inner, 0, settled);
    }
  }

  lemma {:induction false} AttemptsAreExhaustive(s: Script, verb: string, p: Policy, inner: Transport, attempt: nat, w: Wire)
    requires p.Valid() && ValidStack(inner) && attempt < p.maxAttempts
    requires Relentless(s, inner) && forall k: nat :: p.condition(s.OutcomeOf(k))
    requires Settled(w) && Replayable(verb, w)
    ensures var (out, w') := Attempts(s, verb, p, inner, attempt, w);
            && |w'.sent| == |w.sent| + Times(p.maxAttempts - attempt, Limit(inner)) > |w.sent|
            && out == s.OutcomeOf(|w'.sent| - 1)
    decreases inner, 1 + p.maxAttempts - attempt
  {
    hide Digest;
    var prepared := Prepared(s, attempt, w);
    RunIsExhaustive(s, verb, inner, prepared);
    RunKeepsGetBody(s, verb, inner, prepared);
    var (out, tried) := Run(s, verb, inner, prepared);
    DigestFrame(s, verb, p, attempt, out, tried);
    DigestRetries(s, verb, p, attempt, out, tried);
    var (result, w') := Digest(s, verb, p, attempt, out, tried);
    if result.None? {
      AttemptsAreExhaustive(s, verb, p, inner, attempt + 1, w');
    }
  }

  // ---------------------------------------------------------------- bodies

  predicate Serves(g: GetBody, bytes: seq<bv8>) {
    g != Unset && g.bytes == bytes
  }

  /** Some caller-supplied GetBody call before number n failed. */
  ghost predicate FailedBefore(s: Script, n: nat) {
    exists j: nat | j < n :: s.getBodyFails(j)
  }

  /** An unread body with the original bytes; or, only after a GetBody failure, an empty one. */
  ghost predicate Intact(s: Script, bytes: seq<bv8>, b: Body, renewals: nat) {
    b.Reader? && (b.unread == bytes || (b.unread == [] && FailedBefore(s, renewals)))
  }

  ghost predicate AllIntact(s: Script, bytes: seq<bv8>, w: Wire) {
    forall b | b in w.sent :: Intact(s, bytes, b, w.renewals)
  }

  /** The request as its creator hands it over: GetBody, if set, yields the body's bytes. */
  ghost predicate Faithful(s: Script, bytes: seq<bv8>, w: Wire) {
    Intact(s, bytes, w.body, w.renewals) &&
    (if w.getBody == Unset then w.body.unread == bytes else Serves(w.getBody, bytes))
  }

  lemma SnapshotIsFaithful(s: Script, bytes: seq<bv8>, w: Wire, settled: Wire)
    requires Faithful(s, bytes, w) && Snapshot(w) == Some(settled)
    ensures Serves(settled.getBody, bytes) && Intact(s, bytes, settled.body, settled.renewals)
    ensures settled.sent == w.sent && settled.renewals == w.renewals
  {}

  /** At every depth, every base call starts with an unread body equal to the original
      bytes, however much of it earlier attempts consumed. */
  lemma {:induction false} EveryBodyIsIntact(s: Script, verb: string, t: Transport, bytes: seq<bv8>, w: Wire)
    requires ValidStack(t) && Faithful(s, bytes, w) && AllIntact(s, bytes, w)
    ensures var (_, w') := Run(s, verb, t, w); AllIntact(s, bytes, w') && w.renewals <= w'.renewals
    decreases t, 0
  {
    hide Attempts;
    var entered := w.(tick := w.tick + 1);
    if t.Layer? && !s.Done(w.tick) && Snapshot(entered).Some? {
      var settled := Snapshot(entered).value;
      SnapshotIsFaithful(s, bytes, entered, settled);
      AttemptBodiesAreIntact(s, verb, t.policy, t.inner, bytes, 0, settled);
    }
  }

  lemma {:induction false} AttemptBodiesAreIntact(s: Script, verb: string, p: Policy, inner: Transport, bytes: seq<bv8>, attempt: nat, w: Wire)
    requires p.Valid() && ValidStack(inner) && attempt < p.maxAttempts
    requires Serves(w.getBody, bytes) && (attempt == 0 ==> Intact(s, bytes, w.body, w.renewals))
    requires AllIntact(s, bytes, w)
    ensures var (_, w') := Attempts(s, verb, p, inner, attempt, w); AllIntact(s, bytes, w') && w.renewals <= w'.renewals
    decreases inner, 1 + p.maxAttempts - attempt
  {
    hide Digest;
    var prepared := Prepared(s, attempt, w);
    EveryBodyIsIntact(s, verb, inner, bytes, prepared);
    RunKeepsGetBody(s, verb, inner, prepared);
    var (out, tried) := Run(s, verb, inner, prepared);
    DigestFrame(s, verb, p, attempt, out, tried);
    var (result, w') := Digest(s, verb, p, attempt, out, tried);
    if result.None? {
      AttemptBodiesAreIntact(s, verb, p, inner, bytes, attempt + 1, w');
    }
  }

  /** With a GetBody that never fails (every body Req builds, and every body snapshotBody
      buffers), all base calls get exactly the original bytes. */
  lemma EveryBodyIsTheOriginal(s: Script, verb: string, t: Transport, bytes: seq<bv8>, w: Wire)
    requires ValidStack(t) && Faithful(s, bytes, w) && w.sent == []
    requires w.getBody.FromCaller? ==> forall j: nat :: !s.getBodyFails(j)
    requires !w.getBody.FromCaller? ==> w.renewals == 0
    ensures var (_, w') := Run(s, verb, t, w);
            forall b | b in w'.sent :: b.Reader? && b.unread == bytes
  {
    EveryBodyIsIntact(s, verb, t, bytes, w);
    if !w.getBody.FromCaller? {
      OwnBufferNeverRenews(s, verb, t, w);
    }
  }

  lemma {:induction false} OwnBufferNeverRenews(s: Script, verb: string, t: Transport, w: Wire)
    requires ValidStack(t) && !w.getBody.FromCaller?
    ensures var (_, w') := Run(s, verb, t, w); w'.renewals == w.renewals && !w'.getBody.FromCaller?
    decreases t, 0
  {
    hide Attempts;
    if t.Layer? && !s.Done(w.tick) && Snapshot(w.(tick := w.tick + 1)).Some? {
      OwnBufferAttempts(s, verb, t.policy, t.inner, 0, Snapshot(w.(tick := w.tick + 1)).value);
    }
  }

  lemma {:induction false} OwnBufferAttempts(s: Script, verb: string, p: Policy, inner: Transport, attempt: nat, w: Wire)
    requires p.Valid() && ValidStack(inner) && attempt < p.maxAttempts && !w.getBody.FromCaller?
    ensures var (_, w') := Attempts(s, verb, p, inner, attempt, w); w'.renewals == w.renewals && !w'.getBody.FromCaller?
    decreases inner, 1 + p.maxAttempts - attempt
  {
    hide Digest;
    var prepared := Prepared(s, attempt, w);
    OwnBufferNeverRenews(s, verb, inner, prepared);
    var (out, tried) := Run(s, verb, inner, prepared);
    DigestFrame(s, verb, p, attempt, out, tried);
    var (result, w') := Digest(s, verb, p, attempt, out, tried);
    if result.None? {
      OwnBufferAttempts(s, verb, p, inner, attempt + 1, w');
    }
  }

  /** A body-less request with a non-idempotent verb is sent exactly once, unless the context
      is done by the time the innermost layer is entered: then it is not sent at all. */
  lemma {:induction false} BodylessPostIsSentOnce(s: Script, verb: string, t: Transport, w: Wire)
    requires ValidStack(t) && !IsIdempotent(verb) && w.getBody == Unset && w.body == NoBody
    ensures Run(s, verb, t, w).1.sent ==
            if Depth(t) > 0 && s.Done(w.tick + Depth(t) - 1) then w.sent else w.sent + [NoBody]
    decreases t
  {
    if t.Layer? && !s.Done(w.tick) {
      var entered := w.(tick := w.tick + 1);
      BodylessPostIsSentOnce(s, verb, t.inner, entered);
      RunKeepsGetBody(s, verb, t.inner, entered);
      assert Run(s, verb, t, w) == Attempts(s, verb, t.policy, t.inner, 0, entered);
    }
  }

  // ---------------------------------------------------------------- ledger

  /** The http.RoundTripper contract: exactly one of response and error. */
  predicate Exclusive(o: Outcome) {
    o.res.Some? != o.err.Some?
  }

  ghost predicate ProperBase(s: Script) {
    forall k: nat :: Exclusive(s.OutcomeOf(k))
  }

  predicate IdsBelow(ids: set<nat>, n: nat) {
    forall id | id in ids :: id < n
  }

  /** After a RoundTrip the open responses are those open before plus the returned one. */
  predicate Balanced(before: Wire, out: Outcome, after: Wire) {
    && |before.sent| <= |after.sent|
    && Exclusive(out)
    && (out.res.Some? ==> |before.sent| <= out.res.value.id < |after.sent|)
    && after.open == (if out.res.Some? then before.open + {out.res.value.id} else before.open)
  }

  /** If the base returns exactly one of response and error, so does every stack, and no
      response leaks: all of them are drained and closed except the one returned. */
  lemma {:induction false} LedgerBalances(s: Script, verb: string, t: Transport, w: Wire)
    requires ValidStack(t) && ProperBase(s) && IdsBelow(w.open, |w.sent|)
    ensures Balanced(w, Run(s, verb, t, w).0, Run(s, verb, t, w).1)
    decreases t, 0
  {
    hide Attempts;
    if t.Base? {
      assert Exclusive(s.OutcomeOf(|w.sent|));
    } else if !s.Done(w.tick) && Snapshot(w.(tick := w.tick + 1)).Some? {
      AttemptsBalance(s, verb, t.policy, t.inner, 0, Snapshot(w.(tick := w.tick + 1)).value);
    }
  }

  lemma {:induction false} AttemptsBalance(s: Script, verb: string, p: Policy, inner: Transport, attempt: nat, w: Wire)
    requires p.Valid() && ValidStack(inner) && attempt < p.maxAttempts
    requires ProperBase(s) && IdsBelow(w.open, |w.sent|)
    ensures Balanced(w, Attempts(s, verb, p, inner, attempt, w).0, Attempts(s, verb, p, inner, attempt, w).1)
    decreases inner, 1 + p.maxAttempts - attempt
  {
    hide Digest;
    var prepared := Prepared(s, attempt, w);
    LedgerBalances(s, verb, inner, prepared);
    var (out, tried) := Run(s, verb, inner, prepared);
    DigestBalances(s, verb, p, attempt, out, prepared, tried);
    var (result, w') := Digest(s, verb, p, attempt, out, tried);
    if result.None? {
      AttemptsBalance(s, verb, p, inner, attempt + 1, w');
    }
  }

  /** Going round again, or giving up during the sleep, leaves only the old responses open. */
  lemma DigestBalances(s: Script, verb: string, p: Policy, attempt: nat, out: Outcome, before: Wire, w: Wire)
    requires p.Valid() && IdsBelow(before.open, |before.sent|) && Balanced(before, out, w)
    ensures var (result, w') := Digest(s, verb, p, attempt, out, w);
            && w'.sent == w.sent
            && (if result.Some? then Balanced(before, result.value, w') else w'.open == before.open)
  {}

  // --------------------------------------------------------------- answers

  /** Some layer of the stack would try again after this answer. */
  predicate Retriable(t: Transport, o: Outcome) {
    t.Layer? && (t.policy.condition(o) || Retriable(t.inner, o))
  }

  /** Base calls lo to hi - 2 were followed by another one; each must have been retriable. */
  ghost predicate OnlyRetried(s: Script, t: Transport, lo: nat, hi: nat) {
    forall k: nat | lo <= k < hi - 1 :: Retriable(t, s.OutcomeOf(k))
  }

  /** The outcome is the last base answer, or a cancellation, or an unreadable body. */
  predicate Accounted(s: Script, before: Wire, out: Outcome, after: Wire) {
    && |before.sent| <= |after.sent|
    && (out == CANCELLED ==> s.Done(after.tick))
    && (out != CANCELLED && out != UNREADABLE ==>
          |before.sent| < |after.sent| && out == s.OutcomeOf(|after.sent| - 1))
    && (out == UNREADABLE ==> !Settled(before) && after.sent == before.sent)
  }

  /** Whatever the base answers, a stack goes on only after an answer that one of its layers
      considers retriable, and what it returns is the answer it stopped at. */
  lemma {:induction false} AnswersAreAccounted(s: Script, verb: string, t: Transport, w: Wire)
    requires ValidStack(t)
    ensures var (out, w') := Run(s, verb, t, w);
            Accounted(s, w, out, w') && OnlyRetried(s, t, |w.sent|, |w'.sent|)
    decreases t, 0
  {
    hide Attempts, Retriable;
    var entered := w.(tick := w.tick + 1);
    if t.Layer? && !s.Done(w.tick) && Snapshot(entered).Some? {
      AttemptsAreAccounted(s, verb, t.policy, t.inner, 0, Snapshot(entered).value);
    }
  }

  lemma {:induction false} AttemptsAreAccounted(s: Script, verb: string, p: Policy, inner: Transport, attempt: nat, w: Wire)
    requires p.Valid() && ValidStack(inner) && attempt < p.maxAttempts && Settled(w)
    ensures var (out, w') := Attempts(s, verb, p, inner, attempt, w);
            Accounted(s, w, out, w') && OnlyRetried(s, Layer(p, inner), |w.sent|, |w'.sent|)
    decreases inner, 1 + p.maxAttempts - attempt
  {
    hide Digest, Retriable, Run;
    var prepared := Prepared(s, attempt, w);
    AnswersAreAccounted(s, verb, inner, prepared);
    RunKeepsGetBody(s, verb, inner, prepared);
    var (out, tried) := Run(s, verb, inner, prepared);
    RetriableOfLayer(s, p, inner, |w.sent|, |tried.sent|);
    DigestFrame(s, verb, p, attempt, out, tried);
    DigestGoesOn(s, verb, p, attempt, out, tried);
    var (result, w') := Digest(s, verb, p, attempt, out, tried);
    if result.None? {
      AttemptsAreAccounted(s, verb, p, inner, attempt + 1, w');
      LayerRetries(s, p, inner, |tried.sent| - 1);
    }
  }

  lemma RetriableOfLayer(s: Script, p: Policy, inner: Transport, lo: nat, hi: nat)
    requires OnlyRetried(s, inner, lo, hi)
    ensures OnlyRetried(s, Layer(p, inner), lo, hi)
  {}

  lemma LayerRetries(s: Script, p: Policy, inner: Transport, k: nat)
    requires p.condition(s.OutcomeOf(k))
    ensures Retriable(Layer(p, inner), s.OutcomeOf(k))
  {}

  /** A layer goes round again only after an outcome its condition accepts, and never after a
      cancellation. */
  lemma DigestGoesOn(s: Script, verb: string, p: Policy, attempt: nat, out: Outcome, w: Wire)
    requires p.Valid() && (out == CANCELLED ==> s.Done(w.tick))
    ensures var (result, w') := Digest(s, verb, p, attempt, out, w);
            && w.tick <= w'.tick
            && (result.None? ==> p.condition(out) && out != CANCELLED)
            && (result.Some? ==> result.value == out || (result.value == CANCELLED && s.Done(w'.tick)))
            && (result == Some(CANCELLED) ==> s.Done(w'.tick))
  {}
}
