/** What one retrying layer does, told in terms of the answers alone: which requests it repeats,
    how long it waits between them, and how a cancellation ends it. */
module RetryPauses {
  import opened Prelude
  import opened GoStrings
  import opened RetryPolicy
  import opened RetryStack
  import opened RetryProofs

  // ------------------------------------------------------------- verbs

  /** The verbs that may be repeated without a body. */
  lemma RepeatableVerbs(verb: string)
    ensures IsIdempotent(verb) <==>
            verb == "GET" || verb == "HEAD" || verb == "PUT" || verb == "DELETE" || verb == "OPTIONS" || verb == "TRACE"
  {}

  /** A body-less POST or PATCH goes out once through any stack whose context is never done,
      whatever the answer. */
  lemma PostIsSentOnce(s: Script, verb: string, t: Transport, w: Wire)
    requires ValidStack(t) && s.doneFrom.None? && verb in ["POST", "PATCH", "CONNECT"]
    requires w.getBody == Unset && w.body == NoBody
    ensures Run(s, verb, t, w).1.sent == w.sent + [NoBody]
  {
    RepeatableVerbs(verb);
    BodylessPostIsSentOnce(s, verb, t, w);
  }

  // --------------------------------------------------------------- waits

  /** Answers lo to lo + n - 1 make the layer try again, and answer lo + n is the first that
      it returns, or the last one that it may ask for. */
  ghost predicate StopsAfter(s: Script, p: Policy, lo: nat, attempt: nat, n: nat) {
    && attempt + n < p.maxAttempts
    && (forall k: nat | lo <= k < lo + n :: p.condition(s.OutcomeOf(k)))
    && (!p.condition(s.OutcomeOf(lo + n)) || attempt + n == p.maxAttempts - 1)
  }

  /** The delays that a layer asks for when the first n answers carry no Retry-After: sample
      number k of the random source, cut to the window of its attempt. */
  function JitterSum(s: Script, p: Policy, draw: nat, attempt: nat, n: nat): nat
    requires p.Valid()
    decreases n
  {
    if n == 0 then 0
    else
      ScaledGrows(p.initialBackoff, attempt);
      s.raw(draw) % Min(p.maxBackoff, p.initialBackoff * Pow2(attempt)) + JitterSum(s, p, draw + 1, attempt + 1, n - 1)
  }

  ghost predicate NoRetryAfter(s: Script, k: nat) {
    s.reply(k).answer.Some? ==> s.reply(k).answer.value.1 == ""
  }

  ghost predicate RetryAfterIs(s: Script, k: nat, secs: nat) {
    s.reply(k).answer.Some? && s.reply(k).answer.value.1 == Numeral(secs)
  }

  /** A pause lasts as long as Retry-After says, capped. */
  lemma PauseOfHeader(s: Script, verb: string, p: Policy, attempt: nat, k: nat, w: Wire, secs: nat)
    requires p.Valid() && attempt < p.maxAttempts - 1 && s.doneFrom.None? && Replayable(verb, w)
    requires p.condition(s.OutcomeOf(k)) && RetryAfterIs(s, k, secs) && secs <= 9_223_372_036
    ensures var (result, w') := Digest(s, verb, p, attempt, s.OutcomeOf(k), w);
            result.None? && w'.slept == w.slept + Min(secs * 1_000_000_000, p.maxBackoff) && w'.draws == w.draws
  {
    hide PlanBackoff, DelayOf;
    var out := s.OutcomeOf(k);
    var tick := if out.err.Some? then w.tick + 1 else w.tick;
    assert Numeral(secs) == "" + Numeral(secs) + "";
    HeaderSeconds(p, attempt, out.res.value, s.now(tick), s.dates, s.raw(w.draws), "", secs, "");
  }

  /** Without a header a pause lasts as long as the sample says. */
  lemma PauseOfJitter(s: Script, verb: string, p: Policy, attempt: nat, k: nat, w: Wire)
    requires p.Valid() && attempt < p.maxAttempts - 1 && s.doneFrom.None? && Replayable(verb, w)
    requires p.condition(s.OutcomeOf(k)) && NoRetryAfter(s, k) && NeverWraps(p.initialBackoff, p.maxBackoff)
    ensures Min(p.maxBackoff, p.initialBackoff * Pow2(attempt)) > 0
    ensures var (result, w') := Digest(s, verb, p, attempt, s.OutcomeOf(k), w);
            && result.None? && w'.draws == w.draws + 1
            && w'.slept == w.slept + s.raw(w.draws) % Min(p.maxBackoff, p.initialBackoff * Pow2(attempt))
  {
    hide PlanBackoff, DelayOf, Window, NeverWraps;
    var out := s.OutcomeOf(k);
    var tick := if out.err.Some? then w.tick + 1 else w.tick;
    TrimSpaceIsTrimmed("");
    NoHeader(p, attempt, out.res, s.now(tick), s.dates, s.raw(w.draws));
  }

  /** A layer returns what it may not or need not repeat, without a pause. */
  lemma NoPause(s: Script, verb: string, p: Policy, attempt: nat, out: Outcome, w: Wire)
    requires p.Valid() && s.doneFrom.None? && (!p.condition(out) || attempt == p.maxAttempts - 1)
    ensures var (result, w') := Digest(s, verb, p, attempt, out, w);
            result == Some(out) && w'.slept == w.slept && w'.sent == w.sent
  {}

  /** One call of the base, in terms of the script. */
  lemma CallsBase(s: Script, verb: string, attempt: nat, w: Wire)
    requires Settled(w) && Replayable(verb, w)
    ensures var (out, tried) := Run(s, verb, Base, Prepared(s, attempt, w));
            && out == s.OutcomeOf(|w.sent|) && |tried.sent| == |w.sent| + 1
            && tried.slept == w.slept && tried.draws == w.draws
            && Settled(tried) && Replayable(verb, tried)
  {}

  lemma {:induction false} AttemptsWaitForHeader(s: Script, verb: string, p: Policy, attempt: nat, w: Wire, n: nat, secs: nat)
    requires p.Valid() && s.doneFrom.None? && attempt < p.maxAttempts && Settled(w) && Replayable(verb, w)
    requires StopsAfter(s, p, |w.sent|, attempt, n) && secs <= 9_223_372_036
    requires forall k: nat | |w.sent| <= k < |w.sent| + n :: RetryAfterIs(s, k, secs)
    ensures var (out, w') := Attempts(s, verb, p, Base, attempt, w);
            && w'.slept == w.slept + Times(n, Min(secs * 1_000_000_000, p.maxBackoff))
            && |w'.sent| == |w.sent| + n + 1 && out == s.OutcomeOf(|w.sent| + n)
    decreases n
  {
    hide Digest, Run, Prepared;
    CallsBase(s, verb, attempt, w);
    var (out, tried) := Run(s, verb, Base, Prepared(s, attempt, w));
    var (result, w') := Digest(s, verb, p, attempt, out, tried);
    DigestFrame(s, verb, p, attempt, out, tried);
    if n == 0 {
      NoPause(s, verb, p, attempt, out, tried);
    } else {
      PauseOfHeader(s, verb, p, attempt, |w.sent|, tried, secs);
      StopsAfterOne(s, p, |w.sent|, attempt, n);
      AttemptsWaitForHeader(s, verb, p, attempt + 1, w', n - 1, secs);
    }
  }

  lemma StopsAfterOne(s: Script, p: Policy, lo: nat, attempt: nat, n: nat)
    requires n > 0 && StopsAfter(s, p, lo, attempt, n)
    ensures StopsAfter(s, p, lo + 1, attempt + 1, n - 1)
  {}

  lemma {:induction false} AttemptsWaitForJitter(s: Script, verb: string, p: Policy, attempt: nat, w: Wire, n: nat)
    requires p.Valid() && s.doneFrom.None? && attempt < p.maxAttempts && Settled(w) && Replayable(verb, w)
    requires StopsAfter(s, p, |w.sent|, attempt, n) && NeverWraps(p.initialBackoff, p.maxBackoff)
    requires forall k: nat | |w.sent| <= k < |w.sent| + n :: NoRetryAfter(s, k)
    ensures var (out, w') := Attempts(s, verb, p, Base, attempt, w);
            && w'.slept == w.slept + JitterSum(s, p, w.draws, attempt, n)
            && |w'.sent| == |w.sent| + n + 1 && out == s.OutcomeOf(|w.sent| + n)
    decreases n
  {
    hide Digest, Run, Prepared, NeverWraps;
    CallsBase(s, verb, attempt, w);
    var (out, tried) := Run(s, verb, Base, Prepared(s, attempt, w));
    var (result, w') := Digest(s, verb, p, attempt, out, tried);
    DigestFrame(s, verb, p, attempt, out, tried);
    if n == 0 {
      NoPause(s, verb, p, attempt, out, tried);
    } else {
      PauseOfJitter(s, verb, p, attempt, |w.sent|, tried);
      StopsAfterOne(s, p, |w.sent|, attempt, n);
      AttemptsWaitForJitter(s, verb, p, attempt + 1, w', n - 1);
    }
  }

  /** Entering a layer with a request it can replay. */
  lemma EntersLayer(s: Script, verb: string, p: Policy, w: Wire)
    requires p.Valid() && s.doneFrom.None? && CanReplay(verb, w)
    ensures var settled := Snapshot(w.(tick := w.tick + 1));
            && settled.Some? && Run(s, verb, Layer(p, Base), w) == Attempts(s, verb, p, Base, 0, settled.value)
            && settled.value.sent == w.sent && settled.value.slept == w.slept && settled.value.draws == w.draws
            && Settled(settled.value) && Replayable(verb, settled.value)
  {
    hide Attempts;
  }

  /** A retry waits as long as Retry-After asks for: when n answers ask for secs seconds and
      the next one ends the attempts, the layer sends n + 1 times and sleeps n times that long,
      each capped at maxBackoff. */
  lemma RetriesWaitForHeader(s: Script, verb: string, p: Policy, w: Wire, n: nat, secs: nat)
    requires p.Valid() && s.doneFrom.None? && CanReplay(verb, w)
    requires StopsAfter(s, p, |w.sent|, 0, n) && secs <= 9_223_372_036
    requires forall k: nat | |w.sent| <= k < |w.sent| + n :: RetryAfterIs(s, k, secs)
    ensures var (out, w') := Run(s, verb, Layer(p, Base), w);
            && w'.slept == w.slept + n * Min(secs * 1_000_000_000, p.maxBackoff)
            && |w'.sent| == |w.sent| + n + 1 && out == s.OutcomeOf(|w.sent| + n)
  {
    hide Run, Attempts, Snapshot;
    EntersLayer(s, verb, p, w);
    AttemptsWaitForHeader(s, verb, p, 0, Snapshot(w.(tick := w.tick + 1)).value, n, secs);
    TimesIsProduct(n, Min(secs * 1_000_000_000, p.maxBackoff));
  }

  /** And without a header it waits as long as the samples of the documented windows say. */
  lemma RetriesWaitForJitter(s: Script, verb: string, p: Policy, w: Wire, n: nat)
    requires p.Valid() && s.doneFrom.None? && CanReplay(verb, w)
    requires StopsAfter(s, p, |w.sent|, 0, n) && NeverWraps(p.initialBackoff, p.maxBackoff)
    requires forall k: nat | |w.sent| <= k < |w.sent| + n :: NoRetryAfter(s, k)
    ensures var (out, w') := Run(s, verb, Layer(p, Base), w);
            && w'.slept == w.slept + JitterSum(s, p, w.draws, 0, n)
            && |w'.sent| == |w.sent| + n + 1 && out == s.OutcomeOf(|w.sent| + n)
  {
    hide Run, Attempts, Snapshot;
    EntersLayer(s, verb, p, w);
    AttemptsWaitForJitter(s, verb, p, 0, Snapshot(w.(tick := w.tick + 1)).value, n);
  }

  /** With the default policy a GET is sent three times while the server keeps answering 429,
      502, 503 or 504, or not at all, and once for any other status. */
  lemma DefaultRetries(s: Script, w: Wire, status: int)
    requires s.doneFrom.None? && w.getBody == Unset && w.body == NoBody
    requires (forall k: nat :: s.reply(k).failed && s.reply(k).answer.None?) ||
             (forall k: nat :: s.reply(k).answer == Some((status, "")) && !s.reply(k).failed)
    ensures var w' := Run(s, "GET", Layer(WithRetry([]), Base), w).1;
            |w'.sent| == |w.sent| + if s.reply(0).failed || status == 429 || 502 <= status <= 504 then 3 else 1
  {
    hide Run, NeverWraps;
    var p := WithRetry([]);
    CapIsSafeIff(p.maxBackoff);
    assert NeverWraps(p.initialBackoff, p.maxBackoff);
    var retried := s.reply(0).failed || status == 429 || 502 <= status <= 504;
    assert forall k: nat :: p.condition(s.OutcomeOf(k)) == retried by {
      forall k: nat ensures p.condition(s.OutcomeOf(k)) == retried {
        assert s.reply(k).failed == s.reply(0).failed;
      }
    }
    RetriesWaitForJitter(s, "GET", p, w, if retried then 2 else 0);
  }

  /** One turn of the loop over the base. */
  lemma OneAttempt(s: Script, verb: string, p: Policy, attempt: nat, w: Wire)
    requires p.Valid() && attempt < p.maxAttempts
    ensures var (out, tried) := BaseCall(s, Prepared(s, attempt, w));
            var (result, w') := Digest(s, verb, p, attempt, out, tried);
            && Attempts(s, verb, p, Base, attempt, w) == (if result.Some? then (result.value, w') else Attempts(s, verb, p, Base, attempt + 1, w'))
            && w'.sent == tried.sent == w.sent + [Prepared(s, attempt, w).body]
  {
    hide Digest, Prepared;
    var (out, tried) := BaseCall(s, Prepared(s, attempt, w));
    DigestFrame(s, verb, p, attempt, out, tried);
    assert Run(s, verb, Base, Prepared(s, attempt, w)) == BaseCall(s, Prepared(s, attempt, w));
    PreparedSends(s, attempt, w);
  }

  lemma PreparedSends(s: Script, attempt: nat, w: Wire)
    ensures Prepared(s, attempt, w).sent == w.sent
  {}

  // -------------------------------------------------------------- bodies

  /** The base reads as much of the body as it likes, and the next call gets what is left
      unless somebody rewinds it. */
  lemma BaseConsumes(s: Script, verb: string, w: Wire, bytes: seq<bv8>)
    requires w.body == Reader(bytes, false)
    ensures var w' := Run(s, verb, Base, w).1;
            && w'.sent == w.sent + [w.body]
            && (s.reply(|w.sent|).read >= |bytes| ==> w'.body == Reader([], false))
            && (s.reply(|w.sent|).read < |bytes| ==> w'.body == Reader(bytes[s.reply(|w.sent|).read..], false))
  {}

  /** A body that cannot be read is not sent. */
  lemma UnreadableIsNotSent(s: Script, verb: string, p: Policy, inner: Transport, w: Wire)
    requires p.Valid() && ValidStack(inner) && !s.Done(w.tick)
    requires w.getBody == Unset && w.body.Reader? && w.body.faulty
    ensures Run(s, verb, Layer(p, inner), w).0 == UNREADABLE && Run(s, verb, Layer(p, inner), w).1.sent == w.sent
  {}

  /** The second attempt has the caller's bytes again, or none if GetBody fails just then. */
  lemma SecondBody(s: Script, verb: string, p: Policy, w: Wire, bytes: seq<bv8>)
    requires p.Valid() && p.maxAttempts > 1 && s.doneFrom.None? && w.getBody == FromCaller(bytes)
    requires p.condition(s.OutcomeOf(|w.sent|))
    ensures var w' := Run(s, verb, Layer(p, Base), w).1;
            && |w'.sent| >= |w.sent| + 2
            && w'.sent[|w.sent| + 1] == Reader(if s.getBodyFails(w.renewals) then [] else bytes, false)
  {
    hide Digest, Attempts;
    var settled := w.(tick := w.tick + 1);
    assert Run(s, verb, Layer(p, Base), w) == Attempts(s, verb, p, Base, 0, settled);
    var (out, tried) := BaseCall(s, settled);
    OneAttempt(s, verb, p, 0, settled);
    DigestRetries(s, verb, p, 0, out, tried);
    DigestFrame(s, verb, p, 0, out, tried);
    var w1 := Digest(s, verb, p, 0, out, tried).1;
    OneAttempt(s, verb, p, 1, w1);
    SentGrows(s, verb, p, 1, w1);
  }

  /** Attempts only add to what was sent, and send at least once. */
  lemma {:induction false} SentGrows(s: Script, verb: string, p: Policy, attempt: nat, w: Wire)
    requires p.Valid() && attempt < p.maxAttempts
    ensures w.sent + [Prepared(s, attempt, w).body] <= Attempts(s, verb, p, Base, attempt, w).1.sent
    decreases p.maxAttempts - attempt
  {
    hide Digest, Attempts, Prepared;
    OneAttempt(s, verb, p, attempt, w);
    var (out, tried) := BaseCall(s, Prepared(s, attempt, w));
    var (result, w') := Digest(s, verb, p, attempt, out, tried);
    DigestFrame(s, verb, p, attempt, out, tried);
    if result.None? {
      SentGrows(s, verb, p, attempt + 1, w');
    }
  }

  // -------------------------------------------------------- cancellation

  /** A layer entered with the context done sends nothing. */
  lemma DoneBeforeEntry(s: Script, verb: string, p: Policy, inner: Transport, w: Wire)
    requires p.Valid() && ValidStack(inner) && s.Done(w.tick)
    ensures Run(s, verb, Layer(p, inner), w).0 == CANCELLED && Run(s, verb, Layer(p, inner), w).1.sent == w.sent
  {}

  /** An error that comes back with the context done is not retried: the request was sent once,
      and the cancellation is returned in place of the error. */
  lemma DoneDuringCall(s: Script, verb: string, p: Policy, w: Wire)
    requires p.Valid() && Settled(w) && !s.Done(w.tick) && s.Done(w.tick + 1)
    requires s.OutcomeOf(|w.sent|).err.Some?
    ensures var (out, w') := Run(s, verb, Layer(p, Base), w);
            out == CANCELLED && |w'.sent| == |w.sent| + 1
  {
    assert Run(s, verb, Layer(p, Base), w) == Attempts(s, verb, p, Base, 0, w.(tick := w.tick + 1));
  }

  /** When the context is done during the pause after a response, the response is closed and
      the cancellation returned, unless there is a pause and its timer wins; then the request
      is sent again. */
  lemma DoneDuringPause(s: Script, verb: string, p: Policy, w: Wire, secs: nat)
    requires p.Valid() && p.maxAttempts > 1 && Settled(w) && Replayable(verb, w)
    requires !s.Done(w.tick) && s.Done(w.tick + 1)
    requires !s.reply(|w.sent|).failed && RetryAfterIs(s, |w.sent|, secs) && secs <= 9_223_372_036
    requires p.condition(s.OutcomeOf(|w.sent|)) && |w.sent| !in w.open
    ensures var (out, w') := Run(s, verb, Layer(p, Base), w);
            if secs == 0 || !s.timerWins(w.tick + 1) then
              out == CANCELLED && |w'.sent| == |w.sent| + 1 && w'.open == w.open
            else
              |w'.sent| >= |w.sent| + 2
  {
    hide PlanBackoff, DelayOf, Attempts, Run;
    var entered := w.(tick := w.tick + 1);
    var (out, tried) := BaseCall(s, entered);
    assert Numeral(secs) == "" + Numeral(secs) + "";
    HeaderSeconds(p, 0, out.res.value, s.now(tried.tick), s.dates, s.raw(tried.draws), "", secs, "");
    var (result, w1) := Digest(s, verb, p, 0, out, tried);
    EntersAt(s, verb, p, w);
    OneAttempt(s, verb, p, 0, entered);
    assert result.None? <==> secs != 0 && s.timerWins(w.tick + 1);
    if result.None? {
      SentGrows(s, verb, p, 1, w1);
    } else {
      assert tried.open - {|w.sent|} == w.open;
    }
  }

  lemma EntersAt(s: Script, verb: string, p: Policy, w: Wire)
    requires p.Valid() && !s.Done(w.tick) && Settled(w)
    ensures Run(s, verb, Layer(p, Base), w) == Attempts(s, verb, p, Base, 0, w.(tick := w.tick + 1))
  {}
}
