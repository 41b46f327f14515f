/** The retry policy, the options that build it, and the delay between two attempts. */
module RetryPolicy {
  import opened Prelude
  import opened GoStrings

  const MILLISECOND: int := 1_000_000
  const SECOND: int := 1_000_000_000
  const DEFAULT_MAX_ATTEMPTS: int := 3
  const DEFAULT_INITIAL_BACKOFF: int := 200 * MILLISECOND
  const DEFAULT_MAX_BACKOFF: int := 5 * SECOND

  /** A response names the base call that opened it; retryAfter is its Retry-After header. */
  datatype Response = Response(id: nat, status: int, retryAfter: string)

  /** Network errors name the base call that failed. */
  datatype Error = Network(call: nat) | ContextDone | BodyUnreadable

  /** What a RoundTripper returns: a response pointer and an error, each possibly nil. */
  datatype Outcome = Outcome(res: Option<Response>, err: Option<Error>)

  datatype Policy = Policy(
    maxAttempts: int,
    initialBackoff: int,
    maxBackoff: int,
    condition: Outcome -> bool)
  {
    predicate Valid() {
      maxAttempts >= 1 && 0 < initialBackoff < TWO_63 && 0 < maxBackoff < TWO_63
    }
  }

  datatype RetryOption =
    | WithRetryMax(n: int)
    | WithRetryBackoff(initial: int, max: int)
    | WithRetryCondition(fn: Option<Outcome -> bool>)

  /** The int and time.Duration arguments of an option are 64-bit. */
  predicate Representable(o: RetryOption) {
    o.WithRetryBackoff? ==> FitsInt64(o.initial) && FitsInt64(o.max)
  }

  predicate DefaultCondition(o: Outcome) {
    o.err.Some? || (o.res.Some? && o.res.value.status in {502, 503, 504, 429})
  }

  function DefaultPolicy(): Policy {
    Policy(DEFAULT_MAX_ATTEMPTS, DEFAULT_INITIAL_BACKOFF, DEFAULT_MAX_BACKOFF, DefaultCondition)
  }

  function Apply(p: Policy, o: RetryOption): Policy {
    match o
    case WithRetryMax(n) => p.(maxAttempts := if n < 1 then 1 else n)
    case WithRetryBackoff(initial, max) =>
      p.(initialBackoff := if initial > 0 then initial else p.initialBackoff,
         maxBackoff := if max > 0 then max else p.maxBackoff)
    case WithRetryCondition(fn) => if fn.Some? then p.(condition := fn.value) else p
  }

  function WithRetry(opts: seq<RetryOption>): Policy {
    if opts == [] then DefaultPolicy()
    else Apply(WithRetry(opts[..|opts| - 1]), opts[|opts| - 1])
  }

  /** Every policy the options can build is usable: positive limits, at least one attempt. */
  lemma {:induction false} BuiltPolicyIsValid(opts: seq<RetryOption>)
    requires forall i | 0 <= i < |opts| :: Representable(opts[i])
    ensures WithRetry(opts).Valid()
  {
    if opts != [] {
      BuiltPolicyIsValid(opts[..|opts| - 1]);
    }
  }

  // ---------------------------------------------------------------- jitter

  /** The doubling loop, in int64 arithmetic. */
  function Doubled(window: int, max: int, steps: nat): int
    decreases steps
  {
    if steps == 0 || window >= max then window
    else Doubled(Wrap64(2 * window), max, steps - 1)
  }

  /** The jitter window after the loop and the cap. */
  function Window(initial: int, max: int, attempt: nat): int {
    Min(Doubled(initial, max, attempt), max)
  }

  method JitterWindow(initial: int, max: int, attempt: nat) returns (window: int)
    ensures window == Window(initial, max, attempt)
  {
    window := initial;
    var i := 0;
    while i < attempt && window < max
      invariant 0 <= i <= attempt
      invariant Doubled(window, max, attempt - i) == Doubled(initial, max, attempt)
    {
      window := Wrap64(window * 2);
      i := i + 1;
    }
    if window > max {
      window := max;
    }
  }

  lemma ScaledGrows(window: int, steps: nat)
    requires 0 < window
    ensures window * Pow2(steps) >= window
    ensures steps > 0 ==> window * Pow2(steps) == (2 * window) * Pow2(steps - 1)
  {
    if steps > 0 {
      var p := Pow2(steps - 1);
      assert window * (2 * p) == (2 * window) * p;
    }
  }

  /** No doubling of window lies in [2^62, max): the loop never doubles past the int64 range. */
  ghost predicate NeverWraps(window: int, max: int) {
    forall k: nat :: !(TWO_63 / 2 <= window * Pow2(k) < max)
  }

  lemma {:induction false} DoublingIsExact(window: int, max: int, steps: nat)
    requires 0 < window < TWO_63 && 0 < max < TWO_63 && NeverWraps(window, max)
    ensures Min(Doubled(window, max, steps), max) == Min(max, window * Pow2(steps))
    decreases steps
  {
    ScaledGrows(window, steps);
    if steps > 0 && window < max {
      assert window * Pow2(0) == window;
      forall k: nat ensures !(TWO_63 / 2 <= (2 * window) * Pow2(k) < max) {
        ScaledGrows(window, k + 1);
        assert !(TWO_63 / 2 <= window * Pow2(k + 1) < max);
      }
      DoublingIsExact(2 * window, max, steps - 1);
    }
  }

  /** While the window stays below max, the loop doubles it without wrapping. */
  lemma {:induction false} DoubledOnce(window: int, max: int, steps: nat)
    requires 0 < window && max < TWO_63 && window * Pow2(steps) < max
    ensures Doubled(window, max, steps + 1) == Wrap64(2 * (window * Pow2(steps)))
    decreases steps
  {
    ScaledGrows(window, steps);
    if steps == 0 {
      assert Doubled(window, max, 1) == Doubled(Wrap64(2 * window), max, 0);
    } else {
      ScaledGrows(2 * window, steps - 1);
      DoubledOnce(2 * window, max, steps - 1);
    }
  }

  /** One doubling of a window from [2^62, 2^63) leaves the int64 range and comes back negative. */
  lemma DoublingWraps(window: int, max: int, k: nat)
    requires 0 < window && 0 < max < TWO_63 && TWO_63 / 2 <= window * Pow2(k) < max
    ensures Window(window, max, k + 1) < 0 < Min(max, window * Pow2(k + 1))
  {
    DoubledOnce(window, max, k);
    ScaledGrows(window, k + 1);
    assert Wrap64(2 * (window * Pow2(k))) == 2 * (window * Pow2(k)) - 2 * TWO_63;
  }

  /** A policy gets the documented window min(max, initial * 2^attempt) on every attempt exactly
      when none of its doublings lands in [2^62, max); in other words, when max is at most the
      first of them to reach 2^62 nanoseconds. */
  lemma WindowExactIff(initial: int, max: int)
    requires 0 < initial < TWO_63 && 0 < max < TWO_63
    ensures (forall attempt: nat :: Window(initial, max, attempt) == Min(max, initial * Pow2(attempt)))
            <==> NeverWraps(initial, max)
  {
    if NeverWraps(initial, max) {
      forall attempt: nat ensures Window(initial, max, attempt) == Min(max, initial * Pow2(attempt)) {
        DoublingIsExact(initial, max, attempt);
      }
    } else {
      var k: nat :| TWO_63 / 2 <= initial * Pow2(k) < max;
      DoublingWraps(initial, max, k);
    }
  }

  /** A cap is safe for every initial backoff exactly when it is at most 2^62 nanoseconds. */
  lemma CapIsSafeIff(max: int)
    requires 0 < max < TWO_63
    ensures (forall initial: int | 0 < initial < TWO_63 :: NeverWraps(initial, max)) <==> max <= TWO_63 / 2
  {
    if max > TWO_63 / 2 {
      assert TWO_63 / 2 * Pow2(0) == TWO_63 / 2;
      assert !NeverWraps(TWO_63 / 2, max);
    }
  }

  // ----------------------------------------------------------- Retry-After

  function Decimal(s: string): nat
    requires AllDigits(s)
  {
    if s == "" then 0
    else 10 * Decimal(s[..|s| - 1]) + (s[|s| - 1] as int - '0' as int)
  }

  /** strconv.Atoi: an optional sign, decimal digits, and the int64 range. */
  function Atoi(s: string): (r: Option<int>)
    ensures r.Some? ==> FitsInt64(r.value)
  {
    var digits := if s != "" && s[0] in "+-" then s[1..] else s;
    if digits == "" || !AllDigits(digits) then None
    else
      var magnitude: int := Decimal(digits);
      var n := if s[0] == '-' then -magnitude else magnitude;
      if FitsInt64(n) then Some(n) else None
  }

  /** Time.Sub saturates at the ends of the Duration range. */
  function Saturate(d: int): int {
    if d < -TWO_63 then -TWO_63 else if d >= TWO_63 then TWO_63 - 1 else d
  }

  /** dates is http.ParseTime: an instant in nanoseconds, or no date at all. */
  function ParseRetryAfter(header: string, now: int, dates: string -> Option<int>): (r: Option<int>)
    ensures r.Some? ==> FitsInt64(r.value)
  {
    var v := TrimSpace(header);
    if v == "" then None
    else
      var secs := Atoi(v);
      if secs.Some? then
        if secs.value < 0 then None else Some(Wrap64(secs.value * SECOND))
      else
        var t := dates(v);
        if t.None? then None
        else
          var d := Saturate(t.value - now);
          Some(if d < 0 then 0 else d)
  }

  /** A header delay after both clamps of computeBackoff. */
  function Clamped(d: int, maxBackoff: int): int {
    var capped := if d > maxBackoff then maxBackoff else d;
    if capped < 0 then 0 else capped
  }

  lemma HeaderProductIsEven(secs: int)
    ensures exists half: int :: Wrap64(secs * SECOND) == 2 * half
  {
    var product := secs * SECOND;
    assert product == 2 * (secs * (SECOND / 2));
    var k :| Wrap64(product) == product + k * (2 * TWO_63);
    assert Wrap64(product) == 2 * (secs * (SECOND / 2) + k * TWO_63);
  }

  /** A delay-seconds header is honoured exactly, under every cap, just when secs * 10^9
      is an int64; past that the product wraps. */
  lemma HeaderExactIff(secs: int)
    requires 0 <= secs < TWO_63
    ensures (forall maxBackoff: int | 0 < maxBackoff < TWO_63 ::
               Clamped(Wrap64(secs * SECOND), maxBackoff) == Min(secs * SECOND, maxBackoff))
            <==> secs <= 9_223_372_036
  {
    if secs > 9_223_372_036 {
      HeaderProductIsEven(secs);
      assert Clamped(Wrap64(secs * SECOND), TWO_63 - 1) != Min(secs * SECOND, TWO_63 - 1);
    }
  }

  lemma {:induction false} DecimalOfNumeral(n: nat)
    ensures AllDigits(Numeral(n)) && Decimal(Numeral(n)) == n
  {
    NumeralIsDigits(n);
    if n >= 10 {
      DecimalOfNumeral(n / 10);
      assert Numeral(n)[..|Numeral(n)| - 1] == Numeral(n / 10);
      DigitValue(n % 10);
    } else {
      DigitValue(n);
      assert [Digit(n)][..0] == "";
    }
  }

  lemma DigitValue(n: nat)
    requires n < 10
    ensures Digit(n) as int - '0' as int == n
  {}

  /** Atoi reads numerals, with or without a sign, that fit an int64, and rejects the others. */
  lemma AtoiOfNumeral(n: nat)
    ensures Atoi(Numeral(n)) == Atoi("+" + Numeral(n)) == if n < TWO_63 then Some(n) else None
    ensures var m: int := -(n as int); Atoi("-" + Numeral(n)) == if n <= TWO_63 then Some(m) else None
  {
    NumeralIsDigits(n);
    DecimalOfNumeral(n);
    assert ("+" + Numeral(n))[1..] == Numeral(n) && ("-" + Numeral(n))[1..] == Numeral(n);
  }

  /** What Atoi accepts is a sign or none, and one or more of the ten digits. */
  lemma AtoiShape(s: string)
    requires Atoi(s).Some?
    ensures var digits := if s != "" && (s[0] == '+' || s[0] == '-') then s[1..] else s;
            digits != "" && forall i | 0 <= i < |digits| :: digits[i] in "0123456789"
  {
    var digits := if s != "" && (s[0] == '+' || s[0] == '-') then s[1..] else s;
    forall i | 0 <= i < |digits| ensures digits[i] in "0123456789" {
      DigitsAreTen(digits[i]);
    }
  }

  // ------------------------------------------------------------- the delay

  /** Either a fixed wait, or a sample from [0, window) drawn with Int63n. */
  datatype Plan = Wait(delay: int) | Sample(window: int)

  function PlanBackoff(p: Policy, attempt: nat, res: Option<Response>, now: int,
                       dates: string -> Option<int>): Plan
  {
    var header :=
      if res.Some? then ParseRetryAfter(res.value.retryAfter, now, dates) else None;
    if header.Some? then Wait(Clamped(header.value, p.maxBackoff))
    else
      var window := Window(p.initialBackoff, p.maxBackoff, attempt);
      if window <= 0 then Wait(0) else Sample(window)
  }

  /** raw is the random source; Int63n(n) is a value of [0, n). */
  function DelayOf(plan: Plan, raw: nat): int
    requires plan.Sample? ==> plan.window > 0
  {
    match plan
    case Wait(d) => d
    case Sample(window) => raw % window
  }

  /** Whatever overflows, Int63n gets a positive bound and the delay stays in [0, maxBackoff]. */
  lemma DelayInRange(p: Policy, attempt: nat, res: Option<Response>, now: int,
                     dates: string -> Option<int>, raw: nat)
    requires p.Valid()
    ensures var plan := PlanBackoff(p, attempt, res, now, dates);
            && (plan.Sample? ==> 0 < plan.window <= p.maxBackoff)
            && 0 <= DelayOf(plan, raw) <= p.maxBackoff
  {
    var plan := PlanBackoff(p, attempt, res, now, dates);
    if plan.Sample? {
      assert raw % plan.window < plan.window;
    }
  }

  /** Every policy option takes effect unless a later one of its kind overrides it: the attempt
      limit, at least 1; each positive backoff bound; a condition that is not nil. */
  lemma {:induction false} LastOptionWins(opts: seq<RetryOption>, later: seq<RetryOption>)
    ensures var p, q := WithRetry(opts), WithRetry(opts + later);
            && ((forall o | o in later :: !o.WithRetryMax?) ==> q.maxAttempts == p.maxAttempts)
            && ((forall o | o in later :: o.WithRetryBackoff? ==> o.initial <= 0) ==> q.initialBackoff == p.initialBackoff)
            && ((forall o | o in later :: o.WithRetryBackoff? ==> o.max <= 0) ==> q.maxBackoff == p.maxBackoff)
            && ((forall o | o in later :: o.WithRetryCondition? ==> o.fn.None?) ==> q.condition == p.condition)
  {
    if later == [] {
      assert opts + later == opts;
    } else {
      var n := |later| - 1;
      LastOptionWins(opts, later[..n]);
      assert (opts + later)[..|opts + later| - 1] == opts + later[..n];
      assert later[n] in later && forall o | o in later[..n] :: o in later;
    }
  }

  lemma OptionTakesEffect(opts: seq<RetryOption>, o: RetryOption)
    ensures var p := WithRetry(opts + [o]);
            match o
            case WithRetryMax(n) => p.maxAttempts == Max(1, n)
            case WithRetryBackoff(initial, max) =>
              (initial > 0 ==> p.initialBackoff == initial) && (max > 0 ==> p.maxBackoff == max)
            case WithRetryCondition(fn) => fn.Some? ==> p.condition == fn.value
  {
    assert (opts + [o])[..|opts|] == opts;
  }

  /** Without options: three attempts, 200 ms doubling up to 5 s. */
  lemma NoOptions()
    ensures var p := WithRetry([]); p.maxAttempts == 3 && p.initialBackoff == 200_000_000 && p.maxBackoff == 5_000_000_000
  {}

  /** A numeral in Retry-After, padded or not, fixes the delay at that many seconds, capped. */
  lemma HeaderSeconds(p: Policy, attempt: nat, r: Response, now: int, dates: string -> Option<int>, raw: nat,
                      pre: string, secs: nat, post: string)
    requires p.Valid() && secs <= 9_223_372_036 && AllSpace(pre) && AllSpace(post)
    requires r.retryAfter == pre + Numeral(secs) + post
    ensures PlanBackoff(p, attempt, Some(r), now, dates).Wait?
    ensures DelayOf(PlanBackoff(p, attempt, Some(r), now, dates), raw) == Min(secs * 1_000_000_000, p.maxBackoff)
  {
    NumeralIsDigits(secs);
    AtoiOfNumeral(secs);
    TrimSpaceOfPadded(pre, Numeral(secs), post);
  }

  /** A date fixes the delay at the time until then, capped, and never below 0. */
  lemma HeaderDate(p: Policy, attempt: nat, r: Response, now: int, dates: string -> Option<int>, raw: nat,
                   pre: string, date: string, post: string)
    requires p.Valid() && AllSpace(pre) && AllSpace(post) && Trimmed(date) && date != ""
    requires r.retryAfter == pre + date + post && Atoi(date).None? && dates(date).Some?
    ensures PlanBackoff(p, attempt, Some(r), now, dates).Wait?
    ensures DelayOf(PlanBackoff(p, attempt, Some(r), now, dates), raw) == Min(Max(0, dates(date).value - now), p.maxBackoff)
  {
    TrimSpaceOfPadded(pre, date, post);
  }

  /** Anything else leaves the delay to the jitter: no response, a blank header, a negative
      number of seconds, or text that is neither number nor date. */
  lemma NoHeader(p: Policy, attempt: nat, res: Option<Response>, now: int, dates: string -> Option<int>, raw: nat)
    requires p.Valid() && NeverWraps(p.initialBackoff, p.maxBackoff)
    requires res.Some? ==>
               var v := TrimSpace(res.value.retryAfter);
               v == "" || (exists n: nat :: n > 0 && v == "-" + Numeral(n) && n <= TWO_63) || (Atoi(v).None? && dates(v).None?)
    ensures PlanBackoff(p, attempt, res, now, dates) == Sample(Min(p.maxBackoff, p.initialBackoff * Pow2(attempt)))
    ensures 0 < Min(p.maxBackoff, p.initialBackoff * Pow2(attempt))
    ensures DelayOf(PlanBackoff(p, attempt, res, now, dates), raw) == raw % Min(p.maxBackoff, p.initialBackoff * Pow2(attempt))
  {
    DoublingIsExact(p.initialBackoff, p.maxBackoff, attempt);
    ScaledGrows(p.initialBackoff, attempt);
    if res.Some? {
      var v := TrimSpace(res.value.retryAfter);
      if n: nat :| n > 0 && v == "-" + Numeral(n) && n <= TWO_63 {
        AtoiOfNumeral(n);
      }
    }
  }

  /** The header decides the delay whenever it parses: on any status, on any attempt,
      and also when the jitter sample would have been longer. */
  lemma HeaderOverridesJitter(p: Policy, attempt: nat, r: Response, now: int,
                              dates: string -> Option<int>, raw: nat, secs: nat)
    requires p.Valid() && secs <= 9_223_372_036
    requires r.retryAfter != "" && Trimmed(r.retryAfter) && Atoi(r.retryAfter) == Some(secs)
    ensures DelayOf(PlanBackoff(p, attempt, Some(r), now, dates), raw) == Min(secs * SECOND, p.maxBackoff)
  {
    TrimSpaceIsTrimmed(r.retryAfter);
  }
}
