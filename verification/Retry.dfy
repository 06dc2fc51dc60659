/**
 How long to wait between attempts, and the client's loop of attempts
 (`clients/typescript/src/retry.ts`, `clients/typescript/src/client.ts`).
 */
module Retry {
  import opened Options

  const MAX_RETRY_DELAY_MS := 5000.0

  /** Times in milliseconds; `jitter` is the share of each wait that is drawn. */
  datatype Policy = Policy(baseMs: real, capMs: real, growth: real, jitter: real)

  ghost predicate IsPolicy(p: Policy) {
    p.baseMs >= 0.0 && p.capMs >= 0.0 && p.growth > 0.0 && 0.0 <= p.jitter <= 1.0
  }

  predicate IsDraw(draw: real) {
    0.0 <= draw < 1.0
  }

  function RequestPolicy(baseMs: real): Policy {
    Policy(baseMs, MAX_RETRY_DELAY_MS, 2.0, 0.5)
  }

  function Power(base: real, exponent: nat): real {
    if exponent == 0 then 1.0 else base * Power(base, exponent - 1)
  }

  function Min(a: real, b: real): real {
    if a <= b then a else b
  }

  function Max(a: real, b: real): real {
    if a >= b then a else b
  }

  /** The wait before an attempt as it would grow with no cap. */
  function Grown(p: Policy, attempt: nat): real {
    if p.baseMs == 0.0 then 0.0 else p.baseMs * Power(p.growth, if attempt == 0 then 0 else attempt - 1)
  }

  /** A wait with its share drawn. */
  function Drawn(curve: real, jitter: real, draw: real): real {
    var drawn := curve * jitter;
    curve - drawn + drawn * draw
  }

  function WaitMs(p: Policy, attempt: nat, retryAfter: Option<real>, draw: real): real {
    var wait := Drawn(Min(Grown(p, attempt), p.capMs), p.jitter, draw);
    Min(Max(wait, if retryAfter.Some? then retryAfter.value else 0.0), p.capMs)
  }

  // ------------------------------------------------------------ one wait

  lemma {:induction false} PowerIsPositive(base: real, exponent: nat)
    requires base > 0.0
    ensures Power(base, exponent) > 0.0
  {
    if exponent > 0 {
      PowerIsPositive(base, exponent - 1);
    }
  }

  lemma GrownIsNotNegative(p: Policy, attempt: nat)
    requires IsPolicy(p)
    ensures Grown(p, attempt) >= 0.0
  {
    PowerIsPositive(p.growth, if attempt == 0 then 0 else attempt - 1);
  }

  lemma Share(curve: real, jitter: real, draw: real)
    requires curve >= 0.0 && 0.0 <= jitter <= 1.0 && IsDraw(draw)
    ensures 0.0 <= Drawn(curve, jitter, 0.0) <= Drawn(curve, jitter, draw) <= curve
  {
    var drawn := curve * jitter;
    Product(curve, jitter);
    Product(curve, 1.0 - jitter);
    assert curve - drawn == curve * (1.0 - jitter);
    Product(drawn, draw);
    Product(drawn, 1.0 - draw);
    assert drawn - drawn * draw == drawn * (1.0 - draw);
  }

  lemma Product(a: real, b: real)
    requires a >= 0.0 && b >= 0.0
    ensures a * b >= 0.0
  {
  }

  /**
   Every wait is at most the cap, and at least what the server asked up to the cap: it is the
   longer of that and of what would be waited with nothing asked.
   */
  lemma WaitsAreBounded(p: Policy, attempt: nat, retryAfter: Option<real>, draw: real)
    requires IsPolicy(p) && IsDraw(draw)
    ensures var w, unasked := WaitMs(p, attempt, retryAfter, draw), WaitMs(p, attempt, None, draw);
            && 0.0 <= w <= p.capMs
            && (retryAfter.Some? ==> w >= Min(retryAfter.value, p.capMs))
            && unasked <= w && (w == unasked || (retryAfter.Some? && w == Min(retryAfter.value, p.capMs)))
  {
    hide Grown, Drawn;
    GrownIsNotNegative(p, attempt);
    Share(Min(Grown(p, attempt), p.capMs), p.jitter, draw);
  }

  lemma DrawnIsAShare(curve: real, jitter: real, draw: real)
    ensures Drawn(curve, jitter, draw) == curve * (1.0 - jitter * (1.0 - draw))
  {
    var drawn := curve * jitter;
    assert curve * (jitter * (1.0 - draw)) == drawn * (1.0 - draw) == drawn - drawn * draw;
  }

  /** With nothing asked, a wait is the capped curve less the part of its share that the draw leaves. */
  lemma WaitsFollowTheCurve(p: Policy, attempt: nat, draw: real)
    requires IsPolicy(p) && IsDraw(draw)
    ensures var curve := Min(Grown(p, attempt), p.capMs);
            && WaitMs(p, attempt, None, draw) == Drawn(curve, p.jitter, draw)
            && WaitMs(p, attempt, None, draw) == curve * (1.0 - p.jitter * (1.0 - draw))
            && Drawn(curve, p.jitter, 0.0) <= WaitMs(p, attempt, None, draw) <= curve
  {
    hide Grown, Drawn;
    DrawnIsAShare(Min(Grown(p, attempt), p.capMs), p.jitter, draw);
    GrownIsNotNegative(p, attempt);
    Share(Min(Grown(p, attempt), p.capMs), p.jitter, draw);
  }

  // ------------------------------------------------------------ waits that grow

  ghost predicate DoublesAndDrawsHalf(p: Policy) {
    IsPolicy(p) && p.growth == 2.0 && p.jitter == 0.5
  }

  /** The curve begins at the base, and grows by the same factor with each attempt. */
  lemma TheCurveGrowsByItsFactor(p: Policy, attempt: nat)
    requires attempt >= 1
    ensures Grown(p, 0) == Grown(p, 1) == p.baseMs
    ensures Grown(p, attempt + 1) == p.growth * Grown(p, attempt)
  {
    assert Power(p.growth, attempt) == p.growth * Power(p.growth, attempt - 1);
    assert p.baseMs * (p.growth * Power(p.growth, attempt - 1))
        == p.growth * (p.baseMs * Power(p.growth, attempt - 1));
  }

  lemma GrownDoubles(p: Policy, attempt: nat)
    requires p.growth == 2.0 && attempt >= 1
    ensures Grown(p, attempt + 1) == 2.0 * Grown(p, attempt)
  {
    assert Power(2.0, attempt) == 2.0 * Power(2.0, attempt - 1);
  }

  ghost predicate NeverShrinks(p: Policy, attempt: nat) {
    forall a: real, b: real :: IsDraw(a) && IsDraw(b) ==> WaitMs(p, attempt, None, a) <= WaitMs(p, attempt + 1, None, b)
  }

  lemma Ratio(ratio: real, curve: real, cap: real)
    requires curve > 0.0 && ratio * curve == cap && curve <= cap < 2.0 * curve
    ensures 1.0 <= ratio < 2.0
  {
    assert (ratio - 1.0) * curve == cap - curve;
    assert (2.0 - ratio) * curve == 2.0 * curve - cap;
    SignOf(ratio - 1.0, curve);
    SignOf(2.0 - ratio, curve);
  }

  lemma SignOf(a: real, b: real)
    requires b > 0.0
    ensures a * b > 0.0 ==> a > 0.0
    ensures a * b >= 0.0 ==> a >= 0.0
  {
    if a < 0.0 {
      assert (-a) * b > 0.0;
    }
  }

  /** A draw large enough that the wait is past half the cap. */
  lemma SomeDrawIsLonger(curve: real, cap: real) returns (draw: real)
    requires cap > 0.0 && 0.0 < curve <= cap && 2.0 * curve > cap
    ensures IsDraw(draw) && curve - curve * 0.5 + curve * 0.5 * draw > cap * 0.5
  {
    // Half way between the draw that gives half the cap and one.
    var even := cap / curve - 1.0;
    draw := (even + 1.0) / 2.0;
    assert (cap / curve) * curve == cap;
    Ratio(cap / curve, curve, cap);
    assert curve * draw > curve * even;
    assert curve * even == cap - curve;
  }

  /**
   Doubling and drawing half, no draw of one attempt is longer than any draw of the
   next exactly while the next is still under the cap (or the cap is zero).
   */
  lemma WaitsGrowExactlyUnderTheCap(p: Policy, attempt: nat)
    requires DoublesAndDrawsHalf(p) && attempt >= 1
    ensures NeverShrinks(p, attempt) <==> Grown(p, attempt + 1) <= p.capMs || p.capMs == 0.0
  {
    hide WaitMs, Grown;
    GrownDoubles(p, attempt);
    GrownIsNotNegative(p, attempt);
    var curve, next := Min(Grown(p, attempt), p.capMs), Min(Grown(p, attempt + 1), p.capMs);
    forall a: real | IsDraw(a)
      ensures curve * 0.5 <= WaitMs(p, attempt, None, a) <= curve
      ensures next * 0.5 <= WaitMs(p, attempt + 1, None, a) <= next
    {
      WaitsFollowTheCurve(p, attempt, a);
      WaitsFollowTheCurve(p, attempt + 1, a);
    }
    if !(Grown(p, attempt + 1) <= p.capMs || p.capMs == 0.0) {
      var long := SomeDrawIsLonger(curve, p.capMs);
      WaitsFollowTheCurve(p, attempt, long);
      WaitsFollowTheCurve(p, attempt + 1, 0.0);
      assert IsDraw(0.0);
      assert WaitMs(p, attempt, None, long) > WaitMs(p, attempt + 1, None, 0.0);
    }
  }

  /** The curve stays under the cap for every attempt before one it is under for. */
  lemma {:induction false} UnderTheCapBefore(p: Policy, attempt: nat, later: nat)
    requires DoublesAndDrawsHalf(p) && 1 <= attempt <= later && Grown(p, later) <= p.capMs
    ensures Grown(p, attempt) <= p.capMs
  {
    hide Grown;
    if attempt < later {
      GrownDoubles(p, later - 1);
      GrownIsNotNegative(p, later - 1);
      UnderTheCapBefore(p, attempt, later - 1);
    }
  }

  /** So, as long as the curve is under the cap, each wait is at least every wait before it. */
  lemma {:induction false} WaitsNeverShrinkBefore(p: Policy, attempt: nat, later: nat, a: real, b: real)
    requires DoublesAndDrawsHalf(p) && 1 <= attempt < later && Grown(p, later) <= p.capMs && IsDraw(a) && IsDraw(b)
    ensures WaitMs(p, attempt, None, a) <= WaitMs(p, later, None, b)
    decreases later - attempt
  {
    hide WaitMs, Grown;
    UnderTheCapBefore(p, attempt + 1, later);
    WaitsGrowExactlyUnderTheCap(p, attempt);
    if attempt + 1 < later {
      WaitsNeverShrinkBefore(p, attempt + 1, later, b, b);
      assert WaitMs(p, attempt, None, a) <= WaitMs(p, attempt + 1, None, b);
    }
  }

  /** The transport client's own policy: its waits grow until the curve passes five seconds. */
  lemma RequestWaitsGrow(baseMs: real, attempt: nat)
    requires baseMs >= 0.0 && attempt >= 1
    ensures NeverShrinks(RequestPolicy(baseMs), attempt)
       <==> Grown(RequestPolicy(baseMs), attempt + 1) <= MAX_RETRY_DELAY_MS
  {
    hide WaitMs, Grown;
    WaitsGrowExactlyUnderTheCap(RequestPolicy(baseMs), attempt);
  }

  // ------------------------------------------------------------ what may be sent twice

  datatype Failure = TimedOut | ApiError(status: int, retryAfter: Option<real>) | OtherError | NotAnError

  predicate IsRetryableStatus(status: int) {
    status in {502, 503, 504}
  }

  predicate IsRetryable(f: Failure) {
    match f
    case TimedOut => true
    case ApiError(status, retryAfter) => IsRetryableStatus(status)
    case OtherError => true
    case NotAnError => false
  }

  function Asked(f: Failure): Option<real> {
    if f.ApiError? then f.retryAfter else None
  }

  function Upper(name: string): (r: string)
    ensures |r| == |name|
  {
    seq(|name|, i requires 0 <= i < |name| =>
      if 'a' <= name[i] <= 'z' then (name[i] as int - 'a' as int + 'A' as int) as char else name[i])
  }

  /** A safe method, or a POST under an idempotency key that is not empty. */
  predicate MayRetryRequest(name: string, key: Option<string>) {
    var verb := Upper(name);
    verb in {"GET", "HEAD", "OPTIONS"} || (verb == "POST" && key.Some? && key.value != "")
  }

  /** The same letters, in either case. */
  ghost predicate Spells(name: string, verb: string) {
    && |name| == |verb|
    && forall i :: 0 <= i < |name| ==> name[i] == verb[i] || ('a' <= name[i] <= 'z' && name[i] - 'a' + 'A' == verb[i])
  }

  /** Repeating the request changes nothing: it only reads, or the server knows it again by its key. */
  ghost predicate MayBeRepeated(name: string, key: Option<string>) {
    || Spells(name, "GET") || Spells(name, "HEAD") || Spells(name, "OPTIONS")
    || (Spells(name, "POST") && key.Some? && key.value != "")
  }

  lemma UpperSpells(name: string, verb: string)
    requires forall i :: 0 <= i < |verb| ==> 'A' <= verb[i] <= 'Z'
    ensures Upper(name) == verb <==> Spells(name, verb)
  {
    var upper := Upper(name);
    assert forall i :: 0 <= i < |name| ==>
      upper[i] == if 'a' <= name[i] <= 'z' then (name[i] as int - 'a' as int + 'A' as int) as char else name[i];
    if upper == verb {
      assert forall i :: 0 <= i < |name| ==> upper[i] == verb[i];
    }
  }

  lemma RepeatedExactlyWhenItMayBe(name: string, key: Option<string>)
    ensures MayRetryRequest(name, key) <==> MayBeRepeated(name, key)
  {
    hide Upper, Spells;
    UpperSpells(name, "GET");
    UpperSpells(name, "HEAD");
    UpperSpells(name, "OPTIONS");
    UpperSpells(name, "POST");
  }

  /** The attempt failed in a way that another may not: it never got an answer, or a gateway's. */
  predicate MayGoBetter(attempt: Attempt) {
    match attempt
    case Answered(_) => false
    case Fails(TimedOut) => true
    case Fails(OtherError) => true
    case Fails(NotAnError) => false
    case Fails(ApiError(status, _)) => status == 502 || status == 503 || status == 504
  }

  // ------------------------------------------------------------ the loop

  /** One loop's count of failures over a policy. */
  class Retries {
    const policy: Policy
    var failures: nat

    constructor (policy: Policy)
      ensures this.policy == policy && failures == 0
    {
      this.policy, failures := policy, 0;
    }

    method Failed(retryAfter: Option<real>, draw: real) returns (wait: real)
      modifies this`failures
      ensures failures == old(failures) + 1
      ensures wait == WaitMs(policy, failures, retryAfter, draw)
    {
      failures := failures + 1;
      wait := WaitMs(policy, failures, retryAfter, draw);
    }

    method Reset()
      modifies this`failures
      ensures failures == 0
    {
      failures := 0;
    }
  }

  datatype Attempt = Answered(body: string) | Fails(failure: Failure)

  /** How each attempt of a call goes, what each wait draws, and whether the caller has given up by then. */
  datatype Script = Script(
    attempt: nat -> Attempt, draw: nat -> real, abortedBefore: nat -> bool, abortedAfter: nat -> bool)

  /** The waits before the attempts after the first. */
  function Waited(p: Policy, script: Script, waits: nat): real {
    if waits == 0 then 0.0
    else
      Waited(p, script, waits - 1) +
      match script.attempt(waits - 1)
      case Answered(body) => 0.0
      case Fails(f) => WaitMs(p, waits, Asked(f), script.draw(waits - 1))
  }

  /** The longest that many waits may take in all. */
  function Budget(p: Policy, waits: nat): real {
    (waits as real) * p.capMs
  }

  lemma {:induction false} WaitedIsBounded(p: Policy, script: Script, waits: nat)
    requires IsPolicy(p) && forall k :: IsDraw(script.draw(k))
    ensures 0.0 <= Waited(p, script, waits) <= Budget(p, waits)
  {
    hide WaitMs;
    if waits > 0 {
      WaitedIsBounded(p, script, waits - 1);
      var f := script.attempt(waits - 1);
      if f.Fails? {
        WaitsAreBounded(p, waits, Asked(f.failure), script.draw(waits - 1));
      }
      assert ((waits - 1) as real) * p.capMs + p.capMs == (waits as real) * p.capMs;
    }
  }

  /** Why a call ends: it was answered, or its last failure was final. */
  ghost predicate EndsRightly(script: Script, bound: nat, attempts: nat, waits: nat) {
    && attempts >= 1
    && match script.attempt(attempts - 1)
       case Answered(body) => waits == attempts - 1
       case Fails(f) =>
         if waits == attempts - 1
         then attempts == bound + 1 || script.abortedBefore(attempts - 1) || !MayGoBetter(Fails(f))
         else waits == attempts && attempts <= bound && script.abortedAfter(attempts - 1)
  }

  /** Attempts until one answers, a failure is final, or the attempts are spent. */
  method Request(p: Policy, script: Script, name: string, key: Option<string>, retryAttempts: nat)
    returns (r: Attempt, attempts: nat, waits: nat, waited: real)
    requires IsPolicy(p) && forall k :: IsDraw(script.draw(k))
    ensures var bound := if MayBeRepeated(name, key) then retryAttempts else 0;
            && 1 <= attempts <= bound + 1 && waits <= bound
            && 0.0 <= waited <= Budget(p, bound)
            && EndsRightly(script, bound, attempts, waits)
    ensures !MayBeRepeated(name, key) ==> attempts == 1 && waited == 0.0
    ensures r == script.attempt(attempts - 1)
    ensures forall k :: 0 <= k < attempts - 1 ==>
              MayGoBetter(script.attempt(k)) && !script.abortedBefore(k) && !script.abortedAfter(k)
    ensures waited == Waited(p, script, waits)
  {
    hide WaitMs, MayRetryRequest, MayBeRepeated, Budget, IsPolicy;
    RepeatedExactlyWhenItMayBe(name, key);
    var bound := if MayRetryRequest(name, key) then retryAttempts else 0;
    var retries := new Retries(p);
    attempts, waits, waited := 0, 0, 0.0;
    while true
      invariant retries.policy == p && retries.failures == attempts == waits <= bound
      invariant forall k :: 0 <= k < attempts ==>
                  MayGoBetter(script.attempt(k)) && !script.abortedBefore(k) && !script.abortedAfter(k)
      invariant waited == Waited(p, script, waits)
      decreases bound - attempts
    {
      r := script.attempt(attempts);
      attempts := attempts + 1;
      if r.Answered? {
        break;
      }
      var spent := retries.failures >= bound;
      if spent || script.abortedBefore(attempts - 1) || !IsRetryable(r.failure) {
        break;
      }
      var wait := retries.Failed(Asked(r.failure), script.draw(waits));
      waits, waited := waits + 1, waited + wait;
      if script.abortedAfter(attempts - 1) {
        break;
      }
    }
    WaitedIsBounded(p, script, waits);
    BudgetGrows(p, waits, bound);
  }

  lemma BudgetGrows(p: Policy, a: nat, b: nat)
    requires a <= b && IsPolicy(p)
    ensures Budget(p, a) <= Budget(p, b)
    ensures Budget(p, 0) == 0.0
  {
    assert Budget(p, b) - Budget(p, a) == ((b - a) as real) * p.capMs;
  }
}
