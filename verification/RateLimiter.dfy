/** The token bucket that admits messages; times are seconds and token counts are exact reals. */
module RateLimiter {
  datatype Bucket = Bucket(tokens: real, maxTokens: real, refillRate: real, lastRefill: real)

  /** Tokens gained over a stretch of time. */
  function Gain(rate: real, elapsed: real): real {
    elapsed * rate
  }

  lemma GainIsProduct(rate: real, elapsed: real)
    ensures Gain(rate, elapsed) == rate * elapsed
  {}

  lemma GainNonNegative(rate: real, elapsed: real)
    requires rate >= 0.0 && elapsed >= 0.0
    ensures Gain(rate, elapsed) >= 0.0
  {}

  lemma GainAdds(rate: real, a: real, b: real, c: real)
    ensures Gain(rate, c - a) == Gain(rate, b - a) + Gain(rate, c - b)
    ensures Gain(rate, a - a) == 0.0
  {}

  lemma GainOfSpacing(rate: real, gap: real)
    requires rate > 0.0 && gap >= 1.0 / rate
    ensures Gain(rate, gap) >= 1.0
  {
    assert (gap - 1.0 / rate) * rate >= 0.0;
    assert 1.0 / rate * rate == 1.0;
  }

  function Refilled(b: Bucket, now: real): real {
    var tokens := b.tokens + Gain(b.refillRate, now - b.lastRefill);
    if tokens > b.maxTokens then b.maxTokens else tokens
  }

  function Granted(b: Bucket, now: real): bool {
    Refilled(b, now) >= 1.0
  }

  function Allowed(b: Bucket, now: real): Bucket {
    var tokens := Refilled(b, now);
    b.(tokens := if tokens >= 1.0 then tokens - 1.0 else tokens, lastRefill := now)
  }

  class Limiter {
    var tokens: real
    const maxTokens: real
    const refillRate: real
    var lastRefill: real

    constructor (maxTokens: real, refillRate: real, now: real)
      ensures View() == Bucket(maxTokens, maxTokens, refillRate, now)
    {
      this.tokens, this.maxTokens, this.refillRate, this.lastRefill := maxTokens, maxTokens, refillRate, now;
    }

    ghost function View(): Bucket
      reads this
    {
      Bucket(tokens, maxTokens, refillRate, lastRefill)
    }

    method Allow(now: real) returns (ok: bool)
      modifies this
      ensures ok == Granted(old(View()), now)
      ensures View() == Allowed(old(View()), now)
      ensures var earned := old(tokens) + (now - old(lastRefill)) * refillRate;
              var found := if earned > maxTokens then maxTokens else earned;
              && lastRefill == now && (ok <==> found >= 1.0) && tokens == if ok then found - 1.0 else found
    {
      var elapsed := now - lastRefill;
      ghost var earned := tokens + (now - lastRefill) * refillRate;
      assert elapsed * refillRate == Gain(refillRate, elapsed);
      tokens := tokens + elapsed * refillRate;
      assert tokens == earned;
      if tokens > maxTokens {
        tokens := maxTokens;
      }
      lastRefill := now;
      if tokens >= 1.0 {
        tokens := tokens - 1.0;
        return true;
      }
      return false;
    }
  }

  // ---- runs ----

  /** The bucket just before call number `n`. */
  function Before(b: Bucket, calls: seq<real>, n: nat): Bucket
    requires n <= |calls|
  {
    if n == 0 then b else Allowed(Before(b, calls, n - 1), calls[n - 1])
  }

  predicate GrantedAt(b: Bucket, calls: seq<real>, n: nat)
    requires n < |calls|
  {
    Granted(Before(b, calls, n), calls[n])
  }

  /** Number of granted calls among calls i, ..., j-1. */
  function Grants(b: Bucket, calls: seq<real>, i: nat, j: nat): nat
    requires i <= j <= |calls|
  {
    if i == j then 0 else Grants(b, calls, i, j - 1) + if GrantedAt(b, calls, j - 1) then 1 else 0
  }

  predicate Monotone(b: Bucket, calls: seq<real>) {
    && (calls != [] ==> b.lastRefill <= calls[0])
    && forall i, j :: 0 <= i < j < |calls| ==> calls[i] <= calls[j]
  }

  predicate WellFormed(b: Bucket) {
    0.0 <= b.tokens <= b.maxTokens && 0.0 <= b.refillRate
  }

  lemma AllowedFacts(b: Bucket, now: real)
    requires WellFormed(b) && b.lastRefill <= now
    ensures WellFormed(Allowed(b, now)) && 0.0 <= Refilled(b, now) <= b.maxTokens
  {
    GainNonNegative(b.refillRate, now - b.lastRefill);
  }

  /** Tokens stay between zero and the burst size over every run. */
  lemma {:induction false} BeforeFacts(b: Bucket, calls: seq<real>, n: nat)
    requires WellFormed(b) && Monotone(b, calls) && n <= |calls|
    ensures var c := Before(b, calls, n);
            && WellFormed(c) && c.maxTokens == b.maxTokens && c.refillRate == b.refillRate
            && c.lastRefill == (if n == 0 then b.lastRefill else calls[n - 1])
            && (n < |calls| ==> c.lastRefill <= calls[n])
  {
    if n > 0 {
      BeforeFacts(b, calls, n - 1);
      AllowedFacts(Before(b, calls, n - 1), calls[n - 1]);
    }
  }

  /** What call n finds in the bucket. */
  function Found(b: Bucket, calls: seq<real>, n: nat): real
    requires n < |calls|
  {
    Refilled(Before(b, calls, n), calls[n])
  }

  function Spent(b: Bucket, calls: seq<real>, n: nat): real
    requires n < |calls|
  {
    if GrantedAt(b, calls, n) then 1.0 else 0.0
  }

  lemma FoundStep(b: Bucket, calls: seq<real>, n: nat)
    requires WellFormed(b) && Monotone(b, calls) && 0 < n < |calls|
    ensures var grown := Found(b, calls, n - 1) - Spent(b, calls, n - 1) + Gain(b.refillRate, calls[n] - calls[n - 1]);
            Found(b, calls, n) == if grown > b.maxTokens then b.maxTokens else grown
  {
    hide Gain;
    BeforeFacts(b, calls, n - 1);
    BeforeFacts(b, calls, n);
  }

  lemma FoundRange(b: Bucket, calls: seq<real>, n: nat)
    requires WellFormed(b) && Monotone(b, calls) && n < |calls|
    ensures 0.0 <= Found(b, calls, n) <= b.maxTokens
    ensures 0.0 <= Found(b, calls, n) - Spent(b, calls, n)
  {
    hide Gain;
    BeforeFacts(b, calls, n);
    AllowedFacts(Before(b, calls, n), calls[n]);
  }

  /** What the window from call i leaves for call j. */
  function Allowance(b: Bucket, calls: seq<real>, i: nat, j: nat): real
    requires i <= j < |calls|
  {
    b.maxTokens + Gain(b.refillRate, calls[j] - calls[i]) - Grants(b, calls, i, j) as real
  }

  lemma AllowanceStep(b: Bucket, calls: seq<real>, i: nat, j: nat)
    requires i < j < |calls|
    ensures Allowance(b, calls, i, j)
         == Allowance(b, calls, i, j - 1) - Spent(b, calls, j - 1) + Gain(b.refillRate, calls[j] - calls[j - 1])
    ensures Allowance(b, calls, j, j) == b.maxTokens
  {
    GainAdds(b.refillRate, calls[i], calls[j - 1], calls[j]);
    GainAdds(b.refillRate, calls[j], calls[j], calls[j]);
    hide Gain;
  }

  /** Every window limits what a call finds. */
  lemma {:induction false} WindowLimits(b: Bucket, calls: seq<real>, i: nat, j: nat)
    requires WellFormed(b) && Monotone(b, calls) && i <= j < |calls|
    ensures Found(b, calls, j) <= Allowance(b, calls, i, j)
    decreases j
  {
    hide Gain, Found, Spent;
    if i == j {
      FoundRange(b, calls, j);
      GainAdds(b.refillRate, calls[j], calls[j], calls[j]);
    } else {
      WindowLimits(b, calls, i, j - 1);
      FoundStep(b, calls, j);
      hide Allowance;
      AllowanceStep(b, calls, i, j);
    }
  }

  lemma GrantsWithinGain(b: Bucket, calls: seq<real>, i: nat, j: nat)
    requires WellFormed(b) && Monotone(b, calls) && i <= j < |calls|
    ensures Grants(b, calls, i, j + 1) as real <= b.maxTokens + Gain(b.refillRate, calls[j] - calls[i])
  {
    hide Gain;
    WindowLimits(b, calls, i, j);
    FoundRange(b, calls, j);
    hide Found;
  }

  /** Grants at calls i, ..., j, both included, never exceed the burst plus the refill rate times the time between. */
  lemma GrantsConform(b: Bucket, calls: seq<real>, i: nat, j: nat)
    requires WellFormed(b) && Monotone(b, calls) && i <= j < |calls|
    ensures Grants(b, calls, i, j + 1) as real <= b.maxTokens + b.refillRate * (calls[j] - calls[i])
  {
    hide *;
    var product := b.refillRate * (calls[j] - calls[i]);
    GrantsWithinGain(b, calls, i, j);
    GainIsProduct(b.refillRate, calls[j] - calls[i]);
    assert Grants(b, calls, i, j + 1) as real <= b.maxTokens + product;
  }

  /** A bucket that starts full always has one window whose limit it exactly reaches. */
  lemma {:induction false} SomeWindowIsTight(b: Bucket, calls: seq<real>, j: nat) returns (i: nat)
    requires WellFormed(b) && Monotone(b, calls) && b.tokens == b.maxTokens && j < |calls|
    ensures i <= j && Found(b, calls, j) == Allowance(b, calls, i, j)
  {
    if j == 0 {
      i := 0;
      GainNonNegative(b.refillRate, calls[0] - b.lastRefill);
      GainAdds(b.refillRate, calls[0], calls[0], calls[0]);
    } else {
      hide Found, Allowance, Spent;
      FoundStep(b, calls, j);
      i := SomeWindowIsTight(b, calls, j - 1);
      AllowanceStep(b, calls, i, j);
      if Found(b, calls, j) == b.maxTokens {
        i := j;
      }
    }
  }

  /** One more grant at call j would break the limit of the window from call i. */
  predicate Exceeds(b: Bucket, calls: seq<real>, i: nat, j: nat)
    requires i <= j < |calls|
  {
    Grants(b, calls, i, j) as real + 1.0 > b.maxTokens + b.refillRate * (calls[j] - calls[i])
  }

  lemma ExceedsByAllowance(b: Bucket, calls: seq<real>, i: nat, j: nat)
    requires i <= j < |calls|
    ensures Exceeds(b, calls, i, j) <==> Allowance(b, calls, i, j) < 1.0
  {
    hide Gain, Grants;
    var grants, elapsed := Grants(b, calls, i, j) as real, calls[j] - calls[i];
    var gain, product := Gain(b.refillRate, elapsed), b.refillRate * elapsed;
    GainIsProduct(b.refillRate, elapsed);
    assert Exceeds(b, calls, i, j) <==> grants + 1.0 > b.maxTokens + product;
    assert Allowance(b, calls, i, j) == b.maxTokens + gain - grants;
    SameLimit(grants, b.maxTokens, gain, product);
  }

  lemma SameLimit(grants: real, burst: real, gain: real, product: real)
    requires gain == product
    ensures grants + 1.0 > burst + product <==> burst + gain - grants < 1.0
  {
  }

  /** Granting one more call at j would break the limit of some window. */
  ghost predicate WouldExceed(b: Bucket, calls: seq<real>, j: nat)
    requires j < |calls|
  {
    exists i: nat :: i <= j && Exceeds(b, calls, i, j)
  }

  /** The limiter refuses nothing it could allow: a call is refused exactly when granting it would
      exceed the limit of some window. */
  lemma RefusedOnlyWhenFull(b: Bucket, calls: seq<real>, j: nat)
    requires WellFormed(b) && Monotone(b, calls) && b.tokens == b.maxTokens && j < |calls|
    ensures !GrantedAt(b, calls, j) <==> WouldExceed(b, calls, j)
  {
    hide Gain, Exceeds, Allowance;
    var k := SomeWindowIsTight(b, calls, j);
    ExceedsByAllowance(b, calls, k, j);
    if WouldExceed(b, calls, j) {
      var i: nat :| i <= j && Exceeds(b, calls, i, j);
      ExceedsByAllowance(b, calls, i, j);
      WindowLimits(b, calls, i, j);
    }
  }

  /** Calls at least 1/refillRate apart are never refused once the bucket can hold a token. */
  lemma SpacedCallsGranted(b: Bucket, calls: seq<real>, n: nat)
    requires WellFormed(b) && Monotone(b, calls) && b.tokens == b.maxTokens >= 1.0 && b.refillRate > 0.0
    requires forall i :: 0 < i < |calls| ==> calls[i] - calls[i - 1] >= 1.0 / b.refillRate
    requires n < |calls|
    ensures GrantedAt(b, calls, n)
  {
    hide Gain;
    if n == 0 {
      GainNonNegative(b.refillRate, calls[0] - b.lastRefill);
    } else {
      FoundStep(b, calls, n);
      FoundRange(b, calls, n - 1);
      GainOfSpacing(b.refillRate, calls[n] - calls[n - 1]);
    }
  }
}
