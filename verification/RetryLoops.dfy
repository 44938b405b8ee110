/**
 The two retry loops: Novu calls with capped exponential backoff, and RabbitMQ operations with a
 delay table that is continued exponentially.

 An operation is given by the outcome of its `i`-th call.  Delays are real numbers, in milliseconds.
*/
module RetryLoops {
  import opened Wrappers

  /** A status of zero is an absent one. */
  datatype Error = Error(code: string, status: int, statusCode: int, flag: Option<bool>)

  datatype Attempt = Ok | Failed(error: Error)

  type Operation = nat -> Attempt

  datatype Settled = Resolved | Rejected(error: Error) | RejectedWithUndefined

  // ----- Powers and sums -----------------------------------------------------------------------------------

  function Power(m: real, n: nat): real {
    if n == 0 then 1.0 else m * Power(m, n - 1)
  }

  function Sum(s: seq<real>): real {
    if s == [] then 0.0 else Sum(s[..|s| - 1]) + s[|s| - 1]
  }

  lemma {:induction false} SumConcat(a: seq<real>, b: seq<real>)
    ensures Sum(a + b) == Sum(a) + Sum(b)
  {
    if b == [] {
      assert a + b == a;
    } else {
      assert (a + b)[..|a + b| - 1] == a + b[..|b| - 1];
      SumConcat(a, b[..|b| - 1]);
    }
  }

  lemma {:induction false} PowerGrows(m: real, n: nat)
    requires m >= 1.0
    ensures 1.0 <= Power(m, n) <= Power(m, n + 1)
  {
    if n > 0 {
      PowerGrows(m, n - 1);
      TimesGrows(m, Power(m, n - 1));
    }
    TimesGrows(m, Power(m, n));
  }

  lemma TimesGrows(m: real, x: real)
    requires m >= 1.0 && x >= 1.0
    ensures m * x >= x
  {
    assert (m - 1.0) * x >= 0.0;
  }

  /** `1 + m + ... + m^(r-1)` */
  function Geometric(m: real, r: nat): real {
    if r == 0 then 0.0 else Geometric(m, r - 1) + Power(m, r - 1)
  }

  // The lemmas about products take the factors as parameters, so that both sides name the same terms.

  lemma Distribute(a: real, x: real, y: real, z: real)
    requires z == x + y
    ensures a * z == a * x + a * y
  {
  }

  lemma {:induction false} GeometricSum(m: real, r: nat, g: real, p: real)
    requires g == Geometric(m, r) && p == Power(m, r)
    ensures m * g == g + p - 1.0
  {
    if r > 0 {
      var g0, p0 := Geometric(m, r - 1), Power(m, r - 1);
      GeometricSum(m, r - 1, g0, p0);
      Distribute(m, g0, p0, g);
    }
  }

  lemma GeometricQuotient(m: real, r: nat)
    requires m != 1.0
    ensures Geometric(m, r) == (Power(m, r) - 1.0) / (m - 1.0)
  {
    var g, p := Geometric(m, r), Power(m, r);
    GeometricSum(m, r, g, p);
    SolveFor(m, g, p);
  }

  lemma SolveFor(m: real, g: real, p: real)
    requires m != 1.0 && m * g == g + p - 1.0
    ensures g == (p - 1.0) / (m - 1.0)
  {
    var a := m - 1.0;
    assert a * g == m * g - g;
    Quotient(a, g, p - 1.0);
  }

  lemma Quotient(a: real, x: real, b: real)
    requires a != 0.0 && a * x == b
    ensures x == b / a
  {
  }

  // ----- The Novu loop ---------------------------------------------------------------------------------------

  datatype NovuOptions = NovuOptions(maxRetries: int, baseDelay: real, maxDelay: real, backoffMultiplier: real)

  /** The test for 400, 401, 403 and 404 that follows in the source can no longer be reached. */
  predicate IsRetryable(e: Error) {
    if e.code in ["ECONNRESET", "ECONNREFUSED", "ETIMEDOUT", "ENOTFOUND"] then true
    else if e.status != 0 || e.statusCode != 0 then
      var status := if e.status != 0 then e.status else e.statusCode;
      status >= 500 || status == 429
    else if e.flag.Some? then e.flag.value
    else true
  }

  function NovuDelay(o: NovuOptions, attempt: nat): real {
    var delay := o.baseDelay * Power(o.backoffMultiplier, attempt);
    if delay <= o.maxDelay then delay else o.maxDelay
  }

  /** The loop goes on after this call. */
  predicate Continues(op: Operation, maxRetries: int, i: nat) {
    op(i).Failed? && IsRetryable(op(i).error) && i != maxRetries
  }

  function NovuDelays(o: NovuOptions, r: nat): (s: seq<real>)
    ensures |s| == r
  {
    if r == 0 then [] else NovuDelays(o, r - 1) + [NovuDelay(o, r - 1)]
  }

  /**
   The operation is called once per attempt up to the first stop, which is a success, an error that is
   not retryable, or the last permitted attempt; the sleeps between are the delays in order.
  */
  method ExecuteNovuWithRetry(op: Operation, o: NovuOptions)
    returns (settled: Settled, calls: nat, slept: seq<real>)
    ensures calls <= if o.maxRetries < 0 then 0 else o.maxRetries + 1
    ensures forall i :: 0 <= i < calls - 1 ==> op(i).Failed? && IsRetryable(op(i).error) && i < o.maxRetries
    ensures calls > 0 ==>
      op(calls - 1).Ok? || !IsRetryable(op(calls - 1).error) || calls == o.maxRetries + 1
    ensures forall i :: 0 <= i < calls - 1 ==> Continues(op, o.maxRetries, i)
    ensures if o.maxRetries < 0 then settled == RejectedWithUndefined && calls == 0
            else calls > 0 && !Continues(op, o.maxRetries, calls - 1)
                 && settled == match op(calls - 1) case Ok => Resolved case Failed(e) => Rejected(e)
    ensures slept == NovuDelays(o, if calls == 0 then 0 else calls - 1)
  {
    calls, slept := 0, [];
    var attempt := 0;
    while attempt <= o.maxRetries
      invariant calls == attempt && (o.maxRetries < 0 ==> attempt == 0)
      invariant o.maxRetries >= 0 ==> attempt <= o.maxRetries
      invariant forall i :: 0 <= i < attempt ==> Continues(op, o.maxRetries, i)
      invariant forall i :: 0 <= i < attempt ==> op(i).Failed? && IsRetryable(op(i).error) && i < o.maxRetries
      invariant slept == NovuDelays(o, attempt)
    {
      calls := calls + 1;
      match op(attempt) {
        case Ok => return Resolved, calls, slept;
        case Failed(error) =>
          if !IsRetryable(error) || attempt == o.maxRetries {
            return Rejected(error), calls, slept;
          }
      }
      slept := slept + [NovuDelay(o, attempt)];
      attempt := attempt + 1;
    }
    return RejectedWithUndefined, calls, slept;
  }

  /** Delays never shrink and never exceed the cap. */
  lemma NovuDelaysGrow(o: NovuOptions, i: nat)
    requires o.baseDelay >= 0.0 && o.backoffMultiplier >= 1.0
    ensures NovuDelay(o, i) <= NovuDelay(o, i + 1) <= o.maxDelay
  {
    PowerGrows(o.backoffMultiplier, i);
    ScaleMonotone(o.baseDelay, Power(o.backoffMultiplier, i), Power(o.backoffMultiplier, i + 1));
  }

  lemma ScaleMonotone(a: real, x: real, y: real)
    requires a >= 0.0 && x <= y
    ensures a * x <= a * y
  {
    assert a * (y - x) >= 0.0;
  }

  lemma NovuDelayAtMost(o: NovuOptions, i: nat, p: real)
    requires p == Power(o.backoffMultiplier, i)
    ensures NovuDelay(o, i) <= o.maxDelay && NovuDelay(o, i) <= o.baseDelay * p
  {
  }

  lemma {:induction false} NovuTotalCapped(o: NovuOptions, r: nat)
    ensures Sum(NovuDelays(o, r)) <= r as real * o.maxDelay
  {
    if r > 0 {
      NovuTotalCapped(o, r - 1);
      assert NovuDelays(o, r)[..r - 1] == NovuDelays(o, r - 1);
      NovuDelayAtMost(o, r - 1, Power(o.backoffMultiplier, r - 1));
      Distribute(o.maxDelay, (r - 1) as real, 1.0, r as real);
    }
  }

  lemma {:induction false} NovuTotalGeometric(o: NovuOptions, r: nat, g: real)
    requires g == Geometric(o.backoffMultiplier, r)
    ensures Sum(NovuDelays(o, r)) <= o.baseDelay * g
  {
    if r > 0 {
      var g0, p0 := Geometric(o.backoffMultiplier, r - 1), Power(o.backoffMultiplier, r - 1);
      NovuTotalGeometric(o, r - 1, g0);
      assert NovuDelays(o, r)[..r - 1] == NovuDelays(o, r - 1);
      assert Sum(NovuDelays(o, r)) == Sum(NovuDelays(o, r - 1)) + NovuDelay(o, r - 1);
      NovuDelayAtMost(o, r - 1, p0);
      Distribute(o.baseDelay, g0, p0, g);
    }
  }

  /** The total time slept before call `r + 1` is bounded by the cap and by the geometric sum. */
  lemma NovuTotalDelay(o: NovuOptions, r: nat, g: real)
    requires o.backoffMultiplier != 1.0
    requires g == (Power(o.backoffMultiplier, r) - 1.0) / (o.backoffMultiplier - 1.0)
    ensures Sum(NovuDelays(o, r)) <= r as real * o.maxDelay
    ensures Sum(NovuDelays(o, r)) <= o.baseDelay * g
  {
    NovuTotalCapped(o, r);
    GeometricQuotient(o.backoffMultiplier, r);
    NovuTotalGeometric(o, r, g);
  }

  /** Below the cap the delay is the base times the power of the multiplier, and from the cap on it is the cap. */
  lemma NovuDelayExactly(o: NovuOptions, i: nat)
    ensures NovuDelay(o, 0) == if o.baseDelay <= o.maxDelay then o.baseDelay else o.maxDelay
    ensures var p := Power(o.backoffMultiplier, i);
      && (o.baseDelay * p <= o.maxDelay ==> NovuDelay(o, i) == o.baseDelay * p)
      && (o.baseDelay * p >= o.maxDelay ==> NovuDelay(o, i) == o.maxDelay)
      && Power(o.backoffMultiplier, i + 1) == o.backoffMultiplier * p
  {
    One(o.baseDelay);
  }

  lemma One(x: real)
    ensures x * 1.0 == x
  {
  }

  /** Retry `i` does not reach the cap. */
  predicate BelowCap(o: NovuOptions, i: nat) {
    o.baseDelay * Power(o.backoffMultiplier, i) <= o.maxDelay
  }

  /** Retry `i` is at the cap. */
  predicate AtCap(o: NovuOptions, i: nat) {
    o.baseDelay * Power(o.backoffMultiplier, i) >= o.maxDelay
  }

  lemma DelayBelowCap(o: NovuOptions, i: nat, p: real)
    requires BelowCap(o, i) && p == Power(o.backoffMultiplier, i)
    ensures NovuDelay(o, i) == o.baseDelay * p
  {
  }

  lemma DelayAtCap(o: NovuOptions, i: nat)
    requires AtCap(o, i)
    ensures NovuDelay(o, i) == o.maxDelay
  {
  }

  lemma OneMoreDelay(o: NovuOptions, r: nat)
    requires r > 0
    ensures Sum(NovuDelays(o, r)) == Sum(NovuDelays(o, r - 1)) + NovuDelay(o, r - 1)
  {
    assert NovuDelays(o, r)[..r - 1] == NovuDelays(o, r - 1);
  }

  lemma OneMoreBelowCap(o: NovuOptions, r: nat, p: real)
    requires r > 0 && BelowCap(o, r - 1) && p == Power(o.backoffMultiplier, r - 1)
    ensures Sum(NovuDelays(o, r)) == Sum(NovuDelays(o, r - 1)) + o.baseDelay * p
  {
    OneMoreDelay(o, r);
    DelayBelowCap(o, r - 1, p);
  }

  /** Before the cap is reached, the total is the geometric sum itself. */
  lemma {:induction false} TotalBelowCap(o: NovuOptions, r: nat, g: real)
    requires g == Geometric(o.backoffMultiplier, r)
    requires forall i :: 0 <= i < r ==> BelowCap(o, i)
    ensures Sum(NovuDelays(o, r)) == o.baseDelay * g
  {
    if r > 0 {
      var g0, p0 := Geometric(o.backoffMultiplier, r - 1), Power(o.backoffMultiplier, r - 1);
      TotalBelowCap(o, r - 1, g0);
      OneMoreBelowCap(o, r, p0);
      Distribute(o.baseDelay, g0, p0, g);
    }
  }

  /** `n` times the cap */
  function Caps(cap: real, n: nat): real {
    if n == 0 then 0.0 else Caps(cap, n - 1) + cap
  }

  lemma {:induction false} CapsProduct(cap: real, n: nat)
    ensures Caps(cap, n) == n as real * cap
  {
    if n > 0 {
      CapsProduct(cap, n - 1);
      Distribute(cap, (n - 1) as real, 1.0, n as real);
    }
  }

  /** From then on, each sleep adds the cap. */
  lemma {:induction false} TotalFromCap(o: NovuOptions, c: nat, n: nat)
    requires forall i :: c <= i < c + n ==> NovuDelay(o, i) == o.maxDelay
    ensures Sum(NovuDelays(o, c + n)) == Sum(NovuDelays(o, c)) + Caps(o.maxDelay, n)
  {
    if n > 0 {
      TotalFromCap(o, c, n - 1);
      OneMoreDelay(o, c + n);
    }
  }

  lemma {:induction false} PowersGrow(m: real, i: nat, j: nat)
    requires m >= 1.0 && i <= j
    ensures Power(m, i) <= Power(m, j)
    decreases j
  {
    if i < j {
      PowersGrow(m, i, j - 1);
      PowerGrows(m, j - 1);
    }
  }

  /** Once at the cap, always at the cap. */
  lemma CapStays(o: NovuOptions, i: nat, j: nat)
    requires o.baseDelay >= 0.0 && o.backoffMultiplier >= 1.0 && i <= j
    ensures (AtCap(o, i) ==> AtCap(o, j)) && (BelowCap(o, j) ==> BelowCap(o, i))
  {
    PowersGrow(o.backoffMultiplier, i, j);
    ScaleMonotone(o.baseDelay, Power(o.backoffMultiplier, i), Power(o.backoffMultiplier, j));
  }

  /** The exact total of `c` sleeps below the cap, and `n` more from then on. */
  lemma NovuTotalExactly(o: NovuOptions, c: nat, n: nat, g: real)
    requires o.baseDelay >= 0.0 && o.backoffMultiplier > 1.0
    requires (c > 0 ==> BelowCap(o, c - 1)) && (n > 0 ==> AtCap(o, c))
    requires g == (Power(o.backoffMultiplier, c) - 1.0) / (o.backoffMultiplier - 1.0)
    ensures Sum(NovuDelays(o, c + n)) == o.baseDelay * g + n as real * o.maxDelay
  {
    GeometricQuotient(o.backoffMultiplier, c);
    TotalUpTo(o, c, g);
    TotalAbove(o, c, n);
    CapsProduct(o.maxDelay, n);
  }

  lemma TotalAbove(o: NovuOptions, c: nat, n: nat)
    requires o.baseDelay >= 0.0 && o.backoffMultiplier >= 1.0 && (n > 0 ==> AtCap(o, c))
    ensures Sum(NovuDelays(o, c + n)) == Sum(NovuDelays(o, c)) + Caps(o.maxDelay, n)
  {
    AllAtCap(o, c, n);
    TotalFromCap(o, c, n);
  }

  lemma TotalUpTo(o: NovuOptions, c: nat, g: real)
    requires o.baseDelay >= 0.0 && o.backoffMultiplier >= 1.0 && (c > 0 ==> BelowCap(o, c - 1))
    requires g == Geometric(o.backoffMultiplier, c)
    ensures Sum(NovuDelays(o, c)) == o.baseDelay * g
  {
    forall i: nat | i < c ensures BelowCap(o, i) { CapStays(o, i, c - 1); }
    TotalBelowCap(o, c, g);
  }

  lemma AllAtCap(o: NovuOptions, c: nat, n: nat)
    requires o.baseDelay >= 0.0 && o.backoffMultiplier >= 1.0 && (n > 0 ==> AtCap(o, c))
    ensures forall i :: c <= i < c + n ==> NovuDelay(o, i) == o.maxDelay
  {
    forall i: nat | c <= i < c + n ensures NovuDelay(o, i) == o.maxDelay {
      CapStays(o, c, i);
      DelayAtCap(o, i);
    }
  }

  /**
   Which errors stop the loop: no network code, and either a status other than 429 below 500 (`status` counts
   before `statusCode`, zero is none), or no status and a flag that says so.
  */
  lemma StopsExactly(e: Error)
    ensures IsRetryable(e) <==>
      !(&& e.code != "ECONNRESET" && e.code != "ECONNREFUSED" && e.code != "ETIMEDOUT" && e.code != "ENOTFOUND"
        && ((e.status != 0 && e.status < 500 && e.status != 429)
            || (e.status == 0 && e.statusCode != 0 && e.statusCode < 500 && e.statusCode != 429)
            || (e.status == 0 && e.statusCode == 0 && e.flag == Some(false))))
  {
  }

  // ----- The RabbitMQ loop --------------------------------------------------------------------------------------

  datatype RabbitOptions = RabbitOptions(maxRetries: int, delays: seq<real>, backoffMultiplier: real)
  {
    /** A multiplier of zero is falsy, like an absent one. */
    function Multiplier(): real { if backoffMultiplier == 0.0 then 2.0 else backoffMultiplier }
  }

  function RabbitDelay(o: RabbitOptions, attempt: nat): real
    requires o.delays != []
  {
    if attempt < |o.delays| then o.delays[attempt]
    else o.delays[|o.delays| - 1] * Power(o.Multiplier(), attempt - |o.delays| + 1)
  }

  function RabbitDelays(o: RabbitOptions, r: nat): (s: seq<real>)
    requires o.delays != []
    ensures |s| == r
  {
    if r == 0 then [] else RabbitDelays(o, r - 1) + [RabbitDelay(o, r - 1)]
  }

  datatype RetryResult = RetryResult(success: bool, attempts: int, error: Option<Error>)

  /**
   Every failure is retried here; the reported number of attempts is the number of calls.  With an empty
   table the delays are not numbers: the loop then sleeps as briefly as it can, `naps` times.
  */
  method ExecuteRabbitWithRetry(op: Operation, o: RabbitOptions)
    returns (r: RetryResult, calls: nat, slept: seq<real>, naps: nat)
    ensures calls <= if o.maxRetries < 0 then 0 else o.maxRetries + 1
    ensures forall i :: 0 <= i < calls - 1 ==> op(i).Failed?
    ensures o.maxRetries >= 0 ==> calls > 0 && (op(calls - 1).Ok? || calls == o.maxRetries + 1)
    ensures o.maxRetries >= -1 ==> r.attempts == calls
    ensures r.success <==> calls > 0 && op(calls - 1).Ok?
    ensures !r.success && calls > 0 ==> op(calls - 1).Failed? && r.error == Some(op(calls - 1).error)
    ensures |slept| + naps == if calls == 0 then 0 else calls - 1
    ensures if o.delays == [] then slept == [] else slept == RabbitDelays(o, |slept|) && naps == 0
  {
    calls, slept, naps := 0, [], 0;
    var lastError: Option<Error> := None;
    var attempt := 0;
    while attempt <= o.maxRetries
      invariant calls == attempt && (o.maxRetries < 0 ==> attempt == 0)
      invariant o.maxRetries >= 0 ==> attempt <= o.maxRetries
      invariant forall i :: 0 <= i < attempt ==> op(i).Failed?
      invariant |slept| + naps == attempt
      invariant if o.delays == [] then slept == [] else slept == RabbitDelays(o, attempt) && naps == 0
    {
      calls := calls + 1;
      match op(attempt) {
        case Ok => return RetryResult(true, attempt + 1, None), calls, slept, naps;
        case Failed(error) => lastError := Some(error);
      }
      if attempt == o.maxRetries { break; }
      if |o.delays| == 0 {
        naps := naps + 1;
      } else {
        slept := slept + [RabbitDelay(o, attempt)];
      }
      attempt := attempt + 1;
    }
    r := RetryResult(false, o.maxRetries + 1, lastError);
  }

  /** The first delay past the table: its last entry times the multiplier. */
  function FirstTail(o: RabbitOptions): real
    requires o.delays != []
  {
    o.delays[|o.delays| - 1] * o.Multiplier()
  }

  /** The first `j` delays past the table. */
  function TailDelays(o: RabbitOptions, j: nat): seq<real>
    requires o.delays != []
  {
    if j == 0 then [] else TailDelays(o, j - 1) + [RabbitDelay(o, |o.delays| + j - 1)]
  }

  lemma {:induction false} TableThenTail(o: RabbitOptions, j: nat)
    requires o.delays != []
    ensures RabbitDelays(o, |o.delays| + j) == o.delays + TailDelays(o, j)
  {
    if j == 0 {
      TableDelays(o, |o.delays|);
    } else {
      TableThenTail(o, j - 1);
      var d := RabbitDelay(o, |o.delays| + j - 1);
      assert o.delays + (TailDelays(o, j - 1) + [d]) == (o.delays + TailDelays(o, j - 1)) + [d];
    }
  }

  lemma {:induction false} TailSum(o: RabbitOptions, j: nat, q: real, g: real)
    requires o.delays != [] && q == FirstTail(o) && g == Geometric(o.Multiplier(), j)
    ensures Sum(TailDelays(o, j)) == q * g
  {
    if j > 0 {
      var g0, p0 := Geometric(o.Multiplier(), j - 1), Power(o.Multiplier(), j - 1);
      TailSum(o, j - 1, q, g0);
      OneMoreTail(o, j, q, p0);
      Distribute(q, g0, p0, g);
    }
  }

  lemma OneMoreTail(o: RabbitOptions, j: nat, q: real, p0: real)
    requires o.delays != [] && q == FirstTail(o) && j > 0 && p0 == Power(o.Multiplier(), j - 1)
    ensures Sum(TailDelays(o, j)) == Sum(TailDelays(o, j - 1)) + q * p0
  {
    TailDelay(o, j, q, p0);
    assert TailDelays(o, j)[..|TailDelays(o, j)| - 1] == TailDelays(o, j - 1);
  }

  /** The default multiplier is two; the first delay past the table is its last entry times the multiplier. */
  lemma MultiplierExactly(o: RabbitOptions)
    requires o.delays != []
    ensures var m := if o.backoffMultiplier == 0.0 then 2.0 else o.backoffMultiplier;
      RabbitDelay(o, |o.delays|) == o.delays[|o.delays| - 1] * m
  {
    assert Power(o.Multiplier(), 1) == o.Multiplier() * 1.0;
  }

  lemma TailDelay(o: RabbitOptions, j: nat, q: real, p0: real)
    requires o.delays != [] && q == FirstTail(o) && j > 0 && p0 == Power(o.Multiplier(), j - 1)
    ensures RabbitDelay(o, |o.delays| + j - 1) == q * p0
  {
    Associate(o.delays[|o.delays| - 1], o.Multiplier(), p0);
    assert Power(o.Multiplier(), j) == o.Multiplier() * p0;
  }

  lemma Associate(a: real, b: real, c: real)
    ensures a * (b * c) == (a * b) * c
  {
  }

  /** The table first, then a geometric tail that starts from its last entry times the multiplier. */
  lemma RabbitTotalDelay(o: RabbitOptions, j: nat, q: real, g: real)
    requires o.delays != [] && o.Multiplier() != 1.0 && q == FirstTail(o)
    requires g == (Power(o.Multiplier(), j) - 1.0) / (o.Multiplier() - 1.0)
    ensures Sum(RabbitDelays(o, |o.delays| + j)) == Sum(o.delays) + q * g
  {
    GeometricQuotient(o.Multiplier(), j);
    RabbitTotal(o, j, q, g);
  }

  lemma RabbitTotal(o: RabbitOptions, j: nat, q: real, g: real)
    requires o.delays != [] && q == FirstTail(o) && g == Geometric(o.Multiplier(), j)
    ensures Sum(RabbitDelays(o, |o.delays| + j)) == Sum(o.delays) + q * g
  {
    TailSum(o, j, q, g);
    TableThenTail(o, j);
    SumConcat(o.delays, TailDelays(o, j));
  }

  /** Within the table the sleeps are a prefix of it. */
  lemma {:induction false} TableDelays(o: RabbitOptions, r: nat)
    requires o.delays != [] && r <= |o.delays|
    ensures RabbitDelays(o, r) == o.delays[..r]
  {
    if r > 0 { TableDelays(o, r - 1); }
  }
}
