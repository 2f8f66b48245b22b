/** The quote provider client (src/services/finnhubApi.ts): a fixed-window limiter of 60
    requests per 60 000 ms guarding every request, and the validation of a quote.

    The clock (`Date.now()`) is a parameter of each operation. The request itself (`fetch`
    and `response.json()`) is left out: what it delivers is a parameter. */
module FinnhubApi {
  import opened Wrappers

  const MaxRequests: int := 60
  const WindowMs: int := 60000

  /** The limiter state `rateLimitTracker`. */
  datatype RateWindow = RateWindow(requests: int, resetTime: int)

  predicate WindowValid(w: RateWindow) {
    0 <= w.requests <= MaxRequests
  }

  datatype Checked = Checked(window: RateWindow, allowed: bool)

  /** checkRateLimit: start a new window once `now` has reached the reset time, then grant
      the request iff fewer than 60 were granted in the window, counting it. */
  function Check(w: RateWindow, now: int): (r: Checked)
    ensures now >= w.resetTime ==> r.window.resetTime == now + WindowMs
    ensures now < w.resetTime ==> r.window.resetTime == w.resetTime
    ensures now >= w.resetTime ==> r.allowed && r.window.requests == 1
    ensures now < w.resetTime ==> (r.allowed <==> w.requests < MaxRequests)
    ensures now < w.resetTime && r.allowed ==> r.window.requests == w.requests + 1
    ensures !r.allowed ==> r.window == w
  {
    var current := if now >= w.resetTime then RateWindow(0, now + WindowMs) else w;
    if current.requests >= MaxRequests then Checked(current, false)
    else Checked(current.(requests := current.requests + 1), true)
  }

  /** getRemainingRequests. */
  function Remaining(w: RateWindow, now: int): (r: int)
    requires WindowValid(w)
    ensures 0 <= r <= MaxRequests
    ensures now >= w.resetTime ==> r == MaxRequests
    ensures now < w.resetTime ==> r == MaxRequests - w.requests
  {
    if now >= w.resetTime then MaxRequests
    else if MaxRequests - w.requests > 0 then MaxRequests - w.requests else 0
  }

  /** getTimeUntilReset. */
  function TimeUntilReset(w: RateWindow, now: int): (r: int)
    ensures r >= 0
    ensures r == 0 <==> now >= w.resetTime
    ensures r > 0 ==> now + r == w.resetTime
  {
    if w.resetTime - now > 0 then w.resetTime - now else 0
  }

  /** `Math.ceil(a / b)` for a positive divisor (Dafny's `/` rounds down for b > 0). */
  function CeilDiv(a: int, b: int): (q: int)
    requires b > 0
    ensures (q - 1) * b < a <= q * b
  {
    -((-a) / b)
  }

  // ---------------------------------------------------------------------------
  // What the limiter promises
  // ---------------------------------------------------------------------------

  /** Every check keeps the count within [0, 60]. */
  lemma CheckPreservesValid(w: RateWindow, now: int)
    requires WindowValid(w)
    ensures WindowValid(Check(w, now).window)
  {
  }

  /** A request is granted exactly when some remain, and a grant consumes exactly one;
      a refusal leaves the state alone with nothing remaining. */
  lemma CheckConsumesOne(w: RateWindow, now: int)
    requires WindowValid(w)
    ensures Check(w, now).allowed <==> Remaining(w, now) > 0
    ensures WindowValid(Check(w, now).window)
    ensures Check(w, now).allowed ==> Remaining(Check(w, now).window, now) == Remaining(w, now) - 1
    ensures !Check(w, now).allowed ==> Remaining(Check(w, now).window, now) == Remaining(w, now) == 0
  {
  }

  /** A refusal always leaves a positive time until the window resets, so the wait it
      reports (read at the same instant) is at least one second. */
  lemma RefusalWaitsAtLeastOneSecond(w: RateWindow, now: int)
    requires !Check(w, now).allowed
    ensures TimeUntilReset(Check(w, now).window, now) > 0
    ensures CeilDiv(Check(w, now).window.resetTime - now, 1000) >= 1
  {
  }

  /** The checks made at the given instants, in order; returns the final state and the
      number granted. */
  function Run(w: RateWindow, nows: seq<int>): (r: (RateWindow, nat))
    decreases |nows|
  {
    if nows == [] then (w, 0)
    else
      var (w', n) := Run(w, nows[..|nows| - 1]);
      var c := Check(w', nows[|nows| - 1]);
      (c.window, n + if c.allowed then 1 else 0)
  }

  /** n checks all at the instant `now`. */
  function Repeat(now: int, n: nat): (r: seq<int>)
    ensures |r| == n && forall k | 0 <= k < n :: r[k] == now
  {
    seq(n, k requires 0 <= k < n => now)
  }

  /** One more check at `now` takes the run one Check further. */
  lemma RunRepeatStep(w: RateWindow, now: int, n: nat)
    ensures Run(w, Repeat(now, n + 1)).0 == Check(Run(w, Repeat(now, n)).0, now).window
  {
    assert Repeat(now, n + 1)[..n] == Repeat(now, n);
  }

  /** With no reset in between (every instant before the reset time), at most the
      remaining 60 - requests checks are granted, so at most 60 overall, and the reset
      time does not move. */
  lemma {:induction false} RunWithinWindow(w: RateWindow, nows: seq<int>)
    requires WindowValid(w)
    requires forall k | 0 <= k < |nows| :: nows[k] < w.resetTime
    ensures Run(w, nows).0.resetTime == w.resetTime
    ensures WindowValid(Run(w, nows).0)
    ensures Run(w, nows).0.requests == w.requests + Run(w, nows).1
    ensures Run(w, nows).1 <= MaxRequests - w.requests
    decreases |nows|
  {
    if nows != [] {
      RunWithinWindow(w, nows[..|nows| - 1]);
    }
  }

  /** Within one window, the grants are exactly the first Remaining of the checks. */
  lemma {:induction false} RunGrantsRemaining(w: RateWindow, nows: seq<int>)
    requires WindowValid(w)
    requires forall k | 0 <= k < |nows| :: nows[k] < w.resetTime
    ensures Run(w, nows).1 == if |nows| <= MaxRequests - w.requests then |nows| else MaxRequests - w.requests
    decreases |nows|
  {
    if nows != [] {
      RunWithinWindow(w, nows[..|nows| - 1]);
      RunGrantsRemaining(w, nows[..|nows| - 1]);
    }
  }

  // ---------------------------------------------------------------------------
  // Requests
  // ---------------------------------------------------------------------------

  /** What a request's network step delivers: no response, a non-OK status, or a parsed
      body with its `error` field ("" when absent) and its `c` field (None unless it is a
      number). */
  datatype Delivery = NetworkFailure | NotOk(status: int) | Body(error: string, c: Option<real>)

  /** A delivery `getQuote` accepts: a body without error whose price `c` is a number above
      zero. */
  predicate AcceptedQuote(d: Delivery) {
    d.Body? && d.error == "" && d.c.Some? && d.c.value > 0.0
  }

  datatype RequestError =
    | RateLimited(waitSeconds: int)
    | RequestFailed(status: int)
    | Unreachable
    | ApiReported(message: string)
    | InvalidQuote

  /** The client object with its private limiter state. */
  class FinnhubClient {
    var requests: int
    var resetTime: int

    function Window(): RateWindow
      reads this
    {
      RateWindow(requests, resetTime)
    }

    ghost predicate Valid()
      reads this
    {
      WindowValid(Window())
    }

    /** `resetTime: Date.now() + 60000` at construction. */
    constructor (now: int)
      ensures Valid()
      ensures requests == 0 && resetTime == now + WindowMs
    {
      requests := 0;
      resetTime := now + WindowMs;
    }

    method CheckRateLimit(now: int) returns (allowed: bool)
      requires Valid()
      modifies this
      ensures Valid()
      ensures Window() == Check(old(Window()), now).window
      ensures allowed == Check(old(Window()), now).allowed
    {
      if now >= resetTime {
        requests := 0;
        resetTime := now + WindowMs;
      }
      if requests >= MaxRequests {
        return false;
      }
      requests := requests + 1;
      return true;
    }

    /** makeRequest: a refused request is not issued and reports the wait, rounded up to
      whole seconds, read from the clock at `later`; a granted one fails on a missing or
      non-OK response or an `error` in the body, and otherwise yields the body. */
    method MakeRequest(now: int, later: int, delivery: Delivery) returns (r: Result<Delivery, RequestError>)
      requires Valid()
      modifies this
      ensures Valid()
      ensures Window() == Check(old(Window()), now).window
      ensures !Check(old(Window()), now).allowed ==> r == Err(RateLimited(CeilDiv(resetTime - later, 1000)))
      ensures Check(old(Window()), now).allowed ==>
                match delivery
                case NetworkFailure => r == Err(Unreachable)
                case NotOk(status) => r == Err(RequestFailed(status))
                case Body(error, _) => r == if error != "" then Err(ApiReported(error)) else Ok(delivery)
    {
      var allowed := CheckRateLimit(now);
      if !allowed {
        var waitTime := resetTime - later;
        return Err(RateLimited(CeilDiv(waitTime, 1000)));
      }
      match delivery {
        case NetworkFailure => r := Err(Unreachable);
        case NotOk(status) => r := Err(RequestFailed(status));
        case Body(error, _) =>
          if error != "" {
            r := Err(ApiReported(error));
          } else {
            r := Ok(delivery);
          }
      }
    }

    /** getQuote: a quote is accepted only when its price `c` is a number above zero. */
    method GetQuote(now: int, later: int, delivery: Delivery) returns (r: Result<real, RequestError>)
      requires Valid()
      modifies this
      ensures Valid()
      ensures Window() == Check(old(Window()), now).window
      ensures r.Ok? ==> r.value > 0.0
      ensures r.Ok? <==> Check(old(Window()), now).allowed && AcceptedQuote(delivery)
      ensures r.Ok? ==> r.value == delivery.c.value
      ensures !Check(old(Window()), now).allowed ==> r.Err? && r.error.RateLimited?
    {
      var data := MakeRequest(now, later, delivery);
      if data.Err? {
        return Err(data.error);
      }
      var c := data.value.c;
      if c.None? || c.value <= 0.0 {
        return Err(InvalidQuote);
      }
      return Ok(c.value);
    }

    function RemainingRequests(now: int): (r: int)
      requires Valid()
      reads this
      ensures 0 <= r <= MaxRequests
    {
      Remaining(Window(), now)
    }

    function TimeUntilResetAt(now: int): (r: int)
      reads this
      ensures r >= 0
    {
      TimeUntilReset(Window(), now)
    }
  }
}
