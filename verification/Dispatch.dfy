/** The shared HTTP dispatcher: one POST, retried with exponential backoff. What the network and the
  caller's context do is an arbitrary script of what each attempt meets. */
module Dispatch {
  import opened Wrappers

  /** Durations are in nanoseconds. */
  datatype Config = Config(maxRetries: int, initialBackoff: int, multiplier: real, maxBackoff: int)

  datatype Outcome =
    | BadRequest
    | TransportError(contextDone: bool)
    | Response(status: int)

  /** What attempt `k` meets: whether the context ends during the wait before it, and else what becomes
    of the request. */
  datatype Attempt = Attempt(cancelled: bool, outcome: Outcome)

  type Script = nat -> Attempt

  datatype Failure = ContextError | BuildError | Exhausted

  datatype Report = Report(statusCode: int, attempts: int, err: Option<Failure>)

  // ---------- what a dispatch comes to ----------

  predicate Accepted(status: int) {
    200 <= status < 300
  }

  predicate Waits(env: Script, k: nat) {
    k > 0 && env(k).cancelled
  }

  /** Attempt `k` fails in a way that is retried. */
  predicate Retried(env: Script, k: nat) {
    && !Waits(env, k)
    && match env(k).outcome
       case BadRequest => false
       case TransportError(contextDone) => !contextDone
       case Response(status) => !Accepted(status)
  }

  /** The status that the attempts before `k` leave behind. */
  function StatusBefore(env: Script, k: nat): int {
    if k > 0 && env(k - 1).outcome.Response? then env(k - 1).outcome.status else 0
  }

  /** What a dispatch reports when attempt `k` is the first that is not retried. */
  function Verdict(env: Script, k: nat): Report {
    if Waits(env, k) then Report(StatusBefore(env, k), k, Some(ContextError))
    else match env(k).outcome
      case BadRequest => Report(0, k + 1, Some(BuildError))
      case TransportError(_) => Report(0, k + 1, Some(ContextError))
      case Response(status) => Report(status, k + 1, None)
  }

  ghost predicate AllRetried(env: Script, k: nat) {
    forall j: nat :: j < k ==> Retried(env, j)
  }

  ghost predicate EndsAt(env: Script, k: nat) {
    AllRetried(env, k) && !Retried(env, k)
  }

  /** The report is the verdict on the first attempt that is not retried, or says that none is left. */
  ghost predicate Concludes(cfg: Config, env: Script, r: Report) {
    if cfg.maxRetries < 0 then r == Report(0, cfg.maxRetries + 1, Some(Exhausted))
    else
      && (forall k: nat :: k <= cfg.maxRetries && EndsAt(env, k) ==> r == Verdict(env, k))
      && (AllRetried(env, cfg.maxRetries + 1) ==>
            r == Report(StatusBefore(env, cfg.maxRetries + 1), cfg.maxRetries + 1, Some(Exhausted)))
  }

  /** Attempt `k` is reached, and the URL accepts it. */
  ghost predicate AcceptedAt(env: Script, k: nat) {
    AllRetried(env, k) && !Waits(env, k) && env(k).outcome.Response? && 200 <= env(k).outcome.status < 300
  }

  /** An attempt is retried when it was not cut short, and no response came or one outside 2xx. */
  lemma {:induction false} RetriedMeans(env: Script, k: nat)
    ensures Retried(env, k) <==>
              && (k > 0 ==> !env(k).cancelled)
              && (env(k).outcome == TransportError(false)
                  || (env(k).outcome.Response? && !(200 <= env(k).outcome.status < 300)))
  {}

  /** Attempt `k` is handed to the client. */
  ghost predicate PostedAt(env: Script, k: nat) {
    AllRetried(env, k) && !Waits(env, k) && !env(k).outcome.BadRequest?
  }

  ghost predicate Succeeds(cfg: Config, env: Script) {
    exists k: nat :: k <= cfg.maxRetries && AcceptedAt(env, k)
  }

  /** The first of `n` attempts that is not retried, or `n`. */
  function FirstKept(env: Script, n: nat): (k: nat)
    ensures k <= n && AllRetried(env, k) && (k < n ==> !Retried(env, k))
  {
    if n == 0 then 0
    else
      var k := FirstKept(env, n - 1);
      if k == n - 1 && Retried(env, k) then n else k
  }

  /** The requests that a dispatch hands to the client: its attempts are made in turn. */
  ghost function Posts(cfg: Config, env: Script): (posts: nat)
    ensures forall k: nat :: k < posts <==> k <= cfg.maxRetries && PostedAt(env, k)
    ensures posts <= if cfg.maxRetries < 0 then 0 else cfg.maxRetries + 1
  {
    if cfg.maxRetries < 0 then 0
    else
      var k := FirstKept(env, cfg.maxRetries + 1);
      assert forall j: nat :: j < k ==> PostedAt(env, j) by { RetriedIsPosted(env, k); }
      if k <= cfg.maxRetries && PostedAt(env, k) then k + 1 else k
  }

  lemma RetriedIsPosted(env: Script, k: nat)
    requires AllRetried(env, k)
    ensures forall j: nat :: j < k ==> PostedAt(env, j)
  {
    forall j: nat | j < k ensures PostedAt(env, j) {
      assert Retried(env, j);
    }
  }

  /** The report counts the requests made, and the one that could not be built, if that ended it; and it has
    the status of the last response, if the last request had one. */
  lemma {:induction false} ReportCounts(cfg: Config, env: Script, r: Report)
    requires cfg.maxRetries >= 0 && Concludes(cfg, env, r)
    ensures r.attempts == Posts(cfg, env) + if r.err == Some(BuildError) then 1 else 0
    ensures var n := Posts(cfg, env);
            r.statusCode == if n > 0 && r.err != Some(BuildError) && env(n - 1).outcome.Response? then env(n - 1).outcome.status
                            else 0
  {
    EndsSomewhere(env, cfg.maxRetries + 1);
    if k: nat :| k <= cfg.maxRetries && EndsAt(env, k) {
      Ends(cfg, env, k);
      assert r == Verdict(env, k);
    } else {
      RetriedIsPosted(env, cfg.maxRetries + 1);
      assert PostedAt(env, cfg.maxRetries);
    }
  }

  /** Without retries, there is one request, unless none can be built. */
  lemma PostsOnce(cfg: Config, env: Script)
    requires cfg.maxRetries == 0
    ensures Posts(cfg, env) == if env(0).outcome.BadRequest? then 0 else 1
  {
    assert PostedAt(env, 0) <==> !env(0).outcome.BadRequest?;
  }

  lemma {:induction false} EndsSomewhere(env: Script, n: nat)
    ensures AllRetried(env, n) || exists k: nat :: k < n && EndsAt(env, k)
  {
    if n > 0 {
      EndsSomewhere(env, n - 1);
      if AllRetried(env, n - 1) && !Retried(env, n - 1) { assert EndsAt(env, n - 1); }
    }
  }

  /** A dispatch succeeds exactly when some allowed attempt is accepted after only retried ones, and then
    reports that attempt's number and status. */
  lemma {:induction false} SucceedsExactly(cfg: Config, env: Script, r: Report)
    requires Concludes(cfg, env, r)
    ensures r.err.None? <==> exists k: nat :: k <= cfg.maxRetries && AcceptedAt(env, k)
    ensures forall k: nat :: k <= cfg.maxRetries && AcceptedAt(env, k) ==> r == Report(env(k).outcome.status, k + 1, None)
    ensures r.attempts <= cfg.maxRetries + 1
  {
    if cfg.maxRetries >= 0 {
      EndsSomewhere(env, cfg.maxRetries + 1);
      if k: nat :| k <= cfg.maxRetries && EndsAt(env, k) {
        assert r == Verdict(env, k);
        assert r.err.None? ==> AcceptedAt(env, k);
      }
      forall k: nat | k <= cfg.maxRetries && AcceptedAt(env, k) ensures r == Report(env(k).outcome.status, k + 1, None) {
        assert EndsAt(env, k);
      }
    }
  }

  // ---------- backoff ----------

  /** Conversion to an integer type truncates toward zero. */
  function Truncate(x: real): int {
    if x >= 0.0 then x.Floor else -(-x).Floor
  }

  function NextBackoff(cfg: Config, backoff: int): int {
    var grown := backoff as real * cfg.multiplier;
    Truncate(if grown < cfg.maxBackoff as real then grown else cfg.maxBackoff as real)
  }

  /** The wait before attempt `k + 1`. The first one is not capped. */
  function Backoff(cfg: Config, k: nat): int {
    if k == 0 then cfg.initialBackoff else NextBackoff(cfg, Backoff(cfg, k - 1))
  }

  lemma TruncateWhole(n: int)
    ensures Truncate(n as real) == n
  {}

  lemma TruncateMonotone(x: real, y: real)
    requires x <= y
    ensures Truncate(x) <= Truncate(y)
  {}

  /** Every wait but the first is capped, whatever the multiplier. */
  lemma {:induction false} BackoffCapped(cfg: Config, k: nat)
    requires k > 0
    ensures Backoff(cfg, k) <= cfg.maxBackoff
  {
    var grown := Backoff(cfg, k - 1) as real * cfg.multiplier;
    TruncateMonotone(if grown < cfg.maxBackoff as real then grown else cfg.maxBackoff as real, cfg.maxBackoff as real);
    TruncateWhole(cfg.maxBackoff);
  }

  function Power(m: nat, k: nat): nat {
    if k == 0 then 1 else m * Power(m, k - 1)
  }

  function Min(a: int, b: int): int {
    if a <= b then a else b
  }

  /** With a whole multiplier, the waits grow geometrically up to the cap. */
  lemma {:induction false} BackoffClosedForm(cfg: Config, m: nat, k: nat)
    requires m >= 1 && cfg.multiplier == m as real && 0 <= cfg.initialBackoff <= cfg.maxBackoff
    ensures Backoff(cfg, k) == Min(cfg.initialBackoff * Power(m, k), cfg.maxBackoff)
  {
    if k > 0 {
      BackoffClosedForm(cfg, m, k - 1);
      NextBackoffWhole(cfg, m, Backoff(cfg, k - 1));
      GrowCapped(cfg.initialBackoff * Power(m, k - 1), m, cfg.maxBackoff);
      MulAssociative(cfg.initialBackoff, Power(m, k - 1), m);
    }
  }

  lemma NextBackoffWhole(cfg: Config, m: nat, before: int)
    requires cfg.multiplier == m as real
    ensures NextBackoff(cfg, before) == Min(before * m, cfg.maxBackoff)
  {
    assert before as real * m as real == (before * m) as real;
    TruncateWhole(Min(before * m, cfg.maxBackoff));
  }

  lemma GrowCapped(a: int, m: nat, cap: int)
    requires a >= 0 && cap >= 0 && m >= 1
    ensures Min(Min(a, cap) * m, cap) == Min(a * m, cap)
  {
    if a > cap {
      assert a * m >= a && cap * m >= cap;
    }
  }

  lemma MulAssociative(a: int, b: int, c: int)
    ensures a * b * c == a * (c * b)
  {}

  /** Posts to a URL until it accepts, the context ends or the retries are used up. `posts` counts the
    requests handed to the client, and `waits` lists the timers started between attempts: one before each
    attempt but the first that comes after retried ones only. */
  method Dispatch(cfg: Config, env: Script) returns (r: Report, ghost posts: nat, ghost waits: seq<int>)
    ensures Concludes(cfg, env, r)
    ensures posts == Posts(cfg, env)
    ensures forall k: nat :: 0 < k <= |waits| <==> 0 < k <= cfg.maxRetries && AllRetried(env, k)
    ensures forall i :: 0 <= i < |waits| ==> waits[i] == Backoff(cfg, i)
  {
    posts, waits := 0, [];
    var lastStatus := 0;
    var backoff := cfg.initialBackoff;
    var attempt := 0;
    while attempt <= cfg.maxRetries
      invariant 0 <= attempt && (cfg.maxRetries >= -1 ==> attempt <= cfg.maxRetries + 1)
      invariant cfg.maxRetries < 0 ==> attempt == 0
      invariant AllRetried(env, attempt) && lastStatus == StatusBefore(env, attempt)
      invariant posts == attempt && |waits| == (if attempt == 0 then 0 else attempt - 1)
      invariant backoff == Backoff(cfg, |waits|)
      invariant forall i :: 0 <= i < |waits| ==> waits[i] == Backoff(cfg, i)
      decreases cfg.maxRetries - attempt
    {
      if attempt > 0 {
        waits := waits + [backoff];
        if env(attempt).cancelled {
          Ends(cfg, env, attempt);
          return Report(lastStatus, attempt, Some(ContextError)), posts, waits;
        }
        backoff := NextBackoff(cfg, backoff);
      }
      match env(attempt).outcome {
        case BadRequest =>
          Ends(cfg, env, attempt);
          return Report(0, attempt + 1, Some(BuildError)), posts, waits;
        case TransportError(contextDone) =>
          posts, lastStatus := posts + 1, 0;
          if contextDone {
            Ends(cfg, env, attempt);
            return Report(0, attempt + 1, Some(ContextError)), posts, waits;
          }
        case Response(status) =>
          posts, lastStatus := posts + 1, status;
          if 200 <= status && status < 300 {
            Ends(cfg, env, attempt);
            return Report(status, attempt + 1, None), posts, waits;
          }
      }
      attempt := attempt + 1;
    }
    r := Report(lastStatus, cfg.maxRetries + 1, Some(Exhausted));
  }

  /** Where a dispatch ends, and what it has done by then. */
  lemma Ends(cfg: Config, env: Script, k: nat)
    requires EndsAt(env, k) && k <= cfg.maxRetries
    ensures forall j: nat :: EndsAt(env, j) ==> j == k
    ensures forall j: nat :: AllRetried(env, j) <==> j <= k
    ensures Posts(cfg, env) == if PostedAt(env, k) then k + 1 else k
  {
    assert forall j: nat :: AllRetried(env, j) <==> j <= k;
  }
}
