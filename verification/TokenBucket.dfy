/** The gateway's rate limiter: a token bucket, exactly characterised by the windows before each call.
    Everything but the last section is in units of flow: the time of a call multiplied by the rate. */
module TokenBucket {

  function Least(a: real, b: real): real {
    if b < a then b else a
  }

  /** What is left after a call that found this level. */
  function Rest(level: real): real {
    if level >= 1.0 then level - 1.0 else level
  }

  /** The level that call k finds. The bucket is full when it is made, so the first call finds it full. */
  function LevelAt(burst: real, f: seq<real>, k: nat): real
    requires k < |f|
  {
    if k == 0 then burst else Least(burst, Rest(LevelAt(burst, f, k - 1)) + (f[k] - f[k-1]))
  }

  /** The answer to call k. */
  predicate Allowed(burst: real, f: seq<real>, k: nat)
    requires k < |f|
  {
    LevelAt(burst, f, k) >= 1.0
  }

  /** How many of the calls j, ..., k - 1 were allowed. */
  function Count(burst: real, f: seq<real>, j: nat, k: nat): nat
    requires j <= k <= |f|
  {
    if j == k then 0 else Count(burst, f, j, k - 1) + (if Allowed(burst, f, k - 1) then 1 else 0)
  }

  ghost predicate Rising(f: seq<real>) {
    forall j, k :: 0 <= j < k < |f| ==> f[j] <= f[k]
  }

  // ---------------------------------------------------------------- the level, in closed form

  /** What is left of the most that may pass between call j and call k. */
  function Slack(burst: real, f: seq<real>, j: nat, k: nat): real
    requires j <= k < |f|
  {
    burst + (f[k] - f[j]) - Count(burst, f, j, k) as real
  }

  /** The level at call k is the least slack of any window that ends there. */
  lemma {:induction false} LevelIsLeastSlack(burst: real, f: seq<real>, k: nat) returns (w: nat)
    requires k < |f|
    ensures forall j :: 0 <= j <= k ==> LevelAt(burst, f, k) <= Slack(burst, f, j, k)
    ensures w <= k && LevelAt(burst, f, k) == Slack(burst, f, w, k)
  {
    w := k;
    if k > 0 {
      var w0 := LevelIsLeastSlack(burst, f, k - 1);
      forall j | 0 <= j < k
        ensures Slack(burst, f, j, k) - Slack(burst, f, j, k - 1)
             == Rest(LevelAt(burst, f, k - 1)) - LevelAt(burst, f, k - 1) + (f[k] - f[k-1])
      {
      }
      if LevelAt(burst, f, k) == Slack(burst, f, w0, k) { w := w0; }
    }
  }

  // ---------------------------------------------------------------- what the limiter promises

  /** To allow call k as well would take the window from call j over its limit. */
  predicate Exceeds(burst: real, f: seq<real>, j: nat, k: nat)
    requires j <= k < |f|
  {
    Count(burst, f, j, k) as real + 1.0 > burst + (f[k] - f[j])
  }

  /** A call is refused exactly when it would take some window that ends with it over the limit: the limiter
      refuses nothing that the limit allows. */
  lemma RefusedExactly(burst: real, f: seq<real>, k: nat)
    requires k < |f|
    ensures !Allowed(burst, f, k) <==> exists j :: 0 <= j <= k && Exceeds(burst, f, j, k)
  {
    var w := LevelIsLeastSlack(burst, f, k);
    assert Exceeds(burst, f, w, k) <==> LevelAt(burst, f, k) < 1.0;
    forall j: nat | j <= k && Exceeds(burst, f, j, k) ensures LevelAt(burst, f, k) < 1.0 {
      assert LevelAt(burst, f, k) <= Slack(burst, f, j, k);
    }
  }

  /** In any window, from call j to call k, at most burst + flow calls are allowed. */
  lemma {:induction false} WindowBound(burst: real, f: seq<real>, j: nat, k: nat)
    requires Rising(f) && burst > 0.0 && j <= k < |f|
    ensures Count(burst, f, j, k + 1) as real <= burst + (f[k] - f[j])
  {
    var w := LevelIsLeastSlack(burst, f, k);
    assert LevelAt(burst, f, k) <= Slack(burst, f, j, k);
    if !Allowed(burst, f, k) && j < k { WindowBound(burst, f, j, k - 1); }
  }

  /** A sender that keeps to the rate is never refused. */
  lemma {:induction false} SpacedIsAllowed(burst: real, f: seq<real>, k: nat)
    requires burst >= 1.0 && k < |f| && forall i :: 0 < i < |f| ==> f[i] - f[i-1] >= 1.0
    ensures Allowed(burst, f, k)
  {
    if k > 0 { SpacedIsAllowed(burst, f, k - 1); }
  }

  lemma LevelAtMostBurst(burst: real, f: seq<real>, k: nat)
    requires k < |f|
    ensures LevelAt(burst, f, k) <= burst
  {
  }

  /** A burst below one, which the constructor accepts, refuses every call; with a burst of one or more the
      first call is always allowed. */
  lemma SmallBurst(burst: real, f: seq<real>)
    requires f != []
    ensures (forall k :: 0 <= k < |f| ==> !Allowed(burst, f, k)) <==> burst < 1.0
  {
    forall k: nat | k < |f| ensures Allowed(burst, f, k) ==> burst >= 1.0 { LevelAtMostBurst(burst, f, k); }
    if forall k :: 0 <= k < |f| ==> !Allowed(burst, f, k) { assert !Allowed(burst, f, 0); }
  }

  // ---------------------------------------------------------------- refused calls leave no trace

  /** The calls that were allowed. */
  function Kept(burst: real, f: seq<real>): seq<real> {
    if f == [] then [] else
    var front := Kept(burst, f[..|f|-1]);
    if Allowed(burst, f, |f| - 1) then front + [f[|f|-1]] else front
  }

  lemma {:induction false} LevelOfPrefix(burst: real, f: seq<real>, t: real, k: nat)
    requires k < |f|
    ensures LevelAt(burst, f + [t], k) == LevelAt(burst, f, k)
  {
    if k > 0 { LevelOfPrefix(burst, f, t, k - 1); }
  }

  /** What a call at t would find. */
  function LevelAfter(burst: real, f: seq<real>, t: real): real {
    LevelAt(burst, f + [t], |f|)
  }

  lemma NextLevel(burst: real, f: seq<real>, last: real, t: real)
    ensures LevelAfter(burst, f + [last], t) == Least(burst, Rest(LevelAfter(burst, f, last)) + (t - last))
  {
    LevelOfPrefix(burst, f + [last], t, |f|);
  }

  /** A call at t finds the same level when the refused calls before it are left out. */
  lemma {:induction false} KeptAsBefore(burst: real, f: seq<real>, t: real)
    requires Rising(f + [t]) && burst > 0.0
    ensures LevelAfter(burst, Kept(burst, f), t) == LevelAfter(burst, f, t)
  {
    if f != [] {
      var front, last := f[..|f|-1], f[|f|-1];
      assert f == front + [last];
      RisingPrefix(front, last, t);
      KeptAsBefore(burst, front, last);
      KeptAsBefore(burst, front, t);
      NextLevel(burst, front, last, t);
      if Allowed(burst, f, |f| - 1) {
        NextLevel(burst, Kept(burst, front), last, t);
      } else {
        LevelLater(burst, front, last, t);
      }
    }
  }

  lemma RisingPrefix(front: seq<real>, last: real, t: real)
    requires Rising(front + [last] + [t])
    ensures Rising(front + [last]) && Rising(front + [t]) && last <= t
  {
    var all := front + [last] + [t];
    assert forall k :: 0 <= k <= |front| ==> (front + [last])[k] == all[k];
    assert all[|front|] == last && all[|front|+1] == t;
    assert forall k :: 0 <= k < |front| ==> (front + [t])[k] == all[k];
  }

  /** Later the level is higher by the flow in between, up to the burst. */
  lemma LevelLater(burst: real, f: seq<real>, a: real, b: real)
    requires a <= b
    ensures Least(burst, LevelAfter(burst, f, a) + (b - a)) == LevelAfter(burst, f, b)
  {
    if f != [] {
      var front, last := f[..|f|-1], f[|f|-1];
      assert f == front + [last];
      NextLevel(burst, front, last, a);
      NextLevel(burst, front, last, b);
    }
  }

  /** Without the refused calls the limiter answers as before: every call that was allowed still is, and
      whatever comes next is answered the same. */
  lemma {:induction false} RefusedCallsDoNotCount(burst: real, f: seq<real>, t: real)
    requires Rising(f + [t]) && burst > 0.0
    ensures forall k :: 0 <= k < |Kept(burst, f)| ==> Allowed(burst, Kept(burst, f), k)
    ensures Allowed(burst, Kept(burst, f) + [t], |Kept(burst, f)|) <==> Allowed(burst, f + [t], |f|)
  {
    KeptAsBefore(burst, f, t);
    if f != [] {
      var front, last := f[..|f|-1], f[|f|-1];
      assert f == front + [last];
      RisingPrefix(front, last, t);
      RefusedCallsDoNotCount(burst, front, last);
      var kept := Kept(burst, front);
      forall k: nat | k < |kept| ensures Allowed(burst, kept + [last], k) {
        assert Allowed(burst, kept, k);
        LevelOfPrefix(burst, kept, last, k);
      }
    }
  }

  // ---------------------------------------------------------------- the limiter itself, in seconds

  /** What has flowed in since the last call, up to the burst. */
  function Filled(rate: real, burst: real, tokens: real, updated: real, now: real): real {
    Least(burst, tokens + (now - updated) * rate)
  }

  class RateLimiter {
    const rate: real
    const burst: real
    var tokens: real
    var updated: real

    constructor (rate: real, burst: real, now: real)
      requires rate > 0.0 && burst > 0.0
      ensures this.rate == rate && this.burst == burst && tokens == burst && updated == now
    {
      this.rate, this.burst := rate, burst;
      tokens, updated := burst, now;
    }

    method Allow(now: real) returns (ok: bool)
      modifies this
      ensures ok == (Filled(rate, burst, old(tokens), old(updated), now) >= 1.0)
      ensures tokens == Rest(Filled(rate, burst, old(tokens), old(updated), now)) && updated == now
    {
      tokens := Filled(rate, burst, tokens, updated, now);
      updated := now;
      if tokens >= 1.0 {
        tokens := tokens - 1.0;
        return true;
      }
      return false;
    }
  }

  /** The flow until each call. */
  function Flow(rate: real, calls: seq<real>): (f: seq<real>)
    ensures |f| == |calls|
  {
    seq(|calls|, k requires 0 <= k < |calls| => rate * calls[k])
  }

  lemma Stretch(rate: real, a: real, b: real)
    ensures (b - a) * rate == rate * b - rate * a
    ensures rate * (b - a) == rate * b - rate * a
  {
  }

  lemma Gain(rate: real, time: real)
    requires rate > 0.0 && time >= 0.0
    ensures time * rate >= 0.0
  {
  }

  /** The level that Allow computes is the level of the flow. */
  lemma LevelInTime(rate: real, burst: real, start: real, calls: seq<real>, i: nat, tokens: real, updated: real)
    requires rate > 0.0 && i < |calls|
    requires updated == if i == 0 then start else calls[i-1]
    requires tokens == if i == 0 then burst else Rest(LevelAt(burst, Flow(rate, calls), i - 1))
    requires updated <= calls[i]
    ensures Filled(rate, burst, tokens, updated, calls[i]) == LevelAt(burst, Flow(rate, calls), i)
  {
    if i == 0 {
      Gain(rate, calls[0] - start);
    } else {
      Stretch(rate, calls[i-1], calls[i]);
    }
  }

  method AnswerNext(limiter: RateLimiter, now: real, ghost f: seq<real>, ghost i: nat) returns (ok: bool)
    requires i < |f|
    requires Filled(limiter.rate, limiter.burst, limiter.tokens, limiter.updated, now) == LevelAt(limiter.burst, f, i)
    modifies limiter
    ensures ok == Allowed(limiter.burst, f, i)
    ensures limiter.tokens == Rest(LevelAt(limiter.burst, f, i)) && limiter.updated == now
  {
    ok := limiter.Allow(now);
  }

  /** A limiter that is called at these times gives the answers the flow says. */
  method Answers(rate: real, burst: real, start: real, calls: seq<real>) returns (answers: seq<bool>)
    requires rate > 0.0 && burst > 0.0 && Rising(calls) && (calls != [] ==> start <= calls[0])
    ensures |answers| == |calls|
    ensures forall k :: 0 <= k < |calls| ==> answers[k] == Allowed(burst, Flow(rate, calls), k)
  {
    answers := [];
    var limiter := new RateLimiter(rate, burst, start);
    ghost var f := Flow(rate, calls);
    for i := 0 to |calls|
      invariant |answers| == i && fresh(limiter) && limiter.rate == rate && limiter.burst == burst
      invariant limiter.updated == (if i == 0 then start else calls[i-1])
      invariant limiter.tokens == if i == 0 then burst else Rest(LevelAt(burst, f, i - 1))
      invariant forall k :: 0 <= k < i ==> answers[k] == Allowed(burst, f, k)
    {
      LevelInTime(rate, burst, start, calls, i, limiter.tokens, limiter.updated);
      var ok := AnswerNext(limiter, calls[i], f, i);
      answers := answers + [ok];
    }
  }

  lemma FlowRises(rate: real, calls: seq<real>)
    requires rate > 0.0 && Rising(calls)
    ensures Rising(Flow(rate, calls))
  {
  }

  /** In any window of time, from call j to call k, at most burst + rate * length calls are allowed. */
  lemma WindowBoundInTime(rate: real, burst: real, calls: seq<real>, j: nat, k: nat)
    requires rate > 0.0 && burst > 0.0 && Rising(calls) && j <= k < |calls|
    ensures Count(burst, Flow(rate, calls), j, k + 1) as real <= burst + rate * (calls[k] - calls[j])
  {
    FlowRises(rate, calls);
    WindowBound(burst, Flow(rate, calls), j, k);
    assert Flow(rate, calls)[k] - Flow(rate, calls)[j] == rate * (calls[k] - calls[j]) by {
      Stretch(rate, calls[j], calls[k]);
    }
  }

  /** Calls that are at least 1 / rate apart are all allowed. */
  lemma SpacedInTime(rate: real, burst: real, calls: seq<real>, k: nat)
    requires rate > 0.0 && burst >= 1.0 && k < |calls|
    requires forall i :: 0 < i < |calls| ==> calls[i] - calls[i-1] >= 1.0 / rate
    ensures Allowed(burst, Flow(rate, calls), k)
  {
    var f := Flow(rate, calls);
    forall i | 0 < i < |f| ensures f[i] - f[i-1] >= 1.0 {
      Stretch(rate, calls[i-1], calls[i]);
      Unit(rate, calls[i] - calls[i-1]);
    }
    SpacedIsAllowed(burst, f, k);
  }

  lemma Unit(rate: real, gap: real)
    requires rate > 0.0 && gap >= 1.0 / rate
    ensures rate * gap >= 1.0
  {
  }
}
