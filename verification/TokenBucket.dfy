/**
  The per-key token bucket of gateway-go/internal/ratelimit/tokenbucket.go.

  `Limiter` is the in-place implementation.  It is proved against `Before`, the level of one
  key's bucket as a function of that key's clock readings, and the theorems are about that
  function: which calls are admitted (`AllowLaw`) and that no admission rule that respects the
  same budget in every window admits more (`LimiterIsOptimal`).

  Times are seconds and token counts are `real`.  Clock readings may step back.
 */
module TokenBucket {
  import opened Identifiers

  /** The two fields of a bucket, as a value. */
  datatype Level = Level(tokens: real, last: real)

  /** The budget of a limiter: the arguments of NewLimiter. */
  datatype Budget = Budget(capacity: real, refillPerSec: real)

  datatype Call = Call(key: Id, at: real)

  /** The clock readings of the calls on `key`, oldest first. */
  function KeyTimes(calls: seq<Call>, key: Id): seq<real> {
    if calls == [] then []
    else
      var last := calls[|calls| - 1];
      KeyTimes(calls[..|calls| - 1], key) + if last.key == key then [last.at] else []
  }

  function Refilled(g: Budget, b: Level, now: real): Level {
    var elapsed := now - b.last;
    if elapsed > 0.0 then
      var t := b.tokens + elapsed * g.refillPerSec;
      Level(if t > g.capacity then g.capacity else t, now)
    else b
  }

  /** The level that the last of the calls `ts` finds, before it spends. */
  function Before(g: Budget, ts: seq<real>): Level
    requires ts != []
    decreases ts, 0
  {
    var n := |ts| - 1;
    if n == 0 then Level(g.capacity, ts[0]) else Refilled(g, After(g, ts[..n]), ts[n])
  }

  /** Is the last of the calls `ts` admitted?  The first call on a key always is. */
  predicate Admits(g: Budget, ts: seq<real>)
    requires ts != []
    decreases ts, 1
  {
    |ts| == 1 || Before(g, ts).tokens >= 1.0
  }

  /** The level that the calls `ts` leave behind. */
  function After(g: Budget, ts: seq<real>): Level
    requires ts != []
    decreases ts, 2
  {
    var b := Before(g, ts);
    if Admits(g, ts) then b.(tokens := b.tokens - 1.0) else b
  }

  /** How many of the calls ts[k..] are admitted. */
  function Admitted(g: Budget, ts: seq<real>, k: nat): nat {
    if |ts| <= k then 0
    else Admitted(g, ts[..|ts| - 1], k) + if Admits(g, ts) then 1 else 0
  }

  /** The running maximum of the clock readings. */
  function Peak(ts: seq<real>): real
    requires ts != []
  {
    var n := |ts| - 1;
    if n == 0 then ts[0] else
      var p := Peak(ts[..n]);
      if ts[n] > p then ts[n] else p
  }

  lemma {:induction false} PeakIsMaximum(ts: seq<real>)
    requires ts != []
    ensures Peak(ts) in ts && forall i | 0 <= i < |ts| :: ts[i] <= Peak(ts)
  {
    var n := |ts| - 1;
    if n > 0 {
      PeakIsMaximum(ts[..n]);
      assert forall i | 0 <= i < n :: ts[..n][i] == ts[i];
    }
  }

  /** The tokens refilled, without the cap, from time zero to the latest reading in `ts`. */
  function Accrued(g: Budget, ts: seq<real>): real
    requires ts != []
  {
    g.refillPerSec * Peak(ts)
  }

  /** The budget of the window from call k to the last call of `ts`: capacity + refill * elapsed. */
  function Window(g: Budget, ts: seq<real>, k: nat): real
    requires k < |ts|
  {
    g.capacity + Accrued(g, ts) - Accrued(g, ts[..k + 1])
  }

  // ---------------------------------------------------------------- the admission law

  lemma {:induction false} LastIsPeak(g: Budget, ts: seq<real>)
    requires ts != []
    ensures Before(g, ts).last == Peak(ts)
    ensures Before(g, ts).tokens <= g.capacity
  {
    var n := |ts| - 1;
    if n > 0 { LastIsPeak(g, ts[..n]); }
  }

  lemma Distribute(r: real, a: real, b: real)
    ensures (a - b) * r == r * a - r * b
  {
  }

  /** The accrual of the last call is the refill over the time by which it moves the latest reading on. */
  lemma AccrualStep(g: Budget, ts: seq<real>)
    requires |ts| > 1
    ensures var p, now := ts[..|ts| - 1], ts[|ts| - 1];
            && (Peak(ts) > Peak(p) <==> now > Peak(p))
            && Accrued(g, ts) - Accrued(g, p) == if now > Peak(p) then (now - Peak(p)) * g.refillPerSec else 0.0
  {
    Distribute(g.refillPerSec, ts[|ts| - 1], Peak(ts[..|ts| - 1]));
  }

  /** The last call of `ts` adds to the level what it adds to every window, or else fills the bucket. */
  lemma RefillAccrues(g: Budget, ts: seq<real>)
    requires |ts| > 1
    ensures var p := ts[..|ts| - 1];
            var t := After(g, p).tokens + Accrued(g, ts) - Accrued(g, p);
            Before(g, ts).tokens ==
            if Peak(ts) > Peak(p) && t > g.capacity then g.capacity else t
  {
    hide Accrued, Peak;
    LastIsPeak(g, ts[..|ts| - 1]);
    AccrualStep(g, ts);
  }

  /** No window is overdrawn ... */
  lemma {:induction false} LevelBelowWindow(g: Budget, ts: seq<real>, k: nat)
    requires k < |ts|
    ensures Before(g, ts).tokens <= Window(g, ts, k) - Admitted(g, ts[..|ts| - 1], k) as real
  {
    var n := |ts| - 1;
    if k == n {
      LastIsPeak(g, ts);
      assert ts[..k + 1] == ts;
    } else {
      var p := ts[..n];
      LevelBelowWindow(g, p, k);
      RefillAccrues(g, ts);
      assert p[..k + 1] == ts[..k + 1];
    }
  }

  /** ... and some window is spent exactly down to the level. */
  lemma {:induction false} SomeWindowIsTight(g: Budget, ts: seq<real>) returns (k: nat)
    requires ts != []
    ensures k < |ts|
    ensures Before(g, ts).tokens == Window(g, ts, k) - Admitted(g, ts[..|ts| - 1], k) as real
  {
    var n := |ts| - 1;
    k := n;
    assert ts[..n + 1] == ts;
    if n > 0 {
      var p := ts[..n];
      RefillAccrues(g, ts);
      if Before(g, ts).tokens == After(g, p).tokens + Accrued(g, ts) - Accrued(g, p) {
        k := SomeWindowIsTight(g, p);
        assert p[..k + 1] == ts[..k + 1];
      }
    }
  }

  /** Would one more admitted call keep every window that ends now within its budget? */
  ghost predicate FitsEveryWindow(g: Budget, ts: seq<real>)
    requires ts != []
  {
    forall k: nat | k < |ts| :: Admitted(g, ts[..|ts| - 1], k) as real + 1.0 <= Window(g, ts, k)
  }

  /**
    Allow answers true exactly when one more call fits every window; the first call on a key is
    admitted unconditionally, which differs from the law only when the capacity is below one.
   */
  lemma {:induction false} AllowLaw(g: Budget, ts: seq<real>)
    requires ts != []
    ensures Admits(g, ts) <==> |ts| == 1 || FitsEveryWindow(g, ts)
    ensures |ts| == 1 ==> (FitsEveryWindow(g, ts) <==> g.capacity >= 1.0)
  {
    var k := SomeWindowIsTight(g, ts);
    forall j: nat | j < |ts|
      ensures Before(g, ts).tokens <= Window(g, ts, j) - Admitted(g, ts[..|ts| - 1], j) as real
    {
      LevelBelowWindow(g, ts, j);
    }
    if |ts| == 1 {
      assert ts[..1] == ts;
      assert FitsEveryWindow(g, ts) ==> Admitted(g, ts[..0], 0) as real + 1.0 <= Window(g, ts, 0);
    }
  }

  // ---------------------------------------------------------------- optimality

  /** How many calls an arbitrary rule admits. */
  function Count(rule: seq<bool>): nat {
    if rule == [] then 0 else Count(rule[..|rule| - 1]) + if rule[|rule| - 1] then 1 else 0
  }

  lemma {:induction false} CountSplit(rule: seq<bool>, k: nat)
    requires k <= |rule|
    ensures Count(rule) == Count(rule[..k]) + Count(rule[k..])
  {
    var n := |rule| - 1;
    if k <= n {
      CountSplit(rule[..n], k);
      assert rule[..n][..k] == rule[..k];
      assert rule[..n][k..] == rule[k..][..n - k];
    } else {
      assert rule[..k] == rule;
    }
  }

  lemma {:induction false} AdmittedSplit(g: Budget, ts: seq<real>, k: nat)
    requires k <= |ts|
    ensures Admitted(g, ts, 0) == Admitted(g, ts[..k], 0) + Admitted(g, ts, k)
  {
    var n := |ts| - 1;
    if k <= n {
      AdmittedSplit(g, ts[..n], k);
      assert ts[..n][..k] == ts[..k];
    } else {
      assert ts[..k] == ts;
    }
  }

  /** If the rule admits call n, the calls k..n it admits fit their window. */
  ghost predicate Fits(g: Budget, ts: seq<real>, rule: seq<bool>, k: nat, n: nat)
    requires |rule| == |ts| && k <= n < |ts|
  {
    rule[n] ==> Count(rule[k..n + 1]) as real <= Window(g, ts[..n + 1], k)
  }

  /** The rule never admits a call that overdraws some window ending at that call. */
  ghost predicate WithinBudget(g: Budget, ts: seq<real>, rule: seq<bool>)
    requires |rule| == |ts|
  {
    forall k: nat, n: nat | k <= n < |ts| :: Fits(g, ts, rule, k, n)
  }

  lemma WithinBudgetPrefix(g: Budget, ts: seq<real>, rule: seq<bool>)
    requires |rule| == |ts| > 0 && WithinBudget(g, ts, rule)
    ensures WithinBudget(g, ts[..|ts| - 1], rule[..|ts| - 1])
  {
    var m := |ts| - 1;
    forall k: nat, n: nat | k <= n < m ensures Fits(g, ts[..m], rule[..m], k, n) {
      assert Fits(g, ts, rule, k, n);
      assert rule[..m][k..n + 1] == rule[k..n + 1];
      assert ts[..m][..n + 1] == ts[..n + 1];
    }
  }

  /**
    No rule that stays within the budget admits more calls than the limiter.  Since every prefix
    of such a rule stays within the budget too, this holds at every point of the run.
   */
  lemma {:induction false} LimiterIsOptimal(g: Budget, ts: seq<real>, rule: seq<bool>)
    requires |rule| == |ts| && WithinBudget(g, ts, rule)
    ensures forall n: nat | n <= |ts| :: Count(rule[..n]) <= Admitted(g, ts[..n], 0)
  {
    if ts != [] {
      var m := |ts| - 1;
      var p, q := ts[..m], rule[..m];
      WithinBudgetPrefix(g, ts, rule);
      LimiterIsOptimal(g, p, q);
      forall n: nat | n <= m ensures Count(rule[..n]) <= Admitted(g, ts[..n], 0) {
        assert q[..n] == rule[..n] && p[..n] == ts[..n];
      }
      assert ts[..m + 1] == ts && rule[..m + 1] == rule;
      if rule[m] && !Admits(g, ts) {
        var k := SomeWindowIsTight(g, ts);      // fewer than one token is left in window k
        AdmittedSplit(g, p, k);
        CountSplit(rule, k);
        assert rule[k..m + 1] == rule[k..];
        assert Count(rule[..k]) <= Admitted(g, ts[..k], 0);
        assert p[..k] == ts[..k];
        assert Fits(g, ts, rule, k, m);
      }
    }
  }

  /** The answers the limiter gives to the calls `ts`. */
  function Answers(g: Budget, ts: seq<real>): (rule: seq<bool>)
    ensures |rule| == |ts|
  {
    if ts == [] then [] else Answers(g, ts[..|ts| - 1]) + [Admits(g, ts)]
  }

  lemma {:induction false} AnswersCount(g: Budget, ts: seq<real>, k: nat)
    requires k <= |ts|
    ensures Count(Answers(g, ts)[k..]) == Admitted(g, ts, k)
    ensures k > 0 ==> Answers(g, ts)[..k] == Answers(g, ts[..k])
  {
    var n := |ts| - 1;
    var a := Answers(g, ts);
    if k <= n {
      AnswersCount(g, ts[..n], k);
      assert a[k..][..n - k] == Answers(g, ts[..n])[k..];
      assert k > 0 ==> ts[..n][..k] == ts[..k];
      assert k > 0 ==> a[..k] == Answers(g, ts[..n])[..k];
    } else {
      assert ts[..k] == ts;
    }
  }

  lemma {:induction false} AnswersFit(g: Budget, ts: seq<real>, k: nat, n: nat)
    requires g.capacity >= 1.0 && k <= n < |ts|
    ensures Fits(g, ts, Answers(g, ts), k, n)
  {
    var rule, p := Answers(g, ts), ts[..n + 1];
    AnswersCount(g, ts, n + 1);
    assert rule[k..n + 1] == Answers(g, p)[k..];
    AnswersCount(g, p, k);
    assert p[..n] == ts[..n];
    if rule[n] {
      AllowLaw(g, p);
      assert Admitted(g, p[..n], k) as real + 1.0 <= Window(g, p, k);
    }
  }

  /** The limiter is itself such a rule, so it is the best one, exactly when the capacity is at least one. */
  lemma {:induction false} LimiterWithinBudget(g: Budget, ts: seq<real>)
    requires ts != []
    ensures WithinBudget(g, ts, Answers(g, ts)) <==> g.capacity >= 1.0
  {
    var rule := Answers(g, ts);
    if g.capacity >= 1.0 {
      forall k: nat, n: nat | k <= n < |ts| ensures Fits(g, ts, rule, k, n) {
        AnswersFit(g, ts, k, n);
      }
    } else {
      AnswersCount(g, ts, 1);
      assert rule[0..1] == rule[..1] == Answers(g, ts[..1]) == [true];
      assert Count([true]) == 1 by { assert [true][..0] == []; }
      assert Window(g, ts[..1], 0) == g.capacity by { assert ts[..1][..1] == ts[..1]; }
      assert !Fits(g, ts, rule, 0, 0);
    }
  }

  // ---------------------------------------------------------------- the limiter

  lemma {:induction false} KeyTimesAppend(calls: seq<Call>, c: Call)
    ensures forall k ::
              KeyTimes(calls + [c], k) == if k == c.key then KeyTimes(calls, k) + [c.at] else KeyTimes(calls, k)
  {
    assert (calls + [c])[..|calls|] == calls;
  }

  /** One more call: the bucket is filled on the first, and refilled and spent on every later one. */
  lemma {:induction false} OneMoreCall(g: Budget, ts: seq<real>, now: real)
    ensures ts == [] ==> Admits(g, ts + [now]) && After(g, ts + [now]) == Level(g.capacity - 1.0, now)
    ensures ts != [] ==>
              var b := Refilled(g, After(g, ts), now);
              && Admits(g, ts + [now]) == (b.tokens >= 1.0)
              && After(g, ts + [now]) == if b.tokens >= 1.0 then b.(tokens := b.tokens - 1.0) else b
  {
    assert (ts + [now])[..|ts|] == ts;
  }

  /** The level is the one that the calls leave behind. */
  predicate LeftBy(g: Budget, l: Level, ts: seq<real>) {
    ts != [] && l == After(g, ts)
  }

  lemma {:induction false} FirstCall(g: Budget, now: real)
    ensures LeftBy(g, Level(g.capacity - 1.0, now), [] + [now]) && Admits(g, [] + [now])
  {
    OneMoreCall(g, [], now);
  }

  lemma {:induction false} LaterCall(g: Budget, l: Level, ts: seq<real>, now: real)
    requires LeftBy(g, l, ts)
    ensures var b := Refilled(g, l, now);
            && LeftBy(g, if b.tokens >= 1.0 then b.(tokens := b.tokens - 1.0) else b, ts + [now])
            && Admits(g, ts + [now]) == (b.tokens >= 1.0)
  {
    OneMoreCall(g, ts, now);
  }

  class Bucket {
    var tokens: real
    var last: real

    constructor (tokens: real, last: real)
      ensures this.tokens == tokens && this.last == last
    {
      this.tokens, this.last := tokens, last;
    }

    /** Refills lazily up to the capacity, then spends one token if there is one. */
    method Take(g: Budget, now: real) returns (ok: bool)
      modifies this
      ensures var b := Refilled(g, old(Level(tokens, last)), now);
              ok == (b.tokens >= 1.0) &&
              Level(tokens, last) == if ok then b.(tokens := b.tokens - 1.0) else b
    {
      var elapsed := now - last;
      if elapsed > 0.0 {
        tokens := tokens + elapsed * g.refillPerSec;
        if tokens > g.capacity {
          tokens := g.capacity;
        }
        last := now;
      }
      if tokens < 1.0 {
        return false;
      }
      tokens := tokens - 1.0;
      return true;
    }
  }

  class Limiter {
    var buckets: map<Id, Bucket>
    const terms: Budget
    /** Every call so far, on any key. */
    ghost var calls: seq<Call>

    /** Bucket `b` holds the level that the calls on `key` leave behind. */
    ghost predicate Tracks(b: Bucket, key: Id)
      reads this, b
    {
      LeftBy(terms, Level(b.tokens, b.last), KeyTimes(calls, key))
    }

    ghost predicate Valid()
      reads this, buckets.Values
    {
      && (forall k, k' | k in buckets && k' in buckets && k != k' :: buckets[k] != buckets[k'])
      && (forall k | k in buckets :: Tracks(buckets[k], k))
      && (forall k | k !in buckets :: KeyTimes(calls, k) == [])
    }

    constructor (capacity: real, refillPerSec: real)
      ensures Valid() && calls == [] && buckets == map[]
      ensures terms == Budget(capacity, refillPerSec)
    {
      buckets, calls := map[], [];
      terms := Budget(capacity, refillPerSec);
    }

    /** The answer is a function of this key's clock readings alone; other keys' buckets stay as they are. */
    method Allow(key: Id, now: real) returns (ok: bool)
      requires Valid()
      modifies this, if key in buckets then {buckets[key]} else {}
      ensures Valid()
      ensures calls == old(calls) + [Call(key, now)]
      ensures KeyTimes(calls, key) == old(KeyTimes(calls, key)) + [now]
      ensures ok == Admits(terms, KeyTimes(calls, key))
      ensures key in old(buckets) ==> buckets == old(buckets)
      ensures key !in old(buckets) ==>
                key in buckets && fresh(buckets[key]) && buckets == old(buckets)[key := buckets[key]]
    {
      hide KeyTimes, LeftBy, Admits, Refilled;
      ghost var ts := KeyTimes(calls, key);
      KeyTimesAppend(calls, Call(key, now));
      calls := calls + [Call(key, now)];
      if key !in buckets {
        FirstCall(terms, now);
        var b := new Bucket(terms.capacity - 1.0, now);
        buckets, ok := buckets[key := b], true;
      } else {
        LaterCall(terms, Level(buckets[key].tokens, buckets[key].last), ts, now);
        ok := buckets[key].Take(terms, now);
      }
    }
  }
}
