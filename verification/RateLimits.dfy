/** The token bucket, over reals and explicit instants, and the concurrency guard, as
    interleaved steps of any number of threads. */
module RateLimits {
  import opened MachineInts

  // ---- Token bucket ----------------------------------------------------------------------

  datatype Bucket = Bucket(tokens: real, max: real, last: real, rate: real, streak: U32)

  function NewBucket(rate: U32, now: real): Bucket { Bucket(rate as real, rate as real, now, rate as real, 0) }

  function RMin(a: real, b: real): real { if a <= b then a else b }

  /** What a rate yields over a stretch of time. */
  function Flow(rate: real, from: real, to: real): real { (to - from) * rate }

  /** Tokens at an instant; a clock that goes back counts as no time passed. */
  function Refilled(b: Bucket, now: real): real
  {
    RMin(b.tokens + (if now >= b.last then Flow(b.rate, b.last, now) else 0.0), b.max)
  }

  predicate Accepts(b: Bucket, now: real) { Refilled(b, now) >= 1.0 }

  function Consume(b: Bucket, now: real): Bucket
  {
    var tokens := Refilled(b, now);
    if Accepts(b, now) then b.(tokens := tokens - 1.0, last := now, streak := 0)
    else b.(tokens := tokens, last := now, streak := if b.streak == U32_MAX then U32_MAX else b.streak + 1)
  }

  class TokenBucket {
    var tokens: real
    const max: real
    var last: real
    const ratePerSec: real
    var violationStreak: U32

    function View(): Bucket
      reads this
    {
      Bucket(tokens, max, last, ratePerSec, violationStreak)
    }

    constructor (rate: U32, now: real)
      ensures View() == NewBucket(rate, now)
    {
      tokens, max, last, ratePerSec, violationStreak := rate as real, rate as real, now, rate as real, 0;
    }

    method TryConsume(now: real) returns (ok: bool)
      modifies this
      ensures View() == Consume(old(View()), now) && ok == Accepts(old(View()), now)
    {
      var elapsed := 0.0;
      if now >= last { elapsed := now - last; }
      last := now;
      var refill := elapsed * ratePerSec;
      tokens := tokens + refill;
      if tokens > max { tokens := max; }
      if tokens >= 1.0 {
        tokens := tokens - 1.0;
        violationStreak := 0;
        return true;
      }
      if violationStreak < U32_MAX { violationStreak := violationStreak + 1; }
      return false;
    }
  }

  function Run(b: Bucket, calls: seq<real>): Bucket
    decreases |calls|
  {
    if calls == [] then b else Run(Consume(b, calls[0]), calls[1..])
  }

  function Accepted(b: Bucket, calls: seq<real>): nat
    decreases |calls|
  {
    if calls == [] then 0 else (if Accepts(b, calls[0]) then 1 else 0) + Accepted(Consume(b, calls[0]), calls[1..])
  }

  /** Rejections since the last acceptance, starting from `n`. */
  function Rejections(b: Bucket, calls: seq<real>, n: nat): nat
    decreases |calls|
  {
    if calls == [] then n
    else Rejections(Consume(b, calls[0]), calls[1..], if Accepts(b, calls[0]) then 0 else n + 1)
  }

  predicate Sound(b: Bucket) { 0.0 <= b.tokens <= b.max && 0.0 <= b.rate }

  /** Calls at non-decreasing instants, none before `start`. */
  predicate Ordered(start: real, calls: seq<real>)
    decreases |calls|
  {
    calls == [] || (start <= calls[0] && Ordered(calls[0], calls[1..]))
  }

  lemma {:induction false} OrderedBounds(start: real, calls: seq<real>)
    requires Ordered(start, calls) && calls != []
    ensures start <= calls[|calls| - 1]
    decreases |calls|
  {
    if |calls| > 1 { OrderedBounds(calls[0], calls[1..]); }
  }

  lemma {:induction false} OrderedTake(start: real, calls: seq<real>, n: nat)
    requires Ordered(start, calls) && n <= |calls|
    ensures Ordered(start, calls[..n])
    decreases |calls|
  {
    if n > 0 {
      OrderedTake(calls[0], calls[1..], n - 1);
      assert calls[..n][1..] == calls[1..][..n - 1];
    }
  }

  lemma FlowAdds(rate: real, a: real, b: real, c: real)
    ensures Flow(rate, a, c) == Flow(rate, a, b) + Flow(rate, b, c)
  {
  }

  lemma FlowIsPositive(rate: real, a: real, b: real)
    requires rate >= 0.0 && a <= b
    ensures Flow(rate, a, b) >= 0.0
  {
  }

  /** Tokens stay within the bucket, and a call takes no more than time has refilled. */
  lemma ConsumeSound(b: Bucket, now: real)
    requires Sound(b) && now >= b.last
    ensures Sound(Consume(b, now))
    ensures Consume(b, now).tokens + (if Accepts(b, now) then 1.0 else 0.0)
         <= RMin(b.max, b.tokens + Flow(b.rate, b.last, now))
  {
    FlowIsPositive(b.rate, b.last, now);
  }

  /** What a bucket can still give out up to `end`: its tokens and the refill until then. */
  function Budget(b: Bucket, end: real): real { b.tokens + Flow(b.rate, b.last, end) }

  lemma BudgetIsPositive(b: Bucket, end: real)
    requires Sound(b) && b.last <= end
    ensures Budget(b, end) >= 0.0
  {
    FlowIsPositive(b.rate, b.last, end);
  }

  /** A call spends a token of the budget if it is accepted, and never adds to it. */
  lemma ConsumeSpends(b: Bucket, now: real, end: real)
    requires Sound(b) && b.last <= now <= end
    ensures Budget(Consume(b, now), end) + (if Accepts(b, now) then 1.0 else 0.0) <= Budget(b, end)
  {
    ConsumeSound(b, now);
    FlowAdds(b.rate, b.last, now, end);
  }

  /** Over any run: what is accepted was in the bucket or has been refilled since. */
  lemma {:induction false} AcceptedWithinBudget(b: Bucket, calls: seq<real>, end: real)
    requires Sound(b) && Ordered(b.last, calls) && b.last <= end
    requires calls != [] ==> calls[|calls| - 1] <= end
    ensures Accepted(b, calls) as real <= Budget(b, end)
    decreases |calls|
  {
    if calls == [] {
      BudgetIsPositive(b, end);
    } else {
      OrderedBounds(calls[0], calls);
      ConsumeSound(b, calls[0]);
      ConsumeSpends(b, calls[0], end);
      AcceptedWithinBudget(Consume(b, calls[0]), calls[1..], end);
    }
  }

  /** A run keeps the bucket sound, its size and its rate, and what follows is still ordered. */
  lemma {:induction false} RunKeeps(b: Bucket, calls: seq<real>, i: nat)
    requires Sound(b) && Ordered(b.last, calls) && i <= |calls|
    ensures var c := Run(b, calls[..i]);
            Sound(c) && c.max == b.max && c.rate == b.rate && Ordered(c.last, calls[i..])
    decreases i
  {
    if i > 0 {
      ConsumeSound(b, calls[0]);
      assert calls[..i][1..] == calls[1..][..i - 1] && calls[i..] == calls[1..][i - 1..];
      RunKeeps(Consume(b, calls[0]), calls[1..], i - 1);
    }
  }

  /** A full bucket plus the refill of a stretch of time. */
  function Ceiling(max: real, rate: real, from: real, to: real): real { max + Flow(rate, from, to) }

  /** Whatever came before, a call leaves no more than a full bucket behind. */
  lemma FirstCall(b: Bucket, now: real, end: real)
    requires Sound(b) && b.last <= now <= end
    ensures Budget(Consume(b, now), end) + (if Accepts(b, now) then 1.0 else 0.0) <= Ceiling(b.max, b.rate, now, end)
  {
    ConsumeSound(b, now);
  }

  lemma WindowFromCall(b: Bucket, window: seq<real>)
    requires Sound(b) && Ordered(b.last, window) && window != []
    ensures Accepted(b, window) as real <= Ceiling(b.max, b.rate, window[0], window[|window| - 1])
  {
    var end := window[|window| - 1];
    OrderedBounds(window[0], window);
    ConsumeSound(b, window[0]);
    FirstCall(b, window[0], end);
    AcceptedWithinBudget(Consume(b, window[0]), window[1..], end);
  }

  /** In any window of any run, at most a full bucket plus the refill of the window. */
  lemma WindowBound(b: Bucket, calls: seq<real>, i: nat, j: nat)
    requires Sound(b) && Ordered(b.last, calls) && i <= j < |calls|
    ensures Accepted(Run(b, calls[..i]), calls[i..j + 1]) as real <= Ceiling(b.max, b.rate, calls[i], calls[j])
  {
    var c, window := Run(b, calls[..i]), calls[i..j + 1];
    RunKeeps(b, calls, i);
    OrderedTake(c.last, calls[i..], j + 1 - i);
    assert calls[i..][..j + 1 - i] == window;
    assert window[0] == calls[i] && window[|window| - 1] == calls[j];
    WindowFromCall(c, window);
  }

  /** The violation streak counts the rejections since the last acceptance, up to 2^32-1. */
  lemma {:induction false} StreakCountsRejections(b: Bucket, calls: seq<real>, n: nat)
    requires b.streak == Min(n, U32_MAX)
    ensures Run(b, calls).streak == Min(Rejections(b, calls, n), U32_MAX)
    decreases |calls|
  {
    if calls != [] {
      StreakCountsRejections(Consume(b, calls[0]), calls[1..], if Accepts(b, calls[0]) then 0 else n + 1);
    }
  }

  lemma OneTokenLater(b: Bucket, now: real)
    requires Sound(b) && b.max >= 1.0 && now >= b.last && Flow(b.rate, b.last, now) >= 1.0
    ensures Accepts(b, now)
  {
  }

  /** After any run, a caller that waits long enough for one token is never rejected, and a
      bucket of rate zero rejects everybody. */
  lemma WaitingIsEnough(rate: U32, start: real, calls: seq<real>, now: real)
    requires Ordered(start, calls)
    ensures var b := Run(NewBucket(rate, start), calls);
            && (rate > 0 && now >= b.last && Flow(b.rate, b.last, now) >= 1.0 ==> Accepts(b, now))
            && (rate == 0 ==> !Accepts(b, now))
  {
    RunFromNew(rate, start, calls);
    var b := Run(NewBucket(rate, start), calls);
    if rate > 0 && now >= b.last && Flow(b.rate, b.last, now) >= 1.0 { OneTokenLater(b, now); }
    if rate == 0 { EmptyForever(b, now); }
  }

  lemma RunFromNew(rate: U32, start: real, calls: seq<real>)
    requires Ordered(start, calls)
    ensures var b := Run(NewBucket(rate, start), calls); Sound(b) && b.max == rate as real && b.rate == rate as real
  {
    RunKeeps(NewBucket(rate, start), calls, |calls|);
    assert calls[..|calls|] == calls;
  }

  lemma EmptyForever(b: Bucket, now: real)
    requires b.max < 1.0
    ensures !Accepts(b, now)
  {
  }

  // ---- Concurrency guard -----------------------------------------------------------------

  const USIZE_MAX: nat := U64_MAX

  /** The shared counter, what each thread inside `try_acquire` last read from it, and the
      tickets that have been handed out and not yet dropped. */
  datatype Guard = Guard(current: nat, max: nat, reading: map<nat, nat>, live: set<nat>, issued: nat)

  function NewGuard(max: U64): Guard { Guard(0, max, map[], {}, 0) }

  /** One atomic step of one thread.  Relaxed loads and failed exchanges may yield any
      value, and an exchange may fail without cause. */
  datatype Act =
    | Load(thread: nat, value: nat)
    | GiveUp(thread: nat)
    | Exchange(thread: nat, spurious: bool, seen: nat)
    | Drop(ticket: nat)

  /** A step that is not enabled does nothing. */
  function Perform(g: Guard, a: Act): Guard
  {
    match a
    case Load(t, v) => if t in g.reading then g else g.(reading := g.reading[t := v])
    case GiveUp(t) => if t in g.reading && g.reading[t] >= g.max then g.(reading := g.reading - {t}) else g
    case Exchange(t, spurious, seen) =>
      if t !in g.reading || g.reading[t] >= g.max then g
      else if !spurious && g.current == g.reading[t] then
        g.(current := g.reading[t] + 1, reading := g.reading - {t}, live := g.live + {g.issued}, issued := g.issued + 1)
      else g.(reading := g.reading[t := seen])
    case Drop(k) =>
      if k !in g.live then g
      else g.(current := if g.current == 0 then USIZE_MAX else g.current - 1, live := g.live - {k})
  }

  function Interleave(g: Guard, acts: seq<Act>): Guard
    decreases |acts|
  {
    if acts == [] then g else Interleave(Perform(g, acts[0]), acts[1..])
  }

  predicate GuardInv(g: Guard)
  {
    g.current == |g.live| <= g.max && forall k :: k in g.live ==> k < g.issued
  }

  lemma ActKeepsInv(g: Guard, a: Act)
    requires GuardInv(g)
    ensures GuardInv(Perform(g, a)) && Perform(g, a).max == g.max
    ensures a.Drop? && a.ticket in g.live ==> Perform(g, a).current == g.current - 1
  {
    if a.Drop? && a.ticket in g.live { assert |g.live - {a.ticket}| == |g.live| - 1; }
  }

  /** Under every interleaving the counter is the number of live tickets, never above the
      limit and never wrapped below zero. */
  lemma {:induction false} EveryInterleaving(g: Guard, acts: seq<Act>)
    requires GuardInv(g)
    ensures GuardInv(Interleave(g, acts)) && Interleave(g, acts).max == g.max
    decreases |acts|
  {
    if acts != [] {
      ActKeepsInv(g, acts[0]);
      EveryInterleaving(Perform(g, acts[0]), acts[1..]);
    }
  }

  lemma GuardFromStart(max: U64, acts: seq<Act>)
    ensures var g := Interleave(NewGuard(max), acts); g.current == |g.live| <= max
  {
    EveryInterleaving(NewGuard(max), acts);
  }

  /** The counter as one thread drives it, with any number of spurious failures first. */
  class ConcurrencyGuard {
    var current: U64
    const max: U64

    constructor (limit: U64)
      ensures current == 0 && max == limit
    {
      current, max := 0, limit;
    }

    /** Alone, an acquisition succeeds exactly when the guard is not full. */
    method TryAcquire(failures: nat) returns (ticket: bool)
      modifies this
      ensures ticket <==> old(current) < max
      ensures current == if ticket then old(current) + 1 else old(current)
    {
      var left := failures;
      var cur := current;
      while cur < max
        invariant cur == current == old(current)
        decreases left
      {
        if left == 0 {
          current := cur + 1;
          return true;
        }
        left := left - 1;
        cur := current;
      }
      return false;
    }

    /** Dropping a ticket: an atomic subtraction, which would wrap at zero. */
    method Release()
      modifies this
      ensures current == if old(current) == 0 then USIZE_MAX else old(current) - 1
    {
      current := if current == 0 then USIZE_MAX else current - 1;
    }
  }
}
