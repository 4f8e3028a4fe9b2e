/** What every reachable pool satisfies, and what holders can rely on. */
module LiquidStakingTheorems {
  import opened MachineInts
  import opened MapSums
  import opened LiquidStaking
  import opened LiquidStakingMath

  // ---- Reachable pools -------------------------------------------------------------

  datatype Op =
    | Stake(who: string, amount: U64, minStake: U64, coherent: bool)
    | Unstake(who: string, burn: U128, height: U64, effective: U64, coherent: bool)
    | Process(height: U64)
    | Rewards(amount: U64)
    | Transfer(from: string, to: string, moved: U128)

  function Step(p: Pool, op: Op): Pool
  {
    match op
    case Stake(who, a, lo, c) => StakeResult(p, who, a, lo, c).0
    case Unstake(who, s, h, e, c) => UnstakeResult(p, who, s, h, e, c).0
    case Process(h) => p.(pending := Waiting(p.pending, h))
    case Rewards(a) => RewardsResult(p, a).0
    case Transfer(from, to, s) => TransferResult(p, from, to, s).0
  }

  function Run(p: Pool, ops: seq<Op>): Pool
    decreases |ops|
  {
    if ops == [] then p else Run(Step(p, ops[0]), ops[1..])
  }

  /** Balances add up to the shares, and the stake covers the shares. */
  ghost predicate Inv(p: Pool)
  {
    Sum(p.balances) == p.shares <= p.staked
  }

  /** The rate is computed without saturation and is never below one. */
  lemma RateExact(p: Pool)
    requires Inv(p)
    ensures ExchangeRate(p) >= SCALE
    ensures p.shares > 0 ==> ExchangeRate(p) == Div(p.staked * SCALE, p.shares)
  {
    MulMono(p.staked, U64_MAX, SCALE);
    if p.shares > 0 { RateAtLeastScale(p.staked, p.shares, SCALE); }
  }

  /** Redeeming any held amount of shares neither saturates nor truncates, and the pool
      can always pay it. */
  lemma QuoteExact(p: Pool, s: nat)
    requires Inv(p) && s <= p.shares
    ensures s * ExchangeRate(p) <= U128_MAX
    ensures Quote(p, s) == Div(s * ExchangeRate(p), SCALE) <= p.staked
  {
    RateExact(p);
    var r := ExchangeRate(p);
    if p.shares > 0 {
      UnstakeKeepsRate(p.staked, p.shares, s, SCALE, r, Div(s * r, SCALE));
      MulMono(p.staked, U64_MAX, SCALE);
    }
  }

  /** A pool with at least `r` per share has a floored rate of at least `r`. */
  lemma RateFromCover(p: Pool, r: nat)
    requires Inv(p) && p.shares > 0 && r * p.shares <= p.staked * SCALE
    ensures ExchangeRate(p) >= r
  {
    RateExact(p);
    DivAtLeast(p.staked * SCALE, p.shares, r);
  }

  // ---- One operation ---------------------------------------------------------------

  /** The whole effect of `stake`.  Of its checked additions only the stake total and
      the operation counter can fail; the counter fails after everything is booked. */
  lemma StakeSound(p: Pool, who: string, amount: U64, minStake: U64, coherent: bool)
    requires Inv(p)
    ensures var (q, out) := StakeResult(p, who, amount, minStake, coherent);
            var m := Div(amount * SCALE, ExchangeRate(p));
            && out == (if amount < minStake then Err(AmountTooSmall)
                       else if !coherent then Err(Decoherence)
                       else if m == 0 then Err(ZeroShares)
                       else if p.staked + amount > U64_MAX || p.stakeOps == U64_MAX then Err(IntegerOverflow)
                       else Ok(m))
            && (if !StakeBooked(p, amount, minStake, coherent) then q == p
                else && q.staked == p.staked + amount && q.shares == p.shares + m
                     && q.pending == p.pending && q.rewards == p.rewards && q.unstakeOps == p.unstakeOps
                     && q.balances == Put(p.balances, who, Get(p.balances, who) + m))
            && m <= amount
            && Inv(q)
            && (q.shares > 0 ==> ExchangeRate(q) >= ExchangeRate(p))
  {
    SharesForExact(p, amount);
    var m := Div(amount * SCALE, ExchangeRate(p));
    if m > 0 { DepositSound(p, who, amount, m); }
    if StakeBooked(p, amount, minStake, coherent) {
      StakeRate(p, DepositResult(p, who, amount, m).0, amount, m);
    }
  }

  /** The share computation of `stake` never overflows and never mints above the deposit. */
  lemma SharesForExact(p: Pool, amount: U64)
    requires Inv(p)
    ensures ExchangeRate(p) >= SCALE
    ensures var m := Div(amount * SCALE, ExchangeRate(p));
            m <= amount && SharesFor(p, amount) == if m == 0 then Err(ZeroShares) else Ok(m)
  {
    RateExact(p);
    MintAtMost(amount, SCALE, ExchangeRate(p));
    MulMono(amount, U64_MAX, SCALE);
  }

  lemma DepositSound(p: Pool, who: string, amount: U64, m: nat)
    requires Inv(p) && 0 < m <= amount
    ensures var (q, out) := DepositResult(p, who, amount, m);
            && out == (if p.staked + amount > U64_MAX || p.stakeOps == U64_MAX then Err(IntegerOverflow) else Ok(m))
            && (if p.staked + amount > U64_MAX then q == p
                else && q.staked == p.staked + amount && q.shares == p.shares + m
                     && q.pending == p.pending && q.rewards == p.rewards && q.unstakeOps == p.unstakeOps
                     && q.balances == Put(p.balances, who, Get(p.balances, who) + m))
            && Inv(q)
  {
    SumMember(p.balances, who);
    SumUpdate(p.balances, who, Get(p.balances, who) + m);
  }

  /** The guards under which `stake` writes anything. */
  predicate StakeBooked(p: Pool, amount: nat, minStake: nat, coherent: bool)
  {
    && amount >= minStake && coherent && p.staked + amount <= U64_MAX
    && ExchangeRate(p) > 0 && Div(amount * SCALE, ExchangeRate(p)) > 0
  }

  lemma StakeRate(p: Pool, q: Pool, amount: nat, m: nat)
    requires Inv(p) && Inv(q) && ExchangeRate(p) > 0
    requires m == Div(amount * SCALE, ExchangeRate(p)) > 0
    requires q.staked == p.staked + amount && q.shares == p.shares + m
    ensures ExchangeRate(q) >= ExchangeRate(p)
  {
    RateExact(p);
    RateExact(q);
    if p.shares > 0 {
      StakeKeepsRate(p.staked, p.shares, amount, SCALE, ExchangeRate(p), m);
    }
  }

  /** The whole effect of `request_unstake`: neither share nor stake subtraction can
      fail, so the only overflows are the completion height and the counter. */
  lemma UnstakeSound(p: Pool, who: string, s: U128, height: U64, effective: U64, coherent: bool)
    requires Inv(p)
    ensures var (q, out) := UnstakeResult(p, who, s, height, effective, coherent);
            var unlock := height + effective + 1;
            && out == (if Get(p.balances, who) < s then Err(InsufficientShares)
                       else if !coherent then Err(Decoherence)
                       else if unlock > U64_MAX || p.unstakeOps == U64_MAX then Err(IntegerOverflow)
                       else Ok(Quote(p, s)))
            && (if Get(p.balances, who) < s || !coherent then q == p
                else && s <= p.shares && Quote(p, s) <= p.staked
                     && q.staked == p.staked - Quote(p, s) && q.shares == p.shares - s
                     && q.balances == p.balances[who := Get(p.balances, who) - s]
                     && q.rewards == p.rewards
                     && q.pending == p.pending +
                          (if unlock > U64_MAX then [] else [Withdrawal(who, Quote(p, s), unlock)]))
            && (out.Ok? ==> q.unstakeOps == p.unstakeOps + 1)
            && Inv(q)
            && (q.shares > 0 ==> ExchangeRate(q) >= ExchangeRate(p))
  {
    SumMember(p.balances, who);
    if Get(p.balances, who) >= s {
      StakeCovers(p, s);
      SumUpdate(p.balances, who, Get(p.balances, who) - s);
      var q := UnstakeResult(p, who, s, height, effective, coherent).0;
      if coherent && q.shares > 0 { UnstakeRate(p, q, s); }
    }
  }

  lemma StakeCovers(p: Pool, s: nat)
    requires Inv(p) && s <= p.shares
    ensures Quote(p, s) <= p.staked && p.shares - s <= p.staked - Quote(p, s)
  {
    UnstakeCover(p, s);
  }

  lemma UnstakeRate(p: Pool, q: Pool, s: nat)
    requires Inv(p) && Inv(q) && s < p.shares && Quote(p, s) <= p.staked
    requires q.staked == p.staked - Quote(p, s) && q.shares == p.shares - s
    ensures ExchangeRate(q) >= ExchangeRate(p)
  {
    UnstakeCover(p, s);
    RateFromCover(q, ExchangeRate(p));
  }

  lemma UnstakeCover(p: Pool, s: nat)
    requires Inv(p) && s <= p.shares
    ensures Quote(p, s) <= p.staked
    ensures p.shares - s <= p.staked - Quote(p, s)
    ensures p.shares > 0 ==> ExchangeRate(p) * (p.shares - s) <= (p.staked - Quote(p, s)) * SCALE
  {
    QuoteExact(p, s);
    RateExact(p);
    if p.shares > 0 {
      UnstakeKeepsRate(p.staked, p.shares, s, SCALE, ExchangeRate(p), Quote(p, s));
      UnstakeKeepsCover(p.staked, p.shares, s, SCALE, ExchangeRate(p), Quote(p, s));
    }
  }

  /** A transfer between two holders fails only for want of shares, and conserves them. */
  lemma TransferSound(p: Pool, from: string, to: string, s: U128)
    requires Inv(p)
    ensures var (q, out) := TransferResult(p, from, to, s);
            && out == (if from != to && Get(p.balances, from) < s then Err(InsufficientShares) else Ok(()))
            && q == p.(balances := q.balances)
            && (out.Ok? && from != to ==>
                  && Get(q.balances, from) == Get(p.balances, from) - s
                  && Get(q.balances, to) == Get(p.balances, to) + s)
            && (forall k :: k != from && k != to ==> Get(q.balances, k) == Get(p.balances, k))
            && Inv(q)
  {
    if from != to && Get(p.balances, from) >= s { MoveKeepsSum(p.balances, from, to, s); }
  }

  lemma MoveKeepsSum(m: map<string, nat>, from: string, to: string, s: nat)
    requires from != to && s <= Get(m, from)
    ensures Get(m, from) + Get(m, to) <= Sum(m)
    ensures Sum(Put(Put(m, from, Get(m, from) - s), to, Get(m, to) + s)) == Sum(m)
  {
    SumTwoMembers(m, from, to);
    SumUpdate(m, from, Get(m, from) - s);
    SumUpdate(Put(m, from, Get(m, from) - s), to, Get(m, to) + s);
  }

  /** Rewards raise the stake only, so they never lower the rate. */
  lemma RewardsSound(p: Pool, reward: U64)
    requires Inv(p)
    ensures var q := RewardsResult(p, reward).0;
            && Inv(q) && (q.shares > 0 ==> ExchangeRate(q) >= ExchangeRate(p))
  {
    var q := RewardsResult(p, reward).0;
    RateExact(p);
    RateExact(q);
    if q.shares > 0 {
      MulMono(p.staked, q.staked, SCALE);
      DivMono(p.staked * SCALE, q.staked * SCALE, p.shares);
    }
  }

  /** Each operation, whether it succeeds or fails, keeps the invariant, and the floored
      rate never falls in a step that leaves shares outstanding. */
  lemma StepSound(p: Pool, op: Op)
    requires Inv(p)
    ensures Inv(Step(p, op))
    ensures Step(p, op).shares > 0 ==> ExchangeRate(Step(p, op)) >= ExchangeRate(p)
  {
    match op
    case Stake(who, a, lo, c) => StakeSound(p, who, a, lo, c);
    case Unstake(who, s, h, e, c) => UnstakeSound(p, who, s, h, e, c);
    case Process(h) =>
    case Rewards(a) => RewardsSound(p, a);
    case Transfer(from, to, s) => TransferSound(p, from, to, s);
  }

  lemma {:induction false} RunKeepsInv(p: Pool, ops: seq<Op>)
    requires Inv(p)
    ensures Inv(Run(p, ops))
    decreases |ops|
  {
    if ops != [] {
      StepSound(p, ops[0]);
      RunKeepsInv(Step(p, ops[0]), ops[1..]);
    }
  }

  /** Every reachable pool: balances sum to the shares, the stake covers them, shares
      outstanding mean positive stake, the rate is at least one, and any held amount is
      quoted exactly and payable. */
  lemma ReachablePools(ops: seq<Op>, s: nat)
    ensures var p := Run(EMPTY_POOL, ops);
            && Sum(p.balances) == p.shares <= p.staked
            && (p.shares > 0 ==> p.staked > 0)
            && ExchangeRate(p) >= SCALE
            && (s <= p.shares ==> Quote(p, s) == Div(s * ExchangeRate(p), SCALE) <= p.staked)
  {
    assert Inv(EMPTY_POOL);
    RunKeepsInv(EMPTY_POOL, ops);
    var p := Run(EMPTY_POOL, ops);
    RateExact(p);
    if s <= p.shares { QuoteExact(p, s); }
  }

  /** Along a run in which shares stay outstanding, a holding never loses value. */
  lemma {:induction false} RateNeverFalls(p: Pool, ops: seq<Op>)
    requires Inv(p)
    requires forall i :: 0 < i <= |ops| ==> Run(p, ops[..i]).shares > 0
    ensures ExchangeRate(Run(p, ops)) >= ExchangeRate(p)
    decreases |ops|
  {
    if ops != [] {
      var q := Step(p, ops[0]);
      assert ops[..1] == [ops[0]];
      assert Run(p, ops[..1]) == q by { assert ops[..1][1..] == []; }
      StepSound(p, ops[0]);
      forall i | 0 < i <= |ops[1..]| ensures Run(q, ops[1..][..i]).shares > 0 {
        assert ops[..i + 1][1..] == ops[1..][..i];
        assert Run(p, ops[..i + 1]).shares > 0;
      }
      RateNeverFalls(q, ops[1..]);
    }
  }

  // ---- Round trips -----------------------------------------------------------------

  /** Staking and unstaking at once gains nothing exactly when the pool already had
      shares, or had too little unowned stake to pay a whole unit of it out. */
  lemma RoundTrip(p: Pool, who: string, amount: U64, minStake: U64, height: U64, effective: U64)
    requires Inv(p) && StakeResult(p, who, amount, minStake, true).1.Ok?
    requires height + effective < U64_MAX && p.unstakeOps < U64_MAX
    ensures var (q, minted) := StakeResult(p, who, amount, minStake, true);
            var back := UnstakeResult(q, who, minted.value, height, effective, true).1;
            && back.Ok?
            && (back.value <= amount <==>
                  p.shares > 0 || amount * Div(p.staked * SCALE, amount) < SCALE)
  {
    StakeSound(p, who, amount, minStake, true);
    var (q, minted) := StakeResult(p, who, amount, minStake, true);
    UnstakeSound(q, who, minted.value, height, effective, true);
    if p.shares > 0 {
      RoundTripShared(p, q, amount, minted.value);
    } else {
      RoundTripFirst(p, q, amount, minted.value);
    }
  }

  lemma RoundTripShared(p: Pool, q: Pool, amount: U64, m: nat)
    requires Inv(p) && Inv(q) && p.shares > 0 && ExchangeRate(p) > 0
    requires m == Div(amount * SCALE, ExchangeRate(p)) > 0
    requires q.staked == p.staked + amount && q.shares == p.shares + m
    ensures Quote(q, m) <= amount
  {
    StakeRate(p, q, amount, m);
    RateExact(p);
    RateExact(q);
    QuoteExact(q, m);
    RoundTripBound(p.staked, p.shares, amount, SCALE, ExchangeRate(p), m, ExchangeRate(q));
    DivAtMost(m * ExchangeRate(q), SCALE, amount);
  }

  /** The first staker of a pool that holds unowned stake receives that stake too. */
  lemma RoundTripFirst(p: Pool, q: Pool, amount: U64, m: nat)
    requires Inv(p) && Inv(q) && p.shares == 0 && ExchangeRate(p) > 0
    requires m == Div(amount * SCALE, ExchangeRate(p)) > 0
    requires q.staked == p.staked + amount && q.shares == p.shares + m
    ensures m == amount
    ensures Quote(q, m) == amount + Div(amount * Div(p.staked * SCALE, amount), SCALE)
  {
    DivUnique(amount * SCALE, SCALE, amount);
    FirstQuote(p.staked, q, amount);
  }

  lemma FirstQuote(unowned: nat, q: Pool, amount: nat)
    requires Inv(q) && amount > 0 && q.shares == amount && q.staked == unowned + amount
    ensures Quote(q, amount) == amount + Div(amount * Div(unowned * SCALE, amount), SCALE)
  {
    var extra := Div(unowned * SCALE, amount);
    FirstRate(unowned, q, amount);
    assert Quote(q, amount) == Div(amount * (SCALE + extra), SCALE) by { QuoteExact(q, amount); }
    PayoutFromEmpty(amount, extra, SCALE);
  }

  lemma FirstRate(unowned: nat, q: Pool, amount: nat)
    requires Inv(q) && amount > 0 && q.shares == amount && q.staked == unowned + amount
    ensures ExchangeRate(q) == SCALE + Div(unowned * SCALE, amount)
  {
    RateExact(q);
    RateFromEmpty(unowned, amount, SCALE);
  }

  /** Rewards that arrive before the first stake go to whoever stakes first: five units
      put in come out as ten. */
  lemma FirstStakerTakesRewards()
    ensures var p := Step(EMPTY_POOL, Rewards(5));
            var (q, minted) := StakeResult(p, "a", 5, 1, true);
            minted == Ok(5) && UnstakeResult(q, "a", 5, 0, 0, true).1 == Ok(10)
  {
    var p := Step(EMPTY_POOL, Rewards(5));
    var q := StakeResult(p, "a", 5, 1, true).0;
    DivUnique(5 * SCALE, SCALE, 5);
    StakeSound(p, "a", 5, 1, true);
    FirstQuote(5, q, 5);
    DivUnique(5 * SCALE, 5, SCALE);
    UnstakeSound(q, "a", 5, 0, 0, true);
  }
}
