/** Leaving the pool: what holders are owed, in which order they may leave, and where
    every unit of stake goes. */
module LiquidStakingExit {
  import opened MachineInts
  import opened MapSums
  import opened LiquidStaking
  import opened LiquidStakingMath
  import opened LiquidStakingTheorems

  // ---- Exits in any order ----------------------------------------------------------

  ghost function Quotes(p: Pool): map<string, nat>
  {
    map who | who in p.balances :: Quote(p, p.balances[who])
  }

  ghost function Floors(m: map<string, nat>, r: nat, E: nat): map<string, nat>
    requires E > 0
  {
    map who | who in m :: Div(m[who] * r, E)
  }

  lemma {:induction false} SumOfFloors(m: map<string, nat>, r: nat, E: nat)
    requires E > 0
    ensures Sum(Floors(m, r, E)) * E <= Sum(m) * r
    decreases |m|
  {
    if m != map[] {
      var k :| k in m;
      var rest := m - {k};
      SumOfFloors(rest, r, E);
      SumRemove(m, k);
      FloorsRemove(m, r, E, k);
      AddFloors(m[k], Div(m[k] * r, E), Sum(rest), Sum(Floors(rest, r, E)), r, E);
    }
  }

  lemma FloorsRemove(m: map<string, nat>, r: nat, E: nat, k: string)
    requires E > 0 && k in m
    ensures Sum(Floors(m, r, E)) == Div(m[k] * r, E) + Sum(Floors(m - {k}, r, E))
  {
    SumRemove(Floors(m, r, E), k);
    assert Floors(m, r, E) - {k} == Floors(m - {k}, r, E);
  }

  lemma AddFloors(a: nat, p: nat, b: nat, q: nat, r: nat, E: nat)
    requires p * E <= a * r && q * E <= b * r
    ensures (p + q) * E <= (a + b) * r
  {
    MulAdd(a, b, r);
    MulAdd(p, q, E);
  }

  /** The pool can honour all quotes at once. */
  lemma QuotesCovered(p: Pool)
    requires Inv(p)
    ensures Sum(Quotes(p)) <= p.staked
  {
    var r: nat := ExchangeRate(p);
    forall who | who in p.balances ensures Quote(p, p.balances[who]) == Div(p.balances[who] * r, SCALE) {
      SumMember(p.balances, who);
      QuoteExact(p, p.balances[who]);
    }
    assert Quotes(p) == Floors(p.balances, r, SCALE);
    SumOfFloors(p.balances, r, SCALE);
    QuoteExact(p, p.shares);
    DivAtLeast(p.shares * r, SCALE, Sum(Quotes(p)));
  }

  datatype Exit = Exit(who: string, height: U64, effective: U64)

  /** Each listed holder in turn unstakes the whole balance. */
  function ExitAll(p: Pool, exits: seq<Exit>): (r: (Pool, seq<Outcome<U64>>))
    ensures |r.1| == |exits|
    decreases |exits|
  {
    if exits == [] then (p, [])
    else
      var x := exits[0];
      var (q, out) := UnstakeResult(p, x.who, Get(p.balances, x.who), x.height, x.effective, true);
      var (last, outs) := ExitAll(q, exits[1..]);
      (last, [out] + outs)
  }

  predicate Orderly(p: Pool, exits: seq<Exit>)
  {
    && p.unstakeOps + |exits| <= U64_MAX
    && (forall i :: 0 <= i < |exits| ==> exits[i].height + exits[i].effective < U64_MAX)
    && (forall i, j :: 0 <= i < j < |exits| ==> exits[i].who != exits[j].who)
  }

  predicate PaidAtRate(p: Pool, exits: seq<Exit>, outs: seq<Outcome<U64>>, r: nat)
    requires |outs| == |exits|
  {
    forall i :: 0 <= i < |exits| ==>
      outs[i].Ok? && outs[i].value >= Div(Get(p.balances, exits[i].who) * r, SCALE)
  }

  predicate Emptied(p: Pool, last: Pool, exits: seq<Exit>)
  {
    && (forall i :: 0 <= i < |exits| ==> Get(last.balances, exits[i].who) == 0)
    && (forall k :: k in last.balances && (forall i :: 0 <= i < |exits| ==> exits[i].who != k) ==>
          last.balances[k] == Get(p.balances, k))
  }

  lemma FirstExit(p: Pool, x: Exit, r: nat)
    requires Inv(p) && p.unstakeOps < U64_MAX && x.height + x.effective < U64_MAX
    requires p.shares > 0 ==> ExchangeRate(p) >= r
    ensures var (q, out) := UnstakeResult(p, x.who, Get(p.balances, x.who), x.height, x.effective, true);
            && out.Ok? && out.value >= Div(Get(p.balances, x.who) * r, SCALE)
            && Inv(q) && (q.shares > 0 ==> ExchangeRate(q) >= r)
            && q.unstakeOps == p.unstakeOps + 1 && q.balances == Put(p.balances, x.who, 0)
  {
    SumMember(p.balances, x.who);
    QuoteAtLeast(p, Get(p.balances, x.who), r);
    UnstakeSound(p, x.who, Get(p.balances, x.who), x.height, x.effective, true);
  }

  lemma QuoteAtLeast(p: Pool, b: nat, r: nat)
    requires Inv(p) && b <= p.shares && (p.shares > 0 ==> ExchangeRate(p) >= r)
    ensures Quote(p, b) >= Div(b * r, SCALE)
  {
    QuoteExact(p, b);
    if b > 0 { FloorMono(b, r, ExchangeRate(p)); }
  }

  lemma FloorMono(b: nat, r: nat, e: nat)
    requires r <= e
    ensures Div(b * r, SCALE) <= Div(b * e, SCALE)
  {
    MulMono(r, e, b);
    DivMono(b * r, b * e, SCALE);
  }

  lemma {:induction false} ExitsPayAtRate(p: Pool, exits: seq<Exit>, r: nat)
    requires Inv(p) && Orderly(p, exits) && (p.shares > 0 ==> ExchangeRate(p) >= r)
    ensures var (last, outs) := ExitAll(p, exits);
            Inv(last) && PaidAtRate(p, exits, outs, r) && Emptied(p, last, exits)
    decreases |exits|
  {
    if exits != [] {
      var x := exits[0];
      FirstExit(p, x, r);
      var (q, out) := UnstakeResult(p, x.who, Get(p.balances, x.who), x.height, x.effective, true);
      ExitsPayAtRate(q, exits[1..], r);
      var (last, outs) := ExitAll(q, exits[1..]);
      assert forall i :: 0 < i < |exits| ==> exits[i] == exits[1..][i - 1];
      PaidAtRateCons(p, q, exits, out, outs, r);
      EmptiedCons(p, q, last, exits);
    }
  }

  lemma PaidAtRateCons(p: Pool, q: Pool, exits: seq<Exit>, out: Outcome<U64>, outs: seq<Outcome<U64>>, r: nat)
    requires |exits| == |outs| + 1 && PaidAtRate(q, exits[1..], outs, r)
    requires out.Ok? && out.value >= Div(Get(p.balances, exits[0].who) * r, SCALE)
    requires forall i :: 0 < i < |exits| ==> exits[i].who != exits[0].who
    requires q.balances == Put(p.balances, exits[0].who, 0)
    ensures PaidAtRate(p, exits, [out] + outs, r)
  {
    forall i | 0 <= i < |exits|
      ensures ([out] + outs)[i].Ok? && ([out] + outs)[i].value >= Div(Get(p.balances, exits[i].who) * r, SCALE)
    {
      if i > 0 {
        assert exits[i] == exits[1..][i - 1];
        assert Get(p.balances, exits[i].who) == Get(q.balances, exits[i].who);
      }
    }
  }

  lemma EmptiedCons(p: Pool, q: Pool, last: Pool, exits: seq<Exit>)
    requires exits != [] && Emptied(q, last, exits[1..])
    requires forall i :: 0 < i < |exits| ==> exits[i].who != exits[0].who
    requires q.balances == Put(p.balances, exits[0].who, 0)
    ensures Emptied(p, last, exits)
  {
    var x := exits[0].who;
    assert forall i :: 0 <= i < |exits[1..]| ==> exits[1..][i] == exits[i + 1];
    assert Get(last.balances, x) == 0;
    forall i | 0 <= i < |exits| ensures Get(last.balances, exits[i].who) == 0 {
      if i > 0 { assert exits[1..][i - 1] == exits[i]; }
    }
    forall k | k in last.balances && (forall i :: 0 <= i < |exits| ==> exits[i].who != k)
      ensures last.balances[k] == Get(p.balances, k)
    {
      assert x != k;
      assert forall i :: 0 <= i < |exits[1..]| ==> exits[1..][i].who != k;
    }
  }

  /** Redeeming all shares at once leaves less than a unit and what the rate rounds off. */
  lemma LastExitLeaves(p: Pool)
    requires Inv(p) && p.shares > 0
    ensures Quote(p, p.shares) <= p.staked && (p.staked - Quote(p, p.shares)) * SCALE < p.shares + SCALE
  {
    RateExact(p);
    QuoteExact(p, p.shares);
    LeftBehind(p.staked, p.shares, SCALE, ExchangeRate(p), Quote(p, p.shares));
  }

  /** Without shares an exit changes no stake. */
  lemma {:induction false} EmptyExits(p: Pool, exits: seq<Exit>)
    requires Inv(p) && p.shares == 0
    ensures ExitAll(p, exits).0.staked == p.staked && ExitAll(p, exits).0.shares == 0
    decreases |exits|
  {
    if exits != [] {
      EmptyExit(p, exits[0]);
      EmptyExits(AfterExit(p, exits[0]), exits[1..]);
    }
  }

  function AfterExit(p: Pool, x: Exit): Pool
  {
    UnstakeResult(p, x.who, Get(p.balances, x.who), x.height, x.effective, true).0
  }

  lemma EmptyExit(p: Pool, x: Exit)
    requires Inv(p) && p.shares == 0
    ensures var q := AfterExit(p, x); Inv(q) && q.shares == 0 && q.staked == p.staked
  {
    SumMember(p.balances, x.who);
    QuoteExact(p, 0);
    UnstakeSound(p, x.who, Get(p.balances, x.who), x.height, x.effective, true);
  }

  /** Once the last shares are gone, the stake left is below a unit plus what the rate
      rounds off, wherever in the list that happened. */
  lemma {:induction false} ExitsLeaveLittle(p: Pool, exits: seq<Exit>)
    requires Inv(p) && p.shares > 0 && ExitAll(p, exits).0.shares == 0
    ensures ExitAll(p, exits).0.staked * SCALE < p.shares + SCALE
    decreases |exits|
  {
    var x := exits[0];
    var q := AfterExit(p, x);
    UnstakeSound(p, x.who, Get(p.balances, x.who), x.height, x.effective, true);
    if q.shares > 0 {
      ExitsLeaveLittle(q, exits[1..]);
    } else {
      EmptyExits(q, exits[1..]);
      LastExitLeaves(p);
    }
  }

  /** However the holders order their exits, every request succeeds and pays at least
      what the holder was quoted before the first exit; once all have left, no shares
      remain and at most 19 units of stake, if there were shares at all. */
  lemma ExitInAnyOrder(p: Pool, exits: seq<Exit>)
    requires Inv(p) && Orderly(p, exits)
    ensures var (last, outs) := ExitAll(p, exits);
            && (forall i :: 0 <= i < |exits| ==>
                  outs[i].Ok? && outs[i].value >= Quote(p, Get(p.balances, exits[i].who)))
            && ((forall k :: k in p.balances ==> exists i :: 0 <= i < |exits| && exits[i].who == k) ==>
                  && last.shares == 0
                  && (p.shares > 0 ==> last.staked * SCALE < p.shares + SCALE && last.staked <= 19))
  {
    var (last, outs) := ExitAll(p, exits);
    ExitsPayAtRate(p, exits, ExchangeRate(p));
    forall i | 0 <= i < |exits|
      ensures outs[i].Ok? && outs[i].value >= Quote(p, Get(p.balances, exits[i].who))
    {
      SumMember(p.balances, exits[i].who);
      QuoteExact(p, Get(p.balances, exits[i].who));
    }
    if forall k :: k in p.balances ==> exists i :: 0 <= i < |exits| && exits[i].who == k {
      forall k ensures Get(last.balances, k) == 0 {
        if k in last.balances && !(forall i :: 0 <= i < |exits| ==> exits[i].who != k) {
          var i :| 0 <= i < |exits| && exits[i].who == k;
        }
      }
      assert forall k :: k in last.balances ==> Get(last.balances, k) == 0;
      SumOfZeros(last.balances);
      if p.shares > 0 { ExitsLeaveLittle(p, exits); }
    }
  }

  // ---- Conservation ----------------------------------------------------------------

  function Total(ws: seq<Withdrawal>): nat
  {
    if ws == [] then 0 else ws[0].amount + Total(ws[1..])
  }

  lemma {:induction false} TotalConcat(a: seq<Withdrawal>, b: seq<Withdrawal>)
    ensures Total(a + b) == Total(a) + Total(b)
  {
    if a == [] {
      assert a + b == b;
    } else {
      TotalConcat(a[1..], b);
      assert (a + b)[1..] == a[1..] + b;
    }
  }

  /** Processing splits the queue: nothing is lost, doubled or paid early. */
  lemma Partition(ws: seq<Withdrawal>, height: nat)
    ensures multiset(ws) == multiset(Ready(ws, height)) + multiset(Waiting(ws, height))
    ensures Total(ws) == Total(Ready(ws, height)) + Total(Waiting(ws, height))
    ensures forall w :: w in Ready(ws, height) ==> w.completion <= height
    ensures forall w :: w in Waiting(ws, height) ==> height < w.completion
  {
    NothingLost(ws, height);
    NothingEarly(ws, height);
  }

  lemma {:induction false} NothingLost(ws: seq<Withdrawal>, height: nat)
    ensures multiset(ws) == multiset(Ready(ws, height)) + multiset(Waiting(ws, height))
    ensures Total(ws) == Total(Ready(ws, height)) + Total(Waiting(ws, height))
  {
    if ws != [] {
      NothingLost(ws[1..], height);
      assert ws == [ws[0]] + ws[1..];
    }
  }

  lemma {:induction false} NothingEarly(ws: seq<Withdrawal>, height: nat)
    ensures forall w :: w in Ready(ws, height) ==> w.completion <= height
    ensures forall w :: w in Waiting(ws, height) ==> height < w.completion
  {
    if ws != [] { NothingEarly(ws[1..], height); }
  }

  /** Stake held for someone: still in the pool, or queued for payment. */
  function Value(p: Pool): nat { p.staked + Total(p.pending) }

  function Succeeds(p: Pool, op: Op): bool
  {
    match op
    case Stake(who, a, lo, c) => StakeResult(p, who, a, lo, c).1.Ok?
    case Unstake(who, s, h, e, c) => UnstakeResult(p, who, s, h, e, c).1.Ok?
    case Process(_) => true
    case Rewards(a) => RewardsResult(p, a).1.Ok?
    case Transfer(from, to, s) => TransferResult(p, from, to, s).1.Ok?
  }

  function Inflow(p: Pool, op: Op): nat
  {
    if (op.Stake? || op.Rewards?) && Succeeds(p, op) then op.amount else 0
  }

  function Outflow(p: Pool, op: Op): nat
  {
    if op.Process? then Total(Ready(p.pending, op.height)) else 0
  }

  /** The three failures that come after value has moved: an unlock height beyond 64
      bits, and the two counters of deposits and of rewards at their limit. */
  predicate Leaks(p: Pool, op: Op)
  {
    match op
    case Stake(_, a, lo, c) => StakeBooked(p, a, lo, c) && p.stakeOps == U64_MAX
    case Unstake(who, s, h, e, c) =>
      Get(p.balances, who) >= s && c && h + e + 1 > U64_MAX && Quote(p, s) > 0
    case Rewards(a) => p.staked + a <= U64_MAX < p.rewards + a
    case _ => false
  }

  /** A step balances deposits, rewards, payments and holdings exactly when it does not
      fail in one of those three places. */
  lemma StepConserves(p: Pool, op: Op)
    requires Inv(p)
    ensures Value(Step(p, op)) + Outflow(p, op) == Value(p) + Inflow(p, op) <==> !Leaks(p, op)
    ensures Succeeds(p, op) ==> !Leaks(p, op)
  {
    match op
    case Stake(who, a, lo, c) =>
      StakeSound(p, who, a, lo, c);
      if StakeBooked(p, a, lo, c) { BookedIsPositive(p, a); }
    case Unstake(who, s, h, e, c) =>
      UnstakeSound(p, who, s, h, e, c);
      if Get(p.balances, who) >= s && c && h + e + 1 <= U64_MAX {
        TotalConcat(p.pending, [Withdrawal(who, Quote(p, s), h + e + 1)]);
      }
    case Process(h) => Partition(p.pending, h);
    case Rewards(a) =>
    case Transfer(from, to, s) => TransferSound(p, from, to, s);
  }

  lemma BookedIsPositive(p: Pool, amount: nat)
    requires ExchangeRate(p) > 0 && Div(amount * SCALE, ExchangeRate(p)) > 0
    ensures amount > 0
  {
  }

  function TotalIn(p: Pool, ops: seq<Op>): nat
    decreases |ops|
  {
    if ops == [] then 0 else Inflow(p, ops[0]) + TotalIn(Step(p, ops[0]), ops[1..])
  }

  function TotalOut(p: Pool, ops: seq<Op>): nat
    decreases |ops|
  {
    if ops == [] then 0 else Outflow(p, ops[0]) + TotalOut(Step(p, ops[0]), ops[1..])
  }

  predicate NeverLeaks(p: Pool, ops: seq<Op>)
    decreases |ops|
  {
    ops == [] || (!Leaks(p, ops[0]) && NeverLeaks(Step(p, ops[0]), ops[1..]))
  }

  /** Staked plus queued plus paid equals deposits plus rewards, over any run that never
      fails in one of the three places; failures anywhere else are allowed. */
  lemma {:induction false} RunConserves(p: Pool, ops: seq<Op>)
    requires Inv(p) && NeverLeaks(p, ops)
    ensures Value(Run(p, ops)) + TotalOut(p, ops) == Value(p) + TotalIn(p, ops)
    decreases |ops|
  {
    if ops != [] {
      StepConserves(p, ops[0]);
      StepSound(p, ops[0]);
      RunConserves(Step(p, ops[0]), ops[1..]);
    }
  }

  /** The leak is real: the unstake fails, the shares are gone and nothing is queued. */
  lemma UnlockOverflowLosesStake()
    ensures var p := Pool(1000, 1000, map["a" := 1000], [], 0, 1, 0);
            var (q, out) := UnstakeResult(p, "a", 1000, U64_MAX, 0, true);
            Inv(p) && out.Err? && q.staked == 0 && q.shares == 0 && q.pending == []
  {
    var p := Pool(1000, 1000, map["a" := 1000], [], 0, 1, 0);
    SumUpdate(map[], "a", 1000);
    UnstakeSound(p, "a", 1000, U64_MAX, 0, true);
    RateExact(p);
    QuoteExact(p, 1000);
    DivUnique(1000 * SCALE, 1000, SCALE);
    DivUnique(1000 * SCALE, SCALE, 1000);
  }

  // ---- Payments --------------------------------------------------------------------

  datatype Payment = Payment(w: Withdrawal, at: U64)

  function Stamp(ws: seq<Withdrawal>, at: U64): seq<Payment>
  {
    seq(|ws|, i requires 0 <= i < |ws| => Payment(ws[i], at))
  }

  function Withdrawals(ps: seq<Payment>): (ws: seq<Withdrawal>)
  {
    seq(|ps|, i requires 0 <= i < |ps| => ps[i].w)
  }

  function PaymentsOf(p: Pool, op: Op): seq<Payment>
  {
    if op.Process? then Stamp(Ready(p.pending, op.height), op.height) else []
  }

  /** All payments a run makes, in order. */
  function Payments(p: Pool, ops: seq<Op>): seq<Payment>
    decreases |ops|
  {
    if ops == [] then [] else PaymentsOf(p, ops[0]) + Payments(Step(p, ops[0]), ops[1..])
  }

  ghost function QueuedBy(p: Pool, op: Op): multiset<Withdrawal>
  {
    if op.Unstake? then multiset(Step(p, op).pending) - multiset(p.pending) else multiset{}
  }

  /** All withdrawals a run puts in the queue. */
  ghost function Queued(p: Pool, ops: seq<Op>): multiset<Withdrawal>
    decreases |ops|
  {
    if ops == [] then multiset{} else QueuedBy(p, ops[0]) + Queued(Step(p, ops[0]), ops[1..])
  }

  lemma StepPays(p: Pool, op: Op)
    requires Inv(p)
    ensures multiset(p.pending) + QueuedBy(p, op) ==
            multiset(Step(p, op).pending) + multiset(Withdrawals(PaymentsOf(p, op)))
    ensures forall pay :: pay in PaymentsOf(p, op) ==> pay.w.completion <= pay.at
  {
    if op.Process? {
      Partition(p.pending, op.height);
      assert Withdrawals(PaymentsOf(p, op)) == Ready(p.pending, op.height);
    } else {
      QueueOnlyGrows(p, op);
    }
  }

  /** Each withdrawal is paid exactly once, out of those queued and no longer pending,
      and never before its completion height. */
  lemma {:induction false} PaidExactlyOnce(p: Pool, ops: seq<Op>)
    requires Inv(p)
    ensures multiset(p.pending) + Queued(p, ops) ==
            multiset(Run(p, ops).pending) + multiset(Withdrawals(Payments(p, ops)))
    ensures forall pay :: pay in Payments(p, ops) ==> pay.w.completion <= pay.at
    decreases |ops|
  {
    if ops != [] {
      var q := Step(p, ops[0]);
      StepSound(p, ops[0]);
      StepPays(p, ops[0]);
      PaidExactlyOnce(q, ops[1..]);
      WithdrawalsConcat(PaymentsOf(p, ops[0]), Payments(q, ops[1..]));
      BooksChain(
        multiset(p.pending), QueuedBy(p, ops[0]), multiset(q.pending), Withdrawals(PaymentsOf(p, ops[0])),
        Queued(q, ops[1..]), multiset(Run(q, ops[1..]).pending), Withdrawals(Payments(q, ops[1..])));
    }
  }

  /** Two balanced books in a row are balanced. */
  lemma BooksChain(
      start: multiset<Withdrawal>, in1: multiset<Withdrawal>, mid: multiset<Withdrawal>, out1: seq<Withdrawal>,
      in2: multiset<Withdrawal>, end: multiset<Withdrawal>, out2: seq<Withdrawal>)
    requires start + in1 == mid + multiset(out1) && mid + in2 == end + multiset(out2)
    ensures start + (in1 + in2) == end + multiset(out1 + out2)
  {
    forall w ensures (start + (in1 + in2))[w] == (end + multiset(out1 + out2))[w] {
      assert (start + in1)[w] == (mid + multiset(out1))[w];
      assert (mid + in2)[w] == (end + multiset(out2))[w];
    }
  }

  lemma WithdrawalsConcat(a: seq<Payment>, b: seq<Payment>)
    ensures Withdrawals(a + b) == Withdrawals(a) + Withdrawals(b)
  {
  }

  lemma QueueOnlyGrows(p: Pool, op: Op)
    requires Inv(p) && !op.Process?
    ensures multiset(p.pending) <= multiset(Step(p, op).pending)
    ensures !op.Unstake? ==> Step(p, op).pending == p.pending
  {
    match op
    case Stake(who, a, lo, c) => StakeSound(p, who, a, lo, c);
    case Unstake(who, s, h, e, c) => UnstakeSound(p, who, s, h, e, c);
    case Rewards(a) =>
    case Transfer(from, to, s) => TransferSound(p, from, to, s);
  }
}
