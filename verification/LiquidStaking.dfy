/** The liquid staking pool: stIONA shares priced by a floored fixed-point rate, with a
    queue of pending withdrawals.

    The pool's coherence only gates operations, so each operation takes the outcome of
    that gate as `coherent`.  The unbonding time after tunnelling is a truncated float
    and enters as an arbitrary `effective` number of blocks. */
module LiquidStaking {
  import opened MachineInts

  const SCALE: nat := 1_000_000_000_000_000_000
  const TWO64: nat := U64_MAX + 1

  datatype Withdrawal = Withdrawal(staker: string, amount: U64, completion: U64)

  datatype Error = AmountTooSmall | ZeroShares | InsufficientShares | Decoherence | IntegerOverflow

  datatype Outcome<+T> = Ok(value: T) | Err(error: Error)

  datatype Pool = Pool(
    staked: U64,
    shares: U128,
    balances: map<string, U128>,
    pending: seq<Withdrawal>,
    rewards: U64,
    stakeOps: U64,
    unstakeOps: U64)

  const EMPTY_POOL := Pool(0, 0, map[], [], 0, 0, 0)

  function ExchangeRate(p: Pool): U128
  {
    if p.shares == 0 || p.staked == 0 then SCALE
    else Div(SatMul128(p.staked, SCALE), p.shares)
  }

  /** `shares_to_iona`: the product saturates at 128 bits and the cast keeps 64 bits. */
  function Quote(p: Pool, shares: nat): U64
  {
    Div(SatMul128(shares, ExchangeRate(p)), SCALE) % TWO64
  }

  /** Shares minted for a stake: `amount * SCALE / rate` in checked 128-bit arithmetic. */
  function SharesFor(p: Pool, amount: nat): Outcome<U128>
  {
    var rate := ExchangeRate(p);
    if amount * SCALE > U128_MAX || rate == 0 then Err(IntegerOverflow)
    else if Div(amount * SCALE, rate) == 0 then Err(ZeroShares)
    else Ok(Div(amount * SCALE, rate))
  }

  /** The writes of `stake`, in source order.  Several failures come after the first
      field has already been written, and the model keeps those partial writes. */
  function DepositResult(p: Pool, who: string, amount: U64, minted: U128): (Pool, Outcome<U128>)
  {
    var bal := Get(p.balances, who);
    if p.staked + amount > U64_MAX then (p, Err(IntegerOverflow))
    else
      var p1 := p.(staked := p.staked + amount);
      if p.shares + minted > U128_MAX then (p1, Err(IntegerOverflow))
      else
        var p2 := p1.(shares := p.shares + minted);
        if bal + minted > U128_MAX then
          (p2.(balances := p.balances[who := bal]), Err(IntegerOverflow))
        else
          var p3 := p2.(balances := p.balances[who := bal + minted]);
          if p.stakeOps == U64_MAX then (p3, Err(IntegerOverflow))
          else (p3.(stakeOps := p.stakeOps + 1), Ok(minted))
  }

  function StakeResult(p: Pool, who: string, amount: U64, minStake: U64, coherent: bool)
    : (Pool, Outcome<U128>)
  {
    if amount < minStake then (p, Err(AmountTooSmall))
    else if !coherent then (p, Err(Decoherence))
    else
      match SharesFor(p, amount)
      case Err(e) => (p, Err(e))
      case Ok(minted) => DepositResult(p, who, amount, minted)
  }

  function UnstakeResult(p: Pool, who: string, shares: U128, height: U64, effective: U64, coherent: bool)
    : (Pool, Outcome<U64>)
  {
    var bal := Get(p.balances, who);
    if bal < shares then (p, Err(InsufficientShares))
    else if !coherent then (p, Err(Decoherence))
    else
      var amount := Quote(p, shares);
      var p1 := p.(balances := p.balances[who := bal - shares]);
      if p.shares < shares then (p1, Err(IntegerOverflow))
      else
        var p2 := p1.(shares := p.shares - shares);
        if p.staked < amount then (p2, Err(IntegerOverflow))
        else
          var p3 := p2.(staked := p.staked - amount);
          if height + effective + 1 > U64_MAX then (p3, Err(IntegerOverflow))
          else
            var p4 := p3.(pending := p.pending + [Withdrawal(who, amount, height + effective + 1)]);
            if p.unstakeOps == U64_MAX then (p4, Err(IntegerOverflow))
            else (p4.(unstakeOps := p.unstakeOps + 1), Ok(amount))
  }

  function Ready(ws: seq<Withdrawal>, height: nat): (r: seq<Withdrawal>)
  {
    if ws == [] then []
    else if height >= ws[0].completion then [ws[0]] + Ready(ws[1..], height)
    else Ready(ws[1..], height)
  }

  function Waiting(ws: seq<Withdrawal>, height: nat): (r: seq<Withdrawal>)
  {
    if ws == [] then []
    else if height >= ws[0].completion then Waiting(ws[1..], height)
    else [ws[0]] + Waiting(ws[1..], height)
  }

  function RewardsResult(p: Pool, reward: U64): (Pool, Outcome<()>)
  {
    if p.staked + reward > U64_MAX then (p, Err(IntegerOverflow))
    else
      var p1 := p.(staked := p.staked + reward);
      if p.rewards + reward > U64_MAX then (p1, Err(IntegerOverflow))
      else (p1.(rewards := p.rewards + reward), Ok(()))
  }

  function TransferResult(p: Pool, from: string, to: string, shares: U128): (Pool, Outcome<()>)
  {
    var fromBal := Get(p.balances, from);
    var toBal := Get(p.balances, to);
    if from == to then (p, Ok(()))
    else if fromBal < shares then (p, Err(InsufficientShares))
    else if toBal + shares > U128_MAX then
      (p.(balances := p.balances[from := fromBal - shares][to := toBal]), Err(IntegerOverflow))
    else
      (p.(balances := p.balances[from := fromBal - shares][to := toBal + shares]), Ok(()))
  }

  lemma {:induction false} ReadySnoc(ws: seq<Withdrawal>, w: Withdrawal, height: nat)
    ensures Ready(ws + [w], height) == Ready(ws, height) + Ready([w], height)
  {
    if ws == [] {
      assert ws + [w] == [w];
    } else {
      ReadySnoc(ws[1..], w, height);
      assert (ws + [w])[1..] == ws[1..] + [w];
    }
  }

  lemma {:induction false} WaitingSnoc(ws: seq<Withdrawal>, w: Withdrawal, height: nat)
    ensures Waiting(ws + [w], height) == Waiting(ws, height) + Waiting([w], height)
  {
    if ws == [] {
      assert ws + [w] == [w];
    } else {
      WaitingSnoc(ws[1..], w, height);
      assert (ws + [w])[1..] == ws[1..] + [w];
    }
  }

  /** The pool object; every method is tied to the result functions above. */
  class LstPool {
    var totalStaked: U64
    var totalShares: U128
    var balances: map<string, U128>
    var pendingWithdrawals: seq<Withdrawal>
    var totalRewards: U64
    var stakeOps: U64
    var unstakeOps: U64

    function View(): Pool
      reads this
    {
      Pool(totalStaked, totalShares, balances, pendingWithdrawals, totalRewards, stakeOps, unstakeOps)
    }

    constructor ()
      ensures View() == EMPTY_POOL
    {
      totalStaked, totalShares, balances, pendingWithdrawals := 0, 0, map[], [];
      totalRewards, stakeOps, unstakeOps := 0, 0, 0;
    }

    method Stake(staker: string, amount: U64, minStake: U64, coherent: bool) returns (r: Outcome<U128>)
      modifies this
      ensures (View(), r) == StakeResult(old(View()), staker, amount, minStake, coherent)
    {
      if amount < minStake { return Err(AmountTooSmall); }
      if !coherent { return Err(Decoherence); }
      var offer := SharesFor(View(), amount);
      if offer.Err? { return offer; }
      r := Deposit(staker, amount, offer.value);
    }

    method Deposit(staker: string, amount: U64, minted: U128) returns (r: Outcome<U128>)
      modifies this
      ensures (View(), r) == DepositResult(old(View()), staker, amount, minted)
    {
      if totalStaked + amount > U64_MAX { return Err(IntegerOverflow); }
      totalStaked := totalStaked + amount;
      if totalShares + minted > U128_MAX { return Err(IntegerOverflow); }
      totalShares := totalShares + minted;
      if staker !in balances { balances := balances[staker := 0]; }
      if balances[staker] + minted > U128_MAX {
        assert balances == old(balances)[staker := Get(old(balances), staker)];
        return Err(IntegerOverflow);
      }
      balances := balances[staker := balances[staker] + minted];
      assert balances == old(balances)[staker := Get(old(balances), staker) + minted];
      if stakeOps == U64_MAX { return Err(IntegerOverflow); }
      stakeOps := stakeOps + 1;
      return Ok(minted);
    }

    method RequestUnstake(staker: string, shares: U128, height: U64, effective: U64, coherent: bool)
      returns (r: Outcome<U64>)
      modifies this
      ensures (View(), r) == UnstakeResult(old(View()), staker, shares, height, effective, coherent)
    {
      var balance := Get(balances, staker);
      if balance < shares { return Err(InsufficientShares); }
      if !coherent { return Err(Decoherence); }
      var amount := Quote(View(), shares);
      balances := balances[staker := balance - shares];
      if totalShares < shares { return Err(IntegerOverflow); }
      totalShares := totalShares - shares;
      if totalStaked < amount { return Err(IntegerOverflow); }
      totalStaked := totalStaked - amount;
      if height + effective + 1 > U64_MAX { return Err(IntegerOverflow); }
      pendingWithdrawals := pendingWithdrawals + [Withdrawal(staker, amount, height + effective + 1)];
      if unstakeOps == U64_MAX { return Err(IntegerOverflow); }
      unstakeOps := unstakeOps + 1;
      return Ok(amount);
    }

    method ProcessWithdrawals(height: U64) returns (paid: seq<Withdrawal>)
      modifies this
      ensures paid == Ready(old(pendingWithdrawals), height)
      ensures View() == old(View()).(pending := Waiting(old(pendingWithdrawals), height))
    {
      var queue := pendingWithdrawals;
      var waiting := [];
      paid := [];
      for i := 0 to |queue|
        invariant View() == old(View())
        invariant paid == Ready(queue[..i], height)
        invariant waiting == Waiting(queue[..i], height)
      {
        ReadySnoc(queue[..i], queue[i], height);
        WaitingSnoc(queue[..i], queue[i], height);
        assert queue[..i + 1] == queue[..i] + [queue[i]];
        if height >= queue[i].completion {
          paid := paid + [queue[i]];
        } else {
          waiting := waiting + [queue[i]];
        }
      }
      assert queue[..|queue|] == queue;
      pendingWithdrawals := waiting;
    }

    method AddRewards(reward: U64) returns (r: Outcome<()>)
      modifies this
      ensures (View(), r) == RewardsResult(old(View()), reward)
    {
      if totalStaked + reward > U64_MAX { return Err(IntegerOverflow); }
      totalStaked := totalStaked + reward;
      if totalRewards + reward > U64_MAX { return Err(IntegerOverflow); }
      totalRewards := totalRewards + reward;
      return Ok(());
    }

    method Transfer(from: string, to: string, shares: U128) returns (r: Outcome<()>)
      modifies this
      ensures (View(), r) == TransferResult(old(View()), from, to, shares)
    {
      if from == to { return Ok(()); }
      var fromBal := Get(balances, from);
      if fromBal < shares { return Err(InsufficientShares); }
      balances := balances[from := fromBal - shares];
      if to !in balances { balances := balances[to := 0]; }
      if balances[to] + shares > U128_MAX {
        assert balances == balances[to := balances[to]];
        return Err(IntegerOverflow);
      }
      balances := balances[to := balances[to] + shares];
      assert balances == old(balances)[from := fromBal - shares][to := Get(old(balances), to) + shares];
      return Ok(());
    }
  }
}
