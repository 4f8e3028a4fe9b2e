/** Integer arithmetic behind the pool.  Throughout, `S` is the stake, `T` the shares,
    `E` the fixed-point scale and `r` the floored rate `S * E / T`. */
module LiquidStakingMath {
  import opened MachineInts

  /** A pool whose stake covers its shares has a rate of at least one. */
  lemma RateAtLeastScale(S: nat, T: nat, E: nat)
    requires S >= T > 0
    ensures Div(S * E, T) >= E
  {
    MulMono(T, S, E);
    DivAtLeast(S * E, T, E);
  }

  /** Minting against the floored rate leaves the floored rate no lower. */
  lemma StakeKeepsRate(S: nat, T: nat, a: nat, E: nat, r: nat, m: nat)
    requires T > 0 && r > 0 && r == Div(S * E, T) && m == Div(a * E, r)
    ensures r <= Div((S + a) * E, T + m)
  {
    CoverAdds(S, T, a, E, r, m);
    DivAtLeast((S + a) * E, T + m, r);
  }

  lemma CoverAdds(S: nat, T: nat, a: nat, E: nat, r: nat, m: nat)
    requires r * T <= S * E && m * r <= a * E
    ensures r * (T + m) <= (S + a) * E
  {
    MulAdd(T, m, r);
    MulAdd(S, a, E);
  }

  lemma MintAtMost(a: nat, E: nat, r: nat)
    requires r >= E > 0
    ensures Div(a * E, r) <= a
  {
    MulMono(E, r, a);
    DivAtMost(a * E, r, a);
  }

  /** A payout never exceeds the stake, and what stays behind still carries the rate. */
  lemma UnstakeKeepsRate(S: nat, T: nat, s: nat, E: nat, r: nat, x: nat)
    requires T >= s && E > 0 && r * T <= S * E && x * E <= s * r
    ensures s * r <= S * E && x <= S
    ensures r * (T - s) <= (S - x) * E
  {
    MulMono(s, T, r);
    MulCancel(x, S, E);
    MulSub(T, s, r);
    MulSub(S, x, E);
  }

  lemma UnstakeKeepsCover(S: nat, T: nat, s: nat, E: nat, r: nat, x: nat)
    requires T >= s && E > 0 && x <= S && r >= E && r * (T - s) <= (S - x) * E
    ensures T - s <= S - x
  {
    MulMono(E, r, T - s);
    MulCancel(T - s, S - x, E);
  }

  /** Rounding in the staker's favour when minting is always paid back when redeeming:
      the floor taken at redemption absorbs it.  `e` and `f` are what the two floors
      dropped, and `g` is the rise of the rate. */
  lemma RateRise(S: nat, T: nat, a: nat, E: nat, r: nat, m: nat, r': nat, e: nat, f: nat)
    requires S * E == r * T + e && a * E == m * r + f
    requires r <= r' && r' * (T + m) <= (S + a) * E
    ensures (r' - r) * T + (r' - r) * m <= e + f
  {
    MulAdd(S, a, E);
    MulAdd(T, m, r);
    MulSub(r', r, T + m);
    MulAdd(T, m, r' - r);
  }

  lemma Absorb(g: nat, T: nat, m: nat, e: nat, f: nat)
    requires g * T + g * m <= e + f && e < T
    ensures g * m <= f
  {
    if g > 0 { MulMono(1, g, T); }
  }

  lemma RoundTripBound(S: nat, T: nat, a: nat, E: nat, r: nat, m: nat, r': nat)
    requires r * T <= S * E < r * T + T && m * r <= a * E
    requires r <= r' && r' * (T + m) <= (S + a) * E
    ensures m * r' <= a * E
  {
    var e, f := S * E - r * T, a * E - m * r;
    RateRise(S, T, a, E, r, m, r', e, f);
    Absorb(r' - r, T, m, e, f);
    MulSub(r', r, m);
  }

  /** Staking into a pool that has stake but no shares: the newcomer owns the remainder. */
  lemma RateFromEmpty(S: nat, a: nat, E: nat)
    requires a > 0
    ensures Div((S + a) * E, a) == E + Div(S * E, a)
  {
    MulAdd(S, a, E);
    DivShift(S * E, a, E, (S + a) * E);
  }

  lemma PayoutFromEmpty(a: nat, q: nat, E: nat)
    requires E > 0
    ensures Div(a * (E + q), E) == a + Div(a * q, E)
  {
    MulAdd(E, q, a);
    DivShift(a * q, E, a, a * (E + q));
  }

  lemma DivShift(x: nat, d: nat, k: nat, y: nat)
    requires d > 0 && y == x + k * d
    ensures Div(y, d) == Div(x, d) + k
  {
    MulAdd(Div(x, d), k, d);
    DivUnique(y, d, Div(x, d) + k);
  }

  /** What two roundings in a row leave behind when everything is paid out. */
  lemma LeftBehind(S: nat, T: nat, E: nat, r: nat, x: nat)
    requires S * E < r * T + T && r * T < x * E + E && x <= S
    ensures (S - x) * E < T + E
  {
    MulSub(S, x, E);
  }
}
