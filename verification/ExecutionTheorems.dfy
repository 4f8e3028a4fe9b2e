/** Supply, nonces and fees over arbitrary sequences of transactions. */
module ExecutionTheorems {
  import opened MachineInts
  import opened MapSums
  import opened Text
  import opened ChainState
  import opened Execution

  // ---- Fees ------------------------------------------------------------------------

  /** Whenever the next base fee is computed at all it is at least one, it moves strictly
      towards demand unless already at one, and a block of at most twice the target
      raises it by no more than a quarter (or by one). */
  lemma BaseFeeBounds(prev: U64, used: U64, target: U64)
    requires NextBaseFee(prev, used, target).Some?
    ensures var next := NextBaseFee(prev, used, target).value;
            var base := Max(prev, 1);
            && next >= 1
            && (target == 0 ==> next == base)
            && (0 < target < used ==> next > base)
            && (0 < target && used <= target ==> next < base || next == base == 1)
            && (0 < target < used <= 2 * target ==> next <= base + Max(base / ELASTICITY_DENOM, 1))
            && (0 < target && used <= target ==> next >= base - Max(base / ELASTICITY_DENOM, 1))
  {
    var base := Max(prev, 1);
    if 0 < target < used <= 2 * target {
      QuarterStep(base, used - target, target);
    } else if 0 < target && used <= target {
      QuarterStep(base, target - used, target);
    }
  }

  lemma QuarterStep(base: nat, d: nat, target: nat)
    requires d <= target && target > 0
    ensures Div(Div(base * d, target), ELASTICITY_DENOM) <= base / ELASTICITY_DENOM
  {
    MulMono(d, target, base);
    DivAtMost(base * d, target, base);
    DivMono(Div(base * d, target), base, ELASTICITY_DENOM);
    DivIsFloor(base, ELASTICITY_DENOM);
  }

  lemma IntrinsicAtLeastBase(payload: string)
    ensures IntrinsicGas(payload).Some? ==> IntrinsicGas(payload).value >= INTRINSIC_GAS_BASE
  {
  }

  /** Fee amounts that do not reach the saturation value are exact. */
  lemma FeesExact(tx: Tx, baseFee: U64, gas: U64)
    requires FeesOf(tx, baseFee, gas).total < U64_MAX
    ensures var f := FeesOf(tx, baseFee, gas);
            && f.total == f.burned + f.tip && f.burned == baseFee * gas
            && f.tip == Min(tx.maxPriorityFeePerGas, SatSub(tx.maxFeePerGas, baseFee)) * gas
  {
  }

  // ---- Supply ----------------------------------------------------------------------

  ghost function Supply(s: KvState): nat { Sum(s.balances) + s.burned }

  predicate Charged(env: Env, s: KvState, tx: Tx, baseFee: U64) { Precheck(env, s, tx, baseFee).Charge? }

  /** A transaction refused before the charge leaves the state as it was. */
  lemma RejectionChangesNothing(env: Env, s: KvState, tx: Tx, baseFee: U64, proposer: string)
    requires ApplyTx(env, s, tx, baseFee, proposer).Applied?
    ensures var r := ApplyTx(env, s, tx, baseFee, proposer);
            && (!Charged(env, s, tx, baseFee) ==> r.state == s && !r.receipt.success && r.receipt.error.Some?)
            && (Charged(env, s, tx, baseFee) ==> Get(s.nonces, tx.from) == tx.nonce < U64_MAX)
  {
  }

  /** The payload touches neither balances, nonces nor the burned total. */
  lemma PayloadFrame(env: Env, s: KvState, tx: Tx, r: Receipt)
    requires RunPayload(env, s, tx, r).Applied?
    ensures var t := RunPayload(env, s, tx, r).state;
            && t.balances == s.balances && t.nonces == s.nonces && t.burned == s.burned
            && (t.kv == s.kv || t.vm == s.vm)
    ensures var q := RunPayload(env, s, tx, r).receipt;
            q.burned == r.burned && q.tip == r.tip && q.gasUsed >= r.gasUsed
  {
  }

  /** With the supply below the saturation value, charging moves the fee exactly,
      also when the sender is the proposer. */
  lemma ChargeConserves(s: KvState, from: string, proposer: string, fees: Fees)
    requires Get(s.balances, from) >= fees.total && Get(s.nonces, from) < U64_MAX
    requires fees.total == SatAdd64(fees.burned, fees.tip) && Supply(s) < U64_MAX
    ensures var t := ChargeFees(s, from, proposer, fees);
            && Supply(t) == Supply(s)
            && t.burned == s.burned + fees.burned
            && Get(t.balances, from) == Get(s.balances, from) - fees.total + (if from == proposer then fees.tip else 0)
            && (from != proposer ==> Get(t.balances, proposer) == Get(s.balances, proposer) + fees.tip)
            && (forall a :: a != from && a != proposer ==> Get(t.balances, a) == Get(s.balances, a))
  {
    var debited := s.balances[from := Get(s.balances, from) - fees.total];
    DebitAndCredit(s.balances, from, fees.total, proposer, Get(debited, proposer) + fees.tip);
  }

  /** Taking `total` from one account and setting another. */
  lemma DebitAndCredit(m: map<string, nat>, from: string, total: nat, to: string, credited: nat)
    requires total <= Get(m, from)
    ensures var debited := Put(m, from, Get(m, from) - total);
            && Sum(Put(debited, to, credited)) + total + Get(debited, to) == Sum(m) + credited
            && Get(debited, to) + total <= Sum(m)
  {
    var debited := Put(m, from, Get(m, from) - total);
    SumMember(m, from);
    SumUpdate(m, from, Get(m, from) - total);
    SumMember(debited, to);
    SumUpdate(debited, to, credited);
  }

  /** How much the burned total can still grow. */
  function BurnRoom(s: KvState): nat { U64_MAX - s.burned }

  /** How much the proposer's balance can still grow once the sender is debited. */
  function TipRoom(s: KvState, from: string, proposer: string, total: nat): nat
    requires total <= Get(s.balances, from)
  {
    U64_MAX - (if from == proposer then Get(s.balances, from) - total else Get(s.balances, proposer))
  }

  /** The fee reaches its two destinations undiminished: nothing saturates, or what the
      destinations cut off is exactly what the debit saved by saturating itself. */
  predicate FeesFit(s: KvState, from: string, proposer: string, fees: Fees)
    requires fees.total <= Get(s.balances, from)
  {
    if fees.burned + fees.tip <= U64_MAX then
      fees.burned <= BurnRoom(s) && fees.tip <= TipRoom(s, from, proposer, fees.total)
    else
      Min(fees.burned, BurnRoom(s)) + Min(fees.tip, TipRoom(s, from, proposer, fees.total)) == U64_MAX
  }

  /** What a charge does to the supply, for every state. */
  lemma ChargeMoves(s: KvState, from: string, proposer: string, fees: Fees)
    requires Get(s.balances, from) >= fees.total && Get(s.nonces, from) < U64_MAX
    ensures Supply(ChargeFees(s, from, proposer, fees)) + fees.total
         == Supply(s) + Min(fees.burned, BurnRoom(s)) + Min(fees.tip, TipRoom(s, from, proposer, fees.total))
  {
    var debited := s.balances[from := Get(s.balances, from) - fees.total];
    DebitAndCredit(s.balances, from, fees.total, proposer, SatAdd64(Get(debited, proposer), fees.tip));
  }

  /** Whatever the supply, a transaction keeps it if and only if it is not charged or its
      fee fits; a fee that is representable but does not fit loses value. */
  lemma ConservesIff(env: Env, s: KvState, tx: Tx, baseFee: U64, proposer: string)
    requires ApplyTx(env, s, tx, baseFee, proposer).Applied?
    ensures var t := ApplyTx(env, s, tx, baseFee, proposer).state;
            var check := Precheck(env, s, tx, baseFee);
            && (Supply(t) == Supply(s) <==> !check.Charge? || FeesFit(s, tx.from, proposer, check.fees))
            && (Supply(t) != Supply(s) && check.fees.burned + check.fees.tip <= U64_MAX ==> Supply(t) < Supply(s))
  {
    match Precheck(env, s, tx, baseFee)
    case Charge(fees) =>
      ChargeMoves(s, tx.from, proposer, fees);
      PayloadFrame(env, ChargeFees(s, tx.from, proposer, fees), tx, WithFees(EmptyReceipt(env, tx), fees));
    case _ =>
  }

  /** Up to a supply of 2^64-1 a fee fits if and only if its two parts add up without
      saturating; if they do not, the destinations have room for both. */
  lemma BoundedFeesFit(s: KvState, from: string, proposer: string, fees: Fees)
    requires Get(s.balances, from) >= fees.total && fees.total == SatAdd64(fees.burned, fees.tip)
    requires Supply(s) <= U64_MAX
    ensures FeesFit(s, from, proposer, fees) <==> fees.burned + fees.tip <= U64_MAX
    ensures fees.burned <= BurnRoom(s) && fees.tip <= TipRoom(s, from, proposer, fees.total)
  {
    SumMember(s.balances, from);
    if from != proposer { SumTwoMembers(s.balances, from, proposer); }
  }

  /** The saturating sum of the fee is the only threat to a supply of at most 2^64-1. */
  predicate FeeAddsUp(env: Env, s: KvState, tx: Tx, baseFee: U64)
  {
    var check := Precheck(env, s, tx, baseFee);
    check.Charge? ==> check.fees.burned + check.fees.tip <= U64_MAX
  }

  lemma BoundedConservesIff(env: Env, s: KvState, tx: Tx, baseFee: U64, proposer: string)
    requires Supply(s) <= U64_MAX && ApplyTx(env, s, tx, baseFee, proposer).Applied?
    ensures Supply(ApplyTx(env, s, tx, baseFee, proposer).state) == Supply(s) <==> FeeAddsUp(env, s, tx, baseFee)
  {
    ConservesIff(env, s, tx, baseFee, proposer);
    match Precheck(env, s, tx, baseFee)
    case Charge(fees) => BoundedFeesFit(s, tx.from, proposer, fees);
    case _ =>
  }

  /** When the fee does not add up, exactly the excess is created. */
  lemma ExcessIsCreated(env: Env, s: KvState, tx: Tx, baseFee: U64, proposer: string)
    requires Supply(s) <= U64_MAX && ApplyTx(env, s, tx, baseFee, proposer).Applied?
    requires !FeeAddsUp(env, s, tx, baseFee)
    ensures var fees := Precheck(env, s, tx, baseFee).fees;
            Supply(ApplyTx(env, s, tx, baseFee, proposer).state) == Supply(s) + fees.burned + fees.tip - U64_MAX
  {
    var fees := Precheck(env, s, tx, baseFee).fees;
    BoundedFeesFit(s, tx.from, proposer, fees);
    ChargeMoves(s, tx.from, proposer, fees);
    PayloadFrame(env, ChargeFees(s, tx.from, proposer, fees), tx, WithFees(EmptyReceipt(env, tx), fees));
  }

  /** One transaction preserves a supply below 2^64-1, whatever its outcome. */
  lemma ApplyConserves(env: Env, s: KvState, tx: Tx, baseFee: U64, proposer: string)
    requires Supply(s) < U64_MAX && ApplyTx(env, s, tx, baseFee, proposer).Applied?
    ensures Supply(ApplyTx(env, s, tx, baseFee, proposer).state) == Supply(s)
  {
    SumMember(s.balances, tx.from);
    BoundedConservesIff(env, s, tx, baseFee, proposer);
  }

  /** The receipt of a charged transaction tells exactly what was burned, what the
      proposer got and what the sender paid. */
  lemma ReceiptTellsTheMoney(env: Env, s: KvState, tx: Tx, baseFee: U64, proposer: string)
    requires Supply(s) < U64_MAX && ApplyTx(env, s, tx, baseFee, proposer).Applied?
    requires Charged(env, s, tx, baseFee)
    ensures var r := ApplyTx(env, s, tx, baseFee, proposer).receipt;
            var t := ApplyTx(env, s, tx, baseFee, proposer).state;
            var gas := IntrinsicGas(tx.payload).value;
            && r.burned == baseFee * gas
            && r.tip == Min(tx.maxPriorityFeePerGas, SatSub(tx.maxFeePerGas, baseFee)) * gas
            && r.gasUsed >= gas
            && t.burned == s.burned + r.burned
            && (tx.from == proposer ==> Get(t.balances, tx.from) == Get(s.balances, tx.from) - r.burned)
            && (tx.from != proposer ==>
                  && Get(t.balances, tx.from) == Get(s.balances, tx.from) - r.burned - r.tip
                  && Get(t.balances, proposer) == Get(s.balances, proposer) + r.tip)
  {
    var fees := Precheck(env, s, tx, baseFee).fees;
    SumMember(s.balances, tx.from);
    FeesExact(tx, baseFee, fees.intrinsic);
    ChargeConserves(s, tx.from, proposer, fees);
    PayloadFrame(env, ChargeFees(s, tx.from, proposer, fees), tx, WithFees(EmptyReceipt(env, tx), fees));
  }

  /** The sender's nonce advances exactly when the key derives the sender, the signature
      holds, the nonce is the stored one, the gas limit covers the payload, the maximum
      fee covers the base fee and the balance covers the whole fee. */
  lemma ChargedExactlyWhen(env: Env, s: KvState, tx: Tx, baseFee: U64, proposer: string)
    requires ApplyTx(env, s, tx, baseFee, proposer).Applied?
    ensures var gas := INTRINSIC_GAS_BASE + SatMul64(|Utf8(tx.payload)|, GAS_PER_BYTE);
            Get(ApplyTx(env, s, tx, baseFee, proposer).state.nonces, tx.from) != Get(s.nonces, tx.from) <==>
            && env.address(tx.pubkey) == Some(tx.from) && env.signatureOk(tx) && tx.nonce == Get(s.nonces, tx.from)
            && gas <= tx.gasLimit && baseFee <= tx.maxFeePerGas
            && FeesOf(tx, baseFee, gas).total <= Get(s.balances, tx.from)
  {
    NonceStep(env, s, tx, baseFee, proposer, tx.from);
  }

  /** Applying a list of transactions, or `None` once one aborts. */
  function ApplyAll(env: Env, s: KvState, txs: seq<Tx>, baseFee: U64, proposer: string): Option<KvState>
    decreases |txs|
  {
    if txs == [] then Some(s)
    else
      match ApplyTx(env, s, txs[0], baseFee, proposer)
      case Abort => None
      case Applied(_, t) => ApplyAll(env, t, txs[1..], baseFee, proposer)
  }

  /** Total supply is constant over every sequence of transactions. */
  lemma {:induction false} RunConserves(env: Env, s: KvState, txs: seq<Tx>, baseFee: U64, proposer: string)
    requires Supply(s) < U64_MAX && ApplyAll(env, s, txs, baseFee, proposer).Some?
    ensures Supply(ApplyAll(env, s, txs, baseFee, proposer).value) == Supply(s)
    decreases |txs|
  {
    if txs != [] {
      ApplyConserves(env, s, txs[0], baseFee, proposer);
      RunConserves(env, ApplyTx(env, s, txs[0], baseFee, proposer).state, txs[1..], baseFee, proposer);
    }
  }

  /** Every step of a run keeps the supply. */
  ghost predicate KeepsSupply(env: Env, s: KvState, txs: seq<Tx>, baseFee: U64, proposer: string)
    requires ApplyAll(env, s, txs, baseFee, proposer).Some?
    decreases |txs|
  {
    txs == [] ||
    (var t := ApplyTx(env, s, txs[0], baseFee, proposer).state;
     Supply(t) == Supply(s) && KeepsSupply(env, t, txs[1..], baseFee, proposer))
  }

  /** Every charged fee of a run adds up. */
  predicate FeesAddUp(env: Env, s: KvState, txs: seq<Tx>, baseFee: U64, proposer: string)
    requires ApplyAll(env, s, txs, baseFee, proposer).Some?
    decreases |txs|
  {
    txs == [] ||
    (var t := ApplyTx(env, s, txs[0], baseFee, proposer).state;
     FeeAddsUp(env, s, txs[0], baseFee) && FeesAddUp(env, t, txs[1..], baseFee, proposer))
  }

  /** From a supply of at most 2^64-1, a run keeps it at every step if and only if every
      fee it charges adds up. */
  lemma {:induction false} RunConservesIff(env: Env, s: KvState, txs: seq<Tx>, baseFee: U64, proposer: string)
    requires Supply(s) <= U64_MAX && ApplyAll(env, s, txs, baseFee, proposer).Some?
    ensures KeepsSupply(env, s, txs, baseFee, proposer) <==> FeesAddUp(env, s, txs, baseFee, proposer)
    decreases |txs|
  {
    if txs != [] {
      var t := ApplyTx(env, s, txs[0], baseFee, proposer).state;
      BoundedConservesIff(env, s, txs[0], baseFee, proposer);
      if Supply(t) == Supply(s) { RunConservesIff(env, t, txs[1..], baseFee, proposer); }
    }
  }

  /** The bound is the best possible: at exactly the saturation value one transaction
      can burn the whole supply and still tip the proposer. */
  lemma SupplyBoundIsTight(env: Env, tx: Tx, s: KvState)
    requires env.address(tx.pubkey) == Some("a") && env.signatureOk(tx)
    requires tx.from == "a" && tx.nonce == 0 && tx.payload == "" && tx.gasLimit == U64_MAX
    requires tx.maxFeePerGas == U64_MAX && tx.maxPriorityFeePerGas == 1
    requires s.balances == map["a" := U64_MAX] && s.burned == 0 && s.nonces == map[]
    ensures var r := ApplyTx(env, s, tx, U64_MAX - 1, "p");
            Supply(s) == U64_MAX && r.Applied? && Supply(r.state) == U64_MAX + INTRINSIC_GAS_BASE
  {
    SumUpdate(map[], "a", U64_MAX);
    assert map[]["a" := U64_MAX] == s.balances;
    assert IntrinsicGas("") == Some(INTRINSIC_GAS_BASE);
    var fees := FeesOf(tx, U64_MAX - 1, INTRINSIC_GAS_BASE);
    assert fees.burned == U64_MAX && fees.tip == INTRINSIC_GAS_BASE && fees.total == U64_MAX;
    assert Precheck(env, s, tx, U64_MAX - 1) == Charge(fees);
    var t := ChargeFees(s, "a", "p", fees);
    SumUpdate(map["a" := 0], "p", INTRINSIC_GAS_BASE);
    SumUpdate(map[], "a", 0);
    assert map[]["a" := 0] == map["a" := 0];
    assert t.balances == map["a" := 0]["p" := INTRINSIC_GAS_BASE];
    assert Words("") == [];
    PayloadFrame(env, t, tx, WithFees(EmptyReceipt(env, tx), fees));
  }

  // ---- Nonces ----------------------------------------------------------------------

  /** The nonces under which `who` is charged, in order. */
  function ChargedNonces(env: Env, s: KvState, txs: seq<Tx>, baseFee: U64, proposer: string, who: string): seq<nat>
    decreases |txs|
  {
    if txs == [] then []
    else
      match ApplyTx(env, s, txs[0], baseFee, proposer)
      case Abort => []
      case Applied(_, t) =>
        (if Charged(env, s, txs[0], baseFee) && txs[0].from == who then [txs[0].nonce] else [])
        + ChargedNonces(env, t, txs[1..], baseFee, proposer, who)
  }

  lemma NonceStep(env: Env, s: KvState, tx: Tx, baseFee: U64, proposer: string, who: string)
    requires ApplyTx(env, s, tx, baseFee, proposer).Applied?
    ensures var t := ApplyTx(env, s, tx, baseFee, proposer).state;
            if Charged(env, s, tx, baseFee) && tx.from == who
            then tx.nonce == Get(s.nonces, who) && Get(t.nonces, who) == tx.nonce + 1
            else Get(t.nonces, who) == Get(s.nonces, who)
  {
    match Precheck(env, s, tx, baseFee)
    case Charge(fees) =>
      PayloadFrame(env, ChargeFees(s, tx.from, proposer, fees), tx, WithFees(EmptyReceipt(env, tx), fees));
    case _ =>
  }

  /** Each sender is charged under consecutive nonces starting at the stored one, so no
      pair of sender and nonce is ever charged twice, and the stored nonce advances by
      the number of charges. */
  lemma {:induction false} NoncesAreConsecutive(
      env: Env, s: KvState, txs: seq<Tx>, baseFee: U64, proposer: string, who: string)
    requires ApplyAll(env, s, txs, baseFee, proposer).Some?
    ensures var ns := ChargedNonces(env, s, txs, baseFee, proposer, who);
            var last := ApplyAll(env, s, txs, baseFee, proposer).value;
            && (forall i :: 0 <= i < |ns| ==> ns[i] == Get(s.nonces, who) + i)
            && Get(last.nonces, who) == Get(s.nonces, who) + |ns|
    decreases |txs|
  {
    if txs != [] {
      var t := ApplyTx(env, s, txs[0], baseFee, proposer).state;
      NonceStep(env, s, txs[0], baseFee, proposer, who);
      NoncesAreConsecutive(env, t, txs[1..], baseFee, proposer, who);
    }
  }

  // ---- Counters in the key-value store ---------------------------------------------

  lemma ParseSigned(n: int)
    requires I64_MIN <= n <= I64_MAX
    ensures ParseI64(SignedDec(n)) == Some(n)
  {
    if n < 0 {
      assert SignedDec(n)[1..] == Dec(-n);
    } else {
      assert IsDigit(Dec(n)[0]);
    }
  }

  /** `inc` adds one to a stored number and to nothing else. */
  lemma IncrementAddsOne(kv: map<string, string>, payload: string, key: string, n: int)
    requires Words(payload) == ["inc", key] && I64_MIN <= n < I64_MAX
    requires (key in kv && kv[key] == SignedDec(n)) || (key !in kv && n == 0)
    ensures ApplyKvPayload(kv, payload) == Stored(kv[key := SignedDec(n + 1)])
  {
    ParseSigned(n);
    assert Words(payload)[0] == "inc" && Words(payload)[1] == key;
    assert SignedDec(0) == "0";
  }

  // ---- Stored words ----------------------------------------------------------------

  /** A word without white space. */
  predicate Plain(w: string) { w != "" && forall i :: 0 <= i < |w| ==> !IsSpace(w[i]) }

  lemma {:induction false} WordEnds(w: string, rest: string)
    requires (forall i :: 0 <= i < |w| ==> !IsSpace(w[i])) && (rest != "" ==> IsSpace(rest[0]))
    ensures WordLength(w + rest) == |w|
    decreases |w|
  {
    if w == "" {
      assert w + rest == rest;
    } else {
      assert (w + rest)[1..] == w[1..] + rest;
      WordEnds(w[1..], rest);
    }
  }

  lemma FirstWord(w: string, rest: string)
    requires Plain(w)
    ensures Words(w + " " + rest) == [w] + Words(rest)
  {
    var s := w + " " + rest;
    assert s == w + (" " + rest);
    WordEnds(w, " " + rest);
    assert s[..|w|] == w && s[|w|..] == " " + rest && (" " + rest)[1..] == rest;
  }

  lemma LastWord(w: string)
    requires Plain(w)
    ensures Words(w) == [w]
  {
    WordEnds(w, "");
    assert w + "" == w && w[..|w|] == w && w[|w|..] == "";
  }

  /** Joining plain words and splitting at white space gives them back. */
  lemma {:induction false} WordsOfJoined(ws: seq<string>)
    requires forall i :: 0 <= i < |ws| ==> Plain(ws[i])
    ensures Words(JoinWords(ws)) == ws
    decreases |ws|
  {
    if |ws| == 1 {
      LastWord(ws[0]);
    } else if |ws| > 1 {
      WordsOfJoined(ws[1..]);
      FirstWord(ws[0], JoinWords(ws[1..]));
      assert ws == [ws[0]] + ws[1..];
    }
  }

  lemma SetStores(kv: map<string, string>, payload: string, k: string, v: string)
    requires Words(payload) == ["set", k, v]
    ensures ApplyKvPayload(kv, payload) == Stored(kv[k := v])
  {
    var parts := Words(payload);
    assert parts[2..] == [v];
  }
}
