/** Applying one transaction: checks, fees, nonce and payload.

    Signature checking, hashing, the staking module and the virtual machine are given by
    an arbitrary `Env`.  As in the source, the staking module may change only the
    key-value store and the virtual machine only its own state. */
module Execution {
  import opened MachineInts
  import opened Text
  import opened Merkle
  import opened ChainState

  const INTRINSIC_GAS_BASE: nat := 21_000
  const GAS_PER_BYTE: nat := 10
  const ELASTICITY_DENOM: nat := 4
  const STAKING_GAS: nat := 1_000
  const I64_MAX: int := 0x7FFF_FFFF_FFFF_FFFF
  const I64_MIN: int := -0x8000_0000_0000_0000

  datatype Tx = Tx(
    pubkey: Bytes, from: string, nonce: U64, maxFeePerGas: U64, maxPriorityFeePerGas: U64,
    gasLimit: U64, payload: string, signature: Bytes, chainId: U64)

  datatype Fault =
    | BadSender | BadSignature | BadNonce | GasLimitTooLow | FeeTooLow | InsufficientBalance
    | StakingFailed | VmFailed | VmUnparsable | BadPayload

  datatype Receipt = Receipt(
    txHash: Digest, success: bool, gasUsed: U64, intrinsicGasUsed: U64, execGasUsed: U64, vmGasUsed: U64,
    effectiveGasPrice: U64, burned: U64, tip: U64, error: Option<Fault>, data: Option<Bytes>)

  datatype VmPayload =
    | Deploy(code: Bytes, params: Bytes)
    | Call(contract: Bytes, entry: string, args: Bytes)

  /** `data` is `None` when the machine reports an error; gas is charged either way. */
  datatype VmResult = VmResult(data: Option<Bytes>, gas: U64, vm: VmState)

  datatype Env = Env(
    address: Bytes -> Option<string>,
    signatureOk: Tx -> bool,
    txHash: Tx -> Digest,
    staking: (map<string, string>, string, string) -> (bool, map<string, string>),
    parseVm: string -> Option<VmPayload>,
    runVm: (VmState, VmPayload) -> VmResult)

  // ---- Fees ------------------------------------------------------------------------

  /** `next_base_fee`; products and sums abort on overflow. */
  function NextBaseFee(prevBase: U64, gasUsed: U64, gasTarget: U64): Option<U64>
  {
    var base := Max(prevBase, 1);
    if gasTarget == 0 then Some(base)
    else if gasUsed > gasTarget then
      match Mul64(base, gasUsed - gasTarget)
      case None => None
      case Some(x) => Add64(base, Max(Div(Div(x, gasTarget), ELASTICITY_DENOM), 1))
    else
      match Mul64(base, gasTarget - gasUsed)
      case None => None
      case Some(x) => Some(Max(base - Max(Div(Div(x, gasTarget), ELASTICITY_DENOM), 1), 1))
  }

  function IntrinsicGas(payload: string): Option<U64>
  {
    Add64(INTRINSIC_GAS_BASE, SatMul64(|Utf8(payload)|, GAS_PER_BYTE))
  }

  // ---- Key-value payloads ----------------------------------------------------------

  predicate IsSpace(c: char)
  {
    var n := c as int;
    0x9 <= n <= 0xD || n == 0x20 || n == 0x85 || n == 0xA0 || n == 0x1680 || 0x2000 <= n <= 0x200A
    || n == 0x2028 || n == 0x2029 || n == 0x202F || n == 0x205F || n == 0x3000
  }

  function WordLength(s: string): (n: nat)
    ensures n <= |s|
    ensures s != "" && !IsSpace(s[0]) ==> n > 0
  {
    if s == "" || IsSpace(s[0]) then 0 else 1 + WordLength(s[1..])
  }

  /** `split_whitespace` */
  function Words(s: string): seq<string>
    decreases |s|
  {
    if s == "" then []
    else if IsSpace(s[0]) then Words(s[1..])
    else [s[..WordLength(s)]] + Words(s[WordLength(s)..])
  }

  function JoinWords(ws: seq<string>): string
  {
    if ws == [] then "" else if |ws| == 1 then ws[0] else ws[0] + " " + JoinWords(ws[1..])
  }

  function TrimStart(s: string): string
  {
    if s != "" && IsSpace(s[0]) then TrimStart(s[1..]) else s
  }

  /** `parse::<i64>` */
  function ParseI64(s: string): Option<int>
  {
    var signed := |s| > 1 && (s[0] == '-' || s[0] == '+');
    var t := if signed then s[1..] else s;
    if t == "" || !AllDigits(t) then None
    else
      var v: int := DigitsValue(t);
      var n := if signed && s[0] == '-' then -v else v;
      if I64_MIN <= n <= I64_MAX then Some(n) else None
  }

  function SignedDec(n: int): string { if n < 0 then "-" + Dec(-n) else Dec(n) }

  datatype KvOutcome = Stored(kv: map<string, string>) | Refused | KvAbort

  function ApplyKvPayload(kv: map<string, string>, payload: string): KvOutcome
  {
    var parts := Words(payload);
    if parts == [] then Refused
    else if parts[0] == "set" && |parts| >= 3 then Stored(kv[parts[1] := JoinWords(parts[2..])])
    else if parts[0] == "del" && |parts| == 2 then Stored(kv - {parts[1]})
    else if parts[0] == "inc" && |parts| == 2 then
      var cur := if parts[1] in kv then kv[parts[1]] else "0";
      var n := if ParseI64(cur).Some? then ParseI64(cur).value else 0;
      if n == I64_MAX then KvAbort else Stored(kv[parts[1] := SignedDec(n + 1)])
    else Refused
  }

  // ---- One transaction -------------------------------------------------------------

  /** The sender's address, when the key derives it and the signature holds. */
  function VerifySignature(env: Env, tx: Tx): (r: Option<string>)
    ensures r.Some? ==> r.value == tx.from
  {
    if env.address(tx.pubkey) != Some(tx.from) || !env.signatureOk(tx) then None else Some(tx.from)
  }

  datatype Fees = Fees(intrinsic: U64, price: U64, burned: U64, tip: U64, total: U64)

  /** Fee amounts of a transaction whose maximum fee covers the base fee. */
  function FeesOf(tx: Tx, baseFee: U64, intrinsic: U64): Fees
  {
    var priority := Min(tx.maxPriorityFeePerGas, SatSub(tx.maxFeePerGas, baseFee));
    var burned := SatMul64(baseFee, intrinsic);
    var tip := SatMul64(priority, intrinsic);
    Fees(intrinsic, SatAdd64(baseFee, priority), burned, tip, SatAdd64(burned, tip))
  }

  datatype Check = Reject(fault: Fault, intrinsic: U64, computed: Option<Fees>) | Charge(fees: Fees) | CheckAbort

  /** Everything tested before any state is written. */
  function Precheck(env: Env, s: KvState, tx: Tx, baseFee: U64): Check
  {
    if VerifySignature(env, tx).None? then
      Reject(if env.address(tx.pubkey) != Some(tx.from) then BadSender else BadSignature, 0, None)
    else if tx.nonce != Get(s.nonces, tx.from) then Reject(BadNonce, 0, None)
    else
      match IntrinsicGas(tx.payload)
      case None => CheckAbort
      case Some(gas) =>
        if tx.gasLimit < gas then Reject(GasLimitTooLow, gas, None)
        else if tx.maxFeePerGas < baseFee then Reject(FeeTooLow, gas, None)
        else
          var fees := FeesOf(tx, baseFee, gas);
          if Get(s.balances, tx.from) < fees.total then Reject(InsufficientBalance, gas, Some(fees))
          else Charge(fees)
  }

  /** Debit the sender, burn the base fee, credit the proposer and step the nonce. */
  function ChargeFees(s: KvState, from: string, proposer: string, fees: Fees): KvState
    requires Get(s.balances, from) >= fees.total && Get(s.nonces, from) < U64_MAX
  {
    var debited := s.balances[from := Get(s.balances, from) - fees.total];
    s.(balances := debited[proposer := SatAdd64(Get(debited, proposer), fees.tip)],
       burned := SatAdd64(s.burned, fees.burned),
       nonces := s.nonces[from := Get(s.nonces, from) + 1])
  }

  datatype ApplyResult = Applied(receipt: Receipt, state: KvState) | Abort

  function HasPrefix(s: string, p: string): bool { |p| <= |s| && s[..|p|] == p }

  /** Payload dispatch on the charged state.  A failed staking or VM payload keeps what
      it wrote; a refused key-value payload writes nothing. */
  function RunPayload(env: Env, s: KvState, tx: Tx, r: Receipt): ApplyResult
  {
    if HasPrefix(tx.payload, "staking:") then
      var (ok, kv) := env.staking(s.kv, tx.payload[8..], tx.from);
      if ok then
        Applied(r.(success := true, gasUsed := SatAdd64(r.gasUsed, STAKING_GAS), execGasUsed := STAKING_GAS),
                s.(kv := kv))
      else Applied(r.(error := Some(StakingFailed)), s.(kv := kv))
    else if HasPrefix(TrimStart(tx.payload), "vm ") then
      match env.parseVm(TrimStart(tx.payload)[3..])
      case None => Applied(r.(error := Some(VmUnparsable)), s)
      case Some(call) =>
        var out := env.runVm(s.vm, call);
        var r1 := r.(vmGasUsed := out.gas, gasUsed := SatAdd64(r.gasUsed, out.gas));
        Applied(if out.data.Some? then r1.(success := true, data := out.data) else r1.(error := Some(VmFailed)),
                s.(vm := out.vm))
    else
      match ApplyKvPayload(s.kv, tx.payload)
      case KvAbort => Abort
      case Refused => Applied(r.(error := Some(BadPayload)), s)
      case Stored(kv) => Applied(r.(success := true), s.(kv := kv))
  }

  function EmptyReceipt(env: Env, tx: Tx): Receipt
  {
    Receipt(env.txHash(tx), false, 0, 0, 0, 0, 0, 0, 0, None, None)
  }

  function WithFees(r: Receipt, fees: Fees): Receipt
  {
    r.(gasUsed := fees.intrinsic, intrinsicGasUsed := fees.intrinsic, effectiveGasPrice := fees.price,
       burned := fees.burned, tip := fees.tip)
  }

  /** `apply_tx` */
  function ApplyTx(env: Env, s: KvState, tx: Tx, baseFee: U64, proposer: string): ApplyResult
  {
    var r := EmptyReceipt(env, tx);
    match Precheck(env, s, tx, baseFee)
    case CheckAbort => Abort
    case Reject(fault, gas, computed) =>
      var r1 := r.(gasUsed := gas, intrinsicGasUsed := gas, error := Some(fault));
      Applied(if computed.Some? then WithFees(r1, computed.value) else r1, s)
    case Charge(fees) =>
      if Get(s.nonces, tx.from) == U64_MAX then Abort
      else RunPayload(env, ChargeFees(s, tx.from, proposer, fees), tx, WithFees(r, fees))
  }
}
