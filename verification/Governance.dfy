/** On-chain governance: proposals, stake-weighted votes, and the changes they make to the
    validator set.  `address` stands for the hashed address of a public key. */
module Governance {
  import opened MachineInts
  import opened MapSums
  import opened Ordering
  import opened Text
  import opened Slashing

  const MAX_PROPOSALS_PER_BLOCK: nat := 10
  const MAX_DEPOSIT: nat := 10_000_000_000
  const DEFAULT_MIN_DEPOSIT: U64 := 1_000_000
  const DEFAULT_TTL: U64 := 50_000

  datatype GovConfig = GovConfig(minDeposit: U64, quorumNum: U64, quorumDen: U64, address: Key -> string)

  datatype Action =
    | AddValidator(pkHex: string, stake: U64)
    | RemoveValidator(pkHex: string)
    | UnjailValidator(pkHex: string)
    | SetParam(key: string, value: string)

  datatype Proposal = Proposal(action: Action, proposer: string, height: U64, votes: map<string, bool>, deposit: U64)

  datatype Gov = Gov(
    pending: map<U64, Proposal>, nextId: U64, params: map<string, string>, minDeposit: U64, ttl: U64, blockCount: nat)

  const NEW_GOV := Gov(map[], 0, map[], DEFAULT_MIN_DEPOSIT, DEFAULT_TTL, 0)

  datatype Validator = Validator(pk: Key, power: U64)

  datatype GovError =
    | TooManyProposals | InsufficientDeposit | ZeroStakeAction | InvalidPubKey | IdOverflow
    | ProposalNotFound | ProposalExpired(expiry: U64) | InvalidVote

  datatype Result<+T> = Ok(value: T) | Err(error: GovError) | Abort

  // ---- Voting power ----------------------------------------------------------------------

  function Holders(validators: map<Key, Record>, address: Key -> string, addr: string): set<Key>
  {
    set k | k in validators && address(k) == addr
  }

  /** The first validator, in key order, whose address is `addr`. */
  function Find(validators: map<Key, Record>, address: Key -> string, addr: string): (r: Option<Key>)
    ensures r.Some? ==> r.value in validators && address(r.value) == addr
    ensures r.None? ==> forall k :: k in validators ==> address(k) != addr
  {
    BytesLessTotal();
    var s := Holders(validators, address, addr);
    if s == {} then
      assert forall k :: k in validators && address(k) == addr ==> k in s;
      None
    else
      Some(Least(s, BytesLess))
  }

  /** The recorded stake behind an address, jailed or not; zero when nobody has it. */
  function StakeBehind(validators: map<Key, Record>, address: Key -> string, addr: string): U64
  {
    var k := Find(validators, address, addr);
    if k.Some? then validators[k.value].stake else 0
  }

  function Weights(p: Proposal, validators: map<Key, Record>, address: Key -> string, yes: bool): map<string, nat>
  {
    map a | a in p.votes && p.votes[a] == yes :: StakeBehind(validators, address, a)
  }

  ghost function VotedPower(p: Proposal, l: Ledger, cfg: GovConfig, yes: bool): nat
  {
    Sum(Weights(p, l.validators, cfg.address, yes))
  }

  /** `has_quorum`; None when a sum of stakes overflows and the process aborts. */
  ghost function Quorum(p: Proposal, l: Ledger, cfg: GovConfig): Option<bool>
  {
    var yes, total := VotedPower(p, l, cfg, true), Power(l);
    if yes > U64_MAX || total > U64_MAX then None
    else Some(total != 0 && SatMul64(yes, cfg.quorumDen) > SatMul64(total, cfg.quorumNum))
  }

  method HasQuorum(p: Proposal, stakes: StakeLedger, cfg: GovConfig) returns (r: Option<bool>)
    ensures r == Quorum(p, stakes.View(), cfg)
  {
    var yes := CheckedSum(Weights(p, stakes.validators, cfg.address, true));
    if yes.None? { return None; }
    var total := stakes.TotalPower();
    if total.None? { return None; }
    if total.value == 0 { return Some(false); }
    return Some(SatMul64(yes.value, cfg.quorumDen) > SatMul64(total.value, cfg.quorumNum));
  }

  predicate IsActive(p: Proposal, now: U64, ttl: U64) { SatSub(now, p.height) < ttl }

  // ---- Submitting and voting -----------------------------------------------------------------

  function ParseKey(pkHex: string): Option<Key>
  {
    match HexDecode(pkHex)
    case None => None
    case Some(b) => if |b| == 32 then Some(b) else None
  }

  function ValidateAction(a: Action): Option<GovError>
  {
    match a
    case AddValidator(pk, stake) =>
      if stake == 0 then Some(ZeroStakeAction) else if ParseKey(pk).None? then Some(InvalidPubKey) else None
    case RemoveValidator(pk) => if ParseKey(pk).None? then Some(InvalidPubKey) else None
    case UnjailValidator(pk) => if ParseKey(pk).None? then Some(InvalidPubKey) else None
    case SetParam(_, _) => None
  }

  function SubmitResult(g: Gov, cfg: GovConfig, action: Action, proposer: string, height: U64, deposit: U64)
    : (Gov, Result<U64>)
  {
    if g.blockCount >= MAX_PROPOSALS_PER_BLOCK then (g, Err(TooManyProposals))
    else if deposit < cfg.minDeposit || deposit > MAX_DEPOSIT then (g, Err(InsufficientDeposit))
    else
      match ValidateAction(action)
      case Some(e) => (g, Err(e))
      case None =>
        if g.nextId == U64_MAX then (g, Err(IdOverflow))
        else
          var p := Proposal(action, proposer, height, map[proposer := true], deposit);
          (g.(nextId := g.nextId + 1, pending := g.pending[g.nextId := p], blockCount := g.blockCount + 1),
           Ok(g.nextId))
  }

  function VoteResult(g: Gov, id: U64, voter: string, yes: bool, height: U64): (Gov, Result<()>)
  {
    if id !in g.pending then (g, Err(ProposalNotFound))
    else
      var p := g.pending[id];
      if !IsActive(p, height, g.ttl) then
        (g, if p.height + g.ttl > U64_MAX then Abort else Err(ProposalExpired(p.height + g.ttl)))
      else if voter == "" then (g, Err(InvalidVote))
      else (g.(pending := g.pending[id := p.(votes := p.votes[voter := yes])]), Ok(()))
  }

  // ---- Actions -----------------------------------------------------------------------------

  datatype World = World(gov: Gov, ledger: Ledger, vset: seq<Validator>)

  predicate Listed(vset: seq<Validator>, pk: Key) { exists i :: 0 <= i < |vset| && vset[i].pk == pk }

  function WithoutKey(vset: seq<Validator>, pk: Key): seq<Validator>
  {
    if vset == [] then []
    else (if vset[0].pk == pk then [] else [vset[0]]) + WithoutKey(vset[1..], pk)
  }

  /** Adding stake to a validator overflows a 64-bit addition when it does not fit. */
  function AddResult(w: World, pk: Key, stake: U64): Option<World>
  {
    var r := if pk in w.ledger.validators then w.ledger.validators[pk] else NewRecord(0);
    if r.stake + stake > U64_MAX then None
    else
      Some(w.(ledger := w.ledger.(validators := w.ledger.validators[pk := r.(stake := r.stake + stake)]),
              vset := if Listed(w.vset, pk) then w.vset else w.vset + [Validator(pk, stake)]))
  }

  function ParamResult(g: Gov, key: string, value: string): Gov
  {
    var g1 := g.(params := g.params[key := value]);
    match ParseU64(value)
    case None => g1
    case Some(v) =>
      if key == "min_deposit" then g1.(minDeposit := v)
      else if key == "proposal_ttl" then g1.(ttl := v)
      else g1
  }

  /** `apply_action_internal`; None when the process aborts. */
  function ActionResult(w: World, slashing: Config, action: Action, now: U64): Option<World>
  {
    match action
    case AddValidator(pkHex, stake) =>
      (match ParseKey(pkHex)
       case None => Some(w)
       case Some(pk) => AddResult(w, pk, stake))
    case RemoveValidator(pkHex) =>
      (match ParseKey(pkHex)
       case None => Some(w)
       case Some(pk) =>
         Some(w.(ledger := w.ledger.(validators := w.ledger.validators - {pk}), vset := WithoutKey(w.vset, pk))))
    case UnjailValidator(pkHex) =>
      (match ParseKey(pkHex)
       case None => Some(w)
       case Some(pk) =>
         var (l, r) := UnjailResult(w.ledger, slashing, pk, now);
         if r.Aborted? then None else Some(w.(ledger := l)))
    case SetParam(key, value) => Some(w.(gov := ParamResult(w.gov, key, value)))
  }

  // ---- Applying what is ready ------------------------------------------------------------------

  datatype Verdict = Apply | Expire | Keep | Overflow

  /** What the first pass of `apply_ready` decides about a pending proposal. */
  ghost function Judge(w: World, cfg: GovConfig, id: nat, now: U64): Verdict
    requires id in w.gov.pending
  {
    var p := w.gov.pending[id];
    if !IsActive(p, now, w.gov.ttl) then Expire
    else
      match Quorum(p, w.ledger, cfg)
      case None => Overflow
      case Some(b) => if b then Apply else Keep
  }

  /** The listed ids with a given verdict, in order. */
  ghost function Judged(w: World, cfg: GovConfig, ids: seq<nat>, now: U64, v: Verdict): (r: seq<nat>)
    requires forall i :: 0 <= i < |ids| ==> ids[i] in w.gov.pending
    decreases |ids|
  {
    if ids == [] then []
    else
      var n := |ids| - 1;
      Judged(w, cfg, ids[..n], now, v) + (if Judge(w, cfg, ids[n], now) == v then [ids[n]] else [])
  }

  lemma {:induction false} JudgedMembers(w: World, cfg: GovConfig, ids: seq<nat>, now: U64, v: Verdict, id: nat)
    requires forall j :: 0 <= j < |ids| ==> ids[j] in w.gov.pending
    ensures id in Judged(w, cfg, ids, now, v) <==> id in ids && Judge(w, cfg, id, now) == v
    decreases |ids|
  {
    if ids != [] {
      var n := |ids| - 1;
      JudgedMembers(w, cfg, ids[..n], now, v, id);
      assert ids == ids[..n] + [ids[n]];
    }
  }

  /** Both lists of the first pass, or nothing if a quorum could not be computed. */
  ghost function PlanOf(w: World, cfg: GovConfig, ids: seq<nat>, now: U64): Option<(seq<nat>, seq<nat>)>
    requires forall i :: 0 <= i < |ids| ==> ids[i] in w.gov.pending
  {
    if Judged(w, cfg, ids, now, Overflow) != [] then None
    else Some((Judged(w, cfg, ids, now, Apply), Judged(w, cfg, ids, now, Expire)))
  }

  lemma JudgedSnoc(w: World, cfg: GovConfig, ids: seq<nat>, i: nat, now: U64, v: Verdict)
    requires i < |ids| && forall j :: 0 <= j < |ids| ==> ids[j] in w.gov.pending
    ensures var most := Judged(w, cfg, ids[..i], now, v);
            Judged(w, cfg, ids[..i + 1], now, v) == if Judge(w, cfg, ids[i], now) == v then most + [ids[i]] else most
  {
    assert ids[..i + 1][..i] == ids[..i];
  }

  lemma PlanSnoc(w: World, cfg: GovConfig, ids: seq<nat>, i: nat, now: U64)
    requires i < |ids| && forall j :: 0 <= j < |ids| ==> ids[j] in w.gov.pending
    requires PlanOf(w, cfg, ids[..i], now).Some?
    ensures var (toApply, toExpire) := PlanOf(w, cfg, ids[..i], now).value;
            var v := Judge(w, cfg, ids[i], now);
            && (v == Overflow ==> PlanOf(w, cfg, ids, now) == None)
            && (v != Overflow ==>
                  PlanOf(w, cfg, ids[..i + 1], now)
                  == Some((if v == Apply then toApply + [ids[i]] else toApply,
                           if v == Expire then toExpire + [ids[i]] else toExpire)))
  {
    JudgedSnoc(w, cfg, ids, i, now, Apply);
    JudgedSnoc(w, cfg, ids, i, now, Expire);
    JudgedSnoc(w, cfg, ids, i, now, Overflow);
    JudgedMembers(w, cfg, ids, now, Overflow, ids[i]);
  }

  function PendingIds(g: Gov): (r: seq<nat>)
    ensures Ascending(r, NatLess)
    ensures forall id :: id in r <==> id in g.pending
  {
    NatLessTotal();
    var keys: set<nat> := g.pending.Keys;
    Sorted(keys, NatLess)
  }

  function WithoutIds(g: Gov, ids: seq<nat>): Gov
  {
    g.(pending := map id | id in g.pending && id !in ids :: g.pending[id])
  }

  /** Remove each listed proposal and apply its action, in order. */
  function ApplyIds(w: World, slashing: Config, ids: seq<nat>, now: U64): Option<(World, seq<Action>)>
    decreases |ids|
  {
    if ids == [] then Some((w, []))
    else
      var n := |ids| - 1;
      match ApplyIds(w, slashing, ids[..n], now)
      case None => None
      case Some((v, done)) =>
        if ids[n] !in v.gov.pending then Some((v, done))
        else
          var p := v.gov.pending[ids[n]];
          match ActionResult(v.(gov := v.gov.(pending := v.gov.pending - {ids[n]})), slashing, p.action, now)
          case None => None
          case Some(u) => Some((u, done + [p.action]))
  }

  ghost function ApplyReadyResult(w: World, cfg: GovConfig, slashing: Config, now: U64): Option<(World, seq<Action>)>
  {
    match PlanOf(w, cfg, PendingIds(w.gov), now)
    case None => None
    case Some((toApply, toExpire)) => ApplyIds(w.(gov := WithoutIds(w.gov, toExpire)), slashing, toApply, now)
  }

  // ---- The manager as the source keeps it ---------------------------------------------------------

  class ValidatorSet {
    var vals: seq<Validator>

    constructor ()
      ensures vals == []
    {
      vals := [];
    }

    /** `iter().any`. */
    method Contains(pk: Key) returns (r: bool)
      ensures r == Listed(vals, pk)
    {
      for i := 0 to |vals|
        invariant forall j :: 0 <= j < i ==> vals[j].pk != pk
      {
        if vals[i].pk == pk { return true; }
      }
      return false;
    }

    /** `retain(|v| v.pk != pk)`. */
    method Remove(pk: Key)
      modifies this
      ensures vals == WithoutKey(old(vals), pk)
    {
      var kept: seq<Validator> := [];
      for i := 0 to |vals|
        invariant kept + WithoutKey(vals[i..], pk) == WithoutKey(vals, pk)
      {
        assert vals[i..][1..] == vals[i + 1..];
        if vals[i].pk != pk { kept := kept + [vals[i]]; }
      }
      vals := kept;
    }
  }

  class GovernanceManager {
    var pending: map<U64, Proposal>
    var nextId: U64
    var params: map<string, string>
    var minDeposit: U64
    var ttl: U64
    var blockCount: nat
    const config: GovConfig

    function View(): Gov
      reads this
    {
      Gov(pending, nextId, params, minDeposit, ttl, blockCount)
    }

    constructor (cfg: GovConfig)
      ensures View() == NEW_GOV && config == cfg
    {
      pending, nextId, params, minDeposit, ttl, blockCount := map[], 0, map[], DEFAULT_MIN_DEPOSIT, DEFAULT_TTL, 0;
      config := cfg;
    }

    method Submit(action: Action, proposer: string, height: U64, deposit: U64) returns (r: Result<U64>)
      modifies this
      ensures (View(), r) == SubmitResult(old(View()), config, action, proposer, height, deposit)
    {
      if blockCount >= MAX_PROPOSALS_PER_BLOCK { return Err(TooManyProposals); }
      if deposit < config.minDeposit || deposit > MAX_DEPOSIT { return Err(InsufficientDeposit); }
      var invalid := ValidateAction(action);
      if invalid.Some? { return Err(invalid.value); }
      var id := nextId;
      if id == U64_MAX { return Err(IdOverflow); }
      nextId := id + 1;
      pending := pending[id := Proposal(action, proposer, height, map[proposer := true], deposit)];
      blockCount := blockCount + 1;
      return Ok(id);
    }

    method Vote(id: U64, voter: string, yes: bool, height: U64) returns (r: Result<()>)
      modifies this
      ensures (View(), r) == VoteResult(old(View()), id, voter, yes, height)
    {
      if id !in pending { return Err(ProposalNotFound); }
      var p := pending[id];
      if !IsActive(p, height, ttl) {
        if p.height + ttl > U64_MAX { return Abort; }
        return Err(ProposalExpired(p.height + ttl));
      }
      if voter == "" { return Err(InvalidVote); }
      pending := pending[id := p.(votes := p.votes[voter := yes])];
      return Ok(());
    }

    method ResetBlockCounter()
      modifies this
      ensures View() == old(View()).(blockCount := 0)
    {
      blockCount := 0;
    }

    ghost function WorldWith(stakes: StakeLedger, vset: ValidatorSet): World
      reads this, stakes, vset
    {
      World(View(), stakes.View(), vset.vals)
    }

    /** First pass: which proposals to apply and which to expire. */
    method Classify(stakes: StakeLedger, vset: ValidatorSet, now: U64) returns (r: Option<(seq<nat>, seq<nat>)>)
      ensures r == PlanOf(WorldWith(stakes, vset), config, PendingIds(View()), now)
    {
      ghost var w := WorldWith(stakes, vset);
      var ids := PendingIds(View());
      var toApply: seq<nat>, toExpire: seq<nat> := [], [];
      for i := 0 to |ids|
        invariant forall j :: 0 <= j < |ids| ==> ids[j] in w.gov.pending
        invariant PlanOf(w, config, ids[..i], now) == Some((toApply, toExpire))
      {
        var verdict := JudgeOne(ids[i], stakes, vset, now);
        PlanSnoc(w, config, ids, i, now);
        if verdict.Overflow? { return None; }
        if verdict.Apply? { toApply := toApply + [ids[i]]; }
        if verdict.Expire? { toExpire := toExpire + [ids[i]]; }
      }
      assert ids[..|ids|] == ids;
      return Some((toApply, toExpire));
    }

    method JudgeOne(id: nat, stakes: StakeLedger, vset: ValidatorSet, now: U64) returns (v: Verdict)
      requires id in pending
      ensures v == Judge(WorldWith(stakes, vset), config, id, now)
    {
      var p := pending[id];
      if !IsActive(p, now, ttl) { return Expire; }
      var quorum := HasQuorum(p, stakes, config);
      if quorum.None? { return Overflow; }
      return if quorum.value then Apply else Keep;
    }

    method RemoveProposals(ids: seq<nat>)
      modifies this`pending
      ensures View() == WithoutIds(old(View()), ids)
    {
      for i := 0 to |ids|
        invariant View() == WithoutIds(old(View()), ids[..i])
      {
        assert ids[..i + 1] == ids[..i] + [ids[i]];
        pending := pending - {ids[i]};
      }
      assert ids[..|ids|] == ids;
    }

    method ApplyAction(action: Action, stakes: StakeLedger, vset: ValidatorSet, now: U64) returns (ok: bool)
      modifies this, stakes, vset
      ensures var r := ActionResult(old(WorldWith(stakes, vset)), stakes.config, action, now);
              ok == r.Some? && (ok ==> WorldWith(stakes, vset) == r.value)
    {
      match action
      case AddValidator(pkHex, stake) =>
        var pk := ParseKey(pkHex);
        if pk.None? { return true; }
        var record := if pk.value in stakes.validators then stakes.validators[pk.value] else NewRecord(0);
        if record.stake + stake > U64_MAX { return false; }
        stakes.validators := stakes.validators[pk.value := record.(stake := record.stake + stake)];
        var listed := vset.Contains(pk.value);
        if !listed { vset.vals := vset.vals + [Validator(pk.value, stake)]; }
        return true;
      case RemoveValidator(pkHex) =>
        var pk := ParseKey(pkHex);
        if pk.None? { return true; }
        stakes.validators := stakes.validators - {pk.value};
        vset.Remove(pk.value);
        return true;
      case UnjailValidator(pkHex) =>
        var pk := ParseKey(pkHex);
        if pk.None? { return true; }
        var r := stakes.Unjail(pk.value, now);
        return !r.Aborted?;
      case SetParam(key, value) =>
        params := params[key := value];
        var v := ParseU64(value);
        if v.Some? && key == "min_deposit" { minDeposit := v.value; }
        if v.Some? && key == "proposal_ttl" { ttl := v.value; }
        return true;
    }

    /** Last pass: remove each proposal that reached quorum and apply its action. */
    method ApplyAll(ids: seq<nat>, stakes: StakeLedger, vset: ValidatorSet, now: U64) returns (r: Option<seq<Action>>)
      modifies this, stakes, vset
      ensures var s := ApplyIds(old(WorldWith(stakes, vset)), stakes.config, ids, now);
              r.Some? == s.Some? && (r.Some? ==> s.value == (WorldWith(stakes, vset), r.value))
    {
      ghost var w := WorldWith(stakes, vset);
      var applied: seq<Action> := [];
      for i := 0 to |ids|
        invariant ApplyIds(w, stakes.config, ids[..i], now) == Some((WorldWith(stakes, vset), applied))
      {
        assert ids[..i + 1][..i] == ids[..i];
        if ids[i] in pending {
          var p := pending[ids[i]];
          pending := pending - {ids[i]};
          var ok := ApplyAction(p.action, stakes, vset, now);
          if !ok {
            AbortsStick(w, stakes.config, ids, i + 1, now);
            return None;
          }
          applied := applied + [p.action];
        }
      }
      assert ids[..|ids|] == ids;
      return Some(applied);
    }

    method ApplyReady(stakes: StakeLedger, vset: ValidatorSet, now: U64) returns (r: Option<seq<Action>>)
      modifies this, stakes, vset
      ensures var s := ApplyReadyResult(old(WorldWith(stakes, vset)), config, stakes.config, now);
              r.Some? == s.Some? && (r.Some? ==> s.value == (WorldWith(stakes, vset), r.value))
    {
      var plan := Classify(stakes, vset, now);
      if plan.None? { return None; }
      RemoveProposals(plan.value.1);
      r := ApplyAll(plan.value.0, stakes, vset, now);
    }
  }

  lemma {:induction false} AbortsStick(w: World, slashing: Config, ids: seq<nat>, n: nat, now: U64)
    requires n <= |ids| && ApplyIds(w, slashing, ids[..n], now).None?
    ensures ApplyIds(w, slashing, ids, now).None?
    decreases |ids|
  {
    if n == |ids| {
      assert ids[..n] == ids;
    } else {
      var k := |ids| - 1;
      assert ids[..k][..n] == ids[..n];
      AbortsStick(w, slashing, ids[..k], n, now);
    }
  }
}
