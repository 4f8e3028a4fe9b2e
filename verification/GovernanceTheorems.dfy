/** Quorum, exactly-once proposals and matching membership, over every run. */
module GovernanceTheorems {
  import opened MachineInts
  import opened MapSums
  import opened Ordering
  import opened Slashing
  import opened Governance
  import S = SlashingTheorems

  // ---- Votes and quorum ------------------------------------------------------------------------

  function Stakes(validators: map<Key, Record>): map<Key, nat> { map k | k in validators :: validators[k].stake }

  /** The votes that find a validator, with the stake each one carries. */
  function Backed(p: Proposal, validators: map<Key, Record>, address: Key -> string): map<string, nat>
  {
    map a | a in p.votes && Find(validators, address, a).Some? :: StakeBehind(validators, address, a)
  }

  /** The validators whose vote counts: those found under an address that voted. */
  function Voters(p: Proposal, validators: map<Key, Record>, address: Key -> string): set<Key>
  {
    set k | k in validators && address(k) in p.votes && Find(validators, address, address(k)) == Some(k)
  }

  /** Votes and voters correspond one to one, whatever the address function does: each
      address finds at most one validator, and each voter is found under its own. */
  lemma BackedByVoters(p: Proposal, validators: map<Key, Record>, address: Key -> string)
    ensures Sum(Backed(p, validators, address))
         == Sum(Restrict(Stakes(validators), Voters(p, validators, address)))
  {
    var backed := Backed(p, validators, address);
    var voting := Restrict(Stakes(validators), Voters(p, validators, address));
    var found := map a | a in backed :: Find(validators, address, a).value;
    forall a, b | a in backed && b in backed && found[a] == found[b] ensures a == b {
      assert address(found[a]) == a && address(found[b]) == b;
    }
    SumInjection(backed, found, voting);
    SumInjection(voting, map k | k in voting :: address(k), backed);
  }

  function AllWeights(p: Proposal, validators: map<Key, Record>, address: Key -> string): map<string, nat>
  {
    map a | a in p.votes :: StakeBehind(validators, address, a)
  }

  /** Every vote is a yes or a no. */
  lemma YesAndNo(p: Proposal, validators: map<Key, Record>, address: Key -> string)
    ensures Sum(AllWeights(p, validators, address))
         == Sum(Weights(p, validators, address, true)) + Sum(Weights(p, validators, address, false))
  {
    var all := AllWeights(p, validators, address);
    var ayes := set a | a in p.votes && p.votes[a];
    SumSplit(all, ayes);
    assert Restrict(all, ayes) == Weights(p, validators, address, true);
    assert all - ayes == Weights(p, validators, address, false);
  }

  /** Votes that find nobody weigh nothing. */
  lemma OnlyBackedCount(p: Proposal, validators: map<Key, Record>, address: Key -> string)
    ensures Sum(AllWeights(p, validators, address)) == Sum(Backed(p, validators, address))
  {
    var all := AllWeights(p, validators, address);
    var found := set a | a in p.votes && Find(validators, address, a).Some?;
    SumSplit(all, found);
    assert Restrict(all, found) == Backed(p, validators, address);
    SumOfZeros(all - found);
  }

  lemma VotesSplit(p: Proposal, l: Ledger, cfg: GovConfig)
    ensures VotedPower(p, l, cfg, true) + VotedPower(p, l, cfg, false) == Sum(Backed(p, l.validators, cfg.address))
  {
    YesAndNo(p, l.validators, cfg.address);
    OnlyBackedCount(p, l.validators, cfg.address);
  }

  /** Yes and no together never weigh more than all recorded stake, whatever the address
      function does. */
  lemma VotesAtMostStake(p: Proposal, l: Ledger, cfg: GovConfig)
    ensures VotedPower(p, l, cfg, true) + VotedPower(p, l, cfg, false) <= Sum(Stakes(l.validators))
  {
    VotesSplit(p, l, cfg);
    BackedByVoters(p, l.validators, cfg.address);
    SumSplit(Stakes(l.validators), Voters(p, l.validators, cfg.address));
  }

  function ActiveKeys(validators: map<Key, Record>): set<Key>
  {
    set k | k in validators && validators[k].status.Active?
  }

  /** Stake that votes without being active. */
  ghost function BarredVoting(p: Proposal, l: Ledger, cfg: GovConfig): nat
  {
    Sum(Restrict(Stakes(l.validators), Voters(p, l.validators, cfg.address) - ActiveKeys(l.validators)))
  }

  /** Active stake that does not vote. */
  ghost function ActiveSilent(p: Proposal, l: Ledger, cfg: GovConfig): nat
  {
    Sum(Restrict(Stakes(l.validators), ActiveKeys(l.validators) - Voters(p, l.validators, cfg.address)))
  }

  lemma PowerIsActiveStake(l: Ledger)
    ensures Power(l) == Sum(Restrict(Stakes(l.validators), ActiveKeys(l.validators)))
  {
    var active := ActiveKeys(l.validators);
    SumSplit(Powers(l.validators), active);
    assert Restrict(Powers(l.validators), active) == Restrict(Stakes(l.validators), active);
    SumOfZeros(Powers(l.validators) - active);
  }

  /** By how much the votes miss the power that quorum is measured against. */
  lemma VotesAgainstPower(p: Proposal, l: Ledger, cfg: GovConfig)
    ensures VotedPower(p, l, cfg, true) + VotedPower(p, l, cfg, false) + ActiveSilent(p, l, cfg)
         == Power(l) + BarredVoting(p, l, cfg)
  {
    var stakes := Stakes(l.validators);
    var voters, active := Voters(p, l.validators, cfg.address), ActiveKeys(l.validators);
    VotesSplit(p, l, cfg);
    BackedByVoters(p, l.validators, cfg.address);
    PowerIsActiveStake(l);
    RestrictSplit(stakes, voters, active);
    RestrictSplit(stakes, active, voters);
    assert voters * active == active * voters;
  }

  /** The votes stay within the total power if and only if no more barred stake votes than
      active stake keeps silent. */
  lemma VotesAtMostPower(p: Proposal, l: Ledger, cfg: GovConfig)
    ensures VotedPower(p, l, cfg, true) + VotedPower(p, l, cfg, false) <= Power(l)
            <==> BarredVoting(p, l, cfg) <= ActiveSilent(p, l, cfg)
  {
    VotesAgainstPower(p, l, cfg);
  }

  /** In particular when every voter is active. */
  lemma ActiveVotersStayWithin(p: Proposal, l: Ledger, cfg: GovConfig)
    requires Voters(p, l.validators, cfg.address) <= ActiveKeys(l.validators)
    ensures VotedPower(p, l, cfg, true) + VotedPower(p, l, cfg, false) <= Power(l)
  {
    VotesAgainstPower(p, l, cfg);
    SumOfZeros(Restrict(Stakes(l.validators), Voters(p, l.validators, cfg.address) - ActiveKeys(l.validators)));
  }

  /** Despite saturating products, quorum is the exact strict comparison, except that it
      is out of reach once the right-hand product reaches 2^64 - 1. */
  lemma QuorumIsExact(p: Proposal, l: Ledger, cfg: GovConfig)
    requires Quorum(p, l, cfg).Some?
    ensures Quorum(p, l, cfg).value <==>
              && Power(l) > 0
              && VotedPower(p, l, cfg, true) * cfg.quorumDen > Power(l) * cfg.quorumNum
              && Power(l) * cfg.quorumNum < U64_MAX
  {
  }

  /** What quorum leaves to the noes, for every ledger: less than the complementary share,
      corrected by the barred stake that votes and the active stake that does not. */
  lemma QuorumLeaves(p: Proposal, l: Ledger, cfg: GovConfig)
    requires Quorum(p, l, cfg) == Some(true) && cfg.quorumNum <= cfg.quorumDen
    ensures (VotedPower(p, l, cfg, false) + ActiveSilent(p, l, cfg)) * cfg.quorumDen
          < Power(l) * (cfg.quorumDen - cfg.quorumNum) + BarredVoting(p, l, cfg) * cfg.quorumDen
  {
    VotesAgainstPower(p, l, cfg);
    QuorumIsExact(p, l, cfg);
    Complement(VotedPower(p, l, cfg, true), VotedPower(p, l, cfg, false) + ActiveSilent(p, l, cfg),
               Power(l), BarredVoting(p, l, cfg), cfg.quorumNum, cfg.quorumDen);
  }

  /** While no more barred stake votes than active stake keeps silent, quorum leaves the
      noes less than the complementary share. */
  lemma QuorumOutvotes(p: Proposal, l: Ledger, cfg: GovConfig)
    requires BarredVoting(p, l, cfg) <= ActiveSilent(p, l, cfg)
    requires Quorum(p, l, cfg) == Some(true) && cfg.quorumNum <= cfg.quorumDen
    ensures VotedPower(p, l, cfg, false) * cfg.quorumDen < Power(l) * (cfg.quorumDen - cfg.quorumNum)
  {
    QuorumLeaves(p, l, cfg);
    MulAdd(VotedPower(p, l, cfg, false), ActiveSilent(p, l, cfg), cfg.quorumDen);
    MulMono(BarredVoting(p, l, cfg), ActiveSilent(p, l, cfg), cfg.quorumDen);
  }

  lemma Complement(yes: nat, rest: nat, total: nat, extra: nat, num: nat, den: nat)
    requires yes + rest == total + extra && num <= den && yes * den > total * num
    ensures rest * den < total * (den - num) + extra * den
  {
    MulAdd(yes, rest, den);
    MulAdd(total, extra, den);
    assert total * (den - num) == total * den - total * num;
  }

  /** Jailed stake counts among the yes votes but not in the total, so a jailed majority
      reaches quorum against an active no. */
  lemma JailedVotesCount(jailed: Key, active: Key, cfg: GovConfig)
    requires jailed != active && cfg.address(jailed) != cfg.address(active)
    requires cfg.quorumNum == 2 && cfg.quorumDen == 3
    ensures var l := Ledger(map[jailed := Record(100, 0, Jailed(1, 1), Some(1)), active := NewRecord(10)], {});
            var votes := map[cfg.address(jailed) := true, cfg.address(active) := false];
            var p := Proposal(SetParam("k", "v"), "", 1, votes, 0);
            Power(l) == 10 && VotedPower(p, l, cfg, false) == 10 && Quorum(p, l, cfg) == Some(true)
  {
    var l := Ledger(map[jailed := Record(100, 0, Jailed(1, 1), Some(1)), active := NewRecord(10)], {});
    var votes := map[cfg.address(jailed) := true, cfg.address(active) := false];
    var p := Proposal(SetParam("k", "v"), "", 1, votes, 0);
    assert Find(l.validators, cfg.address, cfg.address(jailed)) == Some(jailed);
    assert Find(l.validators, cfg.address, cfg.address(active)) == Some(active);
    SumOfTwo(Powers(l.validators), jailed, active);
    SumOfOne(Weights(p, l.validators, cfg.address, true), cfg.address(jailed));
    SumOfOne(Weights(p, l.validators, cfg.address, false), cfg.address(active));
  }

  // ---- What applying does to the proposals -------------------------------------------------------

  lemma ActionKeepsProposals(w: World, slashing: Config, action: Action, now: U64)
    requires ActionResult(w, slashing, action, now).Some?
    ensures var g := ActionResult(w, slashing, action, now).value.gov;
            g.pending == w.gov.pending && g.nextId == w.gov.nextId && g.blockCount == w.gov.blockCount
  {
  }

  /** Applying removes exactly the listed proposals. */
  lemma {:induction false} ApplyRemoves(w: World, slashing: Config, ids: seq<nat>, now: U64)
    requires ApplyIds(w, slashing, ids, now).Some?
    ensures var g := ApplyIds(w, slashing, ids, now).value.0.gov;
            g.pending == WithoutIds(w.gov, ids).pending && g.nextId == w.gov.nextId
    decreases |ids|
  {
    if ids == [] {
      assert WithoutIds(w.gov, ids).pending == w.gov.pending;
    } else {
      var n := |ids| - 1;
      ApplyRemoves(w, slashing, ids[..n], now);
      var v := ApplyIds(w, slashing, ids[..n], now).value.0;
      assert ids == ids[..n] + [ids[n]];
      assert WithoutIds(w.gov, ids).pending == WithoutIds(w.gov, ids[..n]).pending - {ids[n]};
      if ids[n] in v.gov.pending {
        var trimmed := v.(gov := v.gov.(pending := v.gov.pending - {ids[n]}));
        ActionKeepsProposals(trimmed, slashing, v.gov.pending[ids[n]].action, now);
      }
    }
  }

  /** The actions of the listed proposals, in order. */
  function ActionsOf(g: Gov, ids: seq<nat>): seq<Action>
  {
    if ids == [] then []
    else
      var id := ids[|ids| - 1];
      ActionsOf(g, ids[..|ids| - 1]) + (if id in g.pending then [g.pending[id].action] else [])
  }

  /** Each listed proposal is applied once, in order, as it stood. */
  lemma {:induction false} ApplyEach(w: World, slashing: Config, ids: seq<nat>, now: U64)
    requires ApplyIds(w, slashing, ids, now).Some? && Distinct(ids)
    requires forall i :: 0 <= i < |ids| ==> ids[i] in w.gov.pending
    ensures ApplyIds(w, slashing, ids, now).value.1 == ActionsOf(w.gov, ids)
    decreases |ids|
  {
    if ids != [] {
      var n := |ids| - 1;
      ApplyEach(w, slashing, ids[..n], now);
      ApplyRemoves(w, slashing, ids[..n], now);
      assert ids[n] !in ids[..n];
    }
  }

  lemma {:induction false} JudgedAscends(w: World, cfg: GovConfig, ids: seq<nat>, now: U64, v: Verdict)
    requires forall i :: 0 <= i < |ids| ==> ids[i] in w.gov.pending
    requires Ascending(ids, NatLess)
    ensures Ascending(Judged(w, cfg, ids, now, v), NatLess)
    decreases |ids|
  {
    if ids != [] {
      var n := |ids| - 1;
      JudgedAscends(w, cfg, ids[..n], now, v);
      var most := Judged(w, cfg, ids[..n], now, v);
      forall i | 0 <= i < |most| ensures most[i] < ids[n] {
        JudgedMembers(w, cfg, ids[..n], now, v, most[i]);
        var j :| 0 <= j < n && ids[..n][j] == most[i];
        assert NatLess(ids[j], ids[n]);
      }
    }
  }

  /** The pending proposals with a verdict, by id. */
  ghost function Ruled(w: World, cfg: GovConfig, now: U64, v: Verdict): seq<nat>
  {
    Judged(w, cfg, PendingIds(w.gov), now, v)
  }

  lemma RuledMembers(w: World, cfg: GovConfig, now: U64, v: Verdict, id: nat)
    ensures id in Ruled(w, cfg, now, v) <==> id in w.gov.pending && Judge(w, cfg, id, now) == v
  {
    JudgedMembers(w, cfg, PendingIds(w.gov), now, v, id);
  }

  /** The state between expiring and applying. */
  ghost function Trimmed(w: World, cfg: GovConfig, now: U64): World
  {
    w.(gov := WithoutIds(w.gov, Ruled(w, cfg, now, Expire)))
  }

  /** Exactly the live proposals without quorum stay pending, and they stay as they are. */
  predicate Kept(a: Gov, b: Gov, id: nat)
    requires id in a.pending
  {
    id in b.pending && b.pending[id] == a.pending[id]
  }

  lemma ApplyReadyPending(w: World, cfg: GovConfig, slashing: Config, now: U64, id: nat)
    requires ApplyReadyResult(w, cfg, slashing, now).Some?
    ensures var g := ApplyReadyResult(w, cfg, slashing, now).value.0.gov;
            && g.nextId == w.gov.nextId
            && (id in g.pending ==> id in w.gov.pending)
            && (id in w.gov.pending ==>
                  && Judge(w, cfg, id, now) != Overflow
                  && (Judge(w, cfg, id, now) == Keep ==> Kept(w.gov, g, id))
                  && (Judge(w, cfg, id, now) != Keep ==> id !in g.pending))
  {
    ApplyRemoves(Trimmed(w, cfg, now), slashing, Ruled(w, cfg, now, Apply), now);
    RuledMembers(w, cfg, now, Overflow, id);
    RuledMembers(w, cfg, now, Expire, id);
    RuledMembers(w, cfg, now, Apply, id);
  }

  /** The actions carried out are those of the live proposals with quorum, each once, in
      order of their ids, with quorum judged before any of them. */
  lemma ApplyReadyActions(w: World, cfg: GovConfig, slashing: Config, now: U64)
    requires ApplyReadyResult(w, cfg, slashing, now).Some?
    ensures ApplyReadyResult(w, cfg, slashing, now).value.1 == ActionsOf(w.gov, Ruled(w, cfg, now, Apply))
    ensures Distinct(Ruled(w, cfg, now, Apply))
  {
    var ready, w1 := Ruled(w, cfg, now, Apply), Trimmed(w, cfg, now);
    JudgedAscends(w, cfg, PendingIds(w.gov), now, Apply);
    ReadyDistinct(ready);
    forall i | 0 <= i < |ready|
      ensures ready[i] in w1.gov.pending && ready[i] in w.gov.pending
      ensures w1.gov.pending[ready[i]] == w.gov.pending[ready[i]]
    {
      RuledMembers(w, cfg, now, Apply, ready[i]);
      RuledMembers(w, cfg, now, Expire, ready[i]);
    }
    ApplyEach(w1, slashing, ready, now);
    SameActions(w1.gov, w.gov, ready);
  }

  lemma ReadyDistinct(ids: seq<nat>)
    requires Ascending(ids, NatLess)
    ensures Distinct(ids)
  {
    forall i, j | 0 <= i < j < |ids| ensures ids[i] != ids[j] { assert NatLess(ids[i], ids[j]); }
  }

  lemma {:induction false} SameActions(a: Gov, b: Gov, ids: seq<nat>)
    requires forall i :: 0 <= i < |ids| ==> ids[i] in a.pending && Kept(a, b, ids[i])
    ensures ActionsOf(a, ids) == ActionsOf(b, ids)
    decreases |ids|
  {
    if ids != [] { SameActions(a, b, ids[..|ids| - 1]); }
  }

  // ---- Runs ----------------------------------------------------------------------------------------

  datatype Op =
    | Submit(action: Action, proposer: string, height: U64, deposit: U64)
    | Vote(id: U64, voter: string, yes: bool, height: U64)
    | ResetBlock
    | ApplyReady(now: U64)
    | Slash(op: S.Op)

  /** A step that aborts ends the process; leaving the state as it was makes every law below
      hold up to that point. */
  ghost function Step(w: World, cfg: GovConfig, slashing: Config, op: Op): World
  {
    match op
    case Submit(a, who, h, d) => w.(gov := SubmitResult(w.gov, cfg, a, who, h, d).0)
    case Vote(id, who, yes, h) => w.(gov := VoteResult(w.gov, id, who, yes, h).0)
    case ResetBlock => w.(gov := w.gov.(blockCount := 0))
    case ApplyReady(now) =>
      (match ApplyReadyResult(w, cfg, slashing, now)
       case None => w
       case Some((v, _)) => v)
    case Slash(o) => w.(ledger := S.Step(w.ledger, slashing, o))
  }

  ghost function Run(w: World, cfg: GovConfig, slashing: Config, ops: seq<Op>): World
    decreases |ops|
  {
    if ops == [] then w else Run(Step(w, cfg, slashing, ops[0]), cfg, slashing, ops[1..])
  }

  predicate Numbered(w: World) { forall id :: id in w.gov.pending ==> id < w.gov.nextId }

  /** What was proposed, as opposed to how it was voted on. */
  predicate SameProposal(p: Proposal, q: Proposal)
  {
    p.action == q.action && p.proposer == q.proposer && p.height == q.height && p.deposit == q.deposit
  }

  ghost predicate Enters(w: World, cfg: GovConfig, slashing: Config, op: Op, id: nat)
  {
    id !in w.gov.pending && id in Step(w, cfg, slashing, op).gov.pending
  }

  ghost predicate Leaves(w: World, cfg: GovConfig, slashing: Config, op: Op, id: nat)
  {
    id in w.gov.pending && id !in Step(w, cfg, slashing, op).gov.pending
  }

  lemma ApplyReadyStep(w: World, cfg: GovConfig, slashing: Config, op: Op, id: nat)
    requires op.ApplyReady?
    ensures var v := Step(w, cfg, slashing, op).gov;
            && v.nextId == w.gov.nextId && (id in v.pending ==> id in w.gov.pending && Kept(w.gov, v, id))
  {
    if ApplyReadyResult(w, cfg, slashing, op.now).Some? { ApplyReadyPending(w, cfg, slashing, op.now, id); }
  }

  /** A step brings in at most the next id, and never changes what a pending id proposes. */
  lemma StepProposals(w: World, cfg: GovConfig, slashing: Config, op: Op, id: nat)
    ensures var v := Step(w, cfg, slashing, op).gov;
            && w.gov.nextId <= v.nextId
            && (Enters(w, cfg, slashing, op, id) ==> id == w.gov.nextId < v.nextId)
            && (id in w.gov.pending && id in v.pending && id < w.gov.nextId ==>
                  SameProposal(w.gov.pending[id], v.pending[id]))
  {
    if op.ApplyReady? { ApplyReadyStep(w, cfg, slashing, op, id); }
  }

  lemma StepNumbered(w: World, cfg: GovConfig, slashing: Config, op: Op)
    requires Numbered(w)
    ensures Numbered(Step(w, cfg, slashing, op))
  {
    var v := Step(w, cfg, slashing, op);
    forall id | id in v.gov.pending ensures id < v.gov.nextId {
      StepProposals(w, cfg, slashing, op, id);
    }
  }

  ghost function TimesEntered(w: World, cfg: GovConfig, slashing: Config, ops: seq<Op>, id: nat): nat
    decreases |ops|
  {
    if ops == [] then 0
    else Count(Enters(w, cfg, slashing, ops[0], id))
         + TimesEntered(Step(w, cfg, slashing, ops[0]), cfg, slashing, ops[1..], id)
  }

  ghost function TimesLeft(w: World, cfg: GovConfig, slashing: Config, ops: seq<Op>, id: nat): nat
    decreases |ops|
  {
    if ops == [] then 0
    else Count(Leaves(w, cfg, slashing, ops[0], id))
         + TimesLeft(Step(w, cfg, slashing, ops[0]), cfg, slashing, ops[1..], id)
  }

  /** No id enters twice, none is reused, and each proposal leaves at most once. */
  lemma {:induction false} LeavesAtMostOnce(w: World, cfg: GovConfig, slashing: Config, ops: seq<Op>, id: nat)
    requires Numbered(w)
    ensures TimesEntered(w, cfg, slashing, ops, id) <= Count(id >= w.gov.nextId)
    ensures TimesLeft(w, cfg, slashing, ops, id) + Count(id in Run(w, cfg, slashing, ops).gov.pending)
         == TimesEntered(w, cfg, slashing, ops, id) + Count(id in w.gov.pending)
    ensures TimesLeft(w, cfg, slashing, ops, id) <= 1
    decreases |ops|
  {
    if ops != [] {
      StepNumbered(w, cfg, slashing, ops[0]);
      StepProposals(w, cfg, slashing, ops[0], id);
      LeavesAtMostOnce(Step(w, cfg, slashing, ops[0]), cfg, slashing, ops[1..], id);
    }
  }

  lemma {:induction false} ApplyKeepsBlockCount(w: World, slashing: Config, ids: seq<nat>, now: U64)
    requires ApplyIds(w, slashing, ids, now).Some?
    ensures ApplyIds(w, slashing, ids, now).value.0.gov.blockCount == w.gov.blockCount
    decreases |ids|
  {
    if ids != [] {
      var n := |ids| - 1;
      ApplyKeepsBlockCount(w, slashing, ids[..n], now);
      var v := ApplyIds(w, slashing, ids[..n], now).value.0;
      if ids[n] in v.gov.pending {
        var trimmed := v.(gov := v.gov.(pending := v.gov.pending - {ids[n]}));
        ActionKeepsProposals(trimmed, slashing, v.gov.pending[ids[n]].action, now);
      }
    }
  }

  lemma StepBlockCount(w: World, cfg: GovConfig, slashing: Config, op: Op)
    requires !op.ResetBlock? && w.gov.blockCount <= MAX_PROPOSALS_PER_BLOCK
    ensures var g := Step(w, cfg, slashing, op).gov;
            g.nextId - w.gov.nextId == g.blockCount - w.gov.blockCount && g.blockCount <= MAX_PROPOSALS_PER_BLOCK
  {
    if op.ApplyReady? && ApplyReadyResult(w, cfg, slashing, op.now).Some? {
      ApplyReadyPending(w, cfg, slashing, op.now, 0);
      ApplyKeepsBlockCount(Trimmed(w, cfg, op.now), slashing, Ruled(w, cfg, op.now, Apply), op.now);
    }
  }

  /** Between two resets of the block counter at most ten proposals get an id. */
  lemma {:induction false} AtMostTenPerBlock(w: World, cfg: GovConfig, slashing: Config, ops: seq<Op>)
    requires w.gov.blockCount <= MAX_PROPOSALS_PER_BLOCK && forall i :: 0 <= i < |ops| ==> !ops[i].ResetBlock?
    ensures var g := Run(w, cfg, slashing, ops).gov;
            g.nextId - w.gov.nextId == g.blockCount - w.gov.blockCount && g.blockCount <= MAX_PROPOSALS_PER_BLOCK
    decreases |ops|
  {
    if ops != [] {
      StepBlockCount(w, cfg, slashing, ops[0]);
      AtMostTenPerBlock(Step(w, cfg, slashing, ops[0]), cfg, slashing, ops[1..]);
    }
  }

  /** A proposal leaves only through `apply_ready`, either applied with quorum while live
      or expired unapplied. */
  lemma LeavesAppliedOrExpired(w: World, cfg: GovConfig, slashing: Config, op: Op, id: nat)
    requires Leaves(w, cfg, slashing, op, id)
    ensures op.ApplyReady? && ApplyReadyResult(w, cfg, slashing, op.now).Some?
    ensures Judge(w, cfg, id, op.now) == Apply || Judge(w, cfg, id, op.now) == Expire
    ensures id in Ruled(w, cfg, op.now, Apply) <==> IsActive(w.gov.pending[id], op.now, w.gov.ttl)
  {
    if op.ApplyReady? {
      if ApplyReadyResult(w, cfg, slashing, op.now).Some? {
        ApplyReadyPending(w, cfg, slashing, op.now, id);
        RuledMembers(w, cfg, op.now, Apply, id);
      }
    }
  }

  // ---- Membership ------------------------------------------------------------------------------------

  predicate Unlisted(vset: seq<Validator>, pk: Key) { forall i :: 0 <= i < |vset| ==> vset[i].pk != pk }

  predicate NoDuplicates(vset: seq<Validator>) { forall i, j :: 0 <= i < j < |vset| ==> vset[i].pk != vset[j].pk }

  /** The validator set lists each validator of the ledger once, and nobody else. */
  predicate Matched(w: World)
  {
    && NoDuplicates(w.vset)
    && (forall pk :: pk in w.ledger.validators ==> Listed(w.vset, pk))
    && (forall i :: 0 <= i < |w.vset| ==> w.vset[i].pk in w.ledger.validators)
  }

  lemma {:induction false} WithoutKeyKeeps(vset: seq<Validator>, pk: Key)
    requires NoDuplicates(vset)
    ensures var r := WithoutKey(vset, pk);
            && NoDuplicates(r) && Unlisted(r, pk)
            && (forall k :: k != pk ==> (Listed(r, k) <==> Listed(vset, k)))
    decreases |vset|
  {
    if vset != [] {
      var head, rest := vset[0], vset[1..];
      var r := WithoutKey(rest, pk);
      WithoutKeyKeeps(rest, pk);
      assert vset == [head] + rest;
      ListedCons(head, rest);
      ListedCons(head, r);
      assert Unlisted(rest, head.pk);
      if head.pk != pk {
        assert !Listed(rest, head.pk) && !Listed(r, head.pk);
        NoDuplicatesCons(head, r);
      } else {
        assert WithoutKey(vset, pk) == r;
      }
    }
  }

  lemma ListedCons(head: Validator, rest: seq<Validator>)
    ensures forall k :: Listed([head] + rest, k) <==> head.pk == k || Listed(rest, k)
  {
    var all := [head] + rest;
    forall k ensures Listed(all, k) <==> head.pk == k || Listed(rest, k) {
      if head.pk == k { assert all[0].pk == k; }
      if Listed(rest, k) {
        var i :| 0 <= i < |rest| && rest[i].pk == k;
        assert all[i + 1].pk == k;
      }
      if Listed(all, k) && head.pk != k {
        var i :| 0 <= i < |all| && all[i].pk == k;
        assert rest[i - 1].pk == k;
      }
    }
  }

  lemma NoDuplicatesCons(head: Validator, rest: seq<Validator>)
    requires NoDuplicates(rest) && !Listed(rest, head.pk)
    ensures NoDuplicates([head] + rest)
  {
  }

  lemma AddKeepsMatch(w: World, pk: Key, stake: U64)
    requires Matched(w) && AddResult(w, pk, stake).Some?
    ensures Matched(AddResult(w, pk, stake).value)
  {
    var v := AddResult(w, pk, stake).value;
    if !Listed(w.vset, pk) {
      forall k | k in v.ledger.validators ensures Listed(v.vset, k) {
        if k == pk {
          assert v.vset[|w.vset|].pk == k;
        } else {
          var i :| 0 <= i < |w.vset| && w.vset[i].pk == k;
          assert v.vset[i].pk == k;
        }
      }
    }
  }

  lemma RemoveKeepsMatch(w: World, pk: Key)
    requires Matched(w)
    ensures Matched(w.(ledger := w.ledger.(validators := w.ledger.validators - {pk}), vset := WithoutKey(w.vset, pk)))
  {
    var r := WithoutKey(w.vset, pk);
    WithoutKeyKeeps(w.vset, pk);
    forall i | 0 <= i < |r| ensures r[i].pk in w.ledger.validators - {pk} {
      assert Listed(r, r[i].pk);
      assert Listed(w.vset, r[i].pk);
    }
  }

  lemma ActionKeepsMatch(w: World, slashing: Config, action: Action, now: U64)
    requires Matched(w) && ActionResult(w, slashing, action, now).Some?
    ensures Matched(ActionResult(w, slashing, action, now).value)
  {
    match action
    case AddValidator(pkHex, stake) => if ParseKey(pkHex).Some? { AddKeepsMatch(w, ParseKey(pkHex).value, stake); }
    case RemoveValidator(pkHex) => if ParseKey(pkHex).Some? { RemoveKeepsMatch(w, ParseKey(pkHex).value); }
    case UnjailValidator(pkHex) =>
      if ParseKey(pkHex).Some? { S.StepFrame(w.ledger, slashing, S.Unjail(ParseKey(pkHex).value, now), []); }
    case SetParam(_, _) =>
  }

  lemma {:induction false} ApplyKeepsMatch(w: World, slashing: Config, ids: seq<nat>, now: U64)
    requires Matched(w) && ApplyIds(w, slashing, ids, now).Some?
    ensures Matched(ApplyIds(w, slashing, ids, now).value.0)
    decreases |ids|
  {
    if ids != [] {
      var n := |ids| - 1;
      ApplyKeepsMatch(w, slashing, ids[..n], now);
      var v := ApplyIds(w, slashing, ids[..n], now).value.0;
      if ids[n] in v.gov.pending {
        var trimmed := v.(gov := v.gov.(pending := v.gov.pending - {ids[n]}));
        ActionKeepsMatch(trimmed, slashing, v.gov.pending[ids[n]].action, now);
      }
    }
  }

  /** Over every run of governance and slashing, the validator set and the ledger keep the
      same members, without duplicates. */
  lemma {:induction false} RunKeepsMatch(w: World, cfg: GovConfig, slashing: Config, ops: seq<Op>)
    requires Matched(w)
    ensures Matched(Run(w, cfg, slashing, ops))
    decreases |ops|
  {
    if ops != [] {
      match ops[0] {
        case ApplyReady(now) =>
          if ApplyReadyResult(w, cfg, slashing, now).Some? {
            ApplyKeepsMatch(Trimmed(w, cfg, now), slashing, Ruled(w, cfg, now, Apply), now);
          }
        case Slash(o) => S.StepFrame(w.ledger, slashing, o, []);
        case _ =>
      }
      RunKeepsMatch(Step(w, cfg, slashing, ops[0]), cfg, slashing, ops[1..]);
    }
  }
}
