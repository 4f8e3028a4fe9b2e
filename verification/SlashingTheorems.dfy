/** What jailing, tombstones, evidence and slashed stake obey over every run. */
module SlashingTheorems {
  import opened MachineInts
  import opened MapSums
  import opened Slashing

  datatype Op =
    | Evidence(height: U64, offender: Key, now: U64)
    | Unjail(key: Key, now: U64)
    | Downtime(key: Key, now: U64)

  function Result(l: Ledger, cfg: Config, op: Op): (Ledger, Outcome)
  {
    match op
    case Evidence(h, who, now) => EvidenceResult(l, cfg, h, who, now)
    case Unjail(who, now) => UnjailResult(l, cfg, who, now)
    case Downtime(who, now) => DowntimeResult(l, cfg, who, now)
  }

  function Step(l: Ledger, cfg: Config, op: Op): Ledger { Result(l, cfg, op).0 }

  function Run(l: Ledger, cfg: Config, ops: seq<Op>): Ledger
    decreases |ops|
  {
    if ops == [] then l else Run(Step(l, cfg, ops[0]), cfg, ops[1..])
  }

  function Target(op: Op): Key
  {
    match op
    case Evidence(_, who, _) => who
    case Unjail(who, _) => who
    case Downtime(who, _) => who
  }

  predicate Slashes(l: Ledger, cfg: Config, op: Op, v: Key)
  {
    !op.Unjail? && Target(op) == v && Result(l, cfg, op).1.Done?
  }

  predicate Frees(l: Ledger, cfg: Config, op: Op, v: Key)
  {
    op.Unjail? && op.key == v && Result(l, cfg, op).1.Done?
  }

  /** A step changes only the validator it names, only by slashing or freeing it, and
      never adds or removes one. */
  lemma StepFrame(l: Ledger, cfg: Config, op: Op, v: Key)
    ensures Step(l, cfg, op).validators.Keys == l.validators.Keys
    ensures v in l.validators && !Slashes(l, cfg, op, v) && !Frees(l, cfg, op, v) ==>
              Step(l, cfg, op).validators[v] == l.validators[v]
    ensures Slashes(l, cfg, op, v) || Frees(l, cfg, op, v) ==> v in l.validators
  {
  }

  // ---- The status law --------------------------------------------------------------------

  /** Slashes of a validator since it was last active, starting from `n`. */
  function SlashesSince(l: Ledger, cfg: Config, ops: seq<Op>, v: Key, n: nat): nat
    decreases |ops|
  {
    if ops == [] then n
    else
      var m := if Slashes(l, cfg, ops[0], v) then n + 1 else if Frees(l, cfg, ops[0], v) then 0 else n;
      SlashesSince(Step(l, cfg, ops[0]), cfg, ops[1..], v, m)
  }

  /** The height at which a validator was last slashed, starting from `h`. */
  function LastSlash(l: Ledger, cfg: Config, ops: seq<Op>, v: Key, h: U64): U64
    decreases |ops|
  {
    if ops == [] then h
    else LastSlash(Step(l, cfg, ops[0]), cfg, ops[1..], v, if Slashes(l, cfg, ops[0], v) then ops[0].now else h)
  }

  /** The status of a validator after `n` slashes since it was last active, the latest at
      height `h`: the third leads to the tombstone, and the count starts over from there. */
  function StatusAfter(n: nat, h: U64): Status
  {
    if n == 0 then Active
    else if n % 3 == 1 then Jailed(h, 1)
    else if n % 3 == 2 then Jailed(h, 2)
    else Tombstoned
  }

  lemma SlashFollowsLaw(l: Ledger, cfg: Config, op: Op, v: Key, n: nat, h: U64)
    requires Slashes(l, cfg, op, v) && l.validators[v].status == StatusAfter(n, h)
    ensures Step(l, cfg, op).validators[v].status == StatusAfter(n + 1, op.now)
  {
  }

  /** Over every run the status is a function of the slashes since the validator was last
      active and the height of the latest one. */
  lemma {:induction false} StatusLaw(l: Ledger, cfg: Config, ops: seq<Op>, v: Key, n: nat, h: U64)
    requires v in l.validators && l.validators[v].status == StatusAfter(n, h)
    ensures var l' := Run(l, cfg, ops);
            v in l'.validators && l'.validators[v].status
                               == StatusAfter(SlashesSince(l, cfg, ops, v, n), LastSlash(l, cfg, ops, v, h))
    decreases |ops|
  {
    if ops != [] {
      var op := ops[0];
      StepFrame(l, cfg, op, v);
      if Slashes(l, cfg, op, v) {
        SlashFollowsLaw(l, cfg, op, v, n, h);
        StatusLaw(Step(l, cfg, op), cfg, ops[1..], v, n + 1, op.now);
      } else if Frees(l, cfg, op, v) {
        StatusLaw(Step(l, cfg, op), cfg, ops[1..], v, 0, h);
      } else {
        StatusLaw(Step(l, cfg, op), cfg, ops[1..], v, n, h);
      }
    }
  }

  /** A validator that starts active is freed again only once the full delay has passed
      since its latest slash, and never from the tombstone. */
  lemma FreedAfterDelay(l: Ledger, cfg: Config, ops: seq<Op>, v: Key, op: Op)
    requires v in l.validators && l.validators[v].status == Active
    requires Frees(Run(l, cfg, ops), cfg, op, v)
    ensures op.now >= LastSlash(l, cfg, ops, v, 0) + cfg.unjailDelay
    ensures SlashesSince(l, cfg, ops, v, 0) % 3 != 0
  {
    StatusLaw(l, cfg, ops, v, 0, 0);
  }

  /** The counted offences of a jailed validator are one or two. */
  lemma JailCountIsOneOrTwo(l: Ledger, cfg: Config, ops: seq<Op>, v: Key)
    requires v in l.validators && l.validators[v].status == Active
    ensures var s := Run(l, cfg, ops).validators; v in s && (s[v].status.Jailed? ==> 1 <= s[v].status.slashCount <= 2)
  {
    StatusLaw(l, cfg, ops, v, 0, 0);
  }

  /** A tombstone is entered exactly at a slash that completes a group of three. */
  lemma TombstoneAtThirdSlash(l: Ledger, cfg: Config, ops: seq<Op>, v: Key, op: Op)
    requires v in l.validators && l.validators[v].status == Active
    requires v in Run(l, cfg, ops).validators
    ensures var m := Run(l, cfg, ops);
            (m.validators[v].status != Tombstoned && v in Step(m, cfg, op).validators
             && Step(m, cfg, op).validators[v].status == Tombstoned)
            <==> (Slashes(m, cfg, op, v) && SlashesSince(l, cfg, ops, v, 0) % 3 == 2)
  {
    var m := Run(l, cfg, ops);
    StatusLaw(l, cfg, ops, v, 0, 0);
    StepFrame(m, cfg, op, v);
    if Slashes(m, cfg, op, v) {
      SlashFollowsLaw(m, cfg, op, v, SlashesSince(l, cfg, ops, v, 0), LastSlash(l, cfg, ops, v, 0));
    }
  }

  /** Unjailing and downtime never lift a tombstone.  Fresh evidence does: it moves the
      validator back to jail with a count of one. */
  lemma TombstoneLiftedOnlyByEvidence(l: Ledger, cfg: Config, op: Op, v: Key)
    requires v in l.validators && l.validators[v].status == Tombstoned
    ensures var s := Step(l, cfg, op).validators;
            && v in s
            && (s[v].status != Tombstoned <==>
                  && op.Evidence? && op.offender == v && (op.height, v) !in l.processed
                  && cfg.doubleVoteFraction != 0)
            && (s[v].status != Tombstoned ==> s[v].status == Jailed(op.now, 1))
  {
  }

  lemma FreshEvidence(l: Ledger, cfg: Config, height: U64, v: Key, now: U64, n: nat, h: U64)
    requires v in l.validators && l.validators[v].status == StatusAfter(n, h)
    requires (height, v) !in l.processed && cfg.doubleVoteFraction > 0
    ensures var l' := Step(l, cfg, Evidence(height, v, now));
            && v in l'.validators && l'.validators[v].status == StatusAfter(n + 1, now)
            && l'.processed == l.processed + {(height, v)}
  {
    SlashFollowsLaw(l, cfg, Evidence(height, v, now), v, n, h);
  }

  /** Three offences bring an active validator under the tombstone; a fourth brings it
      back to jail, from where it may be freed. */
  lemma TombstoneIsNotFinal(l: Ledger, cfg: Config, v: Key)
    requires v in l.validators && l.validators[v].status == Active && cfg.doubleVoteFraction > 0
    requires {(1, v), (2, v), (3, v), (4, v)} !! l.processed
    ensures var l2 := Step(Step(l, cfg, Evidence(1, v, 1)), cfg, Evidence(2, v, 2));
            var l3 := Step(l2, cfg, Evidence(3, v, 3));
            var l4 := Step(l3, cfg, Evidence(4, v, 4));
            && v in l3.validators && l3.validators[v].status == Tombstoned
            && v in l4.validators && l4.validators[v].status == Jailed(4, 1)
  {
    FreshEvidence(l, cfg, 1, v, 1, 0, 0);
    var l1 := Step(l, cfg, Evidence(1, v, 1));
    FreshEvidence(l1, cfg, 2, v, 2, 1, 1);
    var l2 := Step(l1, cfg, Evidence(2, v, 2));
    FreshEvidence(l2, cfg, 3, v, 3, 2, 2);
    FreshEvidence(Step(l2, cfg, Evidence(3, v, 3)), cfg, 4, v, 4, 3, 3);
  }

  // ---- Evidence counts once ----------------------------------------------------------------

  function TimesPunished(l: Ledger, cfg: Config, ops: seq<Op>, height: U64, v: Key): nat
    decreases |ops|
  {
    if ops == [] then 0
    else Count(ops[0].Evidence? && ops[0].height == height && Slashes(l, cfg, ops[0], v))
         + TimesPunished(Step(l, cfg, ops[0]), cfg, ops[1..], height, v)
  }

  /** Evidence about one height and offender slashes at most once in any run, and not at
      all once it has been recorded, even for an offender unknown at the time. */
  lemma {:induction false} PunishedOnce(l: Ledger, cfg: Config, ops: seq<Op>, height: U64, v: Key)
    ensures TimesPunished(l, cfg, ops, height, v) <= Count((height, v) !in l.processed)
    decreases |ops|
  {
    if ops != [] { PunishedOnce(Step(l, cfg, ops[0]), cfg, ops[1..], height, v); }
  }

  // ---- Slashed stake is accounted for -------------------------------------------------------

  function Worth(r: Record): nat { r.stake + r.slashedTotal }

  /** One cut keeps stake plus slashed total exactly when nothing saturates: positive stake
      moves over unit by unit, empty stake is charged one unit anyway. */
  lemma CutAccounts(r: Record, fraction: U64)
    requires fraction > 0
    ensures var slash := SlashAmount(r.stake, fraction);
            var cut := Cut(r, slash);
            && (r.stake > 0 ==> (Worth(cut) == Worth(r) <==> r.slashedTotal + slash <= U64_MAX))
            && (r.stake == 0 ==> Worth(cut) == Worth(r) + Count(r.slashedTotal < U64_MAX))
            && (Worth(cut) >= Worth(r) <==> r.stake == 0 || r.slashedTotal + slash <= U64_MAX)
            && (Worth(r) <= U64_MAX ==> Worth(cut) <= U64_MAX)
  {
  }

  /** Per step: below 2^64 in total, slashing positive stake conserves, slashing empty
      stake adds one, everything else changes nothing. */
  lemma StepAccounts(l: Ledger, cfg: Config, op: Op, v: Key)
    requires v in l.validators && Worth(l.validators[v]) <= U64_MAX
    ensures var r, s := l.validators[v], Step(l, cfg, op).validators;
            && v in s
            && Worth(s[v]) <= U64_MAX
            && Worth(s[v]) == Worth(r) + Count(Slashes(l, cfg, op, v) && r.stake == 0 && r.slashedTotal < U64_MAX)
            && s[v].stake <= r.stake
  {
    StepFrame(l, cfg, op, v);
    if Slashes(l, cfg, op, v) {
      CutAccounts(l.validators[v], if op.Evidence? then cfg.doubleVoteFraction else cfg.downtimeFraction);
    }
  }

  lemma {:induction false} RunAccounts(l: Ledger, cfg: Config, ops: seq<Op>, v: Key)
    requires v in l.validators && Worth(l.validators[v]) <= U64_MAX
    ensures var r, s := l.validators[v], Run(l, cfg, ops).validators;
            && v in s && Worth(r) <= Worth(s[v]) <= U64_MAX
            && (s[v].stake > 0 ==> Worth(s[v]) == Worth(r))
            && s[v].stake <= r.stake
    decreases |ops|
  {
    if ops != [] {
      StepAccounts(l, cfg, ops[0], v);
      RunAccounts(Step(l, cfg, ops[0]), cfg, ops[1..], v);
    }
  }

  // ---- Voting power ------------------------------------------------------------------------

  /** Power moves with the status: a slash takes away all the power the validator had, and
      freeing it gives back what stake is left. */
  lemma StepPower(l: Ledger, cfg: Config, op: Op)
    ensures var v := Target(op);
            Power(Step(l, cfg, op)) ==
            if Slashes(l, cfg, op, v) then Power(l) - PowerOf(l, v)
            else if Frees(l, cfg, op, v) then Power(l) + l.validators[v].stake
            else Power(l)
  {
    var v := Target(op);
    var l' := Step(l, cfg, op);
    if Slashes(l, cfg, op, v) || Frees(l, cfg, op, v) {
      assert Powers(l'.validators) == Put(Powers(l.validators), v, PowerOf(l', v));
      SumUpdate(Powers(l.validators), v, PowerOf(l', v));
    } else {
      assert l'.validators == l.validators;
    }
  }
}
