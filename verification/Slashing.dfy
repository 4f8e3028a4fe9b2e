/** Validator records and the slashing ledger.  Evidence counts only as an offender and
    the height of the offence; coherence floats never decide anything here. */
module Slashing {
  import opened MachineInts
  import opened MapSums
  import opened Text

  type Key = Bytes

  datatype Status = Active | Jailed(since: U64, slashCount: U32) | Tombstoned

  datatype Record = Record(stake: U64, slashedTotal: U64, status: Status, jailedAt: Option<U64>)

  datatype Config = Config(doubleVoteFraction: U64, downtimeFraction: U64, unjailDelay: U64)

  datatype Ledger = Ledger(validators: map<Key, Record>, processed: set<(U64, Key)>)

  datatype Error =
    | DuplicateEvidence | UnknownValidator | IsTombstoned | NotJailed | DelayNotElapsed(remaining: U64)
    | ZeroStake | AlreadyJailed

  /** Aborted: a division by zero or an overflow ends the process. */
  datatype Outcome = Done | Rejected(error: Error) | Aborted

  function NewRecord(stake: U64): Record { Record(stake, 0, Active, None) }

  // ---- Slashing one record -----------------------------------------------------------

  function SlashAmount(stake: U64, fraction: U64): (slash: U64)
    requires fraction > 0
    ensures slash >= 1 && (stake > 0 ==> slash <= stake)
  {
    Max(Div(stake, fraction), 1)
  }

  function Cut(r: Record, slash: U64): Record
  {
    r.(stake := SatSub(r.stake, slash), slashedTotal := SatAdd64(r.slashedTotal, slash))
  }

  /** The status after evidence: two counted offences lead to the tombstone, anything else
      to a jail cell, and a tombstone counts as no offence at all. */
  function Punished(r: Record, now: U64): Record
  {
    if r.status.Jailed? && r.status.slashCount >= 2 then r.(status := Tombstoned)
    else
      var count := if r.status.Jailed? then r.status.slashCount + 1 else 1;
      r.(status := Jailed(now, count), jailedAt := Some(now))
  }

  // ---- Operations ----------------------------------------------------------------------

  function EvidenceResult(l: Ledger, cfg: Config, height: U64, offender: Key, now: U64): (Ledger, Outcome)
  {
    if (height, offender) in l.processed then (l, Rejected(DuplicateEvidence))
    else
      var l1 := l.(processed := l.processed + {(height, offender)});
      if offender !in l.validators then (l1, Rejected(UnknownValidator))
      else if cfg.doubleVoteFraction == 0 then (l1, Aborted)
      else
        var r := l.validators[offender];
        var r' := Punished(Cut(r, SlashAmount(r.stake, cfg.doubleVoteFraction)), now);
        (l1.(validators := l.validators[offender := r']), Done)
  }

  function UnjailResult(l: Ledger, cfg: Config, key: Key, now: U64): (Ledger, Outcome)
  {
    if key !in l.validators then (l, Rejected(UnknownValidator))
    else
      var r := l.validators[key];
      match r.status
      case Tombstoned => (l, Rejected(IsTombstoned))
      case Active => (l, Rejected(NotJailed))
      case Jailed(since, _) =>
        if since + cfg.unjailDelay > U64_MAX then (l, Aborted)
        else if now < since + cfg.unjailDelay then (l, Rejected(DelayNotElapsed(since + cfg.unjailDelay - now)))
        else if r.stake == 0 then (l, Rejected(ZeroStake))
        else (l.(validators := l.validators[key := r.(status := Active, jailedAt := None)]), Done)
  }

  function DowntimeResult(l: Ledger, cfg: Config, key: Key, now: U64): (Ledger, Outcome)
  {
    if key !in l.validators then (l, Rejected(UnknownValidator))
    else
      var r := l.validators[key];
      if !r.status.Active? then (l, Rejected(AlreadyJailed))
      else if cfg.downtimeFraction == 0 then (l, Aborted)
      else
        var cut := Cut(r, SlashAmount(r.stake, cfg.downtimeFraction));
        (l.(validators := l.validators[key := cut.(status := Jailed(now, 1), jailedAt := Some(now))]), Done)
  }

  // ---- Voting power --------------------------------------------------------------------

  function PowerOf(l: Ledger, key: Key): U64
  {
    if key in l.validators && l.validators[key].status.Active? then l.validators[key].stake else 0
  }

  function Powers(validators: map<Key, Record>): map<Key, nat>
  {
    map k | k in validators :: if validators[k].status.Active? then validators[k].stake else 0
  }

  ghost function Power(l: Ledger): nat { Sum(Powers(l.validators)) }

  // ---- The ledger as the source keeps it -------------------------------------------------

  class StakeLedger {
    var validators: map<Key, Record>
    var processedEvidence: set<(U64, Key)>
    const config: Config

    function View(): Ledger
      reads this
    {
      Ledger(validators, processedEvidence)
    }

    constructor (cfg: Config)
      ensures View() == Ledger(map[], {}) && config == cfg
    {
      validators, processedEvidence, config := map[], {}, cfg;
    }

    method ApplyEvidence(height: U64, offender: Key, now: U64) returns (r: Outcome)
      modifies this
      ensures (View(), r) == EvidenceResult(old(View()), config, height, offender, now)
    {
      if (height, offender) in processedEvidence { return Rejected(DuplicateEvidence); }
      processedEvidence := processedEvidence + {(height, offender)};
      if offender !in validators { return Rejected(UnknownValidator); }
      if config.doubleVoteFraction == 0 { return Aborted; }
      var record := validators[offender];
      record := Cut(record, SlashAmount(record.stake, config.doubleVoteFraction));
      if record.status.Jailed? && record.status.slashCount >= 2 {
        record := record.(status := Tombstoned);
      } else {
        var count := 1;
        if record.status.Jailed? { count := record.status.slashCount + 1; }
        record := record.(status := Jailed(now, count), jailedAt := Some(now));
      }
      validators := validators[offender := record];
      return Done;
    }

    method Unjail(key: Key, now: U64) returns (r: Outcome)
      modifies this
      ensures (View(), r) == UnjailResult(old(View()), config, key, now)
    {
      if key !in validators { return Rejected(UnknownValidator); }
      var record := validators[key];
      match record.status {
        case Tombstoned => return Rejected(IsTombstoned);
        case Active => return Rejected(NotJailed);
        case Jailed(since, _) =>
          var free := since + config.unjailDelay;
          if free > U64_MAX { return Aborted; }
          if now < free { return Rejected(DelayNotElapsed(free - now)); }
          if record.stake == 0 { return Rejected(ZeroStake); }
          validators := validators[key := record.(status := Active, jailedAt := None)];
          return Done;
      }
    }

    method SlashDowntime(key: Key, now: U64) returns (r: Outcome)
      modifies this
      ensures (View(), r) == DowntimeResult(old(View()), config, key, now)
    {
      if key !in validators { return Rejected(UnknownValidator); }
      var record := validators[key];
      if !record.status.Active? { return Rejected(AlreadyJailed); }
      if config.downtimeFraction == 0 { return Aborted; }
      record := Cut(record, SlashAmount(record.stake, config.downtimeFraction));
      validators := validators[key := record.(status := Jailed(now, 1), jailedAt := Some(now))];
      return Done;
    }

    /** The sum of the active stakes; a sum beyond 64 bits aborts. */
    method TotalPower() returns (r: Option<U64>)
      ensures r == if Power(View()) <= U64_MAX then Some(Power(View())) else None
    {
      r := CheckedSum(Powers(validators));
    }
  }
}
