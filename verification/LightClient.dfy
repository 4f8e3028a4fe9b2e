/** The registry of IBC light clients.  The fidelity and witness thresholds are floats
    that only gate a step; each step takes the outcome of its gate. */
module LightClient {
  import opened MachineInts
  import opened Ordering
  import opened Text

  datatype Height = Height(revision: U64, height: U64)

  predicate HeightLess(a: Height, b: Height)
  {
    a.revision < b.revision || (a.revision == b.revision && a.height < b.height)
  }

  lemma HeightLessTotal()
    ensures StrictTotal(HeightLess)
  {
  }

  datatype ClientState = ClientState(
    chainId: string, latest: Height, trustNumerator: U64, trustDenominator: U64, trustingPeriod: U64,
    maxClockDrift: U64, frozen: bool, frozenHeight: Option<Height>, updates: U64, failures: U64)

  datatype ConsensusState = ConsensusState(timestamp: U64, root: Bytes, nextValidatorsHash: Bytes, headerHash: Bytes)

  datatype Header = Header(
    chainId: string, height: Height, timestamp: U64, validatorsHash: Bytes, nextValidatorsHash: Bytes,
    appHash: Bytes, lastCommitHash: Bytes, trustedHeight: Height, trustedValidatorsHash: Bytes, signature: Bytes)

  datatype Misbehaviour = Misbehaviour(clientId: string, header1: Header, header2: Header)

  type Consensus = map<(string, Height), ConsensusState>

  datatype Registry = Registry(
    clients: map<string, ClientState>, consensus: Consensus, nextSeq: U64, misbehaviours: seq<Misbehaviour>)

  datatype Error =
    | ClientNotFound | ConsensusNotFound | ClientFrozen | InvalidHeader | HeaderHeightTooLow
    | TrustingPeriodExpired | ClockDriftTooLarge | HeaderTimestampTooOld | ValidatorsHashMismatch
    | Decoherence | NotMisbehaviour | WitnessInsufficient | SequenceOverflow

  datatype Result<+T> = Ok(value: T) | Err(error: Error)

  const EMPTY_REGISTRY := Registry(map[], map[], 0, [])

  // ---- Headers ---------------------------------------------------------------------

  predicate ValidHeader(h: Header)
  {
    && h.chainId != "" && h.appHash != [] && h.validatorsHash != [] && h.nextValidatorsHash != []
    && HeightLess(h.trustedHeight, h.height) && h.timestamp != 0
  }

  function FromHeader(h: Header): ConsensusState
  {
    ConsensusState(h.timestamp, h.appHash, h.nextValidatorsHash, h.signature)
  }

  /** `verify_header_quantum`, returning the first failing check. */
  function VerifyHeader(c: ClientState, h: Header, trusted: ConsensusState, now: U64, faithful: bool): Option<Error>
  {
    if !HeightLess(h.trustedHeight, h.height) then Some(HeaderHeightTooLow)
    else if h.timestamp > SatAdd64(trusted.timestamp, c.trustingPeriod) then Some(TrustingPeriodExpired)
    else if h.timestamp > SatAdd64(now, c.maxClockDrift) then Some(ClockDriftTooLarge)
    else if h.timestamp < trusted.timestamp then Some(HeaderTimestampTooOld)
    else if HexEncode(trusted.nextValidatorsHash) != HexEncode(h.validatorsHash) then Some(ValidatorsHashMismatch)
    else if !faithful then Some(Decoherence)
    else None
  }

  // ---- Pruning ---------------------------------------------------------------------

  function HeightsOf(cs: Consensus, id: string): set<Height>
  {
    set k | k in cs && k.0 == id :: k.1
  }

  /** Keep the `keep` highest states of a client, and all states of the others. */
  function Pruned(cs: Consensus, id: string, keep: nat): Consensus
  {
    var heights := HeightsOf(cs, id);
    map k | k in cs && (k.0 == id ==> |Above(heights, HeightLess, k.1)| < keep) :: cs[k]
  }

  /** All states but those of a client at the listed heights. */
  function Without(cs: Consensus, id: string, hs: seq<Height>): Consensus
  {
    map k | k in cs && !(k.0 == id && k.1 in hs) :: cs[k]
  }

  lemma WithoutSnoc(cs: Consensus, id: string, hs: seq<Height>, h: Height)
    ensures Without(cs, id, hs + [h]) == Without(cs, id, hs) - {(id, h)}
  {
  }

  /** Dropping the first heights of the sorted list is keeping the `keep` highest. */
  lemma PruneSplit(cs: Consensus, id: string, keep: nat, heights: seq<Height>, n: nat)
    requires StrictTotal(HeightLess) && heights == Sorted(HeightsOf(cs, id), HeightLess)
    requires n == if |heights| > keep then |heights| - keep else 0
    ensures Without(cs, id, heights[..n]) == Pruned(cs, id, keep)
  {
    forall k | k in cs && k.0 == id
      ensures k.1 in heights[..n] <==> |Above(HeightsOf(cs, id), HeightLess, k.1)| >= keep
    {
      assert k.1 in HeightsOf(cs, id);
      PrefixByRank(HeightsOf(cs, id), HeightLess, keep, k.1);
    }
  }

  // ---- Operations ------------------------------------------------------------------

  function ClientName(chainId: string, number: nat): string { chainId + "-" + Dec(number) }

  function CreateResult(
      r: Registry, chainId: string, height: Height, cs: ConsensusState,
      num: U64, den: U64, period: U64, drift: U64): (Registry, Result<string>)
  {
    var id := ClientName(chainId, r.nextSeq);
    if r.nextSeq == U64_MAX then (r, Err(SequenceOverflow))
    else
      (r.(nextSeq := r.nextSeq + 1,
          clients := r.clients[id := ClientState(chainId, height, num, den, period, drift, false, None, 0, 0)],
          consensus := r.consensus[(id, height) := cs]),
       Ok(id))
  }

  function UpdateResult(r: Registry, id: string, h: Header, now: U64, keep: nat, faithful: bool)
    : (Registry, Result<Height>)
  {
    if id !in r.clients then (r, Err(ClientNotFound))
    else
      var c := r.clients[id];
      if c.frozen then (r, Err(ClientFrozen))
      else if !ValidHeader(h) then (r, Err(InvalidHeader))
      else if (id, h.trustedHeight) !in r.consensus then (r, Err(ConsensusNotFound))
      else
        match VerifyHeader(c, h, r.consensus[(id, h.trustedHeight)], now, faithful)
        case Some(e) => (r.(clients := r.clients[id := c.(failures := SatAdd64(c.failures, 1))]), Err(e))
        case None =>
          var c' := if HeightLess(c.latest, h.height)
                    then c.(latest := h.height, updates := SatAdd64(c.updates, 1)) else c;
          (r.(clients := r.clients[id := c'],
              consensus := Pruned(r.consensus[(id, h.height) := FromHeader(h)], id, keep)),
           Ok(h.height))
  }

  function MisbehaviourResult(r: Registry, m: Misbehaviour, witnessed: bool): (Registry, Result<()>)
  {
    if m.clientId !in r.clients then (r, Err(ClientNotFound))
    else
      var c := r.clients[m.clientId];
      if c.frozen then (r, Ok(()))
      else if m.header1.height != m.header2.height || m.header1.appHash == m.header2.appHash
      then (r, Err(NotMisbehaviour))
      else if !witnessed then (r, Err(WitnessInsufficient))
      else
        (r.(clients := r.clients[m.clientId := c.(frozen := true, frozenHeight := Some(m.header1.height))],
            misbehaviours := r.misbehaviours + [m]),
         Ok(()))
  }

  class LightClientRegistry {
    var clients: map<string, ClientState>
    var consensusStates: Consensus
    var nextClientSeq: U64
    var misbehaviours: seq<Misbehaviour>

    function View(): Registry
      reads this
    {
      Registry(clients, consensusStates, nextClientSeq, misbehaviours)
    }

    constructor ()
      ensures View() == EMPTY_REGISTRY
    {
      clients, consensusStates, nextClientSeq, misbehaviours := map[], map[], 0, [];
    }

    method CreateClient(
        chainId: string, height: Height, cs: ConsensusState, num: U64, den: U64, period: U64, drift: U64)
      returns (r: Result<string>)
      modifies this
      ensures (View(), r) == CreateResult(old(View()), chainId, height, cs, num, den, period, drift)
    {
      var id := ClientName(chainId, nextClientSeq);
      if nextClientSeq == U64_MAX { return Err(SequenceOverflow); }
      nextClientSeq := nextClientSeq + 1;
      clients := clients[id := ClientState(chainId, height, num, den, period, drift, false, None, 0, 0)];
      consensusStates := consensusStates[(id, height) := cs];
      return Ok(id);
    }

    method UpdateClient(id: string, h: Header, now: U64, keep: nat, faithful: bool) returns (r: Result<Height>)
      modifies this
      ensures (View(), r) == UpdateResult(old(View()), id, h, now, keep, faithful)
    {
      if id !in clients { return Err(ClientNotFound); }
      var c := clients[id];
      if c.frozen { return Err(ClientFrozen); }
      if !ValidHeader(h) { return Err(InvalidHeader); }
      if (id, h.trustedHeight) !in consensusStates { return Err(ConsensusNotFound); }
      var failure := VerifyHeader(c, h, consensusStates[(id, h.trustedHeight)], now, faithful);
      if failure.Some? {
        clients := clients[id := c.(failures := SatAdd64(c.failures, 1))];
        return Err(failure.value);
      }
      if HeightLess(c.latest, h.height) {
        clients := clients[id := c.(latest := h.height, updates := SatAdd64(c.updates, 1))];
      }
      consensusStates := consensusStates[(id, h.height) := FromHeader(h)];
      PruneConsensusStates(id, keep);
      assert clients == old(clients)[id := clients[id]];
      return Ok(h.height);
    }

    /** Collect the client's heights, sort them and remove all but the last `keep`. */
    method PruneConsensusStates(id: string, keep: nat)
      modifies this`consensusStates
      ensures consensusStates == Pruned(old(consensusStates), id, keep)
    {
      HeightLessTotal();
      var all := consensusStates;
      var heights := Sorted(HeightsOf(all, id), HeightLess);
      var removeCount := if |heights| > keep then |heights| - keep else 0;
      assert consensusStates == Without(all, id, heights[..0]);
      for i := 0 to removeCount
        invariant consensusStates == Without(all, id, heights[..i])
      {
        assert heights[..i + 1] == heights[..i] + [heights[i]];
        WithoutSnoc(all, id, heights[..i], heights[i]);
        consensusStates := consensusStates - {(id, heights[i])};
      }
      PruneSplit(all, id, keep, heights, removeCount);
    }

    method SubmitMisbehaviour(m: Misbehaviour, witnessed: bool) returns (r: Result<()>)
      modifies this
      ensures (View(), r) == MisbehaviourResult(old(View()), m, witnessed)
    {
      if m.clientId !in clients { return Err(ClientNotFound); }
      var c := clients[m.clientId];
      if c.frozen { return Ok(()); }
      if m.header1.height != m.header2.height { return Err(NotMisbehaviour); }
      if m.header1.appHash == m.header2.appHash { return Err(NotMisbehaviour); }
      if !witnessed { return Err(WitnessInsufficient); }
      clients := clients[m.clientId := c.(frozen := true, frozenHeight := Some(m.header1.height))];
      misbehaviours := misbehaviours + [m];
      return Ok(());
    }
  }
}
