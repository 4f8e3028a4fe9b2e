/** Chains of trust, pruning, freezing and fresh identifiers over every run. */
module LightClientTheorems {
  import opened MachineInts
  import opened Ordering
  import opened Text
  import opened LightClient

  // ---- Chains of trust -------------------------------------------------------------

  /** A verified state of a counterparty: a height and what is known there. */
  datatype Point = Point(height: Height, cs: ConsensusState)

  function PointOf(h: Header): Point { Point(h.height, FromHeader(h)) }

  /** A header acceptable on top of a point: it names that point's height as trusted, is
      strictly higher, not older, within the trusting period, and signed off by the
      announced validators. */
  predicate Link(period: nat, from: Point, h: Header)
  {
    && h.trustedHeight == from.height
    && HeightLess(from.height, h.height)
    && from.cs.timestamp <= h.timestamp <= SatAdd64(from.cs.timestamp, period)
    && h.validatorsHash == from.cs.nextValidatorsHash
    && ValidHeader(h)
  }

  /** The headers a client has accepted, in order. */
  type Log = seq<Header>

  /** Where a chain ends: at the last header it picks from the log, or at its origin. */
  function End(origin: Point, log: Log, picks: seq<nat>): Point
    requires forall i :: 0 <= i < |picks| ==> picks[i] < |log|
  {
    if picks == [] then origin else PointOf(log[picks[|picks| - 1]])
  }

  /** Positions in the log of accepted headers, in the order of their acceptance, each a
      link from the one before. */
  predicate Chain(period: nat, origin: Point, log: Log, picks: seq<nat>)
    ensures Chain(period, origin, log, picks) ==> forall i :: 0 <= i < |picks| ==> picks[i] < |log|
    decreases |picks|
  {
    picks == [] ||
    (var most, last := picks[..|picks| - 1], picks[|picks| - 1];
     && Chain(period, origin, log, most)
     && last < |log| && (most != [] ==> most[|most| - 1] < last)
     && Link(period, End(origin, log, most), log[last]))
  }

  predicate Reaches(period: nat, origin: Point, log: Log, picks: seq<nat>, p: Point)
  {
    Chain(period, origin, log, picks) && End(origin, log, picks) == p
  }

  /** The point ends a chain of headers that were accepted. */
  ghost predicate Trusted(period: nat, origin: Point, log: Log, p: Point)
  {
    exists picks: seq<nat> :: Reaches(period, origin, log, picks, p)
  }

  lemma OriginIsTrusted(period: nat, origin: Point, log: Log)
    ensures Trusted(period, origin, log, origin)
  {
    assert Reaches(period, origin, log, [], origin);
  }

  /** Accepting more headers keeps every chain. */
  lemma {:induction false} ChainsStay(period: nat, origin: Point, log: Log, h: Header, picks: seq<nat>)
    requires Chain(period, origin, log, picks)
    ensures Chain(period, origin, log + [h], picks)
    ensures End(origin, log + [h], picks) == End(origin, log, picks)
    decreases |picks|
  {
    if picks != [] { ChainsStay(period, origin, log, h, picks[..|picks| - 1]); }
  }

  lemma TrustStays(period: nat, origin: Point, log: Log, h: Header, p: Point)
    requires Trusted(period, origin, log, p)
    ensures Trusted(period, origin, log + [h], p)
  {
    var picks: seq<nat> :| Reaches(period, origin, log, picks, p);
    ChainsStay(period, origin, log, h, picks);
    assert Reaches(period, origin, log + [h], picks, p);
  }

  lemma TrustExtends(period: nat, origin: Point, log: Log, p: Point, h: Header)
    requires Trusted(period, origin, log, p) && Link(period, p, h)
    ensures Trusted(period, origin, log + [h], PointOf(h))
  {
    var picks: seq<nat> :| Reaches(period, origin, log, picks, p);
    ChainsStay(period, origin, log, h, picks);
    var more := picks + [|log|];
    assert more[..|more| - 1] == picks && (log + [h])[|log|] == h;
    assert Reaches(period, origin, log + [h], more, PointOf(h));
  }

  /** Passing verification is exactly being a link from the trusted state, together with
      the clock and fidelity gates. */
  lemma VerifiedIsLink(c: ClientState, h: Header, trusted: ConsensusState, now: U64, faithful: bool)
    requires ValidHeader(h)
    ensures VerifyHeader(c, h, trusted, now, faithful).None? <==>
            && Link(c.trustingPeriod, Point(h.trustedHeight, trusted), h)
            && h.timestamp <= SatAdd64(now, c.maxClockDrift) && faithful
  {
    if HexEncode(trusted.nextValidatorsHash) == HexEncode(h.validatorsHash) {
      HexInjective(trusted.nextValidatorsHash, h.validatorsHash);
    }
  }

  // ---- Identifiers -----------------------------------------------------------------

  /** Everything after the chain id and its dash is a digit. */
  lemma LastDash(chain: string, n: nat)
    ensures var id := ClientName(chain, n); forall j :: |chain| < j < |id| ==> id[j] != '-'
  {
    var id := ClientName(chain, n);
    forall j | |chain| < j < |id| ensures id[j] != '-' { assert id[j] == Dec(n)[j - |chain| - 1]; }
  }

  /** A client identifier reveals its sequence number: the part after the last dash. */
  lemma ClientNameRevealsSeq(c1: string, n1: nat, c2: string, n2: nat)
    requires ClientName(c1, n1) == ClientName(c2, n2)
    ensures n1 == n2
  {
    var id := ClientName(c1, n1);
    assert id[|c1|] == '-' && id[|c2|] == '-';
    LastDash(c1, n1);
    LastDash(c2, n2);
    assert id[|c1| + 1..] == Dec(n1) && id[|c2| + 1..] == Dec(n2);
    DecInjective(n1, n2);
  }

  // ---- Runs ------------------------------------------------------------------------

  datatype Op =
    | Create(chainId: string, height: Height, cs: ConsensusState, num: U64, den: U64, period: U64, drift: U64)
    | Update(id: string, header: Header, now: U64, keep: nat, faithful: bool)
    | Misbehave(m: Misbehaviour, witnessed: bool)

  /** A registry together with the point each client was created from and the headers it
      has accepted since. */
  datatype Tracked = Tracked(reg: Registry, origin: map<string, Point>, logs: map<string, Log>)

  const START := Tracked(EMPTY_REGISTRY, map[], map[])

  function LogOf(t: Tracked, id: string): Log { if id in t.logs then t.logs[id] else [] }

  function Step(t: Tracked, op: Op): Tracked
  {
    match op
    case Create(chain, h, cs, num, den, period, drift) =>
      var (reg, out) := CreateResult(t.reg, chain, h, cs, num, den, period, drift);
      t.(reg := reg, origin := if out.Ok? then t.origin[out.value := Point(h, cs)] else t.origin)
    case Update(id, h, now, keep, faithful) =>
      var (reg, out) := UpdateResult(t.reg, id, h, now, keep, faithful);
      if out.Ok? then t.(reg := reg, logs := t.logs[id := LogOf(t, id) + [h]]) else t.(reg := reg)
    case Misbehave(m, w) => t.(reg := MisbehaviourResult(t.reg, m, w).0)
  }

  function Run(t: Tracked, ops: seq<Op>): Tracked
    decreases |ops|
  {
    if ops == [] then t else Run(Step(t, ops[0]), ops[1..])
  }

  /** Every update keeps at least one state, as the configuration check demands. */
  predicate Keeping(op: Op) { op.Update? ==> op.keep >= 1 }

  ghost predicate NamedBelow(id: string, n: nat)
  {
    exists chain, k: nat :: k < n && id == ClientName(chain, k)
  }

  // ---- The invariant of the registry -----------------------------------------------

  /** A stored state belongs to a client, is not above its latest height, and ends a chain
      of accepted headers from the client's first state. */
  ghost predicate StateInv(t: Tracked, k: (string, Height))
    requires k in t.reg.consensus
  {
    && k.0 in t.reg.clients && k.0 in t.origin
    && !HeightLess(t.reg.clients[k.0].latest, k.1)
    && Trusted(t.reg.clients[k.0].trustingPeriod, t.origin[k.0], LogOf(t, k.0), Point(k.1, t.reg.consensus[k]))
  }

  ghost predicate ClientInv(t: Tracked, id: string)
    requires id in t.reg.clients
  {
    NamedBelow(id, t.reg.nextSeq) && (id, t.reg.clients[id].latest) in t.reg.consensus
  }

  ghost predicate Inv(t: Tracked)
  {
    && (forall id :: id in t.reg.clients ==> ClientInv(t, id))
    && (forall k :: k in t.reg.consensus ==> StateInv(t, k))
  }

  lemma NamedBelowMonotone(id: string, m: nat, n: nat)
    requires NamedBelow(id, m) && m <= n
    ensures NamedBelow(id, n)
  {
  }

  /** A created client never takes the identifier of an existing one. */
  lemma FreshId(t: Tracked, chain: string)
    requires Inv(t)
    ensures ClientName(chain, t.reg.nextSeq) !in t.reg.clients
  {
    var id := ClientName(chain, t.reg.nextSeq);
    if id in t.reg.clients {
      assert ClientInv(t, id);
      var c, k: nat :| k < t.reg.nextSeq && id == ClientName(c, k);
      ClientNameRevealsSeq(chain, t.reg.nextSeq, c, k);
      assert false;
    }
  }

  lemma CreateKeepsInv(t: Tracked, op: Op)
    requires Inv(t) && op.Create?
    ensures Inv(Step(t, op))
  {
    var u := Step(t, op);
    var id := ClientName(op.chainId, t.reg.nextSeq);
    if t.reg.nextSeq < U64_MAX {
      FreshId(t, op.chainId);
      forall other | other in u.reg.clients ensures ClientInv(u, other) {
        if other != id {
          assert ClientInv(t, other);
          NamedBelowMonotone(other, t.reg.nextSeq, u.reg.nextSeq);
        } else {
          assert NamedBelow(id, u.reg.nextSeq);
        }
      }
      forall k | k in u.reg.consensus ensures StateInv(u, k) {
        if k != (id, op.height) {
          assert StateInv(t, k);
        } else {
          OriginIsTrusted(op.period, Point(op.height, op.cs), LogOf(u, id));
        }
      }
    }
  }

  predicate Accepted(t: Tracked, op: Op)
  {
    op.Update? && UpdateResult(t.reg, op.id, op.header, op.now, op.keep, op.faithful).1.Ok?
  }

  /** The states of the registry once an accepted header is stored, before pruning. */
  function Stored(t: Tracked, op: Op): Consensus
    requires op.Update?
  {
    t.reg.consensus[(op.id, op.header.height) := FromHeader(op.header)]
  }

  /** Nothing stored for the client is above `top`. */
  predicate Highest(cs: Consensus, id: string, top: Height)
  {
    forall k :: k in cs && k.0 == id ==> !HeightLess(top, k.1)
  }

  /** Pruning keeps the highest state exactly when it keeps any. */
  lemma HighestSurvives(cs: Consensus, id: string, keep: nat, top: Height)
    requires (id, top) in cs && Highest(cs, id, top)
    ensures (id, top) in Pruned(cs, id, keep) <==> keep >= 1
  {
    assert Above(HeightsOf(cs, id), HeightLess, top) == {};
  }

  /** After an accepted header the latest height is stored and still the highest. */
  lemma LatestIsHighest(t: Tracked, op: Op)
    requires Inv(t) && Accepted(t, op)
    ensures op.id in Step(t, op).reg.clients
    ensures var top := Step(t, op).reg.clients[op.id].latest;
            (op.id, top) in Stored(t, op) && Highest(Stored(t, op), op.id, top)
  {
    AcceptedEffect(t, op);
    HigherTop(t, op.id, op.header.height, FromHeader(op.header));
  }

  lemma HigherTop(t: Tracked, id: string, h: Height, cs: ConsensusState)
    requires Inv(t) && id in t.reg.clients
    ensures var latest := t.reg.clients[id].latest;
            var top := if HeightLess(latest, h) then h else latest;
            var stored := t.reg.consensus[(id, h) := cs];
            (id, top) in stored && Highest(stored, id, top)
  {
    var latest := t.reg.clients[id].latest;
    var top := if HeightLess(latest, h) then h else latest;
    var stored := t.reg.consensus[(id, h) := cs];
    assert ClientInv(t, id);
    forall k | k in stored && k.0 == id ensures !HeightLess(top, k.1) {
      if k != (id, h) { assert StateInv(t, k); }
    }
  }

  /** An accepted header is trusted because the state it builds on is. */
  lemma AcceptedIsTrusted(t: Tracked, op: Op)
    requires Inv(t) && Accepted(t, op)
    ensures op.id in t.origin
    ensures Trusted(t.reg.clients[op.id].trustingPeriod, t.origin[op.id], LogOf(t, op.id) + [op.header],
                    PointOf(op.header))
  {
    var h, c := op.header, t.reg.clients[op.id];
    var k := (op.id, h.trustedHeight);
    assert StateInv(t, k);
    VerifiedIsLink(c, h, t.reg.consensus[k], op.now, op.faithful);
    TrustExtends(c.trustingPeriod, t.origin[op.id], LogOf(t, op.id), Point(h.trustedHeight, t.reg.consensus[k]), h);
  }

  /** What an accepted update changes. */
  lemma AcceptedEffect(t: Tracked, op: Op)
    requires Accepted(t, op)
    ensures var u, c := Step(t, op), t.reg.clients[op.id];
            && u.origin == t.origin && u.reg.nextSeq == t.reg.nextSeq
            && u.logs == t.logs[op.id := LogOf(t, op.id) + [op.header]]
            && u.reg.consensus == Pruned(Stored(t, op), op.id, op.keep)
            && op.id in u.reg.clients && u.reg.clients == t.reg.clients[op.id := u.reg.clients[op.id]]
            && u.reg.clients[op.id].trustingPeriod == c.trustingPeriod
            && u.reg.clients[op.id].latest
               == if HeightLess(c.latest, op.header.height) then op.header.height else c.latest
  {
  }

  lemma AcceptedKeepsStates(t: Tracked, op: Op, k: (string, Height))
    requires Inv(t) && Accepted(t, op) && k in Step(t, op).reg.consensus
    ensures StateInv(Step(t, op), k)
  {
    AcceptedEffect(t, op);
    LatestIsHighest(t, op);
    if k == (op.id, op.header.height) {
      AcceptedIsTrusted(t, op);
    } else {
      assert StateInv(t, k);
      if k.0 == op.id {
        TrustStays(t.reg.clients[k.0].trustingPeriod, t.origin[k.0], LogOf(t, k.0), op.header,
                   Point(k.1, t.reg.consensus[k]));
      }
    }
  }

  lemma AcceptedKeepsInv(t: Tracked, op: Op)
    requires Inv(t) && Keeping(op) && Accepted(t, op)
    ensures Inv(Step(t, op))
  {
    var u := Step(t, op);
    AcceptedEffect(t, op);
    LatestIsHighest(t, op);
    HighestSurvives(Stored(t, op), op.id, op.keep, u.reg.clients[op.id].latest);
    forall id | id in u.reg.clients ensures ClientInv(u, id) { assert ClientInv(t, id); }
    forall k | k in u.reg.consensus ensures StateInv(u, k) { AcceptedKeepsStates(t, op, k); }
  }

  /** A rejected header or a misbehaviour report changes no stored state, no client's
      latest height or period, and no frozen client. */
  lemma OtherEffect(t: Tracked, op: Op)
    requires !op.Create? && !Accepted(t, op)
    ensures var u := Step(t, op);
            && u.origin == t.origin && u.logs == t.logs
            && u.reg.nextSeq == t.reg.nextSeq && u.reg.consensus == t.reg.consensus
            && u.reg.clients.Keys == t.reg.clients.Keys
            && forall id :: id in t.reg.clients ==> SameFooting(t.reg.clients[id], u.reg.clients[id])
  {
  }

  predicate SameFooting(a: ClientState, b: ClientState)
  {
    a.latest == b.latest && a.trustingPeriod == b.trustingPeriod && (a.frozen ==> a == b)
  }

  lemma OthersKeepInv(t: Tracked, op: Op)
    requires Inv(t) && !op.Create? && !Accepted(t, op)
    ensures Inv(Step(t, op))
  {
    var u := Step(t, op);
    OtherEffect(t, op);
    forall id | id in u.reg.clients ensures ClientInv(u, id) {
      assert ClientInv(t, id) && SameFooting(t.reg.clients[id], u.reg.clients[id]);
    }
    forall k | k in u.reg.consensus ensures StateInv(u, k) {
      assert StateInv(t, k) && SameFooting(t.reg.clients[k.0], u.reg.clients[k.0]);
    }
  }

  lemma StepKeepsInv(t: Tracked, op: Op)
    requires Inv(t) && Keeping(op)
    ensures Inv(Step(t, op))
  {
    if op.Create? {
      CreateKeepsInv(t, op);
    } else if Accepted(t, op) {
      AcceptedKeepsInv(t, op);
    } else {
      OthersKeepInv(t, op);
    }
  }

  lemma {:induction false} RunKeepsInv(t: Tracked, ops: seq<Op>)
    requires Inv(t) && forall i :: 0 <= i < |ops| ==> Keeping(ops[i])
    ensures Inv(Run(t, ops))
    decreases |ops|
  {
    if ops != [] {
      StepKeepsInv(t, ops[0]);
      RunKeepsInv(Step(t, ops[0]), ops[1..]);
    }
  }

  /** The headers of a run that a client accepted, in order. */
  function AcceptedIn(t: Tracked, ops: seq<Op>, id: string): Log
    decreases |ops|
  {
    if ops == [] then [] else NewHeaders(t, ops[0], id) + AcceptedIn(Step(t, ops[0]), ops[1..], id)
  }

  function NewHeaders(t: Tracked, op: Op, id: string): Log
  {
    if Accepted(t, op) && op.id == id then [op.header] else []
  }

  /** The log of a client holds exactly what the run accepted for it. */
  lemma {:induction false} LogsAreAccepted(t: Tracked, ops: seq<Op>, id: string)
    ensures LogOf(Run(t, ops), id) == LogOf(t, id) + AcceptedIn(t, ops, id)
    decreases |ops|
  {
    if ops != [] {
      var u := Step(t, ops[0]);
      StepLog(t, ops[0], id);
      LogsAreAccepted(u, ops[1..], id);
      Regroup(LogOf(t, id), NewHeaders(t, ops[0], id), AcceptedIn(u, ops[1..], id));
    }
  }

  lemma Regroup(a: Log, b: Log, c: Log)
    ensures (a + b) + c == a + (b + c)
  {
  }

  lemma StepLog(t: Tracked, op: Op, id: string)
    ensures LogOf(Step(t, op), id) == LogOf(t, id) + NewHeaders(t, op, id)
  {
    if Accepted(t, op) {
      AcceptedEffect(t, op);
    } else if !op.Create? {
      OtherEffect(t, op);
    }
  }

  /** In every registry reachable from the empty one while pruning keeps at least one
      state, every stored state ends a chain, from its client's first state, of headers
      that the run accepted for that client, and the latest height is stored and maximal. */
  lemma ReachableRegistries(ops: seq<Op>, id: string, h: Height)
    requires forall i :: 0 <= i < |ops| ==> Keeping(ops[i])
    ensures var t := Run(START, ops);
            && (id in t.reg.clients ==> (id, t.reg.clients[id].latest) in t.reg.consensus)
            && ((id, h) in t.reg.consensus ==>
                  && id in t.reg.clients && id in t.origin
                  && Trusted(t.reg.clients[id].trustingPeriod, t.origin[id], AcceptedIn(START, ops, id),
                             Point(h, t.reg.consensus[(id, h)]))
                  && !HeightLess(t.reg.clients[id].latest, h))
  {
    var t := Run(START, ops);
    RunKeepsInv(START, ops);
    LogsAreAccepted(START, ops, id);
    assert LogOf(t, id) == AcceptedIn(START, ops, id);
    InvAt(t, id, h);
  }

  lemma InvAt(t: Tracked, id: string, h: Height)
    requires Inv(t)
    ensures id in t.reg.clients ==> (id, t.reg.clients[id].latest) in t.reg.consensus
    ensures (id, h) in t.reg.consensus ==>
              && id in t.reg.clients && id in t.origin
              && Trusted(t.reg.clients[id].trustingPeriod, t.origin[id], LogOf(t, id),
                         Point(h, t.reg.consensus[(id, h)]))
              && !HeightLess(t.reg.clients[id].latest, h)
  {
    assert id in t.reg.clients ==> ClientInv(t, id);
    assert (id, h) in t.reg.consensus ==> StateInv(t, (id, h));
  }

  /** What a chain of trust amounts to from end to end: a strictly higher header that is
      no older. */
  lemma {:induction false} ChainsRise(period: nat, origin: Point, log: Log, picks: seq<nat>)
    requires Chain(period, origin, log, picks)
    ensures End(origin, log, picks).cs.timestamp >= origin.cs.timestamp
    ensures picks != [] ==> HeightLess(origin.height, End(origin, log, picks).height)
    decreases |picks|
  {
    if picks != [] { ChainsRise(period, origin, log, picks[..|picks| - 1]); }
  }

  // ---- Freezing and identifiers ----------------------------------------------------

  predicate SameStates(a: Consensus, b: Consensus, id: string)
  {
    && (forall k :: k in a && k.0 == id ==> k in b && b[k] == a[k])
    && (forall k :: k in b && k.0 == id ==> k in a)
  }

  /** Neither the client nor what is stored for it differs. */
  predicate Untouched(a: Registry, b: Registry, id: string)
    requires id in a.clients
  {
    id in b.clients && b.clients[id] == a.clients[id] && SameStates(a.consensus, b.consensus, id)
  }

  lemma UntouchedChains(a: Registry, b: Registry, c: Registry, id: string)
    requires id in a.clients && Untouched(a, b, id) && Untouched(b, c, id)
    ensures Untouched(a, c, id)
  {
  }

  lemma FrozenStep(t: Tracked, op: Op, id: string)
    requires Inv(t) && id in t.reg.clients && t.reg.clients[id].frozen
    ensures Untouched(t.reg, Step(t, op).reg, id)
  {
    if op.Create? {
      FreshId(t, op.chainId);
      CreatedElsewhere(t, op, id);
    } else if Accepted(t, op) {
      AcceptedElsewhere(t, op, id);
    } else {
      OtherEffect(t, op);
      assert SameFooting(t.reg.clients[id], Step(t, op).reg.clients[id]);
    }
  }

  lemma CreatedElsewhere(t: Tracked, op: Op, id: string)
    requires op.Create? && id in t.reg.clients && id != ClientName(op.chainId, t.reg.nextSeq)
    ensures id in Step(t, op).reg.clients && Step(t, op).reg.clients[id] == t.reg.clients[id]
    ensures SameStates(t.reg.consensus, Step(t, op).reg.consensus, id)
  {
  }

  /** A header is accepted only for a client that is not frozen, and leaves others alone. */
  lemma AcceptedElsewhere(t: Tracked, op: Op, id: string)
    requires Accepted(t, op) && id in t.reg.clients && t.reg.clients[id].frozen
    ensures id != op.id
    ensures Step(t, op).reg.clients[id] == t.reg.clients[id]
    ensures SameStates(t.reg.consensus, Step(t, op).reg.consensus, id)
  {
    AcceptedEffect(t, op);
  }

  /** A frozen client and its stored states never change again, whatever is submitted. */
  lemma {:induction false} FrozenForever(t: Tracked, ops: seq<Op>, id: string)
    requires Inv(t) && id in t.reg.clients && t.reg.clients[id].frozen
    requires forall i :: 0 <= i < |ops| ==> Keeping(ops[i])
    ensures Untouched(t.reg, Run(t, ops).reg, id)
    decreases |ops|
  {
    if ops != [] {
      StepKeepsInv(t, ops[0]);
      FrozenStep(t, ops[0], id);
      FrozenForever(Step(t, ops[0]), ops[1..], id);
      UntouchedChains(t.reg, Step(t, ops[0]).reg, Run(t, ops).reg, id);
    }
  }

  /** The identifier a step hands out, if any. */
  function NewId(t: Tracked, op: Op): seq<string>
  {
    if op.Create? && t.reg.nextSeq < U64_MAX then [ClientName(op.chainId, t.reg.nextSeq)] else []
  }

  /** The identifiers handed out by a run, in order. */
  function Created(t: Tracked, ops: seq<Op>): seq<string>
    decreases |ops|
  {
    if ops == [] then [] else NewId(t, ops[0]) + Created(Step(t, ops[0]), ops[1..])
  }

  lemma NewIdIsFresh(t: Tracked, op: Op)
    requires Inv(t)
    ensures t.reg.clients.Keys <= Step(t, op).reg.clients.Keys
    ensures forall id :: id in NewId(t, op) ==> id !in t.reg.clients && id in Step(t, op).reg.clients
  {
    if op.Create? {
      FreshId(t, op.chainId);
    } else if Accepted(t, op) {
      AcceptedEffect(t, op);
    } else {
      OtherEffect(t, op);
    }
  }

  predicate NoneIn(ids: seq<string>, taken: set<string>) { forall id :: id in ids ==> id !in taken }

  /** No run hands out the identifier of an existing client, or the same one twice. */
  lemma {:induction false} IdsNeverCollide(t: Tracked, ops: seq<Op>)
    requires Inv(t) && forall i :: 0 <= i < |ops| ==> Keeping(ops[i])
    ensures Distinct(Created(t, ops)) && NoneIn(Created(t, ops), t.reg.clients.Keys)
    decreases |ops|
  {
    if ops != [] {
      StepKeepsInv(t, ops[0]);
      NewIdIsFresh(t, ops[0]);
      IdsNeverCollide(Step(t, ops[0]), ops[1..]);
      var first, rest := NewId(t, ops[0]), Created(Step(t, ops[0]), ops[1..]);
      forall i, j | 0 <= i < j < |first + rest| ensures (first + rest)[i] != (first + rest)[j] {
        assert rest[j - |first|] in rest;
        if i < |first| { assert first[i] in first; }
      }
    }
  }

  /** Keeping zero states instead would forget every state of the client, the latest one
      included: after an accepted update the latest state is stored exactly when at least
      one is kept. */
  lemma LatestStoredIffKept(t: Tracked, op: Op)
    requires Inv(t) && Accepted(t, op)
    ensures var u := Step(t, op).reg; (op.id, u.clients[op.id].latest) in u.consensus <==> op.keep >= 1
  {
    AcceptedEffect(t, op);
    LatestIsHighest(t, op);
    HighestSurvives(Stored(t, op), op.id, op.keep, Step(t, op).reg.clients[op.id].latest);
  }

  // ---- Chain ids -------------------------------------------------------------------

  /** A header fares the same under any other non-empty chain id: the id is neither
      compared with the client's nor stored. */
  lemma ChainIdIsNotCompared(r: Registry, id: string, h: Header, chain: string, now: U64, keep: nat, faithful: bool)
    requires h.chainId != "" && chain != ""
    ensures UpdateResult(r, id, h.(chainId := chain), now, keep, faithful)
         == UpdateResult(r, id, h, now, keep, faithful)
  {
  }

  /** A client of one chain accepts a header that names another. */
  lemma ForeignHeaderIsAccepted()
    ensures var first := ConsensusState(1, [1], [2], []);
            var (r, id) := CreateResult(EMPTY_REGISTRY, "iona", Height(0, 1), first, 1, 3, 100, 10);
            var h := Header("other", Height(0, 2), 5, [2], [3], [4], [], Height(0, 1), [], []);
            && id.Ok? && r.clients[id.value].chainId == "iona"
            && UpdateResult(r, id.value, h, 5, 1, true).1 == Ok(Height(0, 2))
  {
    var first := ConsensusState(1, [1], [2], []);
    var id := ClientName("iona", 0);
    var r := CreateResult(EMPTY_REGISTRY, "iona", Height(0, 1), first, 1, 3, 100, 10).0;
    var h := Header("other", Height(0, 2), 5, [2], [3], [4], [], Height(0, 1), [], []);
    assert ValidHeader(h) && r.consensus[(id, Height(0, 1))] == first;
    VerifiedIsLink(r.clients[id], h, first, 5, true);
  }
}
