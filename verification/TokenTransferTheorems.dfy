/** Conservation, exactly-once departure and guaranteed refunds over every run. */
module TokenTransferTheorems {
  import opened MachineInts
  import opened MapSums
  import opened Text
  import opened TokenTransfer

  datatype World = World(s: Transfers, bank: Balances)

  datatype Op =
    | OpenChannel(channel: Channel)
    | Send(channelId: string, sender: string, receiver: string, denom: string, amount: U64,
           timeoutHeight: Option<U64>, timeoutTimestamp: U64)
    | Receive(packet: TokenPacket, inRange: bool, faithful: bool)
    | Timeout(seqno: U64)
    | Acknowledge(seqno: U64)
    | Prune(height: U64, time: U64)

  function Step(w: World, op: Op): World
  {
    match op
    case OpenChannel(c) => w.(s := OpenResult(w.s, c).0)
    case Send(ch, from, to, denom, amount, th, tt) =>
      var (s, bank, _) := SendResult(w.s, w.bank, ch, from, to, denom, amount, th, tt); World(s, bank)
    case Receive(p, inRange, faithful) =>
      var (s, bank, _) := ReceiveResult(w.s, w.bank, p, inRange, faithful); World(s, bank)
    case Timeout(n) => var (s, bank, _) := TimeoutResult(w.s, w.bank, n); World(s, bank)
    case Acknowledge(n) => w.(s := AcknowledgeResult(w.s, n).0)
    case Prune(h, t) => w.(s := PruneResult(w.s, h, t))
  }

  function Run(w: World, ops: seq<Op>): World
    decreases |ops|
  {
    if ops == [] then w else Run(Step(w, ops[0]), ops[1..])
  }

  // ---- Conservation ------------------------------------------------------------------

  ghost function Total(w: World): nat { Sum(w.bank) + Sum(w.s.escrow) }

  /** The two additions that fail only after value has already been taken. */
  predicate CreditOverflows(w: World, denom: string, to: string, amount: nat)
  {
    amount <= Get(w.s.escrow, denom) && Get(w.bank, to) + amount > U64_MAX
  }

  predicate LockOverflows(w: World, op: Op)
    requires op.Send?
  {
    Debits(w, op) && Get(w.s.escrow, op.denom) + op.amount > U64_MAX
  }

  predicate Leaks(w: World, op: Op)
  {
    match op
    case Send(_, _, _, _, _, _, _) => LockOverflows(w, op)
    case Receive(p, inRange, faithful) =>
      && WellFormed(p) && inRange && faithful && IsNativeReturn(p.denom)
      && CreditOverflows(w, LastComponent(p.denom), p.receiver, ParseU64(p.amount).value)
    case Timeout(n) =>
      n in w.s.inFlight &&
      var d := w.s.inFlight[n].data;
      ParseU64(d.amount).Some? && CreditOverflows(w, d.denom, d.sender, ParseU64(d.amount).value)
    case _ => false
  }

  lemma UnlockTotal(w: World, denom: string, to: string, amount: U64)
    ensures var (s, bank, _) := UnlockResult(w.s, w.bank, denom, to, amount);
            Total(World(s, bank)) == Total(w) <==> !CreditOverflows(w, denom, to, amount)
  {
    SumMember(w.s.escrow, denom);
    if amount <= Get(w.s.escrow, denom) {
      SumUpdate(w.s.escrow, denom, Get(w.s.escrow, denom) - amount);
      SumUpdate(w.bank, to, Get(w.bank, to) + amount);
    }
  }

  lemma SendTotal(w: World, op: Op)
    requires op.Send?
    ensures Total(Step(w, op)) == Total(w) <==> !LockOverflows(w, op)
  {
    SendMoney(w, op);
    MovedTotal(w, Step(w, op), op);
  }

  /** A send passes its checks. */
  predicate Debits(w: World, op: Op)
    requires op.Send?
  {
    && op.channelId in w.s.channels && w.s.channels[op.channelId].state == Open
    && 0 < op.amount <= Get(w.bank, op.sender)
  }

  /** What a send does to the two money maps. */
  predicate Moved(w: World, v: World, op: Op)
    requires op.Send?
  {
    if !Debits(w, op) then v.bank == w.bank && v.s.escrow == w.s.escrow
    else
      && v.bank == Put(w.bank, op.sender, Get(w.bank, op.sender) - op.amount)
      && v.s.escrow == (if LockOverflows(w, op) then w.s.escrow
                        else Put(w.s.escrow, op.denom, Get(w.s.escrow, op.denom) + op.amount))
  }

  lemma SendMoney(w: World, op: Op)
    requires op.Send?
    ensures Moved(w, Step(w, op), op)
  {
  }

  lemma MovedTotal(w: World, v: World, op: Op)
    requires op.Send? && Moved(w, v, op)
    ensures Total(v) == Total(w) <==> !LockOverflows(w, op)
  {
    if Debits(w, op) { LockMoves(w.bank, w.s.escrow, op.sender, op.denom, op.amount); }
  }

  lemma LockMoves(bank: Balances, escrow: map<string, U64>, sender: string, denom: string, amount: U64)
    requires amount <= Get(bank, sender)
    ensures Sum(Put(bank, sender, Get(bank, sender) - amount)) + amount == Sum(bank)
    ensures Sum(Put(escrow, denom, Get(escrow, denom) + amount)) == Sum(escrow) + amount
  {
    SumMember(bank, sender);
    SumUpdate(bank, sender, Get(bank, sender) - amount);
    SumUpdate(escrow, denom, Get(escrow, denom) + amount);
  }

  /** A step, successful or not, keeps balances plus escrow exactly when it does not run
      into an overflow after its first write. */
  lemma StepConserves(w: World, op: Op)
    ensures Total(Step(w, op)) == Total(w) <==> !Leaks(w, op)
  {
    match op
    case Send(_, _, _, _, _, _, _) => SendTotal(w, op);
    case Receive(_, _, _) => ReceiveTotal(w, op);
    case Timeout(n) => TimeoutTotal(w, n);
    case _ =>
  }

  lemma ReceiveTotal(w: World, op: Op)
    requires op.Receive?
    ensures Total(Step(w, op)) == Total(w) <==> !Leaks(w, op)
  {
    var p := op.packet;
    if WellFormed(p) && op.inRange && op.faithful && IsNativeReturn(p.denom) {
      UnlockTotal(w, LastComponent(p.denom), p.receiver, ParseU64(p.amount).value);
    }
  }

  lemma TimeoutTotal(w: World, n: U64)
    ensures Total(Step(w, Timeout(n))) == Total(w) <==> !Leaks(w, Timeout(n))
  {
    if n in w.s.inFlight {
      var d := w.s.inFlight[n].data;
      if ParseU64(d.amount).Some? {
        UnlockTotal(w.(s := w.s.(inFlight := w.s.inFlight - {n})), d.denom, d.sender, ParseU64(d.amount).value);
      }
    }
  }

  /** Below 2^64 in total, no addition can overflow. */
  lemma BoundedNeverLeaks(w: World, op: Op)
    requires Total(w) <= U64_MAX
    ensures !Leaks(w, op)
  {
    match op
    case Send(_, from, _, denom, _, _, _) =>
      SumMember(w.bank, from);
      SumMember(w.s.escrow, denom);
    case Receive(p, _, _) =>
      SumMember(w.bank, p.receiver);
      SumMember(w.s.escrow, LastComponent(p.denom));
    case Timeout(n) =>
      if n in w.s.inFlight {
        SumMember(w.bank, w.s.inFlight[n].data.sender);
        SumMember(w.s.escrow, w.s.inFlight[n].data.denom);
      }
    case _ =>
  }

  lemma {:induction false} RunConserves(w: World, ops: seq<Op>)
    requires Total(w) <= U64_MAX
    ensures Total(Run(w, ops)) == Total(w)
    decreases |ops|
  {
    if ops != [] {
      BoundedNeverLeaks(w, ops[0]);
      StepConserves(w, ops[0]);
      RunConserves(Step(w, ops[0]), ops[1..]);
    }
  }

  // ---- Every packet leaves at most once ------------------------------------------------

  predicate Numbered(w: World)
  {
    forall n :: n in w.s.inFlight ==> n < w.s.sendSequence && ParseU64(w.s.inFlight[n].data.amount).Some?
  }

  predicate Enters(w: World, op: Op, n: U64) { n !in w.s.inFlight && n in Step(w, op).s.inFlight }

  predicate Leaves(w: World, op: Op, n: U64) { n in w.s.inFlight && n !in Step(w, op).s.inFlight }

  function TimesEntered(w: World, ops: seq<Op>, n: U64): nat
    decreases |ops|
  {
    if ops == [] then 0 else Count(Enters(w, ops[0], n)) + TimesEntered(Step(w, ops[0]), ops[1..], n)
  }

  function TimesLeft(w: World, ops: seq<Op>, n: U64): nat
    decreases |ops|
  {
    if ops == [] then 0 else Count(Leaves(w, ops[0], n)) + TimesLeft(Step(w, ops[0]), ops[1..], n)
  }

  /** The sequence numbers a step other than a send takes out of flight. */
  function Removed(w: World, op: Op): set<U64>
  {
    match op
    case Timeout(n) => {n}
    case Acknowledge(n) => {n}
    case Prune(h, t) => Expired(w.s, h, t)
    case _ => {}
  }

  lemma OthersRemove(w: World, op: Op)
    requires !op.Send?
    ensures Step(w, op).s.inFlight == w.s.inFlight - Removed(w, op)
    ensures Step(w, op).s.sendSequence == w.s.sendSequence
  {
    assert w.s.inFlight - {} == w.s.inFlight;
    match op
    case Timeout(n) => TimeoutRemoves(w, n);
    case Receive(p, inRange, faithful) => ReceiveRemoves(w, op);
    case _ =>
  }

  lemma TimeoutRemoves(w: World, n: U64)
    ensures var s := TimeoutResult(w.s, w.bank, n).0;
            s.inFlight == w.s.inFlight - {n} && s.sendSequence == w.s.sendSequence
  {
    if n !in w.s.inFlight { assert w.s.inFlight - {n} == w.s.inFlight; }
  }

  lemma ReceiveRemoves(w: World, op: Op)
    requires op.Receive?
    ensures Step(w, op).s.inFlight == w.s.inFlight && Step(w, op).s.sendSequence == w.s.sendSequence
  {
  }

  function Sent(w: World, op: Op): Result<U64>
    requires op.Send?
  {
    SendResult(w.s, w.bank, op.channelId, op.sender, op.receiver, op.denom, op.amount,
               op.timeoutHeight, op.timeoutTimestamp).2
  }

  /** A successful send puts the sender's tokens in flight under the next number. */
  lemma SendAdds(w: World, op: Op)
    requires op.Send? && Sent(w, op).Ok?
    ensures var v, n := Step(w, op).s, w.s.sendSequence;
            && n < U64_MAX && v.sendSequence == n + 1 && n in v.inFlight && Sent(w, op).value == n
            && v.inFlight == w.s.inFlight[n := v.inFlight[n]]
            && v.inFlight[n].data == TokenPacket(op.denom, Dec(op.amount), op.sender, op.receiver, "")
            && ParseU64(v.inFlight[n].data.amount) == Some(op.amount)
  {
    ParsePrinted(op.amount);
  }

  lemma FailedSend(w: World, op: Op)
    requires op.Send? && !Sent(w, op).Ok?
    ensures Step(w, op).s.inFlight == w.s.inFlight && Step(w, op).s.sendSequence == w.s.sendSequence
  {
  }

  /** Only a send adds a packet, under the next number; no step alters one in flight. */
  lemma StepPackets(w: World, op: Op)
    requires Numbered(w)
    ensures var v := Step(w, op);
            && Numbered(v) && w.s.sendSequence <= v.s.sendSequence
            && (forall n :: Enters(w, op, n) ==> n == w.s.sendSequence < v.s.sendSequence)
            && (forall n :: n in w.s.inFlight && n in v.s.inFlight ==> v.s.inFlight[n] == w.s.inFlight[n])
  {
    if !op.Send? {
      OthersRemove(w, op);
    } else if Sent(w, op).Ok? {
      SendAdds(w, op);
    } else {
      FailedSend(w, op);
    }
  }

  /** Every departure is matched by an entry, and no number enters twice. */
  lemma {:induction false} LeavesAtMostOnce(w: World, ops: seq<Op>, n: U64)
    requires Numbered(w)
    ensures TimesEntered(w, ops, n) <= Count(n >= w.s.sendSequence)
    ensures TimesLeft(w, ops, n) + Count(n in Run(w, ops).s.inFlight)
         == TimesEntered(w, ops, n) + Count(n in w.s.inFlight)
    ensures TimesLeft(w, ops, n) <= 1
    decreases |ops|
  {
    if ops != [] {
      StepPackets(w, ops[0]);
      LeavesAtMostOnce(Step(w, ops[0]), ops[1..], n);
    }
  }

  /** A packet still in flight is the packet that was sent. */
  lemma {:induction false} PacketsAreKept(w: World, ops: seq<Op>, n: U64)
    requires Numbered(w) && n in w.s.inFlight && n in Run(w, ops).s.inFlight
    ensures Numbered(Run(w, ops)) && Run(w, ops).s.inFlight[n] == w.s.inFlight[n]
    decreases |ops|
  {
    if ops != [] {
      StepPackets(w, ops[0]);
      if n in Step(w, ops[0]).s.inFlight {
        PacketsAreKept(Step(w, ops[0]), ops[1..], n);
      } else {
        LeavesAtMostOnce(Step(w, ops[0]), ops[1..], n);
      }
    }
  }

  // ---- Escrow covers what is in flight -------------------------------------------------

  function AmountOf(p: Packet, denom: string): nat
  {
    if p.data.denom == denom && ParseU64(p.data.amount).Some? then ParseU64(p.data.amount).value else 0
  }

  function Amounts(m: map<U64, Packet>, denom: string): map<U64, nat>
  {
    map n | n in m :: AmountOf(m[n], denom)
  }

  ghost function Flying(s: Transfers, denom: string): nat { Sum(Amounts(s.inFlight, denom)) }

  /** Escrow of a denomination paid out by a native return. */
  function ReturnedBy(w: World, op: Op, denom: string): nat
  {
    if op.Receive? && ReceiveResult(w.s, w.bank, op.packet, op.inRange, op.faithful).2.Ok?
       && IsNativeReturn(op.packet.denom) && LastComponent(op.packet.denom) == denom
    then ParseU64(op.packet.amount).value else 0
  }

  /** Amount of a denomination that leaves flight by acknowledgement or pruning. */
  ghost function ReleasedBy(w: World, op: Op, denom: string): nat
  {
    match op
    case Acknowledge(n) => if n in w.s.inFlight then AmountOf(w.s.inFlight[n], denom) else 0
    case Prune(h, t) =>
      Sum(Restrict(Amounts(w.s.inFlight, denom), Expired(w.s, h, t)))
    case _ => 0
  }

  function Returned(w: World, ops: seq<Op>, denom: string): nat
    decreases |ops|
  {
    if ops == [] then 0 else ReturnedBy(w, ops[0], denom) + Returned(Step(w, ops[0]), ops[1..], denom)
  }

  ghost function Released(w: World, ops: seq<Op>, denom: string): nat
    decreases |ops|
  {
    if ops == [] then 0 else ReleasedBy(w, ops[0], denom) + Released(Step(w, ops[0]), ops[1..], denom)
  }

  lemma FlyingAfterSend(s: Transfers, denom: string, n: U64, p: Packet)
    ensures Sum(Amounts(s.inFlight[n := p], denom)) <= Flying(s, denom) + AmountOf(p, denom)
  {
    assert Amounts(s.inFlight[n := p], denom) == Put(Amounts(s.inFlight, denom), n, AmountOf(p, denom));
    SumUpdate(Amounts(s.inFlight, denom), n, AmountOf(p, denom));
    SumMember(Amounts(s.inFlight, denom), n);
  }

  lemma FlyingAfterRemoval(s: Transfers, denom: string, n: U64)
    requires n in s.inFlight
    ensures Sum(Amounts(s.inFlight - {n}, denom)) + AmountOf(s.inFlight[n], denom) == Flying(s, denom)
  {
    assert Amounts(s.inFlight - {n}, denom) == Amounts(s.inFlight, denom) - {n};
    SumRemove(Amounts(s.inFlight, denom), n);
  }

  lemma FlyingAfterPrune(s: Transfers, denom: string, gone: set<U64>)
    ensures Sum(Amounts(s.inFlight - gone, denom))
          + Sum(Restrict(Amounts(s.inFlight, denom), gone)) == Flying(s, denom)
  {
    assert Amounts(s.inFlight - gone, denom) == Amounts(s.inFlight, denom) - gone;
    SumSplit(Amounts(s.inFlight, denom), gone);
  }

  /** Escrow plus native returns gains at least as much as flight plus releases. */
  predicate Gains(e: int, f: int, e': int, f': int, returned: int, released: int)
  {
    e' + returned + f >= f' + released + e
  }

  ghost predicate StepGains(w: World, op: Op, denom: string)
  {
    var v := Step(w, op);
    Gains(Get(w.s.escrow, denom), Flying(w.s, denom), Get(v.s.escrow, denom), Flying(v.s, denom),
          ReturnedBy(w, op, denom), ReleasedBy(w, op, denom))
  }

  lemma SendGains(w: World, op: Op, denom: string)
    requires op.Send?
    ensures StepGains(w, op, denom)
  {
    var n := w.s.sendSequence;
    if n in Step(w, op).s.inFlight {
      ParsePrinted(op.amount);
      FlyingAfterSend(w.s, denom, n, Step(w, op).s.inFlight[n]);
    }
  }

  lemma TimeoutGains(w: World, op: Op, denom: string)
    requires op.Timeout?
    ensures StepGains(w, op, denom)
  {
    if op.seqno in w.s.inFlight {
      FlyingAfterRemoval(w.s, denom, op.seqno);
      TimeoutRemoves(w, op.seqno);
      TimeoutEscrow(w, op.seqno, denom);
    }
  }

  lemma TimeoutEscrow(w: World, n: U64, denom: string)
    requires n in w.s.inFlight
    ensures Get(Step(w, Timeout(n)).s.escrow, denom) >= Get(w.s.escrow, denom) - AmountOf(w.s.inFlight[n], denom)
  {
  }

  lemma StepCovers(w: World, op: Op, denom: string)
    requires !Leaks(w, op)
    ensures StepGains(w, op, denom)
  {
    match op
    case Send(_, _, _, _, _, _, _) => SendGains(w, op, denom);
    case Timeout(_) => TimeoutGains(w, op, denom);
    case Acknowledge(n) => if n in w.s.inFlight { FlyingAfterRemoval(w.s, denom, n); }
    case Prune(h, t) => FlyingAfterPrune(w.s, denom, Expired(w.s, h, t));
    case Receive(_, _, _) => ReceiveGains(w, op, denom);
    case OpenChannel(_) =>
  }

  lemma ReceiveGains(w: World, op: Op, denom: string)
    requires op.Receive? && !Leaks(w, op)
    ensures StepGains(w, op, denom)
  {
    ReceiveRemoves(w, op);
    ReceiveEscrow(w, op, denom);
  }

  /** A receipt takes out of escrow exactly what it returns. */
  lemma ReceiveEscrow(w: World, op: Op, denom: string)
    requires op.Receive? && !Leaks(w, op)
    ensures Get(Step(w, op).s.escrow, denom) + ReturnedBy(w, op, denom) == Get(w.s.escrow, denom)
  {
    var p := op.packet;
    if WellFormed(p) && op.inRange && op.faithful && IsNativeReturn(p.denom) {
      UnlockPays(w.s, w.bank, LastComponent(p.denom), p.receiver, ParseU64(p.amount).value);
    }
  }

  lemma {:induction false} RunCovers(w: World, ops: seq<Op>, denom: string)
    requires Total(w) <= U64_MAX
    ensures var v := Run(w, ops);
            Gains(Get(w.s.escrow, denom), Flying(w.s, denom), Get(v.s.escrow, denom), Flying(v.s, denom),
                  Returned(w, ops, denom), Released(w, ops, denom))
    decreases |ops|
  {
    if ops != [] {
      BoundedNeverLeaks(w, ops[0]);
      StepConserves(w, ops[0]);
      StepCovers(w, ops[0], denom);
      RunCovers(Step(w, ops[0]), ops[1..], denom);
    }
  }

  // ---- Refunds -------------------------------------------------------------------------

  lemma UnlockPays(s: Transfers, bank: Balances, denom: string, to: string, amount: U64)
    requires Get(bank, to) + amount <= U64_MAX || Get(s.escrow, denom) < amount
    ensures var (s', bank', r) := UnlockResult(s, bank, denom, to, amount);
            && (r.Ok? <==> Get(s.escrow, denom) >= amount)
            && bank' == (if r.Ok? then Put(bank, to, Get(bank, to) + amount) else bank)
            && s' == (if r.Ok? then s.(escrow := s.escrow[denom := Get(s.escrow, denom) - amount]) else s)
  {
  }

  /** A timeout of a packet in flight succeeds exactly when escrow covers it, and then pays
      its sender the whole amount; either way the packet is gone. */
  lemma TimeoutPays(w: World, n: U64)
    requires Total(w) <= U64_MAX && Numbered(w) && n in w.s.inFlight
    ensures var d := w.s.inFlight[n].data;
            var amount := ParseU64(d.amount).value;
            var (s, bank, r) := TimeoutResult(w.s, w.bank, n);
            && n !in s.inFlight
            && (r.Ok? <==> Get(w.s.escrow, d.denom) >= amount)
            && (r.Ok? ==> Refunds(w, n, d.sender, amount))
            && (!r.Ok? ==> bank == w.bank && s.escrow == w.s.escrow)
  {
    var d := w.s.inFlight[n].data;
    var s1 := w.s.(inFlight := w.s.inFlight - {n});
    BoundedNeverLeaks(w, Timeout(n));
    UnlockPays(s1, w.bank, d.denom, d.sender, ParseU64(d.amount).value);
  }

  /** As long as the native returns of a denomination stay within what was acknowledged or
      pruned, every timeout of a packet in flight succeeds. */
  lemma TimeoutSucceeds(w: World, ops: seq<Op>, n: U64)
    requires Total(w) <= U64_MAX && Numbered(Run(w, ops)) && n in Run(w, ops).s.inFlight
    requires var denom := Run(w, ops).s.inFlight[n].data.denom;
             && Get(w.s.escrow, denom) >= Flying(w.s, denom)
             && Returned(w, ops, denom) <= Released(w, ops, denom)
    ensures var v := Run(w, ops); TimeoutResult(v.s, v.bank, n).2.Ok?
  {
    var v := Run(w, ops);
    var denom := v.s.inFlight[n].data.denom;
    RunConserves(w, ops);
    RunCovers(w, ops, denom);
    SumMember(Amounts(v.s.inFlight, denom), n);
    TimeoutPays(v, n);
  }

  /** A packet still in flight names the sender and amount of the send that created it. */
  lemma SentPacket(w: World, send: Op, after: seq<Op>)
    requires Numbered(w) && send.Send? && Sent(w, send).Ok?
    requires w.s.sendSequence in Run(Step(w, send), after).s.inFlight
    ensures var v := Run(Step(w, send), after);
            var data := v.s.inFlight[w.s.sendSequence].data;
            && Numbered(v) && data.sender == send.sender && data.denom == send.denom
            && ParseU64(data.amount) == Some(send.amount)
  {
    StepPackets(w, send);
    SendAdds(w, send);
    PacketsAreKept(Step(w, send), after, w.s.sendSequence);
  }

  lemma RunThrough(w: World, before: seq<Op>, op: Op, after: seq<Op>)
    ensures Run(w, before + [op] + after) == Run(Step(Run(w, before), op), after)
  {
    assert before + [op] + after == before + ([op] + after);
    RunConcat(w, before, [op] + after);
    assert ([op] + after)[1..] == after;
  }

  /** From an empty module: whoever sent an amount gets exactly that amount back when the
      packet times out, after any run in which the native returns of the denomination stay
      within what was acknowledged or pruned. */
  lemma SenderIsRefunded(bank: Balances, before: seq<Op>, send: Op, after: seq<Op>)
    requires Sum(bank) <= U64_MAX && send.Send?
    requires var start := World(NO_TRANSFERS, bank);
             var w, ops := Run(start, before), before + [send] + after;
             && Sent(w, send).Ok? && w.s.sendSequence in Run(Step(w, send), after).s.inFlight
             && Returned(start, ops, send.denom) <= Released(start, ops, send.denom)
    ensures var w := Run(World(NO_TRANSFERS, bank), before);
            var v := Run(Step(w, send), after);
            Refunds(v, w.s.sendSequence, send.sender, send.amount)
  {
    var start := World(NO_TRANSFERS, bank);
    var w, ops := Run(start, before), before + [send] + after;
    RunNumbered(start, before);
    SentPacket(w, send, after);
    RunThrough(start, before, send, after);
    RunConserves(start, ops);
    TimeoutSucceeds(start, ops, w.s.sendSequence);
    TimeoutPays(Run(start, ops), w.s.sendSequence);
  }

  /** Timing the packet out now succeeds and credits exactly `amount`, to `to` alone. */
  predicate Refunds(w: World, n: U64, to: string, amount: nat)
  {
    var (_, bank, r) := TimeoutResult(w.s, w.bank, n);
    r.Ok? && bank == Put(w.bank, to, Get(w.bank, to) + amount)
  }

  /** From an empty module: open a channel and send everything the sender has. */
  function SentRun(c: Channel, denom: string, amount: U64): World
  {
    Step(Step(World(NO_TRANSFERS, map["a" := amount]), OpenChannel(c)),
         Send(ChannelName(0), "a", "b", denom, amount, None, 0))
  }

  lemma AfterSend(c: Channel, denom: string, amount: U64)
    requires amount > 0
    ensures var w := SentRun(c, denom, amount);
            && w.s.inFlight.Keys == {0} && w.s.inFlight[0].data == TokenPacket(denom, Dec(amount), "a", "b", "")
            && w.s.escrow == map[denom := amount] && w.bank == map["a" := 0]
  {
    var w := Step(World(NO_TRANSFERS, map["a" := amount]), OpenChannel(c));
    assert Sent(w, Send(ChannelName(0), "a", "b", denom, amount, None, 0)).Ok?;
    SendAdds(w, Send(ChannelName(0), "a", "b", denom, amount, None, 0));
  }

  function NativeReturn(denom: string, amount: U64): Op
  {
    Receive(TokenPacket(PREFIX + denom, Dec(amount), "x", "b", ""), true, true)
  }

  /** The same run with a native return of the whole amount before anything is released. */
  function ReturnedRun(c: Channel, denom: string, amount: U64): World
  {
    Step(SentRun(c, denom, amount), NativeReturn(denom, amount))
  }

  lemma AfterReturn(w: World, denom: string, amount: U64)
    requires amount > 0 && denom != "" && '/' !in denom
    requires w.s.escrow == map[denom := amount] && w.bank == map["a" := 0]
    ensures var v := Step(w, NativeReturn(denom, amount));
            v.s.inFlight == w.s.inFlight && Get(v.s.escrow, denom) == 0 && Get(v.bank, "a") == 0
  {
    VoucherComesHome(denom);
    ParsePrinted(amount);
    assert WellFormed(NativeReturn(denom, amount).packet);
    UnlockPays(w.s, w.bank, denom, "b", amount);
  }

  /** When returns exceed what was released, the timeout of a packet in flight fails: the
      packet is gone and its sender gets nothing. */
  lemma RefundIsLost(c: Channel, denom: string, amount: U64)
    requires amount > 0 && denom != "" && '/' !in denom
    ensures var w := ReturnedRun(c, denom, amount);
            var (s, bank, r) := TimeoutResult(w.s, w.bank, 0);
            && 0 in w.s.inFlight && r == Err(InsufficientBalance(0, amount))
            && 0 !in s.inFlight && Get(bank, "a") == 0
  {
    AfterSend(c, denom, amount);
    AfterReturn(SentRun(c, denom, amount), denom, amount);
    ParsePrinted(amount);
    FailedTimeout(ReturnedRun(c, denom, amount), denom, amount);
  }

  lemma FailedTimeout(w: World, denom: string, amount: U64)
    requires 0 in w.s.inFlight && w.s.inFlight[0].data == TokenPacket(denom, Dec(amount), "a", "b", "")
    requires amount > 0 && Get(w.s.escrow, denom) == 0
    ensures var (s, bank, r) := TimeoutResult(w.s, w.bank, 0);
            r == Err(InsufficientBalance(0, amount)) && 0 !in s.inFlight && bank == w.bank
  {
    ParsePrinted(amount);
  }

  lemma {:induction false} RunConcat(w: World, a: seq<Op>, b: seq<Op>)
    ensures Run(w, a + b) == Run(Run(w, a), b)
    decreases |a|
  {
    if a == [] {
      assert a + b == b;
    } else {
      assert (a + b)[1..] == a[1..] + b;
      RunConcat(Step(w, a[0]), a[1..], b);
    }
  }

  lemma {:induction false} RunNumbered(w: World, ops: seq<Op>)
    requires Numbered(w)
    ensures Numbered(Run(w, ops))
    decreases |ops|
  {
    if ops != [] {
      StepPackets(w, ops[0]);
      RunNumbered(Step(w, ops[0]), ops[1..]);
    }
  }

  // ---- Denominations -------------------------------------------------------------------

  /** The denomination of a voucher comes home to the escrow it left exactly when it holds
      no slash of its own. */
  lemma VoucherComesHome(denom: string)
    ensures IsNativeReturn(PREFIX + denom)
    ensures LastComponent(PREFIX + denom) == denom <==> '/' !in denom
  {
    LastAfterSlash(PORT, denom);
    WholeIffPlain(denom);
  }

  lemma WholeIffPlain(s: string)
    ensures LastComponent(s) == s <==> '/' !in s
  {
  }

  lemma {:induction false} LastAfterSlash(head: string, tail: string)
    ensures LastComponent(head + "/" + tail) == LastComponent(tail)
    decreases |head|
  {
    var s := head + "/" + tail;
    assert s[|head|] == '/';
    if head == "" {
      assert s[1..] == tail;
    } else {
      assert s[1..] == head[1..] + "/" + tail;
      assert s[1..][|head| - 1] == '/';
      LastAfterSlash(head[1..], tail);
    }
  }
}
