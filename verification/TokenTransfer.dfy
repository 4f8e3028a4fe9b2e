/** The ICS-020 token transfer module: escrow, packets in flight and vouchers, over a
    balance map owned by the caller.  Coherence floats only gate a received packet; each
    receipt takes the outcomes of its two gates. */
module TokenTransfer {
  import opened MachineInts
  import opened Ordering
  import opened Text

  datatype ChannelState = Init | TryOpen | Open | Closed

  datatype ChannelOrdering = Unordered | Ordered

  datatype Channel = Channel(
    portId: string, counterpartyChannel: string, counterpartyPort: string, clientId: string,
    state: ChannelState, ordering: ChannelOrdering)

  datatype TokenPacket = TokenPacket(denom: string, amount: string, sender: string, receiver: string, memo: string)

  datatype Packet = Packet(
    sequence: U64, sourcePort: string, sourceChannel: string, destinationPort: string, destinationChannel: string,
    data: TokenPacket, timeoutHeight: Option<U64>, timeoutTimestamp: U64)

  type Balances = map<string, U64>

  datatype Transfers = Transfers(
    channels: map<string, Channel>, escrow: map<string, U64>, inFlight: map<U64, Packet>, sendSequence: U64,
    vouchers: map<(string, string), U64>, nextChannelSeq: U64)

  const NO_TRANSFERS := Transfers(map[], map[], map[], 0, map[], 0)

  datatype Error =
    | ChannelNotFound | ChannelNotOpen | InvalidPacket | Decoherence | PacketNotFound
    | InsufficientBalance(have: U64, need: U64) | IntegerOverflow

  datatype Result<+T> = Ok(value: T) | Err(error: Error)

  // ---- Packets ---------------------------------------------------------------------

  predicate IsExpired(p: Packet, height: U64, time: U64)
  {
    || (p.timeoutHeight.Some? && height >= p.timeoutHeight.value)
    || (p.timeoutTimestamp > 0 && time > p.timeoutTimestamp)
  }

  predicate WellFormed(p: TokenPacket)
  {
    && p.denom != "" && p.sender != "" && p.receiver != ""
    && ParseU64(p.amount).Some? && ParseU64(p.amount).value != 0
  }

  const PORT := "transfer"
  const PREFIX := PORT + "/"

  /** The last component of a path, `split('/').last()`. */
  function LastComponent(s: string): (r: string)
    ensures '/' !in r && |r| <= |s| && s[|s| - |r|..] == r
  {
    if '/' !in s then s
    else if s[0] == '/' && '/' !in s[1..] then s[1..]
    else LastComponent(s[1..])
  }

  predicate IsNativeReturn(denom: string) { PREFIX <= denom }

  // ---- Operations, in source order with their partial writes ------------------------

  function ChannelName(n: nat): string { "channel-" + Dec(n) }

  function OpenResult(s: Transfers, channel: Channel): (Transfers, Result<string>)
  {
    var id := ChannelName(s.nextChannelSeq);
    if s.nextChannelSeq == U64_MAX then (s, Err(IntegerOverflow))
    else (s.(nextChannelSeq := s.nextChannelSeq + 1, channels := s.channels[id := channel.(state := Open)]), Ok(id))
  }

  /** Debit the sender, lock the tokens, take a sequence number, record the packet. */
  function LockResult(
      s: Transfers, bank: Balances, channelId: string, channel: Channel, sender: string, receiver: string,
      denom: string, amount: U64, timeoutHeight: Option<U64>, timeoutTimestamp: U64)
    : (Transfers, Balances, Result<U64>)
    requires amount <= Get(bank, sender)
  {
    var debited := bank[sender := Get(bank, sender) - amount];
    var locked := Get(s.escrow, denom) + amount;
    if locked > U64_MAX then (s, debited, Err(IntegerOverflow))
    else
      var s1 := s.(escrow := s.escrow[denom := locked]);
      if s.sendSequence == U64_MAX then (s1, debited, Err(IntegerOverflow))
      else
        var n := s.sendSequence;
        var packet := Packet(
          n, channel.portId, channelId, channel.counterpartyPort, channel.counterpartyChannel,
          TokenPacket(denom, Dec(amount), sender, receiver, ""), timeoutHeight, timeoutTimestamp);
        (s1.(sendSequence := n + 1, inFlight := s.inFlight[n := packet]), debited, Ok(n))
  }

  function SendResult(
      s: Transfers, bank: Balances, channelId: string, sender: string, receiver: string, denom: string,
      amount: U64, timeoutHeight: Option<U64>, timeoutTimestamp: U64)
    : (Transfers, Balances, Result<U64>)
  {
    if channelId !in s.channels then (s, bank, Err(ChannelNotFound))
    else
      var channel := s.channels[channelId];
      if channel.state != Open then (s, bank, Err(ChannelNotOpen))
      else if amount == 0 then (s, bank, Err(InvalidPacket))
      else if Get(bank, sender) < amount then (s, bank, Err(InsufficientBalance(Get(bank, sender), amount)))
      else LockResult(s, bank, channelId, channel, sender, receiver, denom, amount, timeoutHeight, timeoutTimestamp)
  }

  /** Take `amount` out of escrow and credit it, as a native return and a timeout do. */
  function UnlockResult(s: Transfers, bank: Balances, denom: string, to: string, amount: U64)
    : (Transfers, Balances, Result<()>)
  {
    var escrowed := Get(s.escrow, denom);
    if escrowed < amount then (s, bank, Err(InsufficientBalance(escrowed, amount)))
    else
      var s1 := s.(escrow := s.escrow[denom := escrowed - amount]);
      if Get(bank, to) + amount > U64_MAX then (s1, bank, Err(IntegerOverflow))
      else (s1, bank[to := Get(bank, to) + amount], Ok(()))
  }

  function MintResult(s: Transfers, denom: string, to: string, amount: U64): (Transfers, Result<()>)
  {
    var key := (PREFIX + denom, to);
    if Get(s.vouchers, key) + amount > U64_MAX then (s, Err(IntegerOverflow))
    else (s.(vouchers := s.vouchers[key := Get(s.vouchers, key) + amount]), Ok(()))
  }

  function ReceiveResult(s: Transfers, bank: Balances, p: TokenPacket, inRange: bool, faithful: bool)
    : (Transfers, Balances, Result<()>)
  {
    if !WellFormed(p) || !inRange then (s, bank, Err(InvalidPacket))
    else if !faithful then (s, bank, Err(Decoherence))
    else
      var amount := ParseU64(p.amount).value;
      if IsNativeReturn(p.denom) then UnlockResult(s, bank, LastComponent(p.denom), p.receiver, amount)
      else var (s1, r) := MintResult(s, p.denom, p.receiver, amount); (s1, bank, r)
  }

  /** The packet leaves flight before its amount and the escrow are looked at. */
  function TimeoutResult(s: Transfers, bank: Balances, n: U64): (Transfers, Balances, Result<()>)
  {
    if n !in s.inFlight then (s, bank, Err(PacketNotFound))
    else
      var data := s.inFlight[n].data;
      var s1 := s.(inFlight := s.inFlight - {n});
      match ParseU64(data.amount)
      case None => (s1, bank, Err(InvalidPacket))
      case Some(amount) => UnlockResult(s1, bank, data.denom, data.sender, amount)
  }

  function AcknowledgeResult(s: Transfers, n: U64): (Transfers, Result<()>)
  {
    if n in s.inFlight then (s.(inFlight := s.inFlight - {n}), Ok(())) else (s, Err(PacketNotFound))
  }

  function Expired(s: Transfers, height: U64, time: U64): set<U64>
  {
    set n | n in s.inFlight && IsExpired(s.inFlight[n], height, time)
  }

  function PruneResult(s: Transfers, height: U64, time: U64): Transfers
  {
    s.(inFlight := s.inFlight - Expired(s, height, time))
  }

  // ---- The module as the source keeps it ---------------------------------------------

  /** The balance map the caller passes by mutable reference. */
  class Bank {
    var balances: Balances

    constructor (b: Balances)
      ensures balances == b
    {
      balances := b;
    }
  }

  class Ics020State {
    var channels: map<string, Channel>
    var escrow: map<string, U64>
    var inFlight: map<U64, Packet>
    var sendSequence: U64
    var vouchers: map<(string, string), U64>
    var nextChannelSeq: U64

    function View(): Transfers
      reads this
    {
      Transfers(channels, escrow, inFlight, sendSequence, vouchers, nextChannelSeq)
    }

    constructor ()
      ensures View() == NO_TRANSFERS
    {
      channels, escrow, inFlight, sendSequence, vouchers, nextChannelSeq := map[], map[], map[], 0, map[], 0;
    }

    method OpenChannel(channel: Channel) returns (r: Result<string>)
      modifies this
      ensures (View(), r) == OpenResult(old(View()), channel)
    {
      var id := ChannelName(nextChannelSeq);
      if nextChannelSeq == U64_MAX { return Err(IntegerOverflow); }
      nextChannelSeq := nextChannelSeq + 1;
      channels := channels[id := channel.(state := Open)];
      return Ok(id);
    }

    method SendTransfer(
        channelId: string, sender: string, receiver: string, denom: string, amount: U64, bank: Bank,
        timeoutHeight: Option<U64>, timeoutTimestamp: U64)
      returns (r: Result<U64>)
      modifies this, bank
      ensures (View(), bank.balances, r) ==
              SendResult(old(View()), old(bank.balances), channelId, sender, receiver, denom, amount,
                         timeoutHeight, timeoutTimestamp)
    {
      if channelId !in channels { return Err(ChannelNotFound); }
      var channel := channels[channelId];
      if channel.state != Open { return Err(ChannelNotOpen); }
      if amount == 0 { return Err(InvalidPacket); }
      var bal := Get(bank.balances, sender);
      if bal < amount { return Err(InsufficientBalance(bal, amount)); }
      bank.balances := bank.balances[sender := bal - amount];
      var locked := Get(escrow, denom) + amount;
      if locked > U64_MAX { return Err(IntegerOverflow); }
      escrow := escrow[denom := locked];
      var n := sendSequence;
      if n == U64_MAX { return Err(IntegerOverflow); }
      sendSequence := n + 1;
      var data := TokenPacket(denom, Dec(amount), sender, receiver, "");
      inFlight := inFlight[n := Packet(
                             n, channel.portId, channelId, channel.counterpartyPort, channel.counterpartyChannel,
                             data, timeoutHeight, timeoutTimestamp)];
      return Ok(n);
    }

    method Unlock(denom: string, to: string, amount: U64, bank: Bank) returns (r: Result<()>)
      modifies this`escrow, bank
      ensures (View(), bank.balances, r) == UnlockResult(old(View()), old(bank.balances), denom, to, amount)
    {
      var escrowed := Get(escrow, denom);
      if escrowed < amount { return Err(InsufficientBalance(escrowed, amount)); }
      escrow := escrow[denom := escrowed - amount];
      var bal := Get(bank.balances, to);
      if bal + amount > U64_MAX { return Err(IntegerOverflow); }
      bank.balances := bank.balances[to := bal + amount];
      return Ok(());
    }

    method ReceivePacket(p: TokenPacket, bank: Bank, inRange: bool, faithful: bool) returns (r: Result<()>)
      modifies this, bank
      ensures (View(), bank.balances, r) == ReceiveResult(old(View()), old(bank.balances), p, inRange, faithful)
    {
      if !WellFormed(p) || !inRange { return Err(InvalidPacket); }
      if !faithful { return Err(Decoherence); }
      var amount := ParseU64(p.amount).value;
      if IsNativeReturn(p.denom) {
        r := Unlock(LastComponent(p.denom), p.receiver, amount, bank);
      } else {
        var key := (PREFIX + p.denom, p.receiver);
        var held := Get(vouchers, key);
        if held + amount > U64_MAX { return Err(IntegerOverflow); }
        vouchers := vouchers[key := held + amount];
        r := Ok(());
      }
    }

    method TimeoutPacket(n: U64, bank: Bank) returns (r: Result<()>)
      modifies this, bank
      ensures (View(), bank.balances, r) == TimeoutResult(old(View()), old(bank.balances), n)
    {
      if n !in inFlight { return Err(PacketNotFound); }
      var data := inFlight[n].data;
      inFlight := inFlight - {n};
      var amount := ParseU64(data.amount);
      if amount.None? { return Err(InvalidPacket); }
      r := Unlock(data.denom, data.sender, amount.value, bank);
    }

    method AcknowledgePacket(n: U64) returns (r: Result<()>)
      modifies this
      ensures (View(), r) == AcknowledgeResult(old(View()), n)
    {
      if n !in inFlight { return Err(PacketNotFound); }
      inFlight := inFlight - {n};
      return Ok(());
    }

    /** Collect the expired sequence numbers in key order, then remove them. */
    method PruneExpired(height: U64, time: U64) returns (count: nat)
      modifies this`inFlight
      ensures View() == PruneResult(old(View()), height, time)
      ensures count == |Expired(old(View()), height, time)|
    {
      var expired := InKeyOrder(Expired(View(), height, time));
      count := |expired|;
      RemoveAll(expired);
    }

    method RemoveAll(gone: seq<nat>)
      modifies this`inFlight
      ensures inFlight == old(inFlight) - Members(gone)
    {
      for i := 0 to |gone|
        invariant inFlight == old(inFlight) - Members(gone[..i])
      {
        assert Members(gone[..i + 1]) == Members(gone[..i]) + {gone[i]};
        inFlight := inFlight - {gone[i]};
      }
      assert gone[..|gone|] == gone;
    }
  }

  function Members(s: seq<nat>): set<nat> { set n | n in s }

  /** A set of sequence numbers in the order a sorted map walks them. */
  function InKeyOrder(s: set<nat>): (r: seq<nat>)
    ensures Members(r) == s && |r| == |s|
  {
    NatLessTotal();
    Sorted(s, NatLess)
  }
}
