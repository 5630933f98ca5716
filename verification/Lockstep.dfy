/**
 * Over a network that keeps datagrams in order, but may lose and duplicate them, the two sides run in lockstep: the
 * sender is at the block of the receiver or one ahead, and no side ever reaches one of its error branches.
 */
module Lockstep {
  import opened Basics
  import opened BlockNumbers
  import opened MemoryFiles
  import opened Packets
  import opened Negotiation
  import opened Operations
  import opened Senders
  import opened Receivers
  import opened Transfers
  import opened Opening
  import opened Honesty
  import opened Safety

  /** The last thing the receiver has taken: a block, 0 for the opening, or -1 while it waits for an OACK. */
  function LastTaken(plan: Plan, r: ReceiverState): int {
    if plan.direction == Read && plan.oack != map[] && !r.oackReceived then -1 else |r.delivered|
  }

  /** The number in the field for the last ACK, when the sender is at a block. */
  function Previous(plan: Plan, reached: nat): uint16 {
    if reached == 0 || (reached == 1 && plan.direction == Write && plan.oack != map[]) then 0xFFFF
    else Number(reached - 1)
  }

  predicate Sorted(log: seq<Datagram>) {
    forall i, j :: 0 <= i < j < |log| ==> log[i].index <= log[j].index
  }

  /** From the last delivered position on, a log holds nothing older than an index, and it never holds an ERROR. */
  predicate Fresh(log: seq<Datagram>, next: nat, oldest: int) {
    && Sorted(log)
    && (forall i :: 0 <= i < |log| && i + 1 >= next ==> log[i].index >= oldest)
    && (forall i :: 0 <= i < |log| ==> !log[i].packet.Error?)
  }

  /** An operation that has not been ended by an error of the protocol. */
  predicate Undisturbed(op: OperationState) {
    && (forall i :: 0 <= i < |op.completions| ==> op.completions[i] in {Successful, CommunicationError})
    && (op.Open() && op.stored.Some? ==> !op.stored.value.Error?)
  }

  ghost predicate InLockstep(plan: Plan, sys: System) {
    && Safe(plan, sys)
    && plan.usable && plan.size >= 1 && plan.bufferSize > 3
    && sys.sender.blocksSent <= BlockCount(|plan.file|, plan.size)
    && sys.sender.blocksSent - 1 <= LastTaken(plan, sys.receiver) <= sys.sender.blocksSent
    && (sys.sender.Open() ==> sys.sender.lastReceivedBlockNumber == Previous(plan, sys.sender.blocksSent))
    && Fresh(sys.toReceiver, sys.nextToReceiver, LastTaken(plan, sys.receiver))
    && Fresh(sys.toSender, sys.nextToSender, sys.sender.blocksSent - 1)
    && Undisturbed(sys.sender.op) && Undisturbed(sys.receiver.op)
  }

  /** An OACK reaches a sender that has already sent a block. */
  predicate OackAgain(sys: System, event: Event) {
    && event.ToSender? && event.position < |sys.toSender|
    && sys.toSender[event.position].packet.OptionsAcknowledgement?
    && sys.sender.Open() && sys.sender.blocksSent >= 1
  }

  predicate InOrderOackOnce(sys: System, event: Event) {
    InOrder(sys, event) && !OackAgain(sys, event)
  }

  /** Lockstep keeps datagrams in the window. */
  lemma LockstepInWindow(plan: Plan, sys: System, event: Event)
    requires InLockstep(plan, sys) && InOrder(sys, event)
    ensures InWindow(sys, event)
  {
    match event
    case ToReceiver(position) =>
      if position < |sys.toReceiver| {
        assert FromSender(plan, sys.toReceiver[position], sys.sender.blocksSent);
      }
    case ToSender(position) =>
      if position < |sys.toSender| {
        assert FromReceiver(plan, sys.toSender[position], sys.receiver);
      }
    case _ =>
  }

  // The receiver

  /** A handler has sent one packet, or none. */
  predicate SentOne(op: OperationState, next: OperationState) {
    next.sent == op.sent || (next.stored.Some? && next.sent == op.sent + [next.stored.value])
  }

  /** What the handlers of the receiver keep in lockstep. */
  ghost predicate ReceiverKeeps(plan: Plan, r: ReceiverState, next: ReceiverState) {
    && Undisturbed(next.op)
    && SentOne(r.op, next.op)
    && (next.op.sent != r.op.sent ==> !next.op.stored.value.Error?)
    && LastTaken(plan, r) <= LastTaken(plan, next)
  }

  lemma AcknowledgeLastKeeps(plan: Plan, r: ReceiverState, dataSize: nat)
    requires r.Open()
    ensures ReceiverKeeps(plan, r, r.AcknowledgeLast(dataSize))
    ensures LastTaken(plan, r.AcknowledgeLast(dataSize)) == LastTaken(plan, r)
  {
  }

  lemma DataKeeps(plan: Plan, r: ReceiverState, reached: nat, index: nat)
    requires plan.Sound() && plan.usable && ReceiverCore(plan, r) && Agreed(plan, r) && r.Open()
    requires 1 <= index <= reached && LastTaken(plan, r) <= index <= LastTaken(plan, r) + 1
    ensures var next := r.OnData(Number(index), Block(plan.file, plan.size, index));
            ReceiverKeeps(plan, r, next) && LastTaken(plan, next) == index
  {
    var data := Block(plan.file, plan.size, index);
    NumberInWindow(index, |r.delivered|);
    NextNumber(|r.delivered|);
    if index == |r.delivered| {
      AcknowledgeLastKeeps(plan, r, |data|);
    } else {
      assert r.OnData(Number(index), data) == WithBlock(r, data).AcknowledgeLast(|data|);
      AcknowledgeLastKeeps(plan, WithBlock(r, data), |data|);
    }
  }

  lemma BlockKeeps(plan: Plan, r: ReceiverState, reached: nat, index: nat)
    requires plan.Sound() && plan.usable && ReceiverSafe(plan, r, reached) && r.Open()
    requires 1 <= index <= reached && LastTaken(plan, r) <= index <= LastTaken(plan, r) + 1
    ensures var next := r.OnPacket(Some(Data(Number(index), Block(plan.file, plan.size, index))));
            ReceiverKeeps(plan, r, next) && LastTaken(plan, next) == index
  {
    DataKeeps(plan, r.(op := r.op.Received()), reached, index);
  }

  lemma OackKeeps(plan: Plan, r: ReceiverState, reached: nat)
    requires plan.Sound() && plan.usable && plan.direction == Read && plan.oack != map[]
    requires ReceiverSafe(plan, r, reached) && r.Open() && Undisturbed(r.op) && LastTaken(plan, r) <= 0
    ensures var next := r.OnPacket(Some(OptionsAcknowledgement(plan.oack)));
            ReceiverKeeps(plan, r, next) && LastTaken(plan, next) == 0
  {
    var verdict := CheckOack(plan.client, plan.rule, plan.oack);
    assert r.OnPacket(Some(OptionsAcknowledgement(plan.oack))) == r.(op := r.op.Received()).OnVerdict(verdict);
  }

  lemma ReceiverTimeoutKeeps(plan: Plan, r: ReceiverState, reached: nat)
    requires ReceiverSafe(plan, r, reached) && r.Open() && Undisturbed(r.op)
    ensures ReceiverKeeps(plan, r, r.OnTimeout()) && LastTaken(plan, r.OnTimeout()) == LastTaken(plan, r)
  {
  }

  // The sender

  ghost predicate SenderKeeps(plan: Plan, s: SenderState, next: SenderState) {
    && Undisturbed(next.op)
    && SentOne(s.op, next.op)
    && (next.op.sent != s.op.sent ==> !next.op.stored.value.Error?)
    && (next.Open() ==> next.lastReceivedBlockNumber == Previous(plan, next.blocksSent))
    && (plan.size >= 1 ==> next.blocksSent <= Max(s.blocksSent, BlockCount(|plan.file|, plan.size)))
  }

  lemma SendDataKeeps(plan: Plan, s: SenderState)
    requires s.Open() && s.lastReceivedBlockNumber == Previous(plan, s.blocksSent + 1)
    requires plan.size >= 1 ==> s.blocksSent < BlockCount(|plan.file|, plan.size)
    ensures SenderKeeps(plan, s, s.SendData().Receive())
  {
  }

  lemma CalledAcknowledgementKeeps(plan: Plan, s: SenderState, index: nat)
    requires SenderCore(plan, s) && Undisturbed(s.op)
    requires s.lastReceivedBlockNumber == Previous(plan, s.blocksSent)
    requires s.blocksSent - 1 <= index <= s.blocksSent
    requires plan.direction == Write && plan.oack != map[] ==> index >= 1
    requires plan.size >= 1
    ensures var next := s.OnAcknowledgement(Number(index));
            SenderKeeps(plan, s, next) && s.blocksSent <= next.blocksSent <= index + 1
  {
    NumberInWindow(index, s.blocksSent);
    if s.blocksSent >= 1 {
      NumberInWindow(index, s.blocksSent - 1);
    }
    if index == s.blocksSent && !s.lastDataPacketTransmitted {
      SendDataKeeps(plan, s.(lastReceivedBlockNumber := Number(index)));
    }
  }

  lemma AcknowledgementKeeps(plan: Plan, s: SenderState, r: ReceiverState, index: nat)
    requires plan.Sound() && plan.usable && SenderHonest(plan, s) && s.Open() && Undisturbed(s.op)
    requires FromReceiver(plan, Datagram(Acknowledgement(Number(index)), index), r)
    requires s.lastReceivedBlockNumber == Previous(plan, s.blocksSent)
    requires s.blocksSent - 1 <= index <= s.blocksSent
    ensures var next := s.OnPacket(Some(Acknowledgement(Number(index))));
            && SenderKeeps(plan, s, next)
            && s.blocksSent <= next.blocksSent <= index + 1
  {
    CalledAcknowledgementKeeps(plan, s.(op := s.op.Received()), index);
  }

  lemma FirstOackKeeps(plan: Plan, s: SenderState)
    requires plan.Sound() && plan.usable && plan.direction == Write && plan.oack != map[]
    requires SenderHonest(plan, s) && s.Open() && Undisturbed(s.op) && s.blocksSent == 0
    ensures var next := s.OnPacket(Some(OptionsAcknowledgement(plan.oack)));
            SenderKeeps(plan, s, next) && next.blocksSent == 1
  {
    var verdict := CheckOack(plan.client, plan.rule, plan.oack);
    assert s.OnPacket(Some(OptionsAcknowledgement(plan.oack))) == s.(op := s.op.Received()).OnVerdict(verdict);
  }

  lemma SenderTimeoutKeeps(plan: Plan, s: SenderState)
    requires SenderHonest(plan, s) && s.Open() && Undisturbed(s.op)
    requires s.lastReceivedBlockNumber == Previous(plan, s.blocksSent)
    ensures SenderKeeps(plan, s, s.OnTimeout()) && s.OnTimeout().blocksSent == s.blocksSent
  {
  }

  // The composed system

  lemma FreshExtended(log: seq<Datagram>, next: nat, oldest: int, packets: seq<Packet>, index: nat)
    requires Fresh(log, next, oldest) && oldest <= index
    requires forall i :: 0 <= i < |log| ==> log[i].index <= index
    requires forall i :: 0 <= i < |packets| ==> !packets[i].Error?
    ensures Fresh(log + Tagged(packets, index), next, oldest)
  {
  }

  lemma FreshAfter(log: seq<Datagram>, next: nat, oldest: int, position: nat)
    requires Fresh(log, next, oldest) && position < |log|
    ensures Fresh(log, position + 1, log[position].index)
  {
  }

  lemma ReceiverStepInLockstep(plan: Plan, sys: System, next: ReceiverState, seen: nat)
    requires InLockstep(plan, sys) && sys.receiver.Open()
    requires ReceiverMoves(plan, sys.receiver, next, sys.sender.blocksSent) && ReceiverKeeps(plan, sys.receiver, next)
    requires LastTaken(plan, next) <= sys.sender.blocksSent && Fresh(sys.toReceiver, seen, LastTaken(plan, next))
    ensures InLockstep(plan, WithReceiver(sys.(nextToReceiver := seen), next))
  {
    ReceiverStepSafe(plan, sys, next, seen);
    forall i | 0 <= i < |sys.toSender|
      ensures sys.toSender[i].index <= |next.delivered|
    {
      assert FromReceiver(plan, sys.toSender[i], sys.receiver);
    }
    FreshExtended(
      sys.toSender, sys.nextToSender, sys.sender.blocksSent - 1, Since(sys.receiver.op, next.op), |next.delivered|);
  }

  lemma SenderStepInLockstep(plan: Plan, sys: System, next: SenderState, seen: nat)
    requires InLockstep(plan, sys) && sys.sender.Open()
    requires SenderMoves(plan, sys.sender, next, sys.receiver) && SenderKeeps(plan, sys.sender, next)
    requires next.blocksSent - 1 <= LastTaken(plan, sys.receiver) && Fresh(sys.toSender, seen, next.blocksSent - 1)
    ensures InLockstep(plan, WithSender(sys.(nextToSender := seen), next))
  {
    SenderStepSafe(plan, sys, next, seen);
    forall i | 0 <= i < |sys.toReceiver|
      ensures sys.toReceiver[i].index <= next.blocksSent
    {
      assert FromSender(plan, sys.toReceiver[i], sys.sender.blocksSent);
    }
    FreshExtended(
      sys.toReceiver, sys.nextToReceiver, LastTaken(plan, sys.receiver), Since(sys.sender.op, next.op),
      next.blocksSent);
  }

  /** A datagram of the sender that is not older than what the receiver has taken. */
  lemma ReceivedKeeps(plan: Plan, r: ReceiverState, reached: nat, datagram: Datagram)
    requires plan.Sound() && plan.usable && ReceiverSafe(plan, r, reached) && r.Open() && Undisturbed(r.op)
    requires FromSender(plan, datagram, reached) && !datagram.packet.Error? && plan.bufferSize > 3
    requires LastTaken(plan, r) <= datagram.index <= reached <= LastTaken(plan, r) + 1
    ensures var next := r.OnPacket(Some(datagram.packet));
            && ReceiverMoves(plan, r, next, reached) && ReceiverKeeps(plan, r, next)
            && LastTaken(plan, next) == datagram.index
  {
    DatagramSeen(plan, datagram, reached);
    ReceivedMoves(plan, r, reached, datagram);
    match datagram.packet {
      case Data(_, _) => BlockKeeps(plan, r, reached, datagram.index);
      case OptionsAcknowledgement(_) => OackKeeps(plan, r, reached);
    }
  }

  lemma ToReceiverInLockstep(plan: Plan, sys: System, position: nat)
    requires plan.Sound() && InLockstep(plan, sys) && position < |sys.toReceiver|
    requires InOrder(sys, Event.ToReceiver(position))
    ensures InLockstep(plan, Step(sys, Event.ToReceiver(position)))
  {
    var r, datagram, reached := sys.receiver, sys.toReceiver[position], sys.sender.blocksSent;
    FreshAfter(sys.toReceiver, sys.nextToReceiver, LastTaken(plan, r), position);
    assert FromSender(plan, datagram, reached);
    if r.Open() {
      DatagramSeen(plan, datagram, reached);
      ReceivedKeeps(plan, r, reached, datagram);
      ReceiverStepInLockstep(plan, sys, r.OnPacket(Some(datagram.packet)), position + 1);
      ReceiverStep(sys, position, Some(datagram.packet));
    }
  }

  /** A datagram of the receiver that is not older than the block before the one of the sender. */
  lemma AnsweredKeeps(plan: Plan, s: SenderState, r: ReceiverState, datagram: Datagram)
    requires plan.Sound() && plan.usable && SenderHonest(plan, s) && s.Open() && Undisturbed(s.op)
    requires FromReceiver(plan, datagram, r) && !datagram.packet.Error? && |r.delivered| <= s.blocksSent
    requires s.blocksSent >= 1 ==> Agreed(plan, r)
    requires s.lastReceivedBlockNumber == Previous(plan, s.blocksSent) && s.blocksSent - 1 <= datagram.index
    requires datagram.packet.OptionsAcknowledgement? ==> s.blocksSent == 0
    ensures var next := s.OnPacket(Some(datagram.packet));
            SenderMoves(plan, s, next, r) && SenderKeeps(plan, s, next) && next.blocksSent <= datagram.index + 1
  {
    AnswerSeen(plan, datagram, r);
    AnsweredMoves(plan, s, r, datagram);
    match datagram.packet {
      case Acknowledgement(_) => AcknowledgementKeeps(plan, s, r, datagram.index);
      case OptionsAcknowledgement(_) => FirstOackKeeps(plan, s);
    }
  }

  lemma ToSenderInLockstep(plan: Plan, sys: System, position: nat)
    requires plan.Sound() && InLockstep(plan, sys) && position < |sys.toSender|
    requires InOrderOackOnce(sys, Event.ToSender(position))
    ensures InLockstep(plan, Step(sys, Event.ToSender(position)))
  {
    if sys.sender.Open() {
      AnswerInPlace(plan, sys, position);
      AnswerInLockstep(plan, sys, position);
      AnswerSeen(plan, sys.toSender[position], sys.receiver);
      SenderStep(sys, position, Some(sys.toSender[position].packet));
    } else {
      LateAnswerInLockstep(plan, sys, position);
    }
  }

  /** A datagram that reaches a completed sender. */
  lemma LateAnswerInLockstep(plan: Plan, sys: System, position: nat)
    requires InLockstep(plan, sys) && position < |sys.toSender| && !sys.sender.Open()
    requires InOrder(sys, Event.ToSender(position))
    ensures InLockstep(plan, sys.(nextToSender := position + 1))
  {
    FreshAfter(sys.toSender, sys.nextToSender, sys.sender.blocksSent - 1, position);
  }

  lemma AnswerInLockstep(plan: Plan, sys: System, position: nat)
    requires plan.Sound() && InLockstep(plan, sys) && position < |sys.toSender| && sys.sender.Open()
    requires InPlace(plan, sys, position)
    ensures var next := sys.sender.OnPacket(Some(sys.toSender[position].packet));
            InLockstep(plan, WithSender(sys.(nextToSender := position + 1), next))
  {
    var s, datagram := sys.sender, sys.toSender[position];
    AnsweredKeeps(plan, s, sys.receiver, datagram);
    FreshLonger(sys.toSender, position + 1, s.OnPacket(Some(datagram.packet)).blocksSent - 1, datagram.index);
    SenderStepInLockstep(plan, sys, s.OnPacket(Some(datagram.packet)), position + 1);
  }

  /** What is known of an answer that keeps the order. */
  ghost predicate InPlace(plan: Plan, sys: System, position: nat)
    requires position < |sys.toSender|
  {
    var datagram := sys.toSender[position];
    && FromReceiver(plan, datagram, sys.receiver) && !datagram.packet.Error?
    && sys.sender.blocksSent - 1 <= datagram.index <= |sys.receiver.delivered| <= sys.sender.blocksSent
    && (datagram.packet.OptionsAcknowledgement? ==> sys.sender.blocksSent == 0)
    && Fresh(sys.toSender, position + 1, datagram.index)
  }

  lemma AnswerInPlace(plan: Plan, sys: System, position: nat)
    requires plan.Sound() && InLockstep(plan, sys) && position < |sys.toSender| && sys.sender.Open()
    requires InOrderOackOnce(sys, Event.ToSender(position))
    ensures InPlace(plan, sys, position)
  {
    FreshAfter(sys.toSender, sys.nextToSender, sys.sender.blocksSent - 1, position);
    assert FromReceiver(plan, sys.toSender[position], sys.receiver);
  }

  lemma FreshLonger(log: seq<Datagram>, next: nat, older: int, oldest: int)
    requires Fresh(log, next, oldest) && older <= oldest
    ensures Fresh(log, next, older)
  {
  }

  lemma StepInLockstep(plan: Plan, sys: System, event: Event)
    requires plan.Sound() && InLockstep(plan, sys) && InOrderOackOnce(sys, event)
    ensures InLockstep(plan, Step(sys, event))
  {
    if Enabled(sys, event) {
      match event
      case ToReceiver(position) => ToReceiverInLockstep(plan, sys, position);
      case ToSender(position) => ToSenderInLockstep(plan, sys, position);
      case SenderTimeout =>
        TimeoutMovesSender(plan, sys.sender, sys.receiver);
        SenderTimeoutKeeps(plan, sys.sender);
        if sys.sender.op.timer != FirstTimer {
          SenderStepInLockstep(plan, sys, sys.sender.OnTimeout(), sys.nextToSender);
        }
      case ReceiverTimeout =>
        TimeoutMovesReceiver(plan, sys.receiver, sys.sender.blocksSent);
        ReceiverTimeoutKeeps(plan, sys.receiver, sys.sender.blocksSent);
        if sys.receiver.op.timer != FirstTimer {
          ReceiverStepInLockstep(plan, sys, sys.receiver.OnTimeout(), sys.nextToReceiver);
        }
    }
  }

  // The start

  lemma ReadOpened(plan: Plan, setup: Setup, reply: Reply)
    requires plan.Sound() && Follows(plan, setup, reply) && setup.repeatedRequests <= setup.clientRetries
    requires reply.refusal.None? && setup.direction == Read
    ensures var sys := Opened(setup, reply);
            && sys.sender.blocksSent == (if plan.oack == map[] then 1 else 0)
            && sys.receiver.delivered == [] && !sys.receiver.oackReceived
            && sys.sender.lastReceivedBlockNumber == Previous(plan, sys.sender.blocksSent)
            && Undisturbed(sys.sender.op) && Undisturbed(sys.receiver.op) && sys.sender.Open() && sys.receiver.Open()
            && |sys.toReceiver| == 1 && !sys.toReceiver[0].packet.Error?
            && (plan.oack != map[] ==> sys.toReceiver[0].packet == OptionsAcknowledgement(plan.oack))
  {
    var idle := Idle(Client, setup.clientRetries, DEFAULT_TIMEOUT, plan.bufferSize);
    var request :=
      RequestRead(idle, plan.client, setup.dally, setup.accepts, setup.filename, setup.mode, map[]).op;
    RepeatedRequest(request, setup.repeatedRequests);
    assert Opened(setup, reply).receiver.op == Repeat(request, setup.repeatedRequests);
  }

  lemma WriteOpened(plan: Plan, setup: Setup, reply: Reply)
    requires plan.Sound() && Follows(plan, setup, reply) && setup.repeatedRequests <= setup.clientRetries
    requires reply.refusal.None? && setup.direction == Write
    ensures var sys := Opened(setup, reply);
            && sys.sender.blocksSent == 0 && sys.receiver.delivered == []
            && sys.sender.lastReceivedBlockNumber == 0xFFFF
            && Undisturbed(sys.sender.op) && Undisturbed(sys.receiver.op) && sys.sender.Open() && sys.receiver.Open()
            && sys.receiver.op.counter == 1 && sys.receiver.op.retries == setup.serverRetries
            && sys.receiver.op.timer == ReceiveTimer && sys.receiver.op.stored == Some(sys.toSender[0].packet)
            && sys.toReceiver == [] && |sys.toSender| == 1 && sys.nextToSender == sys.nextToReceiver == 0
            && sys.toSender[0].packet ==
                 (if plan.oack == map[] then Acknowledgement(0) else OptionsAcknowledgement(plan.oack))
  {
    var idle := Idle(Client, setup.clientRetries, DEFAULT_TIMEOUT, DEFAULT_MAX_PACKET_SIZE);
    var request :=
      RequestWrite(idle, plan.client, plan.file, setup.FileSize(), setup.filename, setup.mode, map[]).op;
    RepeatedRequest(request, setup.repeatedRequests);
    assert Opened(setup, reply).sender.op == Repeat(request, setup.repeatedRequests);
  }

  lemma OpenedInLockstep(plan: Plan, setup: Setup, reply: Reply)
    requires plan.Sound() && Follows(plan, setup, reply) && setup.repeatedRequests <= setup.clientRetries
    requires reply.refusal.None? && plan.usable && plan.bufferSize > 3
    ensures InLockstep(plan, Opened(setup, reply))
  {
    OpenedSafe(plan, setup, reply);
    if setup.direction == Read {
      ReadOpened(plan, setup, reply);
    } else {
      WriteOpened(plan, setup, reply);
    }
  }

  lemma {:induction false} RunInLockstep(plan: Plan, sys: System, events: seq<Event>)
    requires plan.Sound() && InLockstep(plan, sys) && Schedule(InOrderOackOnce, sys, events)
    ensures InLockstep(plan, Run(sys, events))
  {
    if events != [] {
      var front, last := events[..|events| - 1], events[|events| - 1];
      RunInLockstep(plan, sys, front);
      StepInLockstep(plan, Run(sys, front), last);
    }
  }
}
