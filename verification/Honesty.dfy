/**
 * What holds over every network whatever, however it reorders and repeats datagrams: both sides are honest. Every DATA
 * carries the block and the number of its index, every ACK the number of its index, and both sides that have exchanged
 * data use the same block size.
 */
module Honesty {
  import opened Basics
  import opened BlockNumbers
  import opened MemoryFiles
  import opened Packets
  import opened Negotiation
  import opened Operations
  import opened Senders
  import opened Receivers
  import opened Transfers
  import opened Opening

  // The invariant

  /** A datagram that the sender may have sent while it was at block `reached` or before. */
  ghost predicate FromSender(plan: Plan, datagram: Datagram, reached: nat) {
    match datagram.packet
    case Data(block, data) =>
      && 1 <= datagram.index <= reached && plan.usable
      && block == Number(datagram.index) && data == Block(plan.file, plan.size, datagram.index)
    case OptionsAcknowledgement(options) =>
      plan.direction == Read && options == plan.oack && options != map[] && datagram.index == 0
    case Error(_, _) => true
    case _ => false
  }

  /** Both sides use the same block size. */
  ghost predicate Agreed(plan: Plan, r: ReceiverState) {
    r.receiveDataSize == plan.size && (plan.direction == Read && plan.oack != map[] ==> r.oackReceived && plan.usable)
  }

  /** A datagram that the receiver may have sent in this state or before. */
  ghost predicate FromReceiver(plan: Plan, datagram: Datagram, r: ReceiverState) {
    match datagram.packet
    case Acknowledgement(block) =>
      && datagram.index <= |r.delivered| && block == Number(datagram.index) && Agreed(plan, r)
      && (plan.direction == Write && plan.oack != map[] ==> datagram.index >= 1)
    case OptionsAcknowledgement(options) =>
      plan.direction == Write && options == plan.oack && options != map[] && datagram.index == 0 && Agreed(plan, r)
    case Error(_, _) => true
    case _ => false
  }

  ghost predicate LastBlockReached(plan: Plan, reached: nat) {
    reached >= 1 && plan.size >= 1 && reached >= BlockCount(|plan.file|, plan.size)
  }

  ghost predicate SenderHonest(plan: Plan, s: SenderState) {
    && s.file == plan.file
    && s.op.bufferSize == DEFAULT_MAX_PACKET_SIZE
    && s.op.role == (if plan.direction == Read then Server else Client)
    && (plan.direction == Write ==> s.configuration == plan.client && s.SizeRule() == plan.rule)
    && (s.blocksSent >= 1 ==> plan.usable)
    && (s.Open() ==>
          && s.op.timer != DallyTimer
          && s.lastTransmittedBlockNumber == Number(s.blocksSent)
          && s.position == Cursor(|plan.file|, plan.size, s.blocksSent)
          && (s.lastDataPacketTransmitted <==> LastBlockReached(plan, s.blocksSent))
          && s.transmitDataSize ==
               (if plan.direction == Write && s.blocksSent == 0 then DEFAULT_DATA_SIZE else plan.size)
          && (plan.direction == Read && s.blocksSent == 0 ==> plan.oack != map[])
          && (plan.direction == Write && s.blocksSent == 0 ==>
                s.lastReceivedBlockNumber == 0xFFFF && s.op.timer == FirstTimer)
          && (plan.direction == Read || s.blocksSent >= 1 ==>
                s.op.stored.Some? && s.op.timer != FirstTimer
                && FromSender(plan, Datagram(s.op.stored.value, s.blocksSent), s.blocksSent)))
  }

  /** The part of the receiver's invariant that does not speak of its socket and timer. */
  ghost predicate ReceiverCore(plan: Plan, r: ReceiverState) {
    && (plan.direction == Read ==> r.configuration == plan.client && r.SizeRule() == plan.rule)
    && r.lastReceivedBlockNumber == Number(|r.delivered|)
    && (r.delivered != [] ==> Agreed(plan, r))
    && (r.oackReceived ==> plan.usable)
    && (plan.direction == Read && (plan.oack == map[] || r.oackReceived) ==> r.receiveDataSize == plan.size)
    && (plan.direction == Write && r.Open() ==> r.receiveDataSize == plan.size)
  }

  ghost predicate ReceiverOperation(plan: Plan, r: ReceiverState) {
    && r.op.bufferSize == plan.bufferSize
    && r.op.role == (if plan.direction == Read then Client else Server)
    && (r.Open() ==>
          && (plan.direction == Read && !r.oackReceived ==> r.receiveDataSize == DEFAULT_DATA_SIZE)
          && (r.op.timer == FirstTimer ==> plan.direction == Read && r.delivered == [] && !r.oackReceived)
          && (r.op.timer != FirstTimer ==>
                r.op.stored.Some? && FromReceiver(plan, Datagram(r.op.stored.value, |r.delivered|), r))
          && (r.op.timer == DallyTimer ==> r.delivered != []))
  }

  ghost predicate ReceiverHonest(plan: Plan, r: ReceiverState) {
    ReceiverCore(plan, r) && ReceiverOperation(plan, r)
  }

  ghost predicate Honest(plan: Plan, sys: System) {
    && SenderHonest(plan, sys.sender)
    && ReceiverHonest(plan, sys.receiver)
    && (sys.sender.blocksSent >= 1 ==> Agreed(plan, sys.receiver))
    && (sys.receiver.delivered != [] ==> sys.sender.blocksSent >= 1)
    && (forall i :: 0 <= i < |sys.toReceiver| ==> FromSender(plan, sys.toReceiver[i], sys.sender.blocksSent))
    && (forall i :: 0 <= i < |sys.toSender| ==> FromReceiver(plan, sys.toSender[i], sys.receiver))
  }

  // The receiver

  /** What every handler of the receiver keeps, including what it sends. */
  ghost predicate ReceiverGoesOn(plan: Plan, r: ReceiverState, next: ReceiverState) {
    && ReceiverHonest(plan, next)
    && |r.delivered| <= |next.delivered|
    && (Agreed(plan, r) ==> Agreed(plan, next))
    && |r.op.sent| <= |next.op.sent|
    && (forall i :: |r.op.sent| <= i < |next.op.sent| ==>
          FromReceiver(plan, Datagram(next.op.sent[i], |next.delivered|), next))
  }

  /** A handler of the receiver runs: the core holds, whatever the socket and the timer do. */
  ghost predicate ReceiverHandles(plan: Plan, r: ReceiverState) {
    && ReceiverCore(plan, r) && r.Open()
    && r.op.bufferSize == plan.bufferSize
    && r.op.role == (if plan.direction == Read then Client else Server)
    && (plan.direction == Read && !r.oackReceived ==> r.receiveDataSize == DEFAULT_DATA_SIZE)
  }

  lemma AcknowledgeLastGoesOn(plan: Plan, r: ReceiverState, dataSize: nat)
    requires ReceiverHandles(plan, r) && r.delivered != []
    ensures ReceiverGoesOn(plan, r, r.AcknowledgeLast(dataSize))
  {
    var next := r.AcknowledgeLast(dataSize);
    assert next.op.sent == r.op.sent + [Acknowledgement(r.lastReceivedBlockNumber)];
    assert ReceiverCore(plan, next);
  }

  /** Steps of one handler in a row. */
  lemma GoesOnInARow(plan: Plan, r: ReceiverState, middle: ReceiverState, next: ReceiverState)
    requires ReceiverGoesOn(plan, middle, next)
    requires middle.op.sent == r.op.sent && |r.delivered| <= |middle.delivered|
    requires Agreed(plan, r) ==> Agreed(plan, middle)
    ensures ReceiverGoesOn(plan, r, next)
  {
  }

  function WithBlock(r: ReceiverState, data: Bytes): ReceiverState {
    r.(delivered := r.delivered + [data], lastReceivedBlockNumber := Next(r.lastReceivedBlockNumber))
  }

  lemma TakenHandles(plan: Plan, r: ReceiverState, data: Bytes)
    requires ReceiverHandles(plan, r) && Agreed(plan, r)
    ensures ReceiverHandles(plan, WithBlock(r, data))
  {
    NextNumber(|r.delivered|);
  }

  /** Any DATA at all, after the block size has been agreed on. */
  lemma DataGoesOn(plan: Plan, r: ReceiverState, block: uint16, data: Bytes)
    requires ReceiverHandles(plan, r) && Agreed(plan, r) && block != 0
    ensures ReceiverGoesOn(plan, r, r.OnData(block, data))
  {
    if block == r.lastReceivedBlockNumber {
      AcknowledgeLastGoesOn(plan, r, |data|);
    } else if block != Next(r.lastReceivedBlockNumber) {
      AbortGoesOnReceiver(plan, r, ILLEGAL_OPERATION, "Block Number not expected", TransferError);
    } else if |data| > r.receiveDataSize {
      AbortGoesOnReceiver(plan, r, ILLEGAL_OPERATION, "Too much data", TransferError);
    } else {
      TakenHandles(plan, r, data);
      AcknowledgeLastGoesOn(plan, WithBlock(r, data), |data|);
      GoesOnInARow(plan, r, WithBlock(r, data), WithBlock(r, data).AcknowledgeLast(|data|));
    }
  }

  lemma AbortGoesOnReceiver(plan: Plan, r: ReceiverState, code: uint16, text: string, status: TransferStatus)
    requires ReceiverHandles(plan, r)
    ensures ReceiverGoesOn(plan, r, r.Abort(code, text, status))
  {
    var next := r.Abort(code, text, status);
    assert next.op.sent == r.op.sent + [ErrorPacket(code, text)];
    assert ReceiverCore(plan, next);
  }

  lemma VerdictGoesOnReceiver(plan: Plan, r: ReceiverState, verdict: Verdict)
    requires plan.Sound() && plan.direction == Read && plan.oack != map[] && r.delivered == []
    requires ReceiverHonest(plan, r) && r.Open()
    requires plan.usable <==> verdict.refusal.None?
    requires plan.usable ==> verdict.dataSize.GetOr(DEFAULT_DATA_SIZE) == plan.size
    ensures ReceiverGoesOn(plan, r, r.(op := r.op.Received()).OnVerdict(verdict))
  {
    var next := r.(op := r.op.Received()).OnVerdict(verdict);
    assert |next.op.sent| == |r.op.sent| + 1;
    if plan.usable {
      assert next.receiveDataSize == plan.size;
    }
    assert ReceiverCore(plan, next);
  }

  lemma ReceivedBlockGoesOn(plan: Plan, r: ReceiverState, block: uint16, data: Bytes)
    requires ReceiverHonest(plan, r) && r.Open() && Agreed(plan, r) && block != 0
    ensures ReceiverGoesOn(plan, r, r.OnPacket(Some(Data(block, data))))
  {
    var called := r.(op := r.op.Received());
    DataGoesOn(plan, called, block, data);
    GoesOnInARow(plan, r, called, called.OnData(block, data));
  }

  lemma OackGoesOn(plan: Plan, r: ReceiverState)
    requires plan.Sound() && plan.direction == Read && plan.oack != map[]
    requires ReceiverHonest(plan, r) && r.Open()
    ensures ReceiverGoesOn(plan, r, r.OnPacket(Some(OptionsAcknowledgement(plan.oack))))
  {
    if r.lastReceivedBlockNumber == 0 {
      VerdictGoesOnReceiver(plan, r, CheckOack(plan.client, plan.rule, plan.oack));
    } else {
      AbortGoesOnReceiver(
        plan, r.(op := r.op.Received()), ILLEGAL_OPERATION, "OACK must occur after RRQ", TransferError);
    }
  }

  lemma NoDataDelivered(r: ReceiverState, packet: Option<Packet>)
    requires packet.Some? ==> packet.value.Error? || packet.value.OptionsAcknowledgement?
    ensures r.OnPacket(packet).delivered == r.delivered
  {
  }

  lemma ErrorGoesOnReceiver(plan: Plan, r: ReceiverState, packet: Option<Packet>)
    requires ReceiverHonest(plan, r) && r.Open()
    requires packet.Some? ==> packet.value.Error?
    ensures ReceiverGoesOn(plan, r, r.OnPacket(packet))
  {
  }

  lemma TimeoutGoesOnReceiver(plan: Plan, r: ReceiverState)
    requires ReceiverHonest(plan, r) && r.Open()
    ensures r.op.timer != FirstTimer ==> ReceiverGoesOn(plan, r, r.OnTimeout())
    ensures r.op.timer == FirstTimer ==> ReceiverHonest(plan, r.OnTimeout())
    ensures r.OnTimeout().delivered == r.delivered
  {
  }

  // The sender

  /** What every handler of the sender keeps, including what it sends. */
  ghost predicate SenderGoesOn(plan: Plan, s: SenderState, next: SenderState) {
    && SenderHonest(plan, next)
    && s.blocksSent <= next.blocksSent
    && |s.op.sent| <= |next.op.sent|
    && (forall i :: |s.op.sent| <= i < |next.op.sent| ==>
          FromSender(plan, Datagram(next.op.sent[i], next.blocksSent), next.blocksSent))
  }

  /** What `SendData` relies on, whatever the socket and the timer do. */
  ghost predicate SenderCore(plan: Plan, s: SenderState) {
    && s.file == plan.file
    && s.op.bufferSize == DEFAULT_MAX_PACKET_SIZE
    && s.op.role == (if plan.direction == Read then Server else Client)
    && (plan.direction == Write ==> s.configuration == plan.client && s.SizeRule() == plan.rule)
    && (s.blocksSent >= 1 ==> plan.usable)
    && s.Open()
    && s.lastTransmittedBlockNumber == Number(s.blocksSent)
    && s.position == Cursor(|plan.file|, plan.size, s.blocksSent)
    && (s.lastDataPacketTransmitted <==> LastBlockReached(plan, s.blocksSent))
  }

  /** `SendData` cuts the next block off the file and numbers it. */
  lemma SendDataResult(plan: Plan, s: SenderState)
    requires plan.Sound() && plan.usable && SenderCore(plan, s) && s.transmitDataSize == plan.size
    ensures var index := s.blocksSent + 1;
            s.SendData() == s.(
              op := s.op.Send(Data(Number(index), Block(plan.file, plan.size, index))),
              position := Cursor(|plan.file|, plan.size, index),
              lastDataPacketTransmitted := LastBlockReached(plan, index),
              lastTransmittedBlockNumber := Number(index),
              blocksSent := index)
  {
    NextBlock(s);
  }

  lemma SendDataGoesOn(plan: Plan, s: SenderState)
    requires plan.Sound() && plan.usable && SenderCore(plan, s) && s.transmitDataSize == plan.size
    ensures SenderGoesOn(plan, s, s.SendData().Receive())
  {
    SendDataResult(plan, s);
    var next, index := s.SendData().Receive(), s.blocksSent + 1;
    assert next.op.sent == s.op.sent + [Data(Number(index), Block(plan.file, plan.size, index))];
  }

  lemma AbortGoesOnSender(plan: Plan, s: SenderState, code: uint16, text: string, status: TransferStatus)
    requires SenderHonest(plan, s) && s.Open()
    ensures SenderGoesOn(plan, s, s.(op := s.op.Received()).Abort(code, text, status))
  {
    var next := s.(op := s.op.Received()).Abort(code, text, status);
    assert next.op.sent == s.op.sent + [ErrorPacket(code, text)];
  }

  /** Any ACK that the receiver can have sent. */
  lemma AcknowledgementGoesOn(plan: Plan, s: SenderState, index: nat)
    requires plan.Sound() && SenderHonest(plan, s) && s.Open()
    requires plan.direction == Write && plan.oack != map[] ==> index >= 1
    requires plan.direction == Read && plan.oack != map[] ==> plan.usable
    requires s.blocksSent == 0 ==> index == 0
    ensures SenderGoesOn(plan, s, s.OnPacket(Some(Acknowledgement(Number(index)))))
  {
    var number := Number(index);
    if number == s.lastReceivedBlockNumber {
    } else if number != s.lastTransmittedBlockNumber {
      AbortGoesOnSender(plan, s, ILLEGAL_OPERATION, "Wrong block number", TransferError);
    } else if !s.lastDataPacketTransmitted {
      SendDataGoesOn(plan, s.(op := s.op.Received(), lastReceivedBlockNumber := number));
    }
  }

  lemma VerdictGoesOnSender(plan: Plan, s: SenderState, verdict: Verdict)
    requires plan.Sound() && plan.direction == Write && plan.oack != map[]
    requires SenderHonest(plan, s) && s.Open()
    requires plan.usable <==> verdict.refusal.None?
    requires plan.usable ==> verdict.dataSize.GetOr(DEFAULT_DATA_SIZE) == plan.size
    ensures SenderGoesOn(plan, s, s.(op := s.op.Received()).OnVerdict(verdict))
  {
    var changed := s.(
      op := s.op.Received().(receiveTimeout := verdict.timeout.GetOr(s.op.receiveTimeout)),
      transmitDataSize := verdict.dataSize.GetOr(s.transmitDataSize));
    if plan.usable {
      SendDataGoesOn(plan, changed);
    } else {
      var next := s.(op := s.op.Received()).OnVerdict(verdict);
      assert next.op.sent == s.op.sent + [ErrorPacket(verdict.refusal.value.code, verdict.refusal.value.text)];
    }
  }

  lemma OackGoesOnSender(plan: Plan, s: SenderState)
    requires plan.Sound() && plan.direction == Write && plan.oack != map[]
    requires SenderHonest(plan, s) && s.Open()
    ensures SenderGoesOn(plan, s, s.OnPacket(Some(OptionsAcknowledgement(plan.oack))))
  {
    if s.lastReceivedBlockNumber == 0xFFFF {
      VerdictGoesOnSender(plan, s, CheckOack(plan.client, plan.rule, plan.oack));
    } else {
      AbortGoesOnSender(plan, s, ILLEGAL_OPERATION, "OACK must occur after WRQ", TransferError);
    }
  }

  lemma ErrorGoesOnSender(plan: Plan, s: SenderState, packet: Option<Packet>)
    requires SenderHonest(plan, s) && s.Open()
    requires packet.Some? ==> packet.value.Error?
    ensures SenderGoesOn(plan, s, s.OnPacket(packet))
  {
  }

  lemma TimeoutGoesOnSender(plan: Plan, s: SenderState)
    requires SenderHonest(plan, s) && s.Open()
    ensures s.op.timer != FirstTimer ==> SenderGoesOn(plan, s, s.OnTimeout())
    ensures s.op.timer == FirstTimer ==>
      SenderHonest(plan, s.OnTimeout()) && s.OnTimeout().blocksSent == s.blocksSent
  {
  }

  // The wire

  lemma HonestFits(plan: Plan, datagram: Datagram, reached: nat)
    requires plan.Sound() && FromSender(plan, datagram, reached) && plan.bufferSize > 3 && !datagram.packet.Error?
    ensures Encodable(datagram.packet) && |Encode(datagram.packet)| <= plan.bufferSize
  {
    if datagram.packet.Data? {
      DataLength(datagram.packet.block, datagram.packet.data);
    }
  }

  lemma DataLength(block: uint16, data: Bytes)
    ensures |Encode(Data(block, data))| == 4 + |data|
  {
  }

  /** What the receiver sees of a datagram: the packet, nothing, or an ERROR. */
  lemma DatagramSeen(plan: Plan, datagram: Datagram, reached: nat)
    requires plan.Sound() && FromSender(plan, datagram, reached)
    ensures var seen := Seen(datagram.packet, plan.bufferSize);
            seen.None? || seen == Some(datagram.packet) || (datagram.packet.Error? && seen.value.Error?)
    ensures plan.bufferSize > 3 && !datagram.packet.Error? ==>
      Seen(datagram.packet, plan.bufferSize) == Some(datagram.packet)
  {
    if datagram.packet.Error? {
      SeenError(datagram.packet, plan.bufferSize);
    } else if plan.bufferSize <= 3 {
      SeenNothing(datagram.packet, plan.bufferSize);
    } else {
      HonestFits(plan, datagram, reached);
      SeenWhole(datagram.packet, plan.bufferSize);
    }
  }

  lemma AnswerFits(plan: Plan, datagram: Datagram, r: ReceiverState)
    requires plan.Sound() && FromReceiver(plan, datagram, r) && !datagram.packet.Error?
    ensures Encodable(datagram.packet) && |Encode(datagram.packet)| <= DEFAULT_MAX_PACKET_SIZE
  {
    match datagram.packet
    case Acknowledgement(block) => AcknowledgementLength(block);
    case OptionsAcknowledgement(_) =>
  }

  /** What the sender sees of a datagram: the packet, or an ERROR, possibly cut off. */
  lemma AnswerSeen(plan: Plan, datagram: Datagram, r: ReceiverState)
    requires plan.Sound() && FromReceiver(plan, datagram, r)
    ensures var seen := Seen(datagram.packet, DEFAULT_MAX_PACKET_SIZE);
            if datagram.packet.Error? then seen.Some? ==> seen.value.Error? else seen == Some(datagram.packet)
  {
    if datagram.packet.Error? {
      SeenError(datagram.packet, DEFAULT_MAX_PACKET_SIZE);
    } else {
      AnswerFits(plan, datagram, r);
      SeenWhole(datagram.packet, DEFAULT_MAX_PACKET_SIZE);
    }
  }

  /** A datagram of the sender that reaches an open receiver. */
  lemma ReceivedGoesOn(plan: Plan, r: ReceiverState, reached: nat, datagram: Datagram)
    requires plan.Sound() && ReceiverHonest(plan, r) && r.Open() && FromSender(plan, datagram, reached)
    requires reached >= 1 ==> Agreed(plan, r)
    ensures ReceiverGoesOn(plan, r, r.OnPacket(Seen(datagram.packet, plan.bufferSize)))
    ensures reached == 0 ==> r.OnPacket(Seen(datagram.packet, plan.bufferSize)).delivered == r.delivered
  {
    var seen := Seen(datagram.packet, plan.bufferSize);
    DatagramSeen(plan, datagram, reached);
    match seen {
      case Some(Data(block, data)) => ReceivedBlockGoesOn(plan, r, block, data);
      case Some(OptionsAcknowledgement(_)) => OackGoesOn(plan, r);
      case _ => ErrorGoesOnReceiver(plan, r, seen);
    }
    if reached == 0 {
      NoDataDelivered(r, seen);
    }
  }

  /** A datagram of the receiver that reaches an open sender. */
  lemma AnsweredGoesOn(plan: Plan, s: SenderState, r: ReceiverState, datagram: Datagram)
    requires plan.Sound() && SenderHonest(plan, s) && s.Open() && FromReceiver(plan, datagram, r)
    requires r.delivered != [] ==> s.blocksSent >= 1
    ensures SenderGoesOn(plan, s, s.OnPacket(Seen(datagram.packet, DEFAULT_MAX_PACKET_SIZE)))
  {
    var seen := Seen(datagram.packet, DEFAULT_MAX_PACKET_SIZE);
    AnswerSeen(plan, datagram, r);
    match seen {
      case Some(Acknowledgement(_)) => AcknowledgementGoesOn(plan, s, datagram.index);
      case Some(OptionsAcknowledgement(_)) => OackGoesOnSender(plan, s);
      case _ => ErrorGoesOnSender(plan, s, seen);
    }
  }

  /** A packet that makes the sender send its first block comes from a receiver that has agreed on the block size. */
  lemma NewBlockAgreed(plan: Plan, s: SenderState, r: ReceiverState, datagram: Datagram)
    requires plan.Sound() && FromReceiver(plan, datagram, r) && s.blocksSent == 0 && s.Open()
    ensures s.OnPacket(Seen(datagram.packet, DEFAULT_MAX_PACKET_SIZE)).blocksSent >= 1 ==> Agreed(plan, r)
  {
    AnswerSeen(plan, datagram, r);
  }

  // The composed system

  lemma ReceiverStepHonest(plan: Plan, sys: System, next: ReceiverState, seen: nat)
    requires Honest(plan, sys) && ReceiverGoesOn(plan, sys.receiver, next)
    requires sys.sender.blocksSent == 0 ==> next.delivered == sys.receiver.delivered
    ensures Honest(plan, WithReceiver(sys.(nextToReceiver := seen), next))
  {
    var after := WithReceiver(sys.(nextToReceiver := seen), next);
    forall i | 0 <= i < |after.toSender|
      ensures FromReceiver(plan, after.toSender[i], next)
    {
      if i < |sys.toSender| {
        assert FromReceiver(plan, sys.toSender[i], sys.receiver);
      } else {
        assert after.toSender[i].packet == next.op.sent[|sys.receiver.op.sent| + i - |sys.toSender|];
      }
    }
  }

  lemma SenderStepHonest(plan: Plan, sys: System, next: SenderState, seen: nat)
    requires Honest(plan, sys) && SenderGoesOn(plan, sys.sender, next)
    requires next.blocksSent >= 1 ==> Agreed(plan, sys.receiver)
    ensures Honest(plan, WithSender(sys.(nextToSender := seen), next))
  {
    var after := WithSender(sys.(nextToSender := seen), next);
    forall i | 0 <= i < |after.toReceiver|
      ensures FromSender(plan, after.toReceiver[i], next.blocksSent)
    {
      if i < |sys.toReceiver| {
        assert FromSender(plan, sys.toReceiver[i], sys.sender.blocksSent);
      } else {
        assert after.toReceiver[i].packet == next.op.sent[|sys.sender.op.sent| + i - |sys.toReceiver|];
      }
    }
  }

  lemma ToReceiverHonest(plan: Plan, sys: System, position: nat)
    requires plan.Sound() && Honest(plan, sys) && position < |sys.toReceiver|
    ensures Honest(plan, Step(sys, Event.ToReceiver(position)))
  {
    var r, datagram := sys.receiver, sys.toReceiver[position];
    if r.Open() {
      ReceivedGoesOn(plan, r, sys.sender.blocksSent, datagram);
      ReceiverStepHonest(plan, sys, r.OnPacket(Seen(datagram.packet, plan.bufferSize)), position + 1);
    }
  }

  lemma ToSenderHonest(plan: Plan, sys: System, position: nat)
    requires plan.Sound() && Honest(plan, sys) && position < |sys.toSender|
    ensures Honest(plan, Step(sys, Event.ToSender(position)))
  {
    var s, r, datagram := sys.sender, sys.receiver, sys.toSender[position];
    if s.Open() {
      AnsweredGoesOn(plan, s, r, datagram);
      if s.blocksSent == 0 {
        NewBlockAgreed(plan, s, r, datagram);
      }
      SenderStepHonest(plan, sys, s.OnPacket(Seen(datagram.packet, DEFAULT_MAX_PACKET_SIZE)), position + 1);
    }
  }

  /** Every event of both operations and of any network keeps both sides honest. */
  lemma StepHonest(plan: Plan, sys: System, event: Event)
    requires plan.Sound() && Honest(plan, sys)
    ensures Honest(plan, Step(sys, event))
  {
    if Enabled(sys, event) {
      match event
      case ToReceiver(position) => ToReceiverHonest(plan, sys, position);
      case ToSender(position) => ToSenderHonest(plan, sys, position);
      case SenderTimeout =>
        TimeoutGoesOnSender(plan, sys.sender);
        if sys.sender.op.timer != FirstTimer {
          SenderStepHonest(plan, sys, sys.sender.OnTimeout(), sys.nextToSender);
        }
      case ReceiverTimeout =>
        TimeoutGoesOnReceiver(plan, sys.receiver);
        if sys.receiver.op.timer != FirstTimer {
          ReceiverStepHonest(plan, sys, sys.receiver.OnTimeout(), sys.nextToReceiver);
        }
    }
  }

  lemma {:induction false} RunHonest(rule: Rule, plan: Plan, sys: System, events: seq<Event>)
    requires plan.Sound() && Honest(plan, sys) && Schedule(rule, sys, events)
    ensures Honest(plan, Run(sys, events))
  {
    if events != [] {
      var front, last := events[..|events| - 1], events[|events| - 1];
      RunHonest(rule, plan, sys, front);
      StepHonest(plan, Run(sys, front), last);
    }
  }

  // The start

  lemma {:induction false} RepeatedRequest(op: OperationState, times: nat)
    requires op.completions == [] && op.timer == FirstTimer && op.stored.Some? && op.counter == 1 && times <= op.retries
    ensures var repeated := Repeat(op, times);
            repeated == op.(sent := repeated.sent, counter := 1 + times)
  {
    if times > 0 {
      RepeatedRequest(op, times - 1);
    }
  }

  lemma ReadStartHonest(plan: Plan, op: OperationState, s: Configuration, reply: Reply)
    requires plan.Sound() && plan.direction == Read && plan.oack == reply.options && reply.refusal.None?
    requires plan.size == reply.dataSize.GetOr(DEFAULT_DATA_SIZE)
    requires op.completions == [] && op.sent == [] && op.role == Server && op.bufferSize == DEFAULT_MAX_PACKET_SIZE
    ensures var sender := StartRead(op, s, plan.file, reply);
            && SenderHonest(plan, sender) && Successful !in sender.op.completions
            && (sender.blocksSent >= 1 ==> plan.oack == map[])
            && forall i :: 0 <= i < |sender.op.sent| ==>
                 FromSender(plan, Datagram(sender.op.sent[i], sender.blocksSent), sender.blocksSent)
  {
    if reply.options == map[] {
      ShortBlock(plan.file, plan.size, 1);
      var sender := StartRead(op, s, plan.file, reply);
      assert sender.position == Cursor(|plan.file|, plan.size, 1);
      assert Next(0) == Number(1);
      assert sender.op.sent == [Data(1, Block(plan.file, plan.size, 1))];
    }
  }

  lemma WriteStartHonest(plan: Plan, op: OperationState, s: Configuration, dally: bool, accepts: bool, reply: Reply)
    requires plan.Sound() && plan.direction == Write
    requires reply.refusal.None? ==> plan.oack == reply.options && plan.size == reply.dataSize.GetOr(DEFAULT_DATA_SIZE)
    requires reply.refusal.Some? ==> reply.refusal.value.status != Successful
    requires op.completions == [] && op.sent == [] && op.role == Server && op.bufferSize == plan.bufferSize
    ensures var receiver := StartWrite(op, s, dally, accepts, reply);
            && ReceiverHonest(plan, receiver) && Successful !in receiver.op.completions
            && receiver.delivered == [] && (receiver.Open() ==> receiver.op.timer == ReceiveTimer)
            && forall i :: 0 <= i < |receiver.op.sent| ==>
                 FromReceiver(plan, Datagram(receiver.op.sent[i], 0), receiver)
  {
  }

  lemma ReadRequestHonest(
    plan: Plan, op: OperationState, dally: bool, accepts: bool, filename: Bytes, mode: TransferMode, repeated: nat)
    requires plan.Sound() && plan.direction == Read
    requires plan.rule == if plan.client.handleTransferSize then Some(Offered(accepts)) else None
    requires op.completions == [] && op.role == Client && op.bufferSize == plan.bufferSize && repeated <= op.retries
    ensures var r := RequestRead(op, plan.client, dally, accepts, filename, mode, map[]);
            var receiver := r.(op := Repeat(r.op, repeated));
            && ReceiverHonest(plan, receiver) && receiver.op.completions == [] && receiver.delivered == []
            && receiver.op.timer == FirstTimer && (plan.oack == map[] ==> Agreed(plan, receiver))
  {
    RepeatedRequest(RequestRead(op, plan.client, dally, accepts, filename, mode, map[]).op, repeated);
  }

  lemma WriteRequestHonest(
    plan: Plan, op: OperationState, fileSize: Option<uint64>, filename: Bytes, mode: TransferMode, repeated: nat)
    requires plan.Sound() && plan.direction == Write
    requires plan.rule ==
      if plan.client.handleTransferSize && fileSize.Some? then Some(Echoed(fileSize.value)) else None
    requires op.completions == [] && op.role == Client && op.bufferSize == DEFAULT_MAX_PACKET_SIZE
    requires repeated <= op.retries
    ensures var s := RequestWrite(op, plan.client, plan.file, fileSize, filename, mode, map[]);
            var sender := s.(op := Repeat(s.op, repeated));
            SenderHonest(plan, sender) && sender.op.completions == [] && sender.blocksSent == 0
  {
    RepeatedRequest(RequestWrite(op, plan.client, plan.file, fileSize, filename, mode, map[]).op, repeated);
  }

  /** Nothing has been delivered and nobody has succeeded. */
  predicate JustStarted(sys: System) {
    && sys.receiver.delivered == [] && (sys.receiver.Open() ==> sys.receiver.op.timer != DallyTimer)
    && Successful !in sys.sender.op.completions && Successful !in sys.receiver.op.completions
  }

  lemma OpenedReadHonest(plan: Plan, setup: Setup, reply: Reply)
    requires plan.Sound() && Follows(plan, setup, reply) && setup.repeatedRequests <= setup.clientRetries
    requires setup.direction == Read
    ensures Honest(plan, Opened(setup, reply)) && JustStarted(Opened(setup, reply))
  {
    ReadStartHonest(
      plan, Idle(Server, setup.serverRetries, DEFAULT_TIMEOUT, DEFAULT_MAX_PACKET_SIZE), setup.server, reply);
    ReadRequestHonest(
      plan, Idle(Client, setup.clientRetries, DEFAULT_TIMEOUT, plan.bufferSize), setup.dally, setup.accepts,
      setup.filename, setup.mode, setup.repeatedRequests);
  }

  lemma OpenedWriteHonest(plan: Plan, setup: Setup, reply: Reply)
    requires plan.Sound() && Follows(plan, setup, reply) && setup.repeatedRequests <= setup.clientRetries
    requires setup.direction == Write
    ensures Honest(plan, Opened(setup, reply)) && JustStarted(Opened(setup, reply))
    ensures Opened(setup, reply).sender.Open() && Opened(setup, reply).sender.blocksSent == 0
  {
    WriteStartHonest(
      plan, Idle(Server, setup.serverRetries, DEFAULT_TIMEOUT, plan.bufferSize), setup.server, setup.dally,
      setup.accepts, reply);
    WriteRequestHonest(
      plan, Idle(Client, setup.clientRetries, DEFAULT_TIMEOUT, DEFAULT_MAX_PACKET_SIZE), setup.FileSize(),
      setup.filename, setup.mode, setup.repeatedRequests);
  }

  lemma OpenedHonest(plan: Plan, setup: Setup, reply: Reply)
    requires plan.Sound() && Follows(plan, setup, reply) && setup.repeatedRequests <= setup.clientRetries
    ensures Honest(plan, Opened(setup, reply)) && JustStarted(Opened(setup, reply))
  {
    if setup.direction == Read {
      OpenedReadHonest(plan, setup, reply);
    } else {
      OpenedWriteHonest(plan, setup, reply);
    }
  }

  lemma InitHonest(setup: Setup)
    requires setup.Proper()
    ensures PlanOf(setup).Sound() && PlanOf(setup).file == setup.file && PlanOf(setup).direction == setup.direction
    ensures Honest(PlanOf(setup), Init(setup)) && JustStarted(Init(setup))
  {
    PlanSound(setup);
    PlanFollows(setup);
    OpenedHonest(PlanOf(setup), setup, setup.Reply());
  }
}
