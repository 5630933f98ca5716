/**
 * Exactly when a transfer can end with an error of the protocol although the network only loses datagrams, or loses
 * and duplicates them, but keeps their order.
 */
module Aborts {
  import opened Basics
  import opened MemoryFiles
  import opened Packets
  import opened Negotiation
  import opened Operations
  import opened Senders
  import opened Receivers
  import opened Transfers
  import opened Opening
  import opened Honesty
  import opened Safety
  import opened Lockstep
  import opened Oacks

  /** Neither side has ended with an error of the protocol. */
  predicate Peaceful(sys: System) {
    Undisturbed(sys.sender.op) && Undisturbed(sys.receiver.op)
  }

  ghost predicate AbortFree(rule: Rule, setup: Setup) {
    forall events :: Schedule(rule, Init(setup), events) ==> Peaceful(Run(Init(setup), events))
  }

  /**
   * The configurations are compatible, a file handler that is asked for the size accepts it, and the 16-bit size of
   * the receive buffer does not wrap.
   */
  predicate Harmless(setup: Setup) {
    && Compatible(setup.client, setup.server)
    && (AnsweredSize(setup.client, setup.server, setup.FileSize()).Some? ==> setup.accepts)
    && !BufferWraps(ReceivingSide(setup))
  }

  /** Some option is negotiated, so the server answers with an OACK. */
  predicate SendsOack(setup: Setup) {
    NegotiateBlockSize(setup.client, setup.server) || NegotiateTimeout(setup.client, setup.server)
    || AnsweredSize(setup.client, setup.server, setup.FileSize()).Some?
  }

  lemma OackSent(setup: Setup)
    requires setup.Proper() && !ReplyRefused(setup)
    ensures Oack(setup) != map[] <==> SendsOack(setup)
  {
    ReplyAnswers(setup);
    var c, s := setup.client, setup.server;
    NumberedEntries(
      setup.Reply().dataSize, if NegotiateTimeout(c, s) then Some(SecondsOnWire(c.timeout.value)) else None,
      AnsweredSize(c, s, setup.FileSize()));
  }

  /** In terms of the plan: nothing is refused, the client goes on, and the buffer is usable. */
  lemma HarmlessPlan(setup: Setup)
    requires setup.Proper()
    ensures Harmless(setup) <==> !ReplyRefused(setup) && PlanOf(setup).usable && PlanOf(setup).bufferSize > 3
  {
    ReplyAnswers(setup);
    BufferSizeCases(ReceivingSide(setup));
    if !ReplyRefused(setup) {
      OackSent(setup);
      UsableExactly(setup);
    }
  }

  // Runs, one event at a time

  lemma Extended(rule: Rule, sys: System, events: seq<Event>, event: Event)
    requires Schedule(rule, sys, events) && Enabled(Run(sys, events), event) && rule(Run(sys, events), event)
    ensures Schedule(rule, sys, events + [event]) && Run(sys, events + [event]) == Step(Run(sys, events), event)
  {
    assert (events + [event])[..|events|] == events;
  }

  lemma FirstEvent(rule: Rule, sys: System, event: Event)
    requires Enabled(sys, event) && rule(sys, event)
    ensures Schedule(rule, sys, [event]) && Run(sys, [event]) == Step(sys, event)
  {
    Extended(rule, sys, [], event);
    assert [] + [event] == [event];
  }

  // Harmless transfers without a second OACK

  lemma {:induction false} NoSecondOack(plan: Plan, sys: System, events: seq<Event>)
    requires plan.Sound() && InLockstep(plan, sys) && (plan.direction == Read || plan.oack == map[])
    requires Schedule(InOrder, sys, events)
    ensures Schedule(InOrderOackOnce, sys, events)
  {
    if events != [] {
      var front, last := events[..|events| - 1], events[|events| - 1];
      NoSecondOack(plan, sys, front);
      RunInLockstep(plan, sys, front);
      var now := Run(sys, front);
      if last.ToSender? && last.position < |now.toSender| {
        assert FromReceiver(plan, now.toSender[last.position], now.receiver);
      }
    }
  }

  lemma InitInLockstep(setup: Setup)
    requires setup.Proper() && Harmless(setup)
    ensures PlanOf(setup).Sound() && PlanOf(setup).direction == setup.direction
    ensures InLockstep(PlanOf(setup), Init(setup))
    ensures PlanOf(setup).oack != map[] <==> SendsOack(setup)
  {
    HarmlessPlan(setup);
    PlanSound(setup);
    PlanFollows(setup);
    OpenedInLockstep(PlanOf(setup), setup, setup.Reply());
    OackSent(setup);
  }

  /** Over a network that keeps the order, lockstep holds in every run in which no OACK is taken twice. */
  lemma AlwaysInLockstep(setup: Setup, events: seq<Event>)
    requires setup.Proper() && Harmless(setup)
    requires Schedule(InOrderOackOnce, Init(setup), events)
      || (Schedule(InOrder, Init(setup), events) && (setup.direction == Read || !SendsOack(setup)))
    ensures InLockstep(PlanOf(setup), Run(Init(setup), events))
  {
    InitInLockstep(setup);
    if !Schedule(InOrderOackOnce, Init(setup), events) {
      NoSecondOack(PlanOf(setup), Init(setup), events);
    }
    RunInLockstep(PlanOf(setup), Init(setup), events);
  }

  // The other side: runs that end in an error

  /** The operation has just ended with an error of the protocol. */
  predicate Failed(op: OperationState) {
    |op.completions| == 1 && op.completions[0] !in {Successful, CommunicationError}
  }

  lemma RefusingVerdict(r: ReceiverState, verdict: Verdict)
    requires r.Open() && verdict.refusal.Some?
    requires verdict.refusal.value.status in {TransferError, OptionNegotiationError}
    ensures Failed(r.OnVerdict(verdict).op)
  {
  }

  /** A client that does not accept the OACK, or cannot receive a datagram, fails with the first datagram. */
  lemma FirstDatagramFails(plan: Plan, r: ReceiverState, datagram: Datagram, reached: nat)
    requires plan.Sound() && plan.direction == Read && ReceiverSafe(plan, r, reached) && r.Open() && r.delivered == []
    requires FromSender(plan, datagram, reached) && !datagram.packet.Error?
    requires plan.bufferSize <= 3 || (!plan.usable && datagram.packet == OptionsAcknowledgement(plan.oack))
    ensures Failed(r.OnPacket(Seen(datagram.packet, plan.bufferSize)).op)
  {
    if plan.bufferSize <= 3 {
      SeenNothing(datagram.packet, plan.bufferSize);
    } else {
      DatagramSeen(plan, datagram, reached);
      var verdict := CheckOack(plan.client, plan.rule, plan.oack);
      RefusingVerdict(r.(op := r.op.Received()), verdict);
      assert r.OnPacket(Some(datagram.packet)) == r.(op := r.op.Received()).OnVerdict(verdict);
    }
  }

  lemma HarmfulRead(plan: Plan, setup: Setup, reply: Reply)
    requires plan.Sound() && Follows(plan, setup, reply) && setup.repeatedRequests <= setup.clientRetries
    requires reply.refusal.None? && setup.direction == Read && (!plan.usable || plan.bufferSize <= 3)
    ensures Enabled(Opened(setup, reply), Event.ToReceiver(0))
    ensures !Peaceful(Step(Opened(setup, reply), Event.ToReceiver(0)))
  {
    OpenedSafe(plan, setup, reply);
    ReadOpened(plan, setup, reply);
    FirstReceiverStepFails(plan, Opened(setup, reply));
  }

  lemma FirstReceiverStepFails(plan: Plan, sys: System)
    requires plan.Sound() && plan.direction == Read && Safe(plan, sys) && (!plan.usable || plan.bufferSize <= 3)
    requires sys.receiver.Open() && sys.receiver.delivered == []
    requires |sys.toReceiver| >= 1 && !sys.toReceiver[0].packet.Error?
    requires plan.oack != map[] ==> sys.toReceiver[0].packet == OptionsAcknowledgement(plan.oack)
    ensures !Peaceful(Step(sys, Event.ToReceiver(0)))
  {
    FirstDatagramFails(plan, sys.receiver, sys.toReceiver[0], sys.sender.blocksSent);
  }

  lemma RefusingVerdictSender(s: SenderState, verdict: Verdict)
    requires s.Open() && verdict.refusal.Some?
    requires verdict.refusal.value.status in {TransferError, OptionNegotiationError}
    ensures Failed(s.OnVerdict(verdict).op)
  {
  }

  /** A writing client that does not accept the OACK fails with it. */
  lemma UnusableWrite(plan: Plan, sys: System)
    requires plan.Sound() && plan.direction == Write && Safe(plan, sys) && !plan.usable
    requires sys.sender.Open() && sys.sender.blocksSent == 0
    requires |sys.toSender| >= 1 && sys.toSender[0].packet == OptionsAcknowledgement(plan.oack)
    ensures !Peaceful(Step(sys, Event.ToSender(0)))
  {
    var s := sys.sender;
    AnswerSeen(plan, sys.toSender[0], sys.receiver);
    var verdict := CheckOack(plan.client, plan.rule, plan.oack);
    RefusingVerdictSender(s.(op := s.op.Received()), verdict);
    assert s.OnPacket(Some(sys.toSender[0].packet)) == s.(op := s.op.Received()).OnVerdict(verdict);
  }

  /** The first answer makes a writing client send the first block. */
  lemma FirstBlockSent(plan: Plan, sys: System)
    requires plan.Sound() && plan.direction == Write && Safe(plan, sys) && plan.usable
    requires sys.sender.Open() && sys.sender.blocksSent == 0 && sys.toReceiver == [] && |sys.toSender| >= 1
    requires sys.toSender[0].packet ==
      if plan.oack == map[] then Acknowledgement(0) else OptionsAcknowledgement(plan.oack)
    ensures var next := Step(sys, Event.ToSender(0));
            && next.sender.Open() && next.sender.blocksSent == 1 && next.sender.lastReceivedBlockNumber ==
                 (if plan.oack == map[] then 0 else 0xFFFF)
            && |next.toReceiver| == 1 && next.toReceiver[0].packet.Data? && next.toReceiver[0].index == 1
            && next.receiver == sys.receiver && next.toSender == sys.toSender
  {
    var s := sys.sender;
    AnswerSeen(plan, sys.toSender[0], sys.receiver);
    var received := s.(op := s.op.Received());
    if plan.oack == map[] {
      assert s.OnPacket(Some(Acknowledgement(0))) == received.(lastReceivedBlockNumber := 0).SendData().Receive();
    } else {
      var verdict := CheckOack(plan.client, plan.rule, plan.oack);
      assert s.OnPacket(Some(sys.toSender[0].packet)) == received.OnVerdict(verdict);
    }
  }

  /** A server that cannot receive a datagram fails with the first block. */
  lemma FirstBlockFails(plan: Plan, sys: System)
    requires plan.Sound() && plan.direction == Write && Safe(plan, sys) && plan.bufferSize <= 3
    requires sys.receiver.Open() && |sys.toReceiver| >= 1
    ensures !Peaceful(Step(sys, Event.ToReceiver(0)))
  {
    SeenNothing(sys.toReceiver[0].packet, plan.bufferSize);
    assert Failed(sys.receiver.OnPacket(None).op);
  }

  lemma HarmfulWrite(plan: Plan, setup: Setup, reply: Reply)
    requires plan.Sound() && Follows(plan, setup, reply) && setup.repeatedRequests <= setup.clientRetries
    requires reply.refusal.None? && setup.direction == Write && (!plan.usable || plan.bufferSize <= 3)
    ensures var first, second := Event.ToSender(0), Event.ToReceiver(0);
            var sys := Opened(setup, reply);
            && Enabled(sys, first)
            && (!plan.usable ==> !Peaceful(Step(sys, first)))
            && (plan.usable ==> Enabled(Step(sys, first), second) && !Peaceful(Step(Step(sys, first), second)))
  {
    var sys := Opened(setup, reply);
    OpenedSafe(plan, setup, reply);
    WriteOpened(plan, setup, reply);
    if !plan.usable {
      UnusableWrite(plan, sys);
    } else {
      FirstBlockSent(plan, sys);
      assert InWindow(sys, Event.ToSender(0));
      StepSafe(plan, sys, Event.ToSender(0));
      FirstBlockFails(plan, Step(sys, Event.ToSender(0)));
    }
  }

  // The second OACK

  /** The block that a second OACK sets off. */
  lemma SecondBlockSent(plan: Plan, s: SenderState, r: ReceiverState)
    requires plan.Sound() && plan.usable && plan.direction == Write && plan.oack != map[]
    requires SenderHonest(plan, s) && s.Open() && s.blocksSent == 1 && s.lastReceivedBlockNumber == 0xFFFF
    requires Agreed(plan, r)
    ensures var next := s.OnPacket(Some(OptionsAcknowledgement(plan.oack)));
            && next.blocksSent == 2
            && next.op.sent == s.op.sent + [Data(2, Block(plan.file, plan.size, 2))]
  {
    var verdict := CheckOack(plan.client, plan.rule, plan.oack);
    assert s.OnPacket(Some(OptionsAcknowledgement(plan.oack))) == s.(op := s.op.Received()).OnVerdict(verdict);
    var changed := s.(
      op := s.op.Received().(receiveTimeout := verdict.timeout.GetOr(s.op.receiveTimeout)),
      transmitDataSize := verdict.dataSize.GetOr(s.transmitDataSize));
    SendDataResult(plan, changed);
  }

  lemma SecondBlockFails(r: ReceiverState, data: Bytes)
    requires r.Open() && r.lastReceivedBlockNumber == 0
    ensures Failed(r.OnPacket(Some(Data(2, data))).op)
  {
  }

  /**
   * When an OACK reaches the client again before the server has the first block, the client sends the second block,
   * and the server fails if that is what it receives next.
   */
  lemma SecondOackFails(plan: Plan, sys: System, event: Event)
    requires plan.Sound() && InLockstep(plan, sys) && plan.direction == Write && InOrder(sys, event)
    requires OackAgain(sys, event) && sys.receiver.Open() && sys.receiver.delivered == []
    ensures var next := Step(sys, event);
            && |next.toReceiver| == |sys.toReceiver| + 1 && next.nextToReceiver == sys.nextToReceiver
            && !Peaceful(Step(next, Event.ToReceiver(|sys.toReceiver|)))
  {
    var s, r, datagram := sys.sender, sys.receiver, sys.toSender[event.position];
    assert FromReceiver(plan, datagram, r);
    AnswerSeen(plan, datagram, r);
    LockstepInWindow(plan, sys, event);
    StepSafe(plan, sys, event);
    SecondBlockSent(plan, s, r);
    var next := Step(sys, event);
    var block := next.toReceiver[|sys.toReceiver|];
    assert block == Datagram(Data(2, Block(plan.file, plan.size, 2)), 2);
    DatagramSeen(plan, block, 2);
    SecondBlockFails(r, Block(plan.file, plan.size, 2));
  }

  /** The server has sent its OACK and the client waits for it. */
  ghost predicate OackUnderWay(plan: Plan, sys: System) {
    && InLockstep(plan, sys) && plan.direction == Write && plan.oack != map[]
    && sys.sender.Open() && sys.sender.blocksSent == 0 && sys.receiver.Open() && sys.receiver.delivered == []
    && sys.toReceiver == [] && sys.nextToReceiver == 0 && sys.nextToSender == 0
    && |sys.toSender| == 1 && sys.toSender[0].packet == OptionsAcknowledgement(plan.oack)
    && sys.receiver.op.stored == Some(sys.toSender[0].packet) && sys.receiver.op.timer == ReceiveTimer
    && sys.receiver.op.counter == 1
  }

  /** The client has taken the OACK; its first block is under way. */
  ghost predicate FirstBlockUnderWay(plan: Plan, sys: System) {
    && InLockstep(plan, sys) && plan.direction == Write && plan.oack != map[]
    && sys.sender.Open() && sys.sender.blocksSent == 1 && sys.receiver.Open() && sys.receiver.delivered == []
    && |sys.toReceiver| == 1 && sys.nextToReceiver == 0
    && sys.nextToSender <= |sys.toSender| && sys.nextToSender == 1
    && sys.toSender[0].packet == OptionsAcknowledgement(plan.oack)
  }

  lemma OackTaken(plan: Plan, sys: System)
    requires plan.Sound() && OackUnderWay(plan, sys)
    ensures var next := Step(sys, Event.ToSender(0));
            FirstBlockUnderWay(plan, next) && next.receiver == sys.receiver && next.toSender == sys.toSender
  {
    FirstBlockSent(plan, sys);
    StepInLockstep(plan, sys, Event.ToSender(0));
  }

  lemma OackRepeated(plan: Plan, sys: System)
    requires plan.Sound() && FirstBlockUnderWay(plan, sys) && |sys.toSender| == 1
    requires sys.receiver.op.stored == Some(sys.toSender[0].packet) && sys.receiver.op.timer == ReceiveTimer
    requires sys.receiver.op.counter <= sys.receiver.op.retries
    ensures var next := Step(sys, ReceiverTimeout);
            FirstBlockUnderWay(plan, next) && |next.toSender| == 2 && next.toSender[1].packet == sys.toSender[0].packet
  {
    StepInLockstep(plan, sys, ReceiverTimeout);
    assert Since(sys.receiver.op, sys.receiver.OnTimeout().op) == [sys.toSender[0].packet];
  }

  /** A network that duplicates the OACK and then loses the first block. */
  lemma DuplicatedOack(plan: Plan, sys: System) returns (events: seq<Event>)
    requires plan.Sound() && OackUnderWay(plan, sys)
    ensures Schedule(InOrder, sys, events) && !Peaceful(Run(sys, events))
  {
    var oack, block := Event.ToSender(0), Event.ToReceiver(1);
    OackTaken(plan, sys);
    SecondOackFails(plan, Step(sys, oack), oack);
    FirstEvent(InOrder, sys, oack);
    Extended(InOrder, sys, [oack], oack);
    Extended(InOrder, sys, [oack] + [oack], block);
    events := [oack] + [oack] + [block];
  }

  /** A network that loses the first block, after which the server repeats its OACK. */
  lemma RepeatedOack(plan: Plan, sys: System) returns (events: seq<Event>)
    requires plan.Sound() && OackUnderWay(plan, sys) && sys.receiver.op.retries >= 1
    ensures Schedule(InOrderOnce, sys, events) && !Peaceful(Run(sys, events))
  {
    var oack, again, block := Event.ToSender(0), Event.ToSender(1), Event.ToReceiver(1);
    OackTaken(plan, sys);
    OackRepeated(plan, Step(sys, oack));
    SecondOackFails(plan, Step(Step(sys, oack), ReceiverTimeout), again);
    FirstEvent(InOrderOnce, sys, oack);
    Extended(InOrderOnce, sys, [oack], ReceiverTimeout);
    Extended(InOrderOnce, sys, [oack] + [ReceiverTimeout], again);
    Extended(InOrderOnce, sys, [oack] + [ReceiverTimeout] + [again], block);
    events := [oack] + [ReceiverTimeout] + [again] + [block];
  }

  // A server that never repeats its OACK

  ghost predicate SingleOack(sys: System) {
    && sys.receiver.op.retries == 0 && sys.receiver.op.counter >= 1 && sys.receiver.op.role == Server
    && (forall i :: 1 <= i < |sys.toSender| ==> !sys.toSender[i].packet.OptionsAcknowledgement?)
    && |sys.toSender| >= 1
    && (sys.sender.blocksSent >= 1 ==> sys.nextToSender >= 1)
  }

  lemma StepSingleOack(sys: System, event: Event)
    requires SingleOack(sys)
    ensures SingleOack(Step(sys, event))
  {
    if event.ToReceiver? && Enabled(sys, event) && sys.receiver.Open() {
      HandlerSendsNoOack(sys.receiver, Seen(sys.toReceiver[event.position].packet, sys.receiver.op.bufferSize));
    }
  }

  lemma {:induction false} RunSingleOack(sys: System, events: seq<Event>)
    requires SingleOack(sys) && Schedule(InOrderOnce, sys, events)
    ensures SingleOack(Run(sys, events)) && Schedule(InOrderOackOnce, sys, events)
  {
    if events != [] {
      var front, last := events[..|events| - 1], events[|events| - 1];
      RunSingleOack(sys, front);
      StepSingleOack(Run(sys, front), last);
    }
  }

  lemma {:induction false} OnceIsInOrder(sys: System, events: seq<Event>)
    requires Schedule(InOrderOnce, sys, events)
    ensures Schedule(InOrder, sys, events)
  {
    if events != [] {
      OnceIsInOrder(sys, events[..|events| - 1]);
    }
  }

  // The exact conditions

  lemma InitOackUnderWay(setup: Setup)
    requires setup.Proper() && Harmless(setup) && setup.direction == Write && SendsOack(setup)
    ensures PlanOf(setup).Sound() && OackUnderWay(PlanOf(setup), Init(setup))
    ensures Init(setup).receiver.op.retries == setup.serverRetries
  {
    InitInLockstep(setup);
    HarmlessPlan(setup);
    PlanFollows(setup);
    WriteOpened(PlanOf(setup), setup, setup.Reply());
  }

  lemma RefusedWriteFails(setup: Setup)
    requires setup.Proper() && ReplyRefused(setup)
    ensures !Peaceful(Init(setup))
  {
    PlanFollows(setup);
    assert setup.direction == Write by {
      ReplyAnswers(setup);
    }
    RefusedOpening(PlanOf(setup), setup, setup.Reply());
  }

  lemma RefusedOpening(plan: Plan, setup: Setup, reply: Reply)
    requires Follows(plan, setup, reply) && reply.refusal.Some?
    ensures !Peaceful(Opened(setup, reply))
  {
    assert Failed(Opened(setup, reply).receiver.op);
  }

  /** A transfer that is not harmless has a run of at most two events that ends in an error. */
  lemma HarmfulFails(setup: Setup) returns (events: seq<Event>)
    requires setup.Proper() && !Harmless(setup)
    ensures Schedule(InOrderOnce, Init(setup), events) && !Peaceful(Run(Init(setup), events))
    ensures |events| <= 2
  {
    HarmlessPlan(setup);
    PlanSound(setup);
    PlanFollows(setup);
    var plan, sys := PlanOf(setup), Init(setup);
    if ReplyRefused(setup) {
      RefusedWriteFails(setup);
      return [];
    }
    var answer, block := Event.ToSender(0), Event.ToReceiver(0);
    if setup.direction == Read {
      HarmfulRead(plan, setup, setup.Reply());
      FirstEvent(InOrderOnce, sys, block);
      return [block];
    }
    HarmfulWrite(plan, setup, setup.Reply());
    FirstEvent(InOrderOnce, sys, answer);
    if !plan.usable {
      return [answer];
    }
    Extended(InOrderOnce, sys, [answer], block);
    return [answer] + [block];
  }

  /**
   * Over a network that may lose and duplicate datagrams but keeps their order, no run ends in an error of the
   * protocol exactly if the transfer is harmless and, for a write, is done without options.
   */
  lemma AbortFreeInOrder(setup: Setup)
    requires setup.Proper()
    ensures AbortFree(InOrder, setup) <==> Harmless(setup) && (setup.direction == Write ==> !SendsOack(setup))
  {
    if !Harmless(setup) {
      var events := HarmfulFails(setup);
      OnceIsInOrder(Init(setup), events);
    } else if setup.direction == Write && SendsOack(setup) {
      InitOackUnderWay(setup);
      var events := DuplicatedOack(PlanOf(setup), Init(setup));
    } else {
      forall events | Schedule(InOrder, Init(setup), events)
        ensures Peaceful(Run(Init(setup), events))
      {
        AlwaysInLockstep(setup, events);
      }
    }
  }

  lemma NoOackTakenTwice(setup: Setup, events: seq<Event>)
    requires setup.Proper() && Harmless(setup) && Schedule(InOrderOnce, Init(setup), events)
    requires setup.direction == Write && SendsOack(setup) ==> setup.serverRetries == 0
    ensures Schedule(InOrderOackOnce, Init(setup), events)
  {
    InitInLockstep(setup);
    OnceIsInOrder(Init(setup), events);
    if setup.direction == Write && SendsOack(setup) {
      InitOackUnderWay(setup);
      RunSingleOack(Init(setup), events);
    } else {
      NoSecondOack(PlanOf(setup), Init(setup), events);
    }
  }

  /**
   * Over a network that may only lose datagrams, no run ends in an error of the protocol exactly if the transfer is
   * harmless and, for a write with options, the server never repeats a packet.
   */
  lemma AbortFreeInOrderOnce(setup: Setup)
    requires setup.Proper()
    ensures AbortFree(InOrderOnce, setup) <==>
      Harmless(setup) && (setup.direction == Write && SendsOack(setup) ==> setup.serverRetries == 0)
  {
    if !Harmless(setup) {
      var events := HarmfulFails(setup);
    } else if setup.direction == Write && SendsOack(setup) && setup.serverRetries >= 1 {
      InitOackUnderWay(setup);
      var events := RepeatedOack(PlanOf(setup), Init(setup));
    } else {
      forall events | Schedule(InOrderOnce, Init(setup), events)
        ensures Peaceful(Run(Init(setup), events))
      {
        NoOackTakenTwice(setup, events);
        AlwaysInLockstep(setup, events);
      }
    }
  }

  lemma LockstepFacts(plan: Plan, sys: System)
    requires plan.Sound() && InLockstep(plan, sys)
    ensures var delivered, reached := |sys.receiver.delivered|, sys.sender.blocksSent;
            && delivered <= reached <= delivered + 1
            && sys.receiver.delivered == Blocks(plan.file, plan.size, delivered)
            && reached <= BlockCount(|plan.file|, plan.size)
            && (forall i :: sys.nextToReceiver <= i < |sys.toReceiver| ==>
                  reached - 1 <= sys.toReceiver[i].index <= reached)
            && (forall i :: sys.nextToSender <= i < |sys.toSender| ==>
                  reached - 1 <= sys.toSender[i].index <= delivered)
  {
    forall i | 0 <= i < |sys.toReceiver|
      ensures sys.toReceiver[i].index <= sys.sender.blocksSent
    {
      assert FromSender(plan, sys.toReceiver[i], sys.sender.blocksSent);
    }
    forall i | 0 <= i < |sys.toSender|
      ensures sys.toSender[i].index <= |sys.receiver.delivered|
    {
      assert FromReceiver(plan, sys.toSender[i], sys.receiver);
    }
  }

  /**
   * In lockstep the receiver has delivered exactly the first blocks of the file, up to the block of the sender or the
   * one before; no datagram under way is older than the one before, and none is newer than the sender. Success on
   * either side means the whole file.
   */
  lemma LockstepMeaning(setup: Setup, events: seq<Event>)
    requires setup.Proper() && Harmless(setup)
    requires Schedule(InOrderOackOnce, Init(setup), events)
      || (Schedule(InOrder, Init(setup), events) && (setup.direction == Read || !SendsOack(setup)))
    ensures var end, size := Run(Init(setup), events), AgreedBlockSize(setup.client, setup.server);
            var delivered, reached := |end.receiver.delivered|, end.sender.blocksSent;
            && delivered <= reached <= delivered + 1
            && end.receiver.delivered == Blocks(setup.file, size, delivered)
            && reached <= BlockCount(|setup.file|, size)
            && (forall i :: end.nextToReceiver <= i < |end.toReceiver| ==>
                  reached - 1 <= end.toReceiver[i].index <= reached)
            && (forall i :: end.nextToSender <= i < |end.toSender| ==>
                  reached - 1 <= end.toSender[i].index <= delivered)
            && (Successful in end.sender.op.completions || Successful in end.receiver.op.completions ==>
                  Flatten(end.receiver.delivered) == setup.file)
  {
    AlwaysInLockstep(setup, events);
    InitInLockstep(setup);
    PlanSize(setup);
    LockstepFacts(PlanOf(setup), Run(Init(setup), events));
    SafeDelivers(PlanOf(setup), Run(Init(setup), events));
  }

  lemma PlanSize(setup: Setup)
    requires setup.Proper() && Harmless(setup)
    ensures PlanOf(setup).size == AgreedBlockSize(setup.client, setup.server) && PlanOf(setup).file == setup.file
    ensures AgreedBlockSize(setup.client, setup.server) >= 1
  {
    HarmlessPlan(setup);
    SizeAgreed(setup);
    UsableExactly(setup);
  }
}
