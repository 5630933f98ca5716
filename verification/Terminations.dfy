/**
 * Every run over a network that only loses datagrams is finite, although each operation may start its retries anew
 * with every packet it sends: a weighted sum of the remaining blocks, retries and datagrams drops with every event.
 */
module Terminations {
  import opened Basics
  import opened MemoryFiles
  import opened OptionLists
  import opened Packets
  import opened Negotiation
  import opened Operations
  import opened Senders
  import opened Receivers
  import opened Transfers
  import opened Opening
  import opened Honesty
  import opened Lockstep
  import opened Lifecycles
  import opened Oacks

  // The measure

  /** What is left: blocks to be sent, timeouts of both sides, and datagrams under way. */
  datatype Fuel = Fuel(blocks: nat, senderTries: nat, toReceiver: nat, receiverTries: nat, toSender: nat)

  /** How much of a lower amount one unit of a higher one can set free. */
  datatype Weights = Weights(senderRetries: nat, receiverRetries: nat) {
    function ToReceiver(): nat {
      2 * (receiverRetries + 1) + 2
    }

    function SenderTry(): nat {
      ToReceiver() + 1
    }

    function PerBlock(): nat {
      (senderRetries + 1) * SenderTry() + ToReceiver() + 1
    }
  }

  /** The weighted sum of the amounts. */
  function Sum(f: Fuel, block: nat, try: nat, datagram: nat): nat {
    f.blocks * block + f.senderTries * try + f.toReceiver * datagram + f.receiverTries * 2 + f.toSender
  }

  function Weight(w: Weights, f: Fuel): nat {
    Sum(f, w.PerBlock(), w.SenderTry(), w.ToReceiver())
  }

  /** One of the amounts drops, and only lower ones rise, and those not too far. */
  predicate Drops(w: Weights, f: Fuel, g: Fuel) {
    || (// a new block is sent
        && g.blocks < f.blocks && g.senderTries <= w.senderRetries + 1 && g.toReceiver <= f.toReceiver + 1
        && g.receiverTries <= f.receiverTries && g.toSender <= f.toSender)
    || (// the sender repeats a packet or ends
        && g.blocks <= f.blocks && g.senderTries < f.senderTries && g.toReceiver <= f.toReceiver + 1
        && g.receiverTries <= f.receiverTries && g.toSender <= f.toSender)
    || (// the receiver gets a datagram
        && g.blocks <= f.blocks && g.senderTries <= f.senderTries && g.toReceiver < f.toReceiver
        && g.receiverTries <= w.receiverRetries + 1 && g.toSender <= f.toSender + 1)
    || (// the receiver repeats a packet or ends
        && g.blocks <= f.blocks && g.senderTries <= f.senderTries && g.toReceiver <= f.toReceiver
        && g.receiverTries < f.receiverTries && g.toSender <= f.toSender + 1)
    || (// the sender ignores a datagram
        && g.blocks <= f.blocks && g.senderTries <= f.senderTries && g.toReceiver <= f.toReceiver
        && g.receiverTries <= f.receiverTries && g.toSender < f.toSender)
  }

  lemma Product(a: nat, b: nat, factor: nat, slack: int)
    requires a + slack <= b
    ensures a * factor + slack * factor <= b * factor
  {
    assert (b - a - slack) * factor >= 0;
    assert b * factor == a * factor + slack * factor + (b - a - slack) * factor;
  }

  lemma BlockDrops(f: Fuel, g: Fuel, block: nat, try: nat, datagram: nat, tries: nat)
    requires g.blocks < f.blocks && g.senderTries * try <= tries && g.toReceiver <= f.toReceiver + 1
    requires g.receiverTries <= f.receiverTries && g.toSender <= f.toSender && tries + datagram < block
    ensures Sum(g, block, try, datagram) < Sum(f, block, try, datagram)
  {
    Product(g.blocks, f.blocks, block, 1);
    Product(0, f.senderTries, try, 0);
    Product(g.toReceiver, f.toReceiver, datagram, -1);
  }

  lemma SenderTryDrops(f: Fuel, g: Fuel, block: nat, try: nat, datagram: nat)
    requires g.blocks <= f.blocks && g.senderTries < f.senderTries && g.toReceiver <= f.toReceiver + 1
    requires g.receiverTries <= f.receiverTries && g.toSender <= f.toSender && datagram < try
    ensures Sum(g, block, try, datagram) < Sum(f, block, try, datagram)
  {
    Product(g.blocks, f.blocks, block, 0);
    Product(g.senderTries, f.senderTries, try, 1);
    Product(g.toReceiver, f.toReceiver, datagram, -1);
  }

  lemma DatagramDrops(f: Fuel, g: Fuel, block: nat, try: nat, datagram: nat, tries: nat)
    requires g.blocks <= f.blocks && g.senderTries <= f.senderTries && g.toReceiver < f.toReceiver
    requires g.receiverTries <= tries && g.toSender <= f.toSender + 1 && 2 * tries + 1 < datagram
    ensures Sum(g, block, try, datagram) < Sum(f, block, try, datagram)
  {
    Product(g.blocks, f.blocks, block, 0);
    Product(g.senderTries, f.senderTries, try, 0);
    Product(g.toReceiver, f.toReceiver, datagram, 1);
  }

  lemma LeastDrop(f: Fuel, g: Fuel, block: nat, try: nat, datagram: nat)
    requires g.blocks <= f.blocks && g.senderTries <= f.senderTries && g.toReceiver <= f.toReceiver
    requires 2 * g.receiverTries + g.toSender < 2 * f.receiverTries + f.toSender
    ensures Sum(g, block, try, datagram) < Sum(f, block, try, datagram)
  {
    Product(g.blocks, f.blocks, block, 0);
    Product(g.senderTries, f.senderTries, try, 0);
    Product(g.toReceiver, f.toReceiver, datagram, 0);
  }

  lemma WeightDrops(w: Weights, f: Fuel, g: Fuel)
    requires Drops(w, f, g)
    ensures Weight(w, g) < Weight(w, f)
  {
    var block, try, datagram := w.PerBlock(), w.SenderTry(), w.ToReceiver();
    if g.blocks < f.blocks && g.senderTries <= w.senderRetries + 1 && g.toReceiver <= f.toReceiver + 1
       && g.receiverTries <= f.receiverTries && g.toSender <= f.toSender {
      Product(g.senderTries, w.senderRetries + 1, try, 0);
      BlockDrops(f, g, block, try, datagram, (w.senderRetries + 1) * try);
    } else if g.senderTries < f.senderTries && g.toReceiver <= f.toReceiver + 1
              && g.receiverTries <= f.receiverTries && g.toSender <= f.toSender {
      SenderTryDrops(f, g, block, try, datagram);
    } else if g.toReceiver < f.toReceiver && g.receiverTries <= w.receiverRetries + 1 && g.toSender <= f.toSender + 1 {
      DatagramDrops(f, g, block, try, datagram, w.receiverRetries + 1);
    } else {
      LeastDrop(f, g, block, try, datagram);
    }
  }

  // The amounts of a system

  function Tries(op: OperationState): nat {
    if op.Open() && op.counter <= op.retries + 1 then op.retries + 2 - op.counter else 0
  }

  /** How many blocks a sender can send before their turn, because it takes an OACK again. */
  function Early(plan: Plan, sys: System): nat {
    if plan.direction == Write && plan.oack != map[] then sys.receiver.op.retries + 1 else 0
  }

  function FileBlocks(plan: Plan): nat {
    if plan.size >= 1 then BlockCount(|plan.file|, plan.size) else 0
  }

  ghost predicate AliveOrEnded(sys: System) {
    (sys.sender.op.Live() || sys.sender.op.Ended()) && (sys.receiver.op.Live() || sys.receiver.op.Ended())
  }

  /** The operations are alive or have ended, the OACKs start the log, and no block is sent past the end. */
  ghost predicate Bounded(plan: Plan, sys: System) {
    && Honest(plan, sys)
    && AliveOrEnded(sys)
    && sys.nextToReceiver <= |sys.toReceiver| && sys.nextToSender <= |sys.toSender|
    && FewOacks(sys)
    && sys.sender.blocksSent <= FileBlocks(plan) + Min(sys.nextToSender, Early(plan, sys))
  }

  predicate FewOacks(sys: System) {
    && (forall i :: 0 <= i < |sys.toSender| ==>
          sys.toSender[i].packet.OptionsAcknowledgement? ==> i <= sys.receiver.op.retries)
    && OacksCounted(sys)
  }

  /** While the receiver would repeat an OACK, it has sent nothing else. */
  predicate OacksCounted(sys: System) {
    sys.receiver.Open() && sys.receiver.op.stored.Some? && sys.receiver.op.stored.value.OptionsAcknowledgement? ==>
      |sys.toSender| == sys.receiver.op.counter && sys.receiver.op.timer == ReceiveTimer
  }

  ghost function Left(plan: Plan, sys: System): Fuel
    requires Bounded(plan, sys)
  {
    Fuel(
      FileBlocks(plan) + Early(plan, sys) - sys.sender.blocksSent, Tries(sys.sender.op),
      |sys.toReceiver| - sys.nextToReceiver, Tries(sys.receiver.op), |sys.toSender| - sys.nextToSender)
  }

  function WeightsOf(sys: System): Weights {
    Weights(sys.sender.op.retries, sys.receiver.op.retries)
  }

  // One event

  /** The sender sends a new block, or nothing, or it is at its end. */
  predicate Advances(s: SenderState, next: SenderState, packet: Option<Packet>) {
    || (next.blocksSent == s.blocksSent
        && (!next.Open() || (next.op.counter == s.op.counter && next.op.sent == s.op.sent)))
    || (next.blocksSent == s.blocksSent + 1 && packet.Some?
        && (packet.value.OptionsAcknowledgement? || (packet.value.Acknowledgement? && !s.lastDataPacketTransmitted)))
  }

  lemma OptionsProgress(s: SenderState, options: Options)
    requires s.Open()
    ensures Advances(s, s.OnOptionsAcknowledgement(options), Some(OptionsAcknowledgement(options)))
  {
  }

  lemma SenderProgress(s: SenderState, packet: Option<Packet>)
    requires s.op.Live()
    ensures Advances(s, s.OnPacket(packet), packet)
  {
    if packet.Some? && packet.value.OptionsAcknowledgement? && s.op.role == Client {
      OptionsProgress(s.(op := s.op.Received()), packet.value.options);
    }
  }

  ghost predicate Consumes(plan: Plan, sys: System, next: System) {
    && Bounded(plan, sys) && Bounded(plan, next)
    && WeightsOf(next) == WeightsOf(sys)
    && Drops(WeightsOf(sys), Left(plan, sys), Left(plan, next))
  }

  lemma ReceiverConsumes(plan: Plan, sys: System, next: ReceiverState, seen: nat)
    requires Bounded(plan, sys) && sys.receiver.Open() && Handled(sys.receiver.op, next.op)
    requires sys.nextToReceiver < seen <= |sys.toReceiver| && SendsNoOack(sys.receiver.op, next.op)
    requires Honest(plan, WithReceiver(sys.(nextToReceiver := seen), next))
    ensures Consumes(plan, sys, WithReceiver(sys.(nextToReceiver := seen), next))
  {
  }

  lemma TimeoutUsesTry(op: OperationState)
    requires op.Live()
    ensures Handled(op, op.Timeout()) && Tries(op.Timeout()) < Tries(op)
  {
    TimeoutHandled(op);
  }

  lemma RepeatedOacks(sys: System)
    requires FewOacks(sys) && sys.receiver.op.Live()
    ensures FewOacks(Step(sys, ReceiverTimeout))
  {
  }

  lemma OneTryLess(plan: Plan, sys: System, next: System)
    requires Bounded(plan, sys) && Honest(plan, next) && FewOacks(next)
    requires Handled(sys.sender.op, next.sender.op) && Handled(sys.receiver.op, next.receiver.op)
    requires next.sender.blocksSent == sys.sender.blocksSent
    requires next.nextToReceiver == sys.nextToReceiver && next.nextToSender == sys.nextToSender
    requires || (Tries(next.sender.op) < Tries(sys.sender.op) && next.receiver == sys.receiver
                 && next.toSender == sys.toSender && |sys.toReceiver| <= |next.toReceiver| <= |sys.toReceiver| + 1)
             || (Tries(next.receiver.op) < Tries(sys.receiver.op) && next.sender == sys.sender
                 && next.toReceiver == sys.toReceiver && |sys.toSender| <= |next.toSender| <= |sys.toSender| + 1)
    ensures Consumes(plan, sys, next)
  {
  }

  lemma ReceiverRepeats(plan: Plan, sys: System)
    requires Bounded(plan, sys) && sys.receiver.Open() && Honest(plan, Step(sys, ReceiverTimeout))
    ensures Consumes(plan, sys, Step(sys, ReceiverTimeout))
  {
    TimeoutUsesTry(sys.receiver.op);
    RepeatedOacks(sys);
    OneTryLess(plan, sys, Step(sys, ReceiverTimeout));
  }

  lemma SenderRepeats(plan: Plan, sys: System)
    requires Bounded(plan, sys) && sys.sender.Open() && Honest(plan, Step(sys, SenderTimeout))
    ensures Consumes(plan, sys, Step(sys, SenderTimeout))
  {
    TimeoutUsesTry(sys.sender.op);
    OneTryLess(plan, sys, Step(sys, SenderTimeout));
  }

  lemma SenderConsumes(plan: Plan, sys: System, next: SenderState, seen: nat)
    requires Bounded(plan, sys) && sys.sender.Open() && Handled(sys.sender.op, next.op)
    requires sys.nextToSender < seen <= |sys.toSender|
    requires || (next.blocksSent == sys.sender.blocksSent
                 && (!next.Open() || (next.op.counter == sys.sender.op.counter && next.op.sent == sys.sender.op.sent)))
             || (next.blocksSent == sys.sender.blocksSent + 1
                 && (next.blocksSent <= FileBlocks(plan) || seen <= Early(plan, sys)))
    requires Honest(plan, WithSender(sys.(nextToSender := seen), next))
    ensures Consumes(plan, sys, WithSender(sys.(nextToSender := seen), next))
  {
  }

  /** A datagram that reaches a completed operation. */
  lemma DatagramIgnored(plan: Plan, sys: System, seenByReceiver: nat, seenBySender: nat)
    requires Bounded(plan, sys)
    requires sys.nextToReceiver <= seenByReceiver <= |sys.toReceiver|
    requires sys.nextToSender <= seenBySender <= |sys.toSender|
    requires seenByReceiver + seenBySender > sys.nextToReceiver + sys.nextToSender
    ensures Consumes(plan, sys, sys.(nextToReceiver := seenByReceiver, nextToSender := seenBySender))
  {
  }

  lemma BlockConsumes(plan: Plan, sys: System, position: nat)
    requires plan.Sound() && Bounded(plan, sys) && position < |sys.toReceiver| && sys.receiver.Open()
    requires InOrderOnce(sys, Event.ToReceiver(position))
    ensures var next := sys.receiver.OnPacket(Seen(sys.toReceiver[position].packet, plan.bufferSize));
            Consumes(plan, sys, WithReceiver(sys.(nextToReceiver := position + 1), next))
  {
    var datagram := sys.toReceiver[position];
    var seen := Seen(datagram.packet, plan.bufferSize);
    ReceivedGoesOn(plan, sys.receiver, sys.sender.blocksSent, datagram);
    ReceiverStepHonest(plan, sys, sys.receiver.OnPacket(seen), position + 1);
    PacketHandledByReceiver(sys.receiver, seen);
    HandlerSendsNoOack(sys.receiver, seen);
    ReceiverConsumes(plan, sys, sys.receiver.OnPacket(seen), position + 1);
  }

  lemma ToReceiverConsumes(plan: Plan, sys: System, position: nat)
    requires plan.Sound() && Bounded(plan, sys) && position < |sys.toReceiver|
    requires InOrderOnce(sys, Event.ToReceiver(position))
    ensures Consumes(plan, sys, Step(sys, Event.ToReceiver(position)))
  {
    if sys.receiver.Open() {
      BlockConsumes(plan, sys, position);
    } else {
      DatagramIgnored(plan, sys, position + 1, sys.nextToSender);
    }
  }

  /** A sender that sends a new block has not reached the end of the file, or takes one of the OACKs. */
  lemma NewBlockAllowed(plan: Plan, sys: System, position: nat)
    requires plan.Sound() && Bounded(plan, sys) && position < |sys.toSender| && sys.sender.Open()
    ensures var datagram, next := sys.toSender[position],
                sys.sender.OnPacket(Seen(sys.toSender[position].packet, DEFAULT_MAX_PACKET_SIZE));
            next.blocksSent == sys.sender.blocksSent + 1 && (next.blocksSent >= 1 ==> plan.usable) ==>
              next.blocksSent <= FileBlocks(plan) || position + 1 <= Early(plan, sys)
  {
    var datagram := sys.toSender[position];
    assert FromReceiver(plan, datagram, sys.receiver);
    AnswerSeen(plan, datagram, sys.receiver);
    SenderProgress(sys.sender, Seen(datagram.packet, DEFAULT_MAX_PACKET_SIZE));
  }

  lemma AnswerConsumes(plan: Plan, sys: System, position: nat)
    requires plan.Sound() && Bounded(plan, sys) && position < |sys.toSender| && sys.sender.Open()
    requires InOrderOnce(sys, Event.ToSender(position))
    ensures var next := sys.sender.OnPacket(Seen(sys.toSender[position].packet, DEFAULT_MAX_PACKET_SIZE));
            Consumes(plan, sys, WithSender(sys.(nextToSender := position + 1), next))
  {
    var datagram := sys.toSender[position];
    var seen := Seen(datagram.packet, DEFAULT_MAX_PACKET_SIZE);
    AnsweredGoesOn(plan, sys.sender, sys.receiver, datagram);
    if sys.sender.blocksSent == 0 {
      NewBlockAgreed(plan, sys.sender, sys.receiver, datagram);
    }
    SenderStepHonest(plan, sys, sys.sender.OnPacket(seen), position + 1);
    PacketHandledBySender(sys.sender, seen);
    SenderProgress(sys.sender, seen);
    NewBlockAllowed(plan, sys, position);
    SenderConsumes(plan, sys, sys.sender.OnPacket(seen), position + 1);
  }

  lemma ToSenderConsumes(plan: Plan, sys: System, position: nat)
    requires plan.Sound() && Bounded(plan, sys) && position < |sys.toSender|
    requires InOrderOnce(sys, Event.ToSender(position))
    ensures Consumes(plan, sys, Step(sys, Event.ToSender(position)))
  {
    if sys.sender.Open() {
      AnswerConsumes(plan, sys, position);
    } else {
      DatagramIgnored(plan, sys, sys.nextToReceiver, position + 1);
    }
  }

  lemma EventConsumes(plan: Plan, sys: System, event: Event)
    requires plan.Sound() && Bounded(plan, sys) && Enabled(sys, event) && InOrderOnce(sys, event)
    ensures Consumes(plan, sys, Step(sys, event))
  {
    match event
    case ToReceiver(position) => ToReceiverConsumes(plan, sys, position);
    case ToSender(position) => ToSenderConsumes(plan, sys, position);
    case SenderTimeout =>
      StepHonest(plan, sys, event);
      SenderRepeats(plan, sys);
    case ReceiverTimeout =>
      StepHonest(plan, sys, event);
      ReceiverRepeats(plan, sys);
  }

  // The start

  lemma {:induction false} RepeatLives(op: OperationState, times: nat)
    requires op.Live() && op.timer != DallyTimer && op.counter + times <= op.retries + 1
    ensures var repeated := Repeat(op, times);
            && repeated.Live() && repeated.counter == op.counter + times && repeated.timer == op.timer
            && repeated.stored == op.stored && repeated.retries == op.retries
  {
    if times > 0 {
      RepeatLives(op, times - 1);
      Repeat(op, times - 1).TimeoutLivesOrEnds();
    }
  }

  lemma OpenedAlive(setup: Setup, reply: Reply)
    requires setup.repeatedRequests <= setup.clientRetries
    ensures var sys := Opened(setup, reply);
            && (sys.sender.op.Live() || sys.sender.op.Ended())
            && (sys.receiver.op.Live() || sys.receiver.op.Ended())
            && (setup.direction == Read ==>
                  sys.receiver.op.stored.Some? && !sys.receiver.op.stored.value.OptionsAcknowledgement?)
  {
    if setup.direction == Read {
      SenderStarts(
        Server, setup.serverRetries, DEFAULT_TIMEOUT, DEFAULT_MAX_PACKET_SIZE, setup.server, setup.file, reply,
        None, [], Octet, map[]);
      ReceiverStarts(
        Client, setup.clientRetries, DEFAULT_TIMEOUT, BufferSize(setup.client), setup.client, setup.dally,
        setup.accepts, reply, setup.filename, setup.mode, map[]);
      var idle := Idle(Client, setup.clientRetries, DEFAULT_TIMEOUT, BufferSize(setup.client));
      RepeatLives(
        RequestRead(idle, setup.client, setup.dally, setup.accepts, setup.filename, setup.mode, map[]).op,
        setup.repeatedRequests);
    } else {
      ReceiverStarts(
        Server, setup.serverRetries, DEFAULT_TIMEOUT, BufferSize(setup.server), setup.server, setup.dally,
        setup.accepts, reply, [], Octet, map[]);
      SenderStarts(
        Client, setup.clientRetries, DEFAULT_TIMEOUT, DEFAULT_MAX_PACKET_SIZE, setup.client, setup.file, reply,
        setup.FileSize(), setup.filename, setup.mode, map[]);
      var idle := Idle(Client, setup.clientRetries, DEFAULT_TIMEOUT, DEFAULT_MAX_PACKET_SIZE);
      RepeatLives(
        RequestWrite(idle, setup.client, setup.file, setup.FileSize(), setup.filename, setup.mode, map[]).op,
        setup.repeatedRequests);
    }
  }

  lemma OpenedBounded(plan: Plan, setup: Setup, reply: Reply)
    requires plan.Sound() && Follows(plan, setup, reply) && setup.repeatedRequests <= setup.clientRetries
    ensures Bounded(plan, Opened(setup, reply))
  {
    OpenedHonest(plan, setup, reply);
    OpenedAlive(setup, reply);
    OpenedLogs(setup, reply);
    OpenedStores(plan, setup, reply);
    StartedBounded(plan, Opened(setup, reply));
  }

  lemma OpenedStores(plan: Plan, setup: Setup, reply: Reply)
    requires plan.Sound() && Follows(plan, setup, reply) && setup.repeatedRequests <= setup.clientRetries
    ensures OacksCounted(Opened(setup, reply)) && Opened(setup, reply).sender.blocksSent <= 1
  {
    if reply.refusal.Some? {
      OpenedWriteHonest(plan, setup, reply);
      assert !Opened(setup, reply).receiver.Open();
    } else if setup.direction == Read {
      ReadOpened(plan, setup, reply);
      OpenedAlive(setup, reply);
    } else {
      WriteOpened(plan, setup, reply);
    }
  }

  lemma StartedBounded(plan: Plan, sys: System)
    requires plan.Sound() && Honest(plan, sys) && AliveOrEnded(sys) && OacksCounted(sys)
    requires |sys.toReceiver| <= 1 && |sys.toSender| <= 1 && sys.nextToReceiver == sys.nextToSender == 0
    requires sys.sender.blocksSent <= 1
    ensures Bounded(plan, sys)
  {
  }

  // The theorems

  lemma {:induction false} RunConsumes(plan: Plan, sys: System, events: seq<Event>)
    requires plan.Sound() && Bounded(plan, sys) && Schedule(InOrderOnce, sys, events)
    ensures var end := Run(sys, events);
            && Bounded(plan, end) && WeightsOf(end) == WeightsOf(sys)
            && |events| + Weight(WeightsOf(sys), Left(plan, end)) <= Weight(WeightsOf(sys), Left(plan, sys))
  {
    if events != [] {
      var front, last := events[..|events| - 1], events[|events| - 1];
      RunConsumes(plan, sys, front);
      var before := Run(sys, front);
      EventConsumes(plan, before, last);
      WeightDrops(WeightsOf(sys), Left(plan, before), Left(plan, Step(before, last)));
    }
  }

  /** A number of events that no run exceeds. */
  ghost function LongestRun(setup: Setup): nat
    requires setup.Proper()
  {
    InitBounded(setup);
    Weight(WeightsOf(Init(setup)), Left(PlanOf(setup), Init(setup)))
  }

  lemma InitBounded(setup: Setup)
    requires setup.Proper()
    ensures PlanOf(setup).Sound() && Bounded(PlanOf(setup), Init(setup))
  {
    PlanSound(setup);
    PlanFollows(setup);
    OpenedBounded(PlanOf(setup), setup, setup.Reply());
  }

  lemma OpenedLogs(setup: Setup, reply: Reply)
    requires setup.repeatedRequests <= setup.clientRetries
    ensures var sys := Opened(setup, reply);
            && |sys.toReceiver| <= 1 && |sys.toSender| <= 1 && sys.nextToReceiver == sys.nextToSender == 0
            && WeightsOf(sys) ==
                 (if setup.direction == Read then Weights(setup.serverRetries, setup.clientRetries)
                  else Weights(setup.clientRetries, setup.serverRetries))
  {
    if setup.direction == Read {
      var idle := Idle(Client, setup.clientRetries, DEFAULT_TIMEOUT, BufferSize(setup.client));
      RepeatedRequest(
        RequestRead(idle, setup.client, setup.dally, setup.accepts, setup.filename, setup.mode, map[]).op,
        setup.repeatedRequests);
    } else {
      var idle := Idle(Client, setup.clientRetries, DEFAULT_TIMEOUT, DEFAULT_MAX_PACKET_SIZE);
      RepeatedRequest(
        RequestWrite(idle, setup.client, setup.file, setup.FileSize(), setup.filename, setup.mode, map[]).op,
        setup.repeatedRequests);
    }
  }

  lemma TriesAtMost(op: OperationState)
    requires op.Live() || op.Ended()
    ensures Tries(op) <= op.retries + 1
  {
  }

  lemma SumGrows(f: Fuel, g: Fuel, block: nat, try: nat, datagram: nat)
    requires f.blocks <= g.blocks && f.senderTries <= g.senderTries && f.toReceiver <= g.toReceiver
    requires f.receiverTries <= g.receiverTries && f.toSender <= g.toSender
    ensures Sum(f, block, try, datagram) <= Sum(g, block, try, datagram)
  {
    Product(f.blocks, g.blocks, block, 0);
    Product(f.senderTries, g.senderTries, try, 0);
    Product(f.toReceiver, g.toReceiver, datagram, 0);
  }

  /** What a system has at most at its start, for a file of a number of blocks. */
  function FullTank(w: Weights, blocks: nat): Fuel {
    Fuel(blocks + w.receiverRetries + 1, w.senderRetries + 1, 1, w.receiverRetries + 1, 1)
  }

  lemma LeftAtMost(plan: Plan, sys: System)
    requires Bounded(plan, sys) && |sys.toReceiver| <= 1 && |sys.toSender| <= 1
    ensures Weight(WeightsOf(sys), Left(plan, sys)) <=
      Weight(WeightsOf(sys), FullTank(WeightsOf(sys), FileBlocks(plan)))
  {
    var w := WeightsOf(sys);
    TriesAtMost(sys.sender.op);
    TriesAtMost(sys.receiver.op);
    SumGrows(Left(plan, sys), FullTank(w, FileBlocks(plan)), w.PerBlock(), w.SenderTry(), w.ToReceiver());
  }

  /** The bound in terms of the retries of both sides and the number of blocks. */
  lemma LongestRunInNumbers(setup: Setup)
    requires setup.Proper()
    ensures var w :=
              if setup.direction == Read then Weights(setup.serverRetries, setup.clientRetries)
              else Weights(setup.clientRetries, setup.serverRetries);
            LongestRun(setup) <= Weight(w, FullTank(w, FileBlocks(PlanOf(setup))))
  {
    InitBounded(setup);
    OpenedLogs(setup, setup.Reply());
    LeftAtMost(PlanOf(setup), Init(setup));
  }

  /** Nothing more can happen. */
  ghost predicate Quiet(rule: Rule, sys: System) {
    forall event :: !(Enabled(sys, event) && rule(sys, event))
  }

  lemma QuietEnds(plan: Plan, sys: System)
    requires Bounded(plan, sys)
    ensures AliveOrEnded(sys) && (Quiet(InOrderOnce, sys) ==> sys.sender.op.Ended() && sys.receiver.op.Ended())
  {
    if Quiet(InOrderOnce, sys) {
      assert !(Enabled(sys, SenderTimeout) && InOrderOnce(sys, SenderTimeout));
      assert !(Enabled(sys, ReceiverTimeout) && InOrderOnce(sys, ReceiverTimeout));
    }
  }

  /**
   * Over a network that loses datagrams but neither duplicates nor reorders them, every run is finite, whatever is
   * lost and whenever the timers expire, and when nothing more can happen both operations have been completed, each
   * exactly once.
   */
  lemma EveryRunEnds(setup: Setup, events: seq<Event>)
    requires setup.Proper() && Schedule(InOrderOnce, Init(setup), events)
    ensures |events| <= LongestRun(setup)
    ensures var end := Run(Init(setup), events);
            AliveOrEnded(end)
            && (Quiet(InOrderOnce, end) ==> end.sender.op.Ended() && end.receiver.op.Ended())
  {
    InitBounded(setup);
    RunConsumes(PlanOf(setup), Init(setup), events);
    QuietEnds(PlanOf(setup), Run(Init(setup), events));
  }
}
