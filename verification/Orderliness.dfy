/**
 * A network that only loses datagrams keeps them in the window by itself, unless the server of a write with options
 * may repeat its OACK 65535 times.
 */
module Orderliness {
  import opened BlockNumbers
  import opened Packets
  import opened Negotiation
  import opened Operations
  import opened Senders
  import opened Receivers
  import opened Lifecycles
  import opened Transfers
  import opened Opening
  import opened Honesty
  import opened Safety
  import opened Lockstep
  import opened Oacks
  import opened Terminations

  predicate DataSorted(log: seq<Datagram>) {
    forall i, j :: 0 <= i < j < |log| && log[i].packet.Data? && log[j].packet.Data? ==> log[i].index <= log[j].index
  }

  predicate AcknowledgementsSorted(log: seq<Datagram>) {
    forall i, j :: 0 <= i < j < |log| && log[i].packet.Acknowledgement? && log[j].packet.Acknowledgement? ==>
      log[i].index <= log[j].index
  }

  predicate OacksFirst(log: seq<Datagram>) {
    forall i, j :: 0 <= i < j < |log| && log[j].packet.OptionsAcknowledgement? ==> log[i].packet.OptionsAcknowledgement?
  }

  /** The receiver would repeat an OACK. */
  predicate StoresOack(r: ReceiverState) {
    r.Open() && r.op.stored.Some? && r.op.stored.value.OptionsAcknowledgement?
  }

  /** No block under way is older than the last one of the receiver. */
  predicate BlocksInRow(sys: System) {
    && DataSorted(sys.toReceiver)
    && (forall i :: sys.nextToReceiver <= i < |sys.toReceiver| && sys.toReceiver[i].packet.Data? ==>
          sys.toReceiver[i].index >= |sys.receiver.delivered|)
  }

  /**
   * The sender is at most one block ahead and no ACK under way is older than the block before, except that the sender
   * may be at block `early` because it took OACKs again.
   */
  predicate AnswersInRow(sys: System, early: nat) {
    var reached := sys.sender.blocksSent;
    && AcknowledgementsSorted(sys.toSender)
    && (reached <= early
        || (reached <= |sys.receiver.delivered| + 1
            && forall i :: sys.nextToSender <= i < |sys.toSender| && sys.toSender[i].packet.Acknowledgement? ==>
                 sys.toSender[i].index + 1 >= reached))
  }

  /** While an OACK is under way or may be repeated, the sender has sent at most one block for each OACK it has seen. */
  predicate OacksInRow(sys: System) {
    var reached := sys.sender.blocksSent;
    && OacksFirst(sys.toSender)
    && (forall i :: sys.nextToSender <= i < |sys.toSender| && sys.toSender[i].packet.OptionsAcknowledgement? ==>
          reached <= sys.nextToSender)
    && (StoresOack(sys.receiver) ==>
          reached <= sys.nextToSender
          && forall i :: 0 <= i < |sys.toSender| ==> sys.toSender[i].packet.OptionsAcknowledgement?)
  }

  predicate InRow(sys: System, early: nat) {
    BlocksInRow(sys) && AnswersInRow(sys, early) && OacksInRow(sys)
  }

  ghost predicate Orderly(plan: Plan, sys: System) {
    && Safe(plan, sys) && Bounded(plan, sys)
    && Early(plan, sys) <= PERIOD
    && InRow(sys, Early(plan, sys))
  }

  lemma OrderlyInWindow(plan: Plan, sys: System, event: Event)
    requires Orderly(plan, sys) && InOrderOnce(sys, event)
    ensures InWindow(sys, event)
  {
    match event
    case ToReceiver(position) =>
      if position < |sys.toReceiver| {
        assert FromSender(plan, sys.toReceiver[position], sys.sender.blocksSent);
      }
    case ToSender(position) =>
      if position < |sys.toSender| {
        assert FromReceiver(plan, sys.toSender[position], sys.receiver);
      }
    case _ =>
  }

  lemma NewAnswerInRow(plan: Plan, sys: System, next: ReceiverState, seen: nat)
    requires Orderly(plan, sys) && Handled(sys.receiver.op, next.op)
    requires |sys.receiver.delivered| <= |next.delivered|
    ensures AnswersInRow(WithReceiver(sys.(nextToReceiver := seen), next), Early(plan, sys))
  {
    forall i | 0 <= i < |sys.toSender| && sys.toSender[i].packet.Acknowledgement?
      ensures sys.toSender[i].index <= |next.delivered|
    {
      assert FromReceiver(plan, sys.toSender[i], sys.receiver);
    }
  }

  lemma ReceiverStaysInRow(plan: Plan, sys: System, next: ReceiverState, seen: nat)
    requires Orderly(plan, sys) && sys.receiver.Open() && Handled(sys.receiver.op, next.op)
    requires sys.nextToReceiver <= seen && |sys.receiver.delivered| <= |next.delivered|
    requires forall i :: seen <= i < |sys.toReceiver| && sys.toReceiver[i].packet.Data? ==>
      sys.toReceiver[i].index >= |next.delivered|
    requires next.op.stored.Some? && next.op.stored.value.OptionsAcknowledgement? ==>
      !next.Open() || next.op.stored == sys.receiver.op.stored
    requires next.op.sent != sys.receiver.op.sent && next.op.stored.value.OptionsAcknowledgement? ==>
      StoresOack(sys.receiver)
    ensures InRow(WithReceiver(sys.(nextToReceiver := seen), next), Early(plan, sys))
  {
    NewAnswerInRow(plan, sys, next, seen);
  }

  lemma SenderStaysInRow(plan: Plan, sys: System, next: SenderState, seen: nat)
    requires Orderly(plan, sys) && sys.sender.Open() && Handled(sys.sender.op, next.op)
    requires sys.nextToSender <= seen && |sys.receiver.delivered| <= sys.sender.blocksSent <= next.blocksSent
    requires || next.blocksSent == sys.sender.blocksSent
             || (&& next.blocksSent == sys.sender.blocksSent + 1 && !StoresOack(sys.receiver)
                 && next.blocksSent <= |sys.receiver.delivered| + 1
                 && forall i :: seen <= i < |sys.toSender| ==>
                      && !sys.toSender[i].packet.OptionsAcknowledgement?
                      && (sys.toSender[i].packet.Acknowledgement? ==> sys.toSender[i].index >= sys.sender.blocksSent))
             || (next.blocksSent == sys.sender.blocksSent + 1 <= Early(plan, sys) && next.blocksSent <= seen)
    ensures InRow(WithSender(sys.(nextToSender := seen), next), Early(plan, sys))
  {
    forall i | 0 <= i < |sys.toReceiver| && sys.toReceiver[i].packet.Data?
      ensures sys.toReceiver[i].index <= next.blocksSent
    {
      assert FromSender(plan, sys.toReceiver[i], sys.sender.blocksSent);
    }
  }

  // One event

  /** What a datagram of the sender leaves ahead of the receiver. */
  lemma NothingOlderAhead(plan: Plan, sys: System, position: nat)
    requires plan.Sound() && Orderly(plan, sys) && sys.nextToReceiver <= position < |sys.toReceiver|
    requires sys.receiver.Open()
    ensures var next := sys.receiver.OnPacket(Seen(sys.toReceiver[position].packet, plan.bufferSize));
            forall i :: position < i < |sys.toReceiver| && sys.toReceiver[i].packet.Data? ==>
              sys.toReceiver[i].index >= |next.delivered|
  {
    var r, datagram := sys.receiver, sys.toReceiver[position];
    OrderlyInWindow(plan, sys, Event.ToReceiver(position));
    DatagramSeen(plan, datagram, sys.sender.blocksSent);
    var seen := Seen(datagram.packet, plan.bufferSize);
    if seen.Some? && seen.value.Data? {
      BlockDelivered(plan, r.(op := r.op.Received()), sys.sender.blocksSent, datagram.index);
    } else {
      NoDataDelivered(r, seen);
    }
  }

  lemma ToReceiverInRow(plan: Plan, sys: System, position: nat)
    requires plan.Sound() && Orderly(plan, sys) && sys.nextToReceiver <= position < |sys.toReceiver|
    ensures InRow(Step(sys, Event.ToReceiver(position)), Early(plan, sys))
  {
    if sys.receiver.Open() {
      var seen := Seen(sys.toReceiver[position].packet, plan.bufferSize);
      NothingOlderAhead(plan, sys, position);
      PacketHandledByReceiver(sys.receiver, seen);
      HandlerSendsNoOack(sys.receiver, seen);
      ReceivedGoesOn(plan, sys.receiver, sys.sender.blocksSent, sys.toReceiver[position]);
      ReceiverStaysInRow(plan, sys, sys.receiver.OnPacket(seen), position + 1);
    }
  }

  /** What makes the sender send a new block: the ACK of its block, or an OACK. */
  lemma NewBlockInRow(plan: Plan, sys: System, position: nat)
    requires plan.Sound() && Orderly(plan, sys) && sys.nextToSender <= position < |sys.toSender| && sys.sender.Open()
    ensures var datagram := sys.toSender[position];
            var next := sys.sender.OnPacket(Seen(datagram.packet, DEFAULT_MAX_PACKET_SIZE));
            || next.blocksSent == sys.sender.blocksSent
            || (next.blocksSent == sys.sender.blocksSent + 1
                && datagram.packet.Acknowledgement? && datagram.index == sys.sender.blocksSent)
            || (next.blocksSent == sys.sender.blocksSent + 1 <= Early(plan, sys)
                && datagram.packet.OptionsAcknowledgement? && next.blocksSent <= position + 1)
  {
    var datagram := sys.toSender[position];
    assert FromReceiver(plan, datagram, sys.receiver);
    OrderlyInWindow(plan, sys, Event.ToSender(position));
    AnswerSeen(plan, datagram, sys.receiver);
    SenderProgress(sys.sender, Seen(datagram.packet, DEFAULT_MAX_PACKET_SIZE));
    if datagram.packet.Acknowledgement? {
      AcknowledgementCompletes(plan, sys.sender, sys.receiver, datagram.index);
    }
  }

  lemma ToSenderInRow(plan: Plan, sys: System, position: nat)
    requires plan.Sound() && Orderly(plan, sys) && sys.nextToSender <= position < |sys.toSender|
    ensures InRow(Step(sys, Event.ToSender(position)), Early(plan, sys))
  {
    if sys.sender.Open() {
      var seen := Seen(sys.toSender[position].packet, DEFAULT_MAX_PACKET_SIZE);
      NewBlockInRow(plan, sys, position);
      PacketHandledBySender(sys.sender, seen);
      assert FromReceiver(plan, sys.toSender[position], sys.receiver);
      SenderStaysInRow(plan, sys, sys.sender.OnPacket(seen), position + 1);
    }
  }

  lemma TimeoutInRow(plan: Plan, sys: System, event: Event)
    requires plan.Sound() && Orderly(plan, sys) && Enabled(sys, event) && event in {SenderTimeout, ReceiverTimeout}
    ensures InRow(Step(sys, event), Early(plan, sys))
  {
    if event == SenderTimeout {
      TimeoutHandledBySender(sys.sender);
      if sys.sender.op.timer != FirstTimer {
        SenderStaysInRow(plan, sys, sys.sender.OnTimeout(), sys.nextToSender);
      }
    } else {
      TimeoutHandled(sys.receiver.op);
      if sys.receiver.op.timer != FirstTimer {
        ReceiverStaysInRow(plan, sys, sys.receiver.OnTimeout(), sys.nextToReceiver);
      }
    }
  }

  lemma StepOrderly(plan: Plan, sys: System, event: Event)
    requires plan.Sound() && Orderly(plan, sys) && Enabled(sys, event) && InOrderOnce(sys, event)
    ensures Orderly(plan, Step(sys, event)) && InWindow(sys, event)
  {
    OrderlyInWindow(plan, sys, event);
    StepSafe(plan, sys, event);
    EventConsumes(plan, sys, event);
    match event
    case ToReceiver(position) => ToReceiverInRow(plan, sys, position);
    case ToSender(position) => ToSenderInRow(plan, sys, position);
    case _ => TimeoutInRow(plan, sys, event);
  }

  lemma {:induction false} RunOrderly(plan: Plan, sys: System, events: seq<Event>)
    requires plan.Sound() && Orderly(plan, sys) && Schedule(InOrderOnce, sys, events)
    ensures Orderly(plan, Run(sys, events)) && Schedule(InWindow, sys, events)
  {
    if events != [] {
      var front, last := events[..|events| - 1], events[|events| - 1];
      RunOrderly(plan, sys, front);
      StepOrderly(plan, Run(sys, front), last);
    }
  }

  // The start

  lemma StartedInRow(plan: Plan, sys: System)
    requires Safe(plan, sys) && Bounded(plan, sys) && Early(plan, sys) <= PERIOD
    requires sys.receiver.delivered == [] && |sys.toReceiver| <= 1 && |sys.toSender| <= 1
    requires sys.sender.blocksSent <= 1 && (plan.direction == Write ==> sys.sender.blocksSent == 0)
    requires StoresOack(sys.receiver) ==>
      plan.direction == Write
      && forall i :: 0 <= i < |sys.toSender| ==> sys.toSender[i].packet.OptionsAcknowledgement?
    requires sys.nextToReceiver == sys.nextToSender == 0
    ensures Orderly(plan, sys)
  {
    forall i | 0 <= i < |sys.toSender| && sys.toSender[i].packet.OptionsAcknowledgement?
      ensures plan.direction == Write
    {
      assert FromReceiver(plan, sys.toSender[i], sys.receiver);
    }
  }

  lemma OpenedOrderly(plan: Plan, setup: Setup, reply: Reply)
    requires plan.Sound() && Follows(plan, setup, reply) && setup.repeatedRequests <= setup.clientRetries
    requires plan.direction == Write && plan.oack != map[] ==> setup.serverRetries < 0xFFFF
    ensures Orderly(plan, Opened(setup, reply))
  {
    OpenedSafe(plan, setup, reply);
    OpenedBounded(plan, setup, reply);
    OpenedLogs(setup, reply);
    OpenedJust(plan, setup, reply);
    StartedInRow(plan, Opened(setup, reply));
  }

  lemma OpenedJust(plan: Plan, setup: Setup, reply: Reply)
    requires plan.Sound() && Follows(plan, setup, reply) && setup.repeatedRequests <= setup.clientRetries
    ensures var sys := Opened(setup, reply);
            && sys.receiver.delivered == []
            && sys.sender.blocksSent <= 1 && (plan.direction == Write ==> sys.sender.blocksSent == 0)
            && (StoresOack(sys.receiver) ==>
                  plan.direction == Write
                  && forall i :: 0 <= i < |sys.toSender| ==> sys.toSender[i].packet.OptionsAcknowledgement?)
  {
    if reply.refusal.Some? {
      OpenedWriteHonest(plan, setup, reply);
      assert !Opened(setup, reply).receiver.Open();
    } else if setup.direction == Read {
      ReadOpened(plan, setup, reply);
      OpenedAlive(setup, reply);
    } else {
      WriteOpened(plan, setup, reply);
    }
  }

  lemma InitOrderly(setup: Setup)
    requires setup.Proper()
    requires setup.direction == Write && PlanOf(setup).oack != map[] ==> setup.serverRetries < 0xFFFF
    ensures PlanOf(setup).Sound() && PlanOf(setup).file == setup.file && Orderly(PlanOf(setup), Init(setup))
  {
    PlanSound(setup);
    PlanFollows(setup);
    OpenedOrderly(PlanOf(setup), setup, setup.Reply());
  }
}
