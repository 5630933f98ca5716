/** A transfer that is not harmless delivers nothing and succeeds on neither side, over any network. */
module Barrenness {
  import opened Basics
  import opened OptionLists
  import opened Packets
  import opened Negotiation
  import opened Operations
  import opened Senders
  import opened Receivers
  import opened Transfers
  import opened Opening
  import opened Honesty
  import opened Safety
  import opened Aborts

  /** The receiver has ended, or will never see a block. */
  ghost predicate Barren(plan: Plan, sys: System) {
    && Honest(plan, sys) && JustStarted(sys)
    && (!sys.receiver.Open() || !plan.usable || plan.bufferSize <= 3)
  }

  /** Nothing is delivered, and the receiver neither succeeds nor dallies. */
  predicate TakesNothing(r: ReceiverState) {
    r.delivered == [] && Successful !in r.op.completions && (r.Open() ==> r.op.timer != DallyTimer)
  }

  lemma OackTakesNothing(r: ReceiverState, options: Options)
    requires TakesNothing(r) && r.Open()
    ensures TakesNothing(r.OnOptionsAcknowledgement(options))
  {
    if r.lastReceivedBlockNumber == 0 {
      var verdict := CheckOack(r.configuration, r.SizeRule(), options);
      assert r.OnOptionsAcknowledgement(options) == r.OnVerdict(verdict);
    }
  }

  lemma PacketTakesNothing(r: ReceiverState, packet: Option<Packet>)
    requires TakesNothing(r) && r.Open()
    requires packet.Some? ==> packet.value.Error? || packet.value.OptionsAcknowledgement?
    ensures TakesNothing(r.OnPacket(packet))
  {
    if packet.Some? && packet.value.OptionsAcknowledgement? && r.op.role == Client {
      OackTakesNothing(r.(op := r.op.Received()), packet.value.options);
    }
  }

  lemma BarrenReceiver(plan: Plan, sys: System, position: nat)
    requires plan.Sound() && Barren(plan, sys) && position < |sys.toReceiver|
    ensures Barren(plan, Step(sys, Event.ToReceiver(position)))
  {
    ToReceiverHonest(plan, sys, position);
    if sys.receiver.Open() {
      var datagram := sys.toReceiver[position];
      DatagramSeen(plan, datagram, sys.sender.blocksSent);
      if plan.bufferSize <= 3 {
        SeenNothing(datagram.packet, plan.bufferSize);
      }
      PacketTakesNothing(sys.receiver, Seen(datagram.packet, plan.bufferSize));
    }
  }

  lemma BarrenSender(plan: Plan, sys: System, position: nat)
    requires plan.Sound() && Barren(plan, sys) && position < |sys.toSender|
    ensures Barren(plan, Step(sys, Event.ToSender(position)))
  {
    ToSenderHonest(plan, sys, position);
    if sys.sender.Open() {
      var datagram := sys.toSender[position];
      var seen := Seen(datagram.packet, DEFAULT_MAX_PACKET_SIZE);
      AnswerSeen(plan, datagram, sys.receiver);
      if datagram.packet.Acknowledgement? {
        OpeningAcknowledged(plan, sys.sender);
      } else {
        NoSuccessWithoutAcknowledgement(sys.sender, seen);
      }
    }
  }

  /** ACK 0 never ends a transfer with success. */
  lemma OpeningAcknowledged(plan: Plan, s: SenderState)
    requires SenderHonest(plan, s) && s.Open()
    ensures Successful !in s.OnPacket(Some(Acknowledgement(0))).op.completions
  {
  }

  lemma StepBarren(plan: Plan, sys: System, event: Event)
    requires plan.Sound() && Barren(plan, sys)
    ensures Barren(plan, Step(sys, event))
  {
    if Enabled(sys, event) {
      match event
      case ToReceiver(position) => BarrenReceiver(plan, sys, position);
      case ToSender(position) => BarrenSender(plan, sys, position);
      case _ => BarrenTimeout(plan, sys, event);
    }
  }

  lemma BarrenTimeout(plan: Plan, sys: System, event: Event)
    requires plan.Sound() && Barren(plan, sys) && event in {SenderTimeout, ReceiverTimeout}
    ensures Barren(plan, Step(sys, event))
  {
    StepHonest(plan, sys, event);
  }

  lemma {:induction false} RunBarren(rule: Rule, plan: Plan, sys: System, events: seq<Event>)
    requires plan.Sound() && Barren(plan, sys) && Schedule(rule, sys, events)
    ensures Barren(plan, Run(sys, events))
  {
    if events != [] {
      var front, last := events[..|events| - 1], events[|events| - 1];
      RunBarren(rule, plan, sys, front);
      StepBarren(plan, Run(sys, front), last);
    }
  }

  lemma RefusedHasEnded(plan: Plan, setup: Setup, reply: Reply)
    requires Follows(plan, setup, reply) && reply.refusal.Some?
    ensures !Opened(setup, reply).receiver.Open()
  {
  }

  /** Whatever the network does, a transfer that is not harmless delivers nothing and never succeeds. */
  lemma HarmfulDeliversNothing(rule: Rule, setup: Setup, events: seq<Event>)
    requires setup.Proper() && !Harmless(setup) && Schedule(rule, Init(setup), events)
    ensures var end := Run(Init(setup), events);
            && end.receiver.delivered == []
            && Successful !in end.sender.op.completions && Successful !in end.receiver.op.completions
  {
    InitHonest(setup);
    HarmlessPlan(setup);
    PlanFollows(setup);
    if ReplyRefused(setup) {
      RefusedHasEnded(PlanOf(setup), setup, setup.Reply());
    }
    RunBarren(rule, PlanOf(setup), Init(setup), events);
  }
}
