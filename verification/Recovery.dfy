/**
 * Repetitions recover from losses: exactly when a transfer that is not over can still succeed. What counts is whether
 * the block of the sender, or the answer to it, is under way or can be sent again.
 */
module Recovery {
  import opened Basics
  import opened BlockNumbers
  import opened MemoryFiles
  import opened Packets
  import opened Operations
  import opened Senders
  import opened Receivers
  import opened Transfers
  import opened Opening
  import opened Honesty
  import opened Safety
  import opened Lockstep
  import opened Aborts
  import opened Volleys
  import opened Progress
  import opened Agreements

  /** The block of the sender, or the OACK before the first one, is under way. */
  predicate BlockUnderWay(sys: System) {
    exists i :: sys.nextToReceiver <= i < |sys.toReceiver| && sys.toReceiver[i].index == sys.sender.blocksSent
  }

  /** The answer to the block of the sender, or to the request, is under way. */
  predicate AnswerUnderWay(sys: System) {
    exists i :: sys.nextToSender <= i < |sys.toSender| && sys.toSender[i].index == sys.sender.blocksSent
  }

  /** The sender can send its block again. A repeated request of a client does not reach the operation of the server. */
  predicate BlockRepeatable(s: SenderState) {
    s.op.timer != FirstTimer && s.op.counter <= s.op.retries
  }

  /** The receiver has the block of the sender and can send its answer again. */
  predicate AnswerRepeatable(plan: Plan, sys: System) {
    && LastTaken(plan, sys.receiver) == sys.sender.blocksSent
    && sys.receiver.op.timer != DallyTimer && sys.receiver.op.counter <= sys.receiver.op.retries
  }

  predicate CanRecover(plan: Plan, sys: System) {
    BlockUnderWay(sys) || AnswerUnderWay(sys) || BlockRepeatable(sys.sender) || AnswerRepeatable(plan, sys)
  }

  // The invariant

  ghost predicate DalliesAtEnd(plan: Plan, r: ReceiverState) {
    r.Open() && LastBlockReached(plan, |r.delivered|) ==> r.op.timer == DallyTimer
  }

  /** Lockstep, in which an open receiver that has the last block dallies, and no OACK goes to the sender. */
  ghost predicate Regular(plan: Plan, sys: System) {
    && InLockstep(plan, sys)
    && (plan.direction == Read || plan.oack == map[])
    && DalliesAtEnd(plan, sys.receiver)
    && sys.nextToReceiver <= |sys.toReceiver| && sys.nextToSender <= |sys.toSender|
  }

  lemma NoOackAgain(plan: Plan, sys: System, event: Event)
    requires Regular(plan, sys)
    ensures !OackAgain(sys, event)
  {
    if event.ToSender? && event.position < |sys.toSender| {
      assert FromReceiver(plan, sys.toSender[event.position], sys.receiver);
    }
  }

  /** A block that comes again is acknowledged again. */
  lemma SameBlockAnswered(plan: Plan, r: ReceiverState, reached: nat)
    requires plan.Sound() && plan.usable && ReceiverSafe(plan, r, reached) && r.Open() && r.delivered != []
    ensures var index := |r.delivered|;
            var next := r.OnPacket(Some(Data(Number(index), Block(plan.file, plan.size, index))));
            |Since(r.op, next.op)| == 1 && |next.delivered| == index && Waits(plan, next)
  {
    var index := |r.delivered|;
    var called, data := r.(op := r.op.Received()), Block(plan.file, plan.size, index);
    ShortBlock(plan.file, plan.size, index);
    assert r.OnPacket(Some(Data(Number(index), data))) == called.AcknowledgeLast(|data|);
  }

  /** What a datagram that is not too old does to the receiver. */
  lemma DatagramAnswered(plan: Plan, r: ReceiverState, reached: nat, datagram: Datagram)
    requires plan.Sound() && plan.usable && ReceiverSafe(plan, r, reached) && r.Open()
    requires r.op.timer == DallyTimer ==> LastBlockReached(plan, |r.delivered|)
    requires LastBlockReached(plan, reached) ==> reached == BlockCount(|plan.file|, plan.size)
    requires FromSender(plan, datagram, reached) && !datagram.packet.Error?
    requires LastTaken(plan, r) <= datagram.index <= LastTaken(plan, r) + 1
    ensures var next := r.OnPacket(Some(datagram.packet));
            |Since(r.op, next.op)| == 1 && |next.delivered| == datagram.index && Waits(plan, next)
  {
    match datagram.packet {
      case Data(_, _) =>
        if datagram.index == |r.delivered| {
          SameBlockAnswered(plan, r, reached);
        } else {
          NewBlockAnswered(plan, r, reached, datagram);
        }
      case OptionsAcknowledgement(_) => OackAnswered(plan, r, reached);
    }
  }

  lemma NewBlockAnswered(plan: Plan, r: ReceiverState, reached: nat, datagram: Datagram)
    requires plan.Sound() && plan.usable && ReceiverSafe(plan, r, reached) && r.Open()
    requires r.op.timer == DallyTimer ==> LastBlockReached(plan, |r.delivered|)
    requires LastBlockReached(plan, reached) ==> reached == BlockCount(|plan.file|, plan.size)
    requires FromSender(plan, datagram, reached) && datagram.packet.Data? && datagram.index == |r.delivered| + 1
    ensures var next := r.OnPacket(Some(datagram.packet));
            |Since(r.op, next.op)| == 1 && |next.delivered| == datagram.index && Waits(plan, next)
  {
    NextBlockAnswered(plan, r, datagram.index, datagram);
  }

  // One event

  lemma SentNoFurther(plan: Plan, sys: System)
    requires InLockstep(plan, sys)
    ensures LastBlockReached(plan, sys.sender.blocksSent) ==>
      sys.sender.blocksSent == BlockCount(|plan.file|, plan.size)
    ensures sys.receiver.Open() && sys.receiver.op.timer == DallyTimer ==>
      LastBlockReached(plan, |sys.receiver.delivered|)
  {
  }

  /** The receiver is at the index of a datagram, and its answer is the last one under way. */
  ghost predicate HasArrived(plan: Plan, sys: System, next: System, position: nat)
    requires position < |sys.toReceiver|
  {
    var index := sys.toReceiver[position].index;
    && Regular(plan, next) && Waits(plan, next.receiver)
    && LastTaken(plan, next.receiver) == |next.receiver.delivered| == index
    && next.sender == sys.sender && next.toReceiver == sys.toReceiver && next.nextToReceiver == position + 1
    && next.nextToSender == sys.nextToSender && |next.toSender| == |sys.toSender| + 1
    && next.toSender[..|sys.toSender|] == sys.toSender && next.toSender[|sys.toSender|].index == index
  }

  /** A datagram that keeps the order reaches an open receiver. */
  lemma Arrives(plan: Plan, sys: System, position: nat)
    requires plan.Sound() && Regular(plan, sys) && position < |sys.toReceiver| && sys.receiver.Open()
    requires InOrder(sys, Event.ToReceiver(position))
    ensures HasArrived(plan, sys, Step(sys, Event.ToReceiver(position)), position)
  {
    var r, reached, datagram := sys.receiver, sys.sender.blocksSent, sys.toReceiver[position];
    StepInLockstep(plan, sys, Event.ToReceiver(position));
    assert FromSender(plan, datagram, reached);
    DatagramSeen(plan, datagram, reached);
    SentNoFurther(plan, sys);
    ReceivedKeeps(plan, r, reached, datagram);
    DatagramAnswered(plan, r, reached, datagram);
    ReceiverStep(sys, position, Some(datagram.packet));
  }

  lemma AnswerKeepsReceiver(plan: Plan, sys: System, position: nat)
    requires plan.Sound() && Regular(plan, sys) && position < |sys.toSender|
    requires InOrder(sys, Event.ToSender(position))
    ensures Regular(plan, Step(sys, Event.ToSender(position)))
    ensures Step(sys, Event.ToSender(position)).receiver == sys.receiver
  {
    NoOackAgain(plan, sys, Event.ToSender(position));
    StepInLockstep(plan, sys, Event.ToSender(position));
  }

  lemma TimeoutRegular(plan: Plan, sys: System, event: Event)
    requires plan.Sound() && Regular(plan, sys) && event in {SenderTimeout, ReceiverTimeout}
    ensures Regular(plan, Step(sys, event))
  {
    StepInLockstep(plan, sys, event);
  }

  lemma StepRegular(plan: Plan, sys: System, event: Event)
    requires plan.Sound() && Regular(plan, sys) && Enabled(sys, event) && InOrder(sys, event)
    ensures Regular(plan, Step(sys, event))
  {
    match event
    case ToReceiver(position) =>
      if sys.receiver.Open() {
        Arrives(plan, sys, position);
      } else {
        StepInLockstep(plan, sys, event);
      }
    case ToSender(position) => AnswerKeepsReceiver(plan, sys, position);
    case _ => TimeoutRegular(plan, sys, event);
  }

  lemma {:induction false} RunRegular(plan: Plan, sys: System, events: seq<Event>)
    requires plan.Sound() && Regular(plan, sys) && Schedule(InOrder, sys, events)
    ensures Regular(plan, Run(sys, events))
  {
    if events != [] {
      var front, last := events[..|events| - 1], events[|events| - 1];
      RunRegular(plan, sys, front);
      StepRegular(plan, Run(sys, front), last);
    }
  }

  // What can be recovered

  /** The transfer is over for both sides once the dally of the receiver is. */
  lemma DallyOut(plan: Plan, reach: System -> bool, sys: System) returns (end: System)
    requires plan.Sound() && Closed(reach) && reach(sys) && InLockstep(plan, sys)
    requires sys.sender.op.completions == [Successful] && AtEnd(sys.receiver)
    ensures reach(end) && Succeeds(plan.file, end)
  {
    SafeDelivers(plan, sys);
    if !sys.receiver.Open() {
      return sys;
    }
    Onward(reach, sys, ReceiverTimeout);
    return Step(sys, ReceiverTimeout);
  }

  /** The answer to the block of the sender is the last one under way. */
  ghost predicate AnswerReady(plan: Plan, sys: System) {
    && Regular(plan, sys) && sys.sender.Open() && Waits(plan, sys.receiver)
    && sys.nextToSender < |sys.toSender| && sys.toSender[|sys.toSender| - 1].index == sys.sender.blocksSent
  }

  ghost predicate BlockReady(plan: Plan, sys: System) {
    && Regular(plan, sys) && sys.sender.Open() && sys.receiver.Open()
    && sys.nextToReceiver < |sys.toReceiver| && sys.toReceiver[|sys.toReceiver| - 1].index == sys.sender.blocksSent
  }

  lemma ReadyAnswerContinues(plan: Plan, sys: System)
    requires plan.Sound() && AnswerReady(plan, sys)
    ensures var s, answer := sys.sender, Some(Acknowledgement(Number(sys.sender.blocksSent)));
            && Step(sys, Event.ToSender(|sys.toSender| - 1)) ==
                 WithSender(sys.(nextToSender := |sys.toSender|), s.OnPacket(answer))
            && Continues(plan, s, s.OnPacket(answer))
  {
    var position := |sys.toSender| - 1;
    var datagram := sys.toSender[position];
    assert FromReceiver(plan, datagram, sys.receiver);
    AnswerSeen(plan, datagram, sys.receiver);
    AnswerContinues(plan, sys.sender);
    SenderStep(sys, position, Some(datagram.packet));
  }

  lemma ReadyAnswerReceiver(plan: Plan, sys: System)
    requires plan.Sound() && AnswerReady(plan, sys)
    ensures if LastBlockReached(plan, sys.sender.blocksSent) then AtEnd(sys.receiver) else sys.receiver.Open()
  {
    assert FromReceiver(plan, sys.toSender[|sys.toSender| - 1], sys.receiver);
  }

  lemma NewBlockLast(sys: System, next: SenderState, seen: nat)
    requires sys.nextToReceiver <= |sys.toReceiver| && |Since(sys.sender.op, next.op)| == 1
    ensures var after := WithSender(sys.(nextToSender := seen), next);
            && after.nextToReceiver < |after.toReceiver|
            && after.toReceiver[|after.toReceiver| - 1].index == next.blocksSent
  {
  }

  /** The sender is done, or its next block is the last one under way. */
  ghost predicate HasContinued(plan: Plan, sys: System, next: System) {
    if LastBlockReached(plan, sys.sender.blocksSent) then
      InLockstep(plan, next) && next.sender.op.completions == [Successful] && AtEnd(next.receiver)
    else
      BlockReady(plan, next) && next.sender.blocksSent == sys.sender.blocksSent + 1
  }

  lemma ContinuedReady(plan: Plan, sys: System, s: SenderState)
    requires AnswerReady(plan, sys) && Continues(plan, sys.sender, s)
    requires if LastBlockReached(plan, sys.sender.blocksSent) then AtEnd(sys.receiver) else sys.receiver.Open()
    requires Regular(plan, WithSender(sys.(nextToSender := |sys.toSender|), s))
    ensures HasContinued(plan, sys, WithSender(sys.(nextToSender := |sys.toSender|), s))
  {
    if !LastBlockReached(plan, sys.sender.blocksSent) {
      NewBlockLast(sys, s, |sys.toSender|);
    }
  }

  lemma TakeReadyAnswer(plan: Plan, reach: System -> bool, sys: System) returns (next: System)
    requires plan.Sound() && Closed(reach) && reach(sys) && AnswerReady(plan, sys)
    ensures reach(next) && HasContinued(plan, sys, next)
  {
    var event := Event.ToSender(|sys.toSender| - 1);
    AnswerKeepsReceiver(plan, sys, |sys.toSender| - 1);
    ReadyAnswerContinues(plan, sys);
    ReadyAnswerReceiver(plan, sys);
    Onward(reach, sys, event);
    next := Step(sys, event);
    ContinuedReady(plan, sys, sys.sender.OnPacket(Some(Acknowledgement(Number(sys.sender.blocksSent)))));
  }

  lemma ArrivedReady(plan: Plan, sys: System, next: System)
    requires BlockReady(plan, sys) && HasArrived(plan, sys, next, |sys.toReceiver| - 1)
    ensures AnswerReady(plan, next) && next.sender.blocksSent == sys.sender.blocksSent
  {
  }

  /** The receiver takes the block, perhaps once more: its answer is the last one under way. */
  lemma TakeReadyBlock(plan: Plan, reach: System -> bool, sys: System) returns (next: System)
    requires plan.Sound() && Closed(reach) && reach(sys) && BlockReady(plan, sys)
    ensures reach(next) && AnswerReady(plan, next) && next.sender.blocksSent == sys.sender.blocksSent
  {
    next := LastArrives(plan, reach, sys);
    ArrivedReady(plan, sys, next);
  }

  lemma LastArrives(plan: Plan, reach: System -> bool, sys: System) returns (next: System)
    requires plan.Sound() && Closed(reach) && reach(sys) && Regular(plan, sys) && sys.receiver.Open()
    requires sys.nextToReceiver < |sys.toReceiver|
    ensures reach(next) && HasArrived(plan, sys, next, |sys.toReceiver| - 1)
  {
    var event := Event.ToReceiver(|sys.toReceiver| - 1);
    Onward(reach, sys, event);
    Arrives(plan, sys, |sys.toReceiver| - 1);
    return Step(sys, event);
  }

  lemma FromAnswer(plan: Plan, reach: System -> bool, sys: System) returns (end: System)
    requires plan.Sound() && Closed(reach) && reach(sys) && AnswerReady(plan, sys)
    ensures reach(end) && Succeeds(plan.file, end)
    decreases BlockCount(|plan.file|, plan.size) - sys.sender.blocksSent, 0
  {
    var next := TakeReadyAnswer(plan, reach, sys);
    if LastBlockReached(plan, sys.sender.blocksSent) {
      end := DallyOut(plan, reach, next);
    } else {
      end := FromBlock(plan, reach, next);
    }
  }

  lemma FromBlock(plan: Plan, reach: System -> bool, sys: System) returns (end: System)
    requires plan.Sound() && Closed(reach) && reach(sys) && BlockReady(plan, sys)
    ensures reach(end) && Succeeds(plan.file, end)
    decreases BlockCount(|plan.file|, plan.size) - sys.sender.blocksSent, 1
  {
    var next := TakeReadyBlock(plan, reach, sys);
    end := FromAnswer(plan, reach, next);
  }

  lemma LastIndices(plan: Plan, sys: System)
    requires plan.Sound() && Regular(plan, sys) && sys.sender.Open() && sys.receiver.Open()
    ensures Waits(plan, sys.receiver)
    ensures BlockUnderWay(sys) ==> BlockReady(plan, sys)
    ensures AnswerUnderWay(sys) ==> AnswerReady(plan, sys)
  {
    SentNoFurther(plan, sys);
    if sys.toReceiver != [] {
      assert FromSender(plan, sys.toReceiver[|sys.toReceiver| - 1], sys.sender.blocksSent);
    }
    if sys.toSender != [] {
      assert FromReceiver(plan, sys.toSender[|sys.toSender| - 1], sys.receiver);
    }
  }

  lemma BlockRepeated(plan: Plan, sys: System)
    requires plan.Sound() && Regular(plan, sys) && sys.sender.Open() && sys.receiver.Open()
    requires BlockRepeatable(sys.sender)
    ensures BlockReady(plan, Step(sys, SenderTimeout))
  {
    TimeoutRegular(plan, sys, SenderTimeout);
    assert Since(sys.sender.op, sys.sender.OnTimeout().op) == [sys.sender.op.stored.value];
  }

  lemma AnswerRepeated(plan: Plan, sys: System)
    requires plan.Sound() && Regular(plan, sys) && sys.sender.Open() && sys.receiver.Open()
    requires AnswerRepeatable(plan, sys)
    ensures AnswerReady(plan, Step(sys, ReceiverTimeout))
  {
    SentNoFurther(plan, sys);
    TimeoutRegular(plan, sys, ReceiverTimeout);
    assert Since(sys.receiver.op, sys.receiver.OnTimeout().op) == [sys.receiver.op.stored.value];
  }

  lemma Recovers(plan: Plan, reach: System -> bool, sys: System) returns (end: System)
    requires plan.Sound() && Closed(reach) && reach(sys) && Regular(plan, sys)
    requires sys.sender.Open() && sys.receiver.Open() && CanRecover(plan, sys)
    ensures reach(end) && Succeeds(plan.file, end)
  {
    LastIndices(plan, sys);
    if BlockUnderWay(sys) {
      end := FromBlock(plan, reach, sys);
    } else if AnswerUnderWay(sys) {
      end := FromAnswer(plan, reach, sys);
    } else if BlockRepeatable(sys.sender) {
      BlockRepeated(plan, sys);
      Onward(reach, sys, SenderTimeout);
      end := FromBlock(plan, reach, Step(sys, SenderTimeout));
    } else {
      AnswerRepeated(plan, sys);
      Onward(reach, sys, ReceiverTimeout);
      end := FromAnswer(plan, reach, Step(sys, ReceiverTimeout));
    }
  }

  // What cannot

  /** The sender does not succeed any more. */
  ghost predicate Stuck(plan: Plan, sys: System) {
    && Regular(plan, sys) && Successful !in sys.sender.op.completions
    && (sys.sender.Open() ==>
          && !BlockUnderWay(sys) && !AnswerUnderWay(sys) && !BlockRepeatable(sys.sender)
          && (sys.receiver.Open() ==> !AnswerRepeatable(plan, sys)))
  }

  lemma StuckReceiver(plan: Plan, sys: System, position: nat)
    requires plan.Sound() && Stuck(plan, sys) && sys.nextToReceiver <= position < |sys.toReceiver|
    ensures Stuck(plan, Step(sys, Event.ToReceiver(position)))
  {
    StepRegular(plan, sys, Event.ToReceiver(position));
    if sys.receiver.Open() {
      Arrives(plan, sys, position);
      assert FromSender(plan, sys.toReceiver[position], sys.sender.blocksSent);
    }
  }

  /** An answer to the block before is ignored. */
  lemma OldAnswerIgnored(plan: Plan, s: SenderState, index: nat)
    requires s.Open() && s.lastReceivedBlockNumber == Number(index)
    ensures s.OnPacket(Some(Acknowledgement(Number(index)))) == s.(op := s.op.Received()).Receive()
  {
  }

  lemma StuckSender(plan: Plan, sys: System, position: nat)
    requires plan.Sound() && Stuck(plan, sys) && sys.nextToSender <= position < |sys.toSender|
    ensures Stuck(plan, Step(sys, Event.ToSender(position)))
  {
    AnswerKeepsReceiver(plan, sys, position);
    if sys.sender.Open() {
      var datagram := sys.toSender[position];
      assert FromReceiver(plan, datagram, sys.receiver);
      AnswerSeen(plan, datagram, sys.receiver);
      OldAnswerIgnored(plan, sys.sender, datagram.index);
      SenderStep(sys, position, Some(datagram.packet));
    }
  }

  lemma StuckSenderTimeout(plan: Plan, sys: System)
    requires plan.Sound() && Stuck(plan, sys) && sys.sender.Open()
    ensures Stuck(plan, Step(sys, SenderTimeout))
  {
    TimeoutRegular(plan, sys, SenderTimeout);
  }

  lemma StuckReceiverTimeout(plan: Plan, sys: System)
    requires plan.Sound() && Stuck(plan, sys) && sys.receiver.Open()
    ensures Stuck(plan, Step(sys, ReceiverTimeout))
  {
    TimeoutRegular(plan, sys, ReceiverTimeout);
    if sys.sender.Open() && LastTaken(plan, sys.receiver) == sys.sender.blocksSent {
      assert !sys.receiver.OnTimeout().Open();
    }
  }

  lemma {:induction false} StaysStuck(plan: Plan, sys: System, events: seq<Event>)
    requires plan.Sound() && Stuck(plan, sys) && Schedule(InOrderOnce, sys, events)
    ensures Stuck(plan, Run(sys, events))
  {
    if events != [] {
      var front, last := events[..|events| - 1], events[|events| - 1];
      StaysStuck(plan, sys, front);
      match last
      case ToReceiver(position) => StuckReceiver(plan, Run(sys, front), position);
      case ToSender(position) => StuckSender(plan, Run(sys, front), position);
      case SenderTimeout => StuckSenderTimeout(plan, Run(sys, front));
      case ReceiverTimeout => StuckReceiverTimeout(plan, Run(sys, front));
    }
  }

  // The theorem

  lemma InitRegular(setup: Setup)
    requires setup.Proper() && Harmless(setup) && !Fragile(setup)
    ensures PlanOf(setup).Sound() && PlanOf(setup).file == setup.file && Regular(PlanOf(setup), Init(setup))
  {
    InitOnCourse(setup);
    InitInLockstep(setup);
    InitHonest(setup);
  }

  /**
   * After any run of a harmless transfer over a network that only loses datagrams, in which no OACK goes to a writing
   * client, and which has left both operations open: the run can be continued to success on both sides with the whole
   * file exactly if the block of the sender or its answer is under way, or the sender has a retry left for a block, or
   * the receiver one for the answer to it.
   */
  lemma RecoversExactly(setup: Setup, events: seq<Event>)
    requires setup.Proper() && Harmless(setup) && !Fragile(setup) && Schedule(InOrderOnce, Init(setup), events)
    requires Run(Init(setup), events).sender.Open() && Run(Init(setup), events).receiver.Open()
    ensures var now := Run(Init(setup), events);
            (exists more :: Schedule(InOrderOnce, now, more) && Succeeds(setup.file, Run(now, more)))
            <==> CanRecover(PlanOf(setup), now)
  {
    var plan, now := PlanOf(setup), Run(Init(setup), events);
    InitRegular(setup);
    OnceIsInOrder(Init(setup), events);
    RunRegular(plan, Init(setup), events);
    if CanRecover(plan, now) {
      ReachableClosed(now);
      var end := Recovers(plan, Reachable(InOrderOnce, now), now);
      var more := RunTo(InOrderOnce, now, end);
    } else {
      forall more | Schedule(InOrderOnce, now, more)
        ensures !Succeeds(setup.file, Run(now, more))
      {
        StaysStuck(plan, now, more);
      }
    }
  }
}
