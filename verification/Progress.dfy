/**
 * Transfers do succeed: when nothing is lost, duplicated or late, a harmless transfer runs to its end, and both sides
 * report success.
 */
module Progress {
  import opened Basics
  import opened BlockNumbers
  import opened MemoryFiles
  import opened Packets
  import opened Negotiation
  import opened Operations
  import opened Senders
  import opened Receivers
  import opened Transfers
  import opened Opening
  import opened Honesty
  import opened Safety
  import opened Lockstep
  import opened Aborts
  import opened Barrenness
  import opened Volleys
  import opened Terminations

  /** Every datagram arrives once and in order, before a timer expires; only the dally at the end runs its time. */
  predicate Smooth(sys: System, event: Event) {
    match event
    case ToReceiver(position) => position == sys.nextToReceiver
    case ToSender(position) => position == sys.nextToSender
    case SenderTimeout => false
    case ReceiverTimeout => sys.receiver.op.timer == DallyTimer
  }

  // What is under way

  /** A receiver that has the last block has completed with success, or dallies. */
  predicate AtEnd(r: ReceiverState) {
    if r.Open() then r.op.timer == DallyTimer else r.op.completions == [Successful]
  }

  ghost predicate Waits(plan: Plan, r: ReceiverState) {
    if LastBlockReached(plan, |r.delivered|) then AtEnd(r) else r.Open() && r.op.timer != DallyTimer
  }

  /** The next block, or the OACK before the first one, is the only datagram under way. */
  ghost predicate BlockComing(plan: Plan, sys: System) {
    && sys.nextToReceiver + 1 == |sys.toReceiver| && sys.nextToSender == |sys.toSender|
    && sys.toReceiver[sys.nextToReceiver].index == sys.sender.blocksSent == LastTaken(plan, sys.receiver) + 1
    && sys.sender.Open() && sys.receiver.Open() && sys.receiver.op.timer != DallyTimer
  }

  /** The answer to the last block, or to the request, is the only datagram under way. */
  ghost predicate AnswerComing(plan: Plan, sys: System) {
    && sys.nextToReceiver == |sys.toReceiver| && sys.nextToSender + 1 == |sys.toSender|
    && sys.toSender[sys.nextToSender].index == sys.sender.blocksSent == LastTaken(plan, sys.receiver)
    && sys.sender.Open() && Waits(plan, sys.receiver)
  }

  /** Nothing is under way, and at most a dally goes on. */
  predicate AtRest(sys: System) {
    && sys.nextToReceiver == |sys.toReceiver| && sys.nextToSender == |sys.toSender|
    && sys.sender.op.completions == [Successful] && AtEnd(sys.receiver)
  }

  ghost predicate OnCourse(plan: Plan, sys: System) {
    InLockstep(plan, sys) && (BlockComing(plan, sys) || AnswerComing(plan, sys) || AtRest(sys))
  }

  // One event

  lemma NextBlockAnswered(plan: Plan, r: ReceiverState, reached: nat, datagram: Datagram)
    requires plan.Sound() && plan.usable && ReceiverSafe(plan, r, reached) && r.Open() && r.op.timer != DallyTimer
    requires FromSender(plan, datagram, reached) && datagram.packet.Data?
    requires datagram.index == reached == |r.delivered| + 1
    ensures var next := r.OnPacket(Some(datagram.packet));
            |Since(r.op, next.op)| == 1 && |next.delivered| == reached && Waits(plan, next)
  {
    var data := Block(plan.file, plan.size, reached);
    AwaitedTaken(plan, r, reached, data);
    ShortBlock(plan.file, plan.size, reached);
    if |data| == plan.size {
      FullBlockReceives(r.(op := r.op.Received()), data);
    }
  }

  lemma FullBlockReceives(r: ReceiverState, data: Bytes)
    requires r.Open() && |data| == r.receiveDataSize && r.lastReceivedBlockNumber != Next(r.lastReceivedBlockNumber)
    ensures r.OnData(Next(r.lastReceivedBlockNumber), data).op.timer == ReceiveTimer
  {
  }

  lemma OackAnswered(plan: Plan, r: ReceiverState, reached: nat)
    requires plan.Sound() && plan.usable && plan.direction == Read && plan.oack != map[]
    requires ReceiverSafe(plan, r, reached) && r.Open() && r.delivered == []
    ensures var next := r.OnPacket(Some(OptionsAcknowledgement(plan.oack)));
            |Since(r.op, next.op)| == 1 && next.delivered == [] && Waits(plan, next)
  {
    var verdict := CheckOack(plan.client, plan.rule, plan.oack);
    assert r.OnPacket(Some(OptionsAcknowledgement(plan.oack))) == r.(op := r.op.Received()).OnVerdict(verdict);
  }

  lemma BlockArrivesSmoothly(plan: Plan, sys: System)
    requires plan.Sound() && InLockstep(plan, sys) && BlockComing(plan, sys)
    ensures var next := Step(sys, Event.ToReceiver(sys.nextToReceiver));
            OnCourse(plan, next) && AnswerComing(plan, next) && next.sender == sys.sender
  {
    var r, reached, position := sys.receiver, sys.sender.blocksSent, sys.nextToReceiver;
    var datagram := sys.toReceiver[position];
    StepInLockstep(plan, sys, Event.ToReceiver(position));
    assert FromSender(plan, datagram, reached);
    DatagramSeen(plan, datagram, reached);
    ReceivedKeeps(plan, r, reached, datagram);
    match datagram.packet {
      case Data(_, _) => NextBlockAnswered(plan, r, reached, datagram);
      case OptionsAcknowledgement(_) => OackAnswered(plan, r, reached);
    }
    ReceiverStep(sys, position, Some(datagram.packet));
  }

  /** The answer to the last block ends the transfer of the sender; any other answer sets off the next block. */
  ghost predicate Continues(plan: Plan, s: SenderState, next: SenderState) {
    if LastBlockReached(plan, s.blocksSent) then
      next.op.completions == [Successful] && next.op.sent == s.op.sent && next.blocksSent == s.blocksSent
    else
      next.Open() && |Since(s.op, next.op)| == 1 && next.blocksSent == s.blocksSent + 1
  }

  lemma AnswerContinues(plan: Plan, s: SenderState)
    requires plan.Sound() && plan.usable && SenderHonest(plan, s) && s.Open()
    requires plan.direction == Write && plan.oack != map[] ==> s.blocksSent >= 1
    requires s.lastReceivedBlockNumber == Previous(plan, s.blocksSent)
    ensures Continues(plan, s, s.OnPacket(Some(Acknowledgement(Number(s.blocksSent)))))
  {
    if s.blocksSent >= 1 {
      NumberInWindow(s.blocksSent - 1, s.blocksSent);
    }
    var acknowledged := s.(op := s.op.Received(), lastReceivedBlockNumber := Number(s.blocksSent));
    if !LastBlockReached(plan, s.blocksSent) {
      SendDataResult(plan, acknowledged);
    }
  }

  lemma OackContinues(plan: Plan, s: SenderState)
    requires plan.Sound() && plan.usable && plan.direction == Write && plan.oack != map[]
    requires SenderHonest(plan, s) && s.Open() && s.blocksSent == 0
    ensures Continues(plan, s, s.OnPacket(Some(OptionsAcknowledgement(plan.oack))))
  {
    var verdict := CheckOack(plan.client, plan.rule, plan.oack);
    assert s.OnPacket(Some(OptionsAcknowledgement(plan.oack))) == s.(op := s.op.Received()).OnVerdict(verdict);
    SendDataResult(
      plan,
      s.(op := s.op.Received().(receiveTimeout := verdict.timeout.GetOr(s.op.receiveTimeout)),
         transmitDataSize := verdict.dataSize.GetOr(s.transmitDataSize)));
  }

  lemma AnswerArrivesSmoothly(plan: Plan, sys: System)
    requires plan.Sound() && InLockstep(plan, sys) && AnswerComing(plan, sys)
    ensures var next := Step(sys, Event.ToSender(sys.nextToSender));
            && OnCourse(plan, next)
            && (if LastBlockReached(plan, sys.sender.blocksSent) then AtRest(next)
                else BlockComing(plan, next) && next.sender.blocksSent == sys.sender.blocksSent + 1)
  {
    var s, r, position := sys.sender, sys.receiver, sys.nextToSender;
    var datagram := sys.toSender[position];
    assert FromReceiver(plan, datagram, r);
    StepInLockstep(plan, sys, Event.ToSender(position));
    AnswerSeen(plan, datagram, r);
    match datagram.packet {
      case Acknowledgement(_) => AnswerContinues(plan, s);
      case OptionsAcknowledgement(_) => OackContinues(plan, s);
    }
    SenderStep(sys, position, Some(datagram.packet));
  }

  lemma DallyEnds(plan: Plan, sys: System)
    requires plan.Sound() && OnCourse(plan, sys) && sys.receiver.Open() && sys.receiver.op.timer == DallyTimer
    ensures OnCourse(plan, Step(sys, ReceiverTimeout))
  {
    StepInLockstep(plan, sys, ReceiverTimeout);
    assert Tagged(Since(sys.receiver.op, sys.receiver.OnTimeout().op), |sys.receiver.delivered|) == [];
  }

  lemma StepOnCourse(plan: Plan, sys: System, event: Event)
    requires plan.Sound() && OnCourse(plan, sys) && Enabled(sys, event) && Smooth(sys, event)
    ensures OnCourse(plan, Step(sys, event))
  {
    match event
    case ToReceiver(position) => BlockArrivesSmoothly(plan, sys);
    case ToSender(position) => AnswerArrivesSmoothly(plan, sys);
    case ReceiverTimeout => DallyEnds(plan, sys);
  }

  lemma {:induction false} RunOnCourse(plan: Plan, sys: System, events: seq<Event>)
    requires plan.Sound() && OnCourse(plan, sys) && Schedule(Smooth, sys, events)
    ensures OnCourse(plan, Run(sys, events))
  {
    if events != [] {
      var front, last := events[..|events| - 1], events[|events| - 1];
      RunOnCourse(plan, sys, front);
      StepOnCourse(plan, Run(sys, front), last);
    }
  }

  // The start and the end

  /** The first block or OACK is under way, or the answer to the request of a write. */
  ghost predicate JustOpened(plan: Plan, sys: System) {
    (BlockComing(plan, sys) && sys.sender.blocksSent <= 1) || (AnswerComing(plan, sys) && sys.sender.blocksSent == 0)
  }

  lemma OpenedReadComing(plan: Plan, setup: Setup, reply: Reply)
    requires plan.Sound() && Follows(plan, setup, reply) && setup.repeatedRequests <= setup.clientRetries
    requires reply.refusal.None? && setup.direction == Read && Safe(plan, Opened(setup, reply))
    ensures BlockComing(plan, Opened(setup, reply)) && Opened(setup, reply).sender.blocksSent <= 1
  {
    var sys := Opened(setup, reply);
    OpenedLogs(setup, reply);
    ReadOpened(plan, setup, reply);
    assert FromSender(plan, sys.toReceiver[0], sys.sender.blocksSent);
  }

  lemma OpenedWriteComing(plan: Plan, setup: Setup, reply: Reply)
    requires plan.Sound() && Follows(plan, setup, reply) && setup.repeatedRequests <= setup.clientRetries
    requires reply.refusal.None? && setup.direction == Write && Safe(plan, Opened(setup, reply))
    ensures AnswerComing(plan, Opened(setup, reply)) && Opened(setup, reply).sender.blocksSent == 0
  {
    var sys := Opened(setup, reply);
    WriteOpened(plan, setup, reply);
    assert FromReceiver(plan, sys.toSender[0], sys.receiver);
  }

  lemma OpenedOnCourse(plan: Plan, setup: Setup, reply: Reply)
    requires plan.Sound() && Follows(plan, setup, reply) && setup.repeatedRequests <= setup.clientRetries
    requires reply.refusal.None? && plan.usable && plan.bufferSize > 3
    ensures OnCourse(plan, Opened(setup, reply)) && JustOpened(plan, Opened(setup, reply))
  {
    OpenedInLockstep(plan, setup, reply);
    if setup.direction == Read {
      OpenedReadComing(plan, setup, reply);
    } else {
      OpenedWriteComing(plan, setup, reply);
    }
  }

  /** A transfer on its course that can go no further has succeeded. */
  lemma QuietSucceeds(plan: Plan, sys: System)
    requires plan.Sound() && OnCourse(plan, sys)
    ensures Quiet(Smooth, sys) ==>
      sys.sender.op.completions == [Successful] && sys.receiver.op.completions == [Successful]
  {
    if BlockComing(plan, sys) {
      var event := Event.ToReceiver(sys.nextToReceiver);
      assert Enabled(sys, event) && Smooth(sys, event);
    } else if AnswerComing(plan, sys) {
      var event := Event.ToSender(sys.nextToSender);
      assert Enabled(sys, event) && Smooth(sys, event);
    } else if sys.receiver.Open() {
      assert Enabled(sys, ReceiverTimeout) && Smooth(sys, ReceiverTimeout);
    }
  }

  /** Both sides have completed with success, and the file has been delivered. */
  predicate Succeeds(file: Bytes, sys: System) {
    && sys.sender.op.completions == [Successful] && sys.receiver.op.completions == [Successful]
    && Flatten(sys.receiver.delivered) == file
  }

  /** A smooth run that can go no further. */
  ghost predicate SmoothToTheEnd(setup: Setup, events: seq<Event>) {
    Schedule(Smooth, Init(setup), events) && Quiet(Smooth, Run(Init(setup), events))
  }

  lemma InitOnCourse(setup: Setup)
    requires setup.Proper() && Harmless(setup)
    ensures PlanOf(setup).Sound() && PlanOf(setup).usable && PlanOf(setup).file == setup.file
    ensures OnCourse(PlanOf(setup), Init(setup)) && JustOpened(PlanOf(setup), Init(setup))
  {
    HarmlessPlan(setup);
    PlanSound(setup);
    PlanFollows(setup);
    OpenedOnCourse(PlanOf(setup), setup, setup.Reply());
  }

  lemma SmoothSucceeds(setup: Setup, events: seq<Event>)
    requires setup.Proper() && Harmless(setup) && SmoothToTheEnd(setup, events)
    ensures Succeeds(setup.file, Run(Init(setup), events))
  {
    var plan, end := PlanOf(setup), Run(Init(setup), events);
    InitOnCourse(setup);
    RunOnCourse(plan, Init(setup), events);
    QuietSucceeds(plan, end);
    SafeDelivers(plan, end);
  }

  // Such a run exists

  lemma {:induction false} SmoothIsInOrderOnce(sys: System, events: seq<Event>)
    requires Schedule(Smooth, sys, events)
    ensures Schedule(InOrderOnce, sys, events)
  {
    if events != [] {
      SmoothIsInOrderOnce(sys, events[..|events| - 1]);
    }
  }

  /** Every smooth run can be continued to a point where nothing more happens. */
  lemma {:induction false} SmoothRunOn(setup: Setup, events: seq<Event>) returns (all: seq<Event>)
    requires setup.Proper() && Schedule(Smooth, Init(setup), events)
    ensures SmoothToTheEnd(setup, all) && events <= all && |all| <= LongestRun(setup)
    decreases LongestRun(setup) - |events|
  {
    SmoothIsInOrderOnce(Init(setup), events);
    EveryRunEnds(setup, events);
    var now := Run(Init(setup), events);
    if Quiet(Smooth, now) {
      return events;
    }
    var event :| Enabled(now, event) && Smooth(now, event);
    Extended(Smooth, Init(setup), events, event);
    SmoothIsInOrderOnce(Init(setup), events + [event]);
    EveryRunEnds(setup, events + [event]);
    all := SmoothRunOn(setup, events + [event]);
  }

  // The theorem

  /**
   * When every datagram arrives, once, in order and in time, the transfer ends with success on both sides and the whole
   * file delivered exactly if it is harmless. A transfer that is not never delivers anything.
   */
  lemma SucceedsExactly(setup: Setup)
    requires setup.Proper()
    ensures exists events :: SmoothToTheEnd(setup, events)
    ensures (forall events :: SmoothToTheEnd(setup, events) ==> Succeeds(setup.file, Run(Init(setup), events)))
      <==> Harmless(setup)
  {
    var events := SmoothRunOn(setup, []);
    if Harmless(setup) {
      forall events | SmoothToTheEnd(setup, events)
        ensures Succeeds(setup.file, Run(Init(setup), events))
      {
        SmoothSucceeds(setup, events);
      }
    } else {
      HarmfulDeliversNothing(Smooth, setup, events);
    }
  }
}
