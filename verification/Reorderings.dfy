/**
 * Exactly when success means the whole file, and when the delivered bytes are a prefix of the file, over a network that
 * may lose, duplicate and reorder datagrams at will. There a block of an earlier round of 65535 can always come back.
 */
module Reorderings {
  import opened Basics
  import opened BlockNumbers
  import opened MemoryFiles
  import opened Packets
  import opened Negotiation
  import opened Senders
  import opened Receivers
  import opened Transfers
  import opened Opening
  import opened Honesty
  import opened Safety
  import opened Aborts
  import opened Periods
  import opened Overruns
  import opened Progress
  import opened Stragglers
  import opened Agreements
  import opened Refinement

  /** The number of blocks of the transfer. */
  function BlocksOf(setup: Setup): nat {
    var size := AgreedBlockSize(setup.client, setup.server);
    if size >= 1 then BlockCount(|setup.file|, size) else 0
  }

  /** A receiver that dallies could still take a block after the last one. */
  predicate OneRound(setup: Setup) {
    BlocksOf(setup) <= (if setup.dally then PERIOD - 1 else PERIOD)
  }

  // What short files guarantee

  lemma ShortEnds(r: ReceiverState, block: uint16, data: Bytes)
    requires r.Open() && !r.dally && |data| < r.receiveDataSize
    ensures !r.OnData(block, data).Open()
  {
  }

  /** A receiver that does not dally is closed as soon as it has the last block. */
  ghost predicate Awaits(plan: Plan, r: ReceiverState)
    requires plan.size >= 1
  {
    r.Open() && !r.dally ==> |r.delivered| < BlockCount(|plan.file|, plan.size)
  }

  /** All blocks belong to one round, and no OACK goes to the sender. */
  ghost predicate Compact(plan: Plan, sys: System) {
    && Safe(plan, sys) && plan.usable && plan.size >= 1
    && (plan.direction == Read || plan.oack == map[])
    && sys.sender.blocksSent <= BlockCount(|plan.file|, plan.size)
    && BlockCount(|plan.file|, plan.size) <= (if sys.receiver.dally then PERIOD - 1 else PERIOD)
    && Awaits(plan, sys.receiver)
  }

  lemma CompactInWindow(plan: Plan, sys: System, event: Event)
    requires Compact(plan, sys)
    ensures InWindow(sys, event)
  {
    if event.ToReceiver? && event.position < |sys.toReceiver| {
      assert FromSender(plan, sys.toReceiver[event.position], sys.sender.blocksSent);
    }
  }

  lemma LastBlockAwaited(plan: Plan, r: ReceiverState, reached: nat, index: nat)
    requires plan.Sound() && plan.usable && plan.size >= 1 && ReceiverCore(plan, r) && r.Open() && Agreed(plan, r)
    requires Delivered(plan, r, reached) && 1 <= index <= reached && BlockInWindow(r, index) && Awaits(plan, r)
    ensures Awaits(plan, r.OnData(Number(index), Block(plan.file, plan.size, index)))
  {
    BlockDelivered(plan, r, reached, index);
    ShortBlock(plan.file, plan.size, index);
    DallyOfData(r, Number(index), Block(plan.file, plan.size, index));
    if !r.dally && index >= BlockCount(|plan.file|, plan.size) {
      ShortEnds(r, Number(index), Block(plan.file, plan.size, index));
    }
  }

  lemma DallyOfData(r: ReceiverState, block: uint16, data: Bytes)
    ensures r.OnData(block, data).dally == r.dally
  {
  }

  lemma ReceivedAwaits(plan: Plan, r: ReceiverState, reached: nat, datagram: Datagram)
    requires plan.Sound() && plan.size >= 1 && ReceiverSafe(plan, r, reached) && r.Open()
    requires FromSender(plan, datagram, reached) && Awaits(plan, r)
    requires datagram.packet.Data? ==> BlockInWindow(r, datagram.index)
    ensures var next := r.OnPacket(Seen(datagram.packet, plan.bufferSize));
            Awaits(plan, next) && next.dally == r.dally
  {
    var seen := Seen(datagram.packet, plan.bufferSize);
    DallyConstant(r, seen);
    DatagramSeen(plan, datagram, reached);
    if seen.Some? && seen.value.Data? {
      LastBlockAwaited(plan, r.(op := r.op.Received()), reached, datagram.index);
    } else {
      NoDataDelivered(r, seen);
    }
  }

  lemma NoBlockPastEnd(s: SenderState, packet: Option<Packet>)
    requires packet.Some? ==> !packet.value.OptionsAcknowledgement?
    ensures var next := s.OnPacket(packet).blocksSent;
            next == s.blocksSent || (next == s.blocksSent + 1 && !s.lastDataPacketTransmitted)
  {
  }

  lemma AnsweredWithinFile(plan: Plan, sys: System, position: nat)
    requires plan.Sound() && Compact(plan, sys) && position < |sys.toSender|
    ensures Step(sys, Event.ToSender(position)).sender.blocksSent <= BlockCount(|plan.file|, plan.size)
  {
    if sys.sender.Open() {
      assert FromReceiver(plan, sys.toSender[position], sys.receiver);
      AnswerSeen(plan, sys.toSender[position], sys.receiver);
      NoBlockPastEnd(sys.sender, Seen(sys.toSender[position].packet, DEFAULT_MAX_PACKET_SIZE));
    }
  }

  lemma StepCompact(plan: Plan, sys: System, event: Event)
    requires plan.Sound() && Compact(plan, sys)
    ensures Compact(plan, Step(sys, event)) && InWindow(sys, event)
  {
    CompactInWindow(plan, sys, event);
    StepSafe(plan, sys, event);
    if Enabled(sys, event) {
      match event
      case ToReceiver(position) =>
        if sys.receiver.Open() {
          ReceivedAwaits(plan, sys.receiver, sys.sender.blocksSent, sys.toReceiver[position]);
        }
      case ToSender(position) => AnsweredWithinFile(plan, sys, position);
      case _ =>
    }
  }

  lemma {:induction false} RunCompact(rule: Rule, plan: Plan, sys: System, events: seq<Event>)
    requires plan.Sound() && Compact(plan, sys) && Schedule(rule, sys, events)
    ensures Compact(plan, Run(sys, events)) && Schedule(InWindow, sys, events)
  {
    if events != [] {
      var front, last := events[..|events| - 1], events[|events| - 1];
      RunCompact(rule, plan, sys, front);
      StepCompact(plan, Run(sys, front), last);
    }
  }

  /** Without a dally, an open receiver has taken the first blocks; a closed one may have got an empty one too early. */
  ghost predicate Prefixed(plan: Plan, sys: System) {
    && Honest(plan, sys) && plan.usable && plan.size >= 1
    && BlockCount(|plan.file|, plan.size) <= PERIOD
    && PrefixOf(plan, sys.receiver)
  }

  ghost predicate PrefixOf(plan: Plan, r: ReceiverState)
    requires plan.size >= 1
  {
    && !r.dally && Flatten(r.delivered) <= plan.file
    && (r.Open() ==>
          |r.delivered| < BlockCount(|plan.file|, plan.size)
          && r.delivered == Blocks(plan.file, plan.size, |r.delivered|))
  }

  /** A block with the awaited number is the awaited block, or lies behind the end of the file. */
  lemma NextOrEmpty(plan: Plan, r: ReceiverState, index: nat)
    requires plan.size >= 1 && PrefixOf(plan, r) && r.Open() && BlockCount(|plan.file|, plan.size) <= PERIOD
    requires index >= 1 && Number(index) == Number(|r.delivered| + 1)
    ensures Flatten(r.delivered + [Block(plan.file, plan.size, index)]) <= plan.file
    ensures index < BlockCount(|plan.file|, plan.size) ==> index == |r.delivered| + 1
  {
    var count := |r.delivered|;
    if index > BlockCount(|plan.file|, plan.size) {
      PastTheEnd(plan.file, plan.size, index);
      FlattenMore(r.delivered, Block(plan.file, plan.size, index));
    } else {
      NumberInWindow(index, count + 1);
      BlocksFurther(plan.file, plan.size, count);
      BlocksFurther(plan.file, plan.size, index);
    }
  }

  lemma DataPrefixed(plan: Plan, r: ReceiverState, index: nat)
    requires plan.size >= 1 && PrefixOf(plan, r) && r.Open() && BlockCount(|plan.file|, plan.size) <= PERIOD
    requires ReceiverCore(plan, r) && Agreed(plan, r) && index >= 1
    ensures PrefixOf(plan, r.OnData(Number(index), Block(plan.file, plan.size, index)))
  {
    var data, next := Block(plan.file, plan.size, index), r.OnData(Number(index), Block(plan.file, plan.size, index));
    DallyOfData(r, Number(index), data);
    DataTaken(r, Number(index), data);
    ShortBlock(plan.file, plan.size, index);
    NextNumber(|r.delivered|);
    if next.delivered != r.delivered {
      NextOrEmpty(plan, r, index);
    }
    if index >= BlockCount(|plan.file|, plan.size) {
      ShortEnds(r, Number(index), data);
    } else {
      BlocksFurther(plan.file, plan.size, |r.delivered|);
    }
  }

  lemma ReceivedPrefixed(plan: Plan, sys: System, position: nat)
    requires plan.Sound() && Prefixed(plan, sys) && position < |sys.toReceiver| && sys.receiver.Open()
    ensures PrefixOf(plan, sys.receiver.OnPacket(Seen(sys.toReceiver[position].packet, plan.bufferSize)))
  {
    var r, datagram := sys.receiver, sys.toReceiver[position];
    var seen := Seen(datagram.packet, plan.bufferSize);
    DallyConstant(r, seen);
    DatagramSeen(plan, datagram, sys.sender.blocksSent);
    if seen.Some? && seen.value.Data? {
      DataPrefixed(plan, r.(op := r.op.Received()), datagram.index);
    } else {
      NoDataDelivered(r, seen);
    }
  }

  lemma StepPrefixed(plan: Plan, sys: System, event: Event)
    requires plan.Sound() && Prefixed(plan, sys)
    ensures Prefixed(plan, Step(sys, event))
  {
    StepHonest(plan, sys, event);
    if event.ToReceiver? && Enabled(sys, event) && sys.receiver.Open() {
      ReceivedPrefixed(plan, sys, event.position);
    }
  }

  lemma {:induction false} RunPrefixed(rule: Rule, plan: Plan, sys: System, events: seq<Event>)
    requires plan.Sound() && Prefixed(plan, sys) && Schedule(rule, sys, events)
    ensures Prefixed(plan, Run(sys, events))
  {
    if events != [] {
      var front, last := events[..|events| - 1], events[|events| - 1];
      RunPrefixed(rule, plan, sys, front);
      StepPrefixed(plan, Run(sys, front), last);
    }
  }

  lemma InitDally(setup: Setup)
    requires setup.Proper()
    ensures Init(setup).receiver.dally == setup.dally
  {
    PlanFollows(setup);
    OpenedDally(setup, setup.Reply());
  }

  lemma OpenedDally(setup: Setup, reply: Reply)
    ensures Opened(setup, reply).receiver.dally == setup.dally
  {
  }

  /** Every order of datagrams is harmless to a file of one round, unless an OACK can put the client ahead. */
  lemma OneRoundDelivers(setup: Setup, events: seq<Event>)
    requires setup.Proper() && Harmless(setup) && !Fragile(setup) && OneRound(setup)
    requires Schedule(AnyOrder, Init(setup), events)
    ensures Schedule(InWindow, Init(setup), events) && Delivers(setup, events)
  {
    InitOnCourse(setup);
    InitInLockstep(setup);
    PlanSize(setup);
    InitDally(setup);
    RunCompact(AnyOrder, PlanOf(setup), Init(setup), events);
    SafeUnderReordering(setup, events);
  }

  /** Such a transfer never notices that its block numbers have 16 bits, in whatever order datagrams arrive. */
  lemma OneRoundIsIdeal(setup: Setup, events: seq<Event>)
    requires setup.Proper() && Harmless(setup) && !Fragile(setup) && OneRound(setup)
    requires Schedule(AnyOrder, Init(setup), events)
    ensures Run(Init(setup), events) == IdealRun(Init(setup), events)
  {
    OneRoundDelivers(setup, events);
    SixteenBitsSufficeInWindow(setup, events);
  }

  lemma NoDallyPrefix(setup: Setup, events: seq<Event>)
    requires setup.Proper() && Harmless(setup) && !setup.dally && BlocksOf(setup) <= PERIOD
    requires Schedule(AnyOrder, Init(setup), events)
    ensures Flatten(Run(Init(setup), events).receiver.delivered) <= setup.file
  {
    InitOnCourse(setup);
    InitHonest(setup);
    PlanSize(setup);
    InitDally(setup);
    BlocksFurther(setup.file, PlanOf(setup).size, 0);
    RunPrefixed(AnyOrder, PlanOf(setup), Init(setup), events);
  }

  // Where both fail

  lemma {:induction false} AnyOrderAllows(rule: Rule, sys: System, events: seq<Event>)
    requires Schedule(rule, sys, events)
    ensures Schedule(AnyOrder, sys, events)
  {
    if events != [] {
      AnyOrderAllows(rule, sys, events[..|events| - 1]);
    }
  }

  lemma AnyOrderClosed(start: System)
    ensures Reachable(AnyOrder, start)(start)
    ensures ClosedUnderAll(Reachable(AnyOrder, start)) && ClosedUnderDuplicates(Reachable(AnyOrder, start))
  {
    assert Schedule(AnyOrder, start, []) && Run(start, []) == start;
    forall sys, event | Reachable(AnyOrder, start)(sys) && Enabled(sys, event)
      ensures Reachable(AnyOrder, start)(Step(sys, event))
    {
      var events :| Schedule(AnyOrder, start, events) && Run(start, events) == sys;
      ReachableStep(AnyOrder, start, events, event);
    }
  }

  /** A run after which the sender has succeeded and the receiver has more than the file. */
  lemma MoreThanOneRoundFails(setup: Setup) returns (events: seq<Event>)
    requires setup.Proper() && Harmless(setup) && !OneRound(setup)
    ensures Schedule(AnyOrder, Init(setup), events)
    ensures var end := Run(Init(setup), events);
            Successful in end.sender.op.completions && TooMuch(setup.file, end.receiver.delivered)
  {
    var plan, reach := PlanOf(setup), Reachable(AnyOrder, Init(setup));
    InitOnCourse(setup);
    PlanSize(setup);
    InitDally(setup);
    AnyOrderClosed(Init(setup));
    var first, end := ToFirstBlock(plan, reach, Init(setup));
    if BlocksOf(setup) > PERIOD {
      end := LastBlockReplaced(plan, reach, end, first);
    } else {
      end := RoundAgain(plan, reach, end, first);
    }
    events := RunTo(AnyOrder, Init(setup), end);
  }

  /** A client that is a round ahead of a receiver that dallies. */
  lemma DallyFails(setup: Setup) returns (events: seq<Event>)
    requires setup.Proper() && Fragile(setup) && setup.dally && setup.file != [] && BlocksOf(setup) <= PERIOD
    ensures Schedule(AnyOrder, Init(setup), events)
    ensures TooMuch(setup.file, Run(Init(setup), events).receiver.delivered)
  {
    var plan, reach := PlanOf(setup), Reachable(AnyOrder, Init(setup));
    InitOackUnderWay(setup);
    PlanSize(setup);
    InitDally(setup);
    AnyOrderClosed(Init(setup));
    var end := PushByDuplicates(plan, reach, Init(setup), PERIOD);
    assert Blocks(plan.file, plan.size, 0) == [];
    end := SwallowAll(plan, reach, end, PERIOD, PERIOD);
    end := FirstBlockAgain(plan, reach, end, 0, PERIOD);
    events := RunTo(AnyOrder, Init(setup), end);
  }

  // The theorems

  /**
   * Over a network that loses, duplicates and reorders datagrams at will, success of either side means the whole file
   * exactly if the transfer is not harmless, the file is empty, or its blocks fit into one round of numbers and no
   * OACK goes to a client that writes.
   */
  lemma SuccessInAnyOrder(setup: Setup)
    requires setup.Proper()
    ensures SuccessMeansFile(AnyOrder, setup) <==>
      !Harmless(setup) || setup.file == [] || (!Fragile(setup) && OneRound(setup))
  {
    if !Harmless(setup) || setup.file == [] || (!Fragile(setup) && OneRound(setup)) {
      forall events | Schedule(AnyOrder, Init(setup), events)
        ensures WholeOnSuccess(setup.file, Run(Init(setup), events))
      {
        AlwaysDelivers(setup, events);
      }
    } else if Fragile(setup) {
      var events := FragileFails(setup);
      AnyOrderAllows(InOrder, Init(setup), events);
    } else {
      var events := MoreThanOneRoundFails(setup);
    }
  }

  lemma AlwaysDelivers(setup: Setup, events: seq<Event>)
    requires setup.Proper() && Schedule(AnyOrder, Init(setup), events)
    requires !Harmless(setup) || setup.file == [] || (!Fragile(setup) && OneRound(setup))
    ensures Delivers(setup, events)
  {
    if !Harmless(setup) {
      HarmfulDelivers(AnyOrder, setup, events);
    } else if setup.file == [] {
      EmptyFileDelivers(AnyOrder, setup, events);
    } else {
      OneRoundDelivers(setup, events);
    }
  }

  /** When a file that is not empty is delivered without a gap in every order, by a harmless transfer. */
  predicate PrefixAnyway(setup: Setup) {
    BlocksOf(setup) <= PERIOD && (setup.dally ==> BlocksOf(setup) < PERIOD && !Fragile(setup))
  }

  /**
   * Over the same network, what is delivered is always a prefix of the file exactly if the transfer is not harmless,
   * the file is empty, or its blocks fit into one round and, with a dally, no OACK goes to a client that writes.
   */
  lemma PrefixInAnyOrder(setup: Setup)
    requires setup.Proper()
    ensures PrefixSafe(AnyOrder, setup) <==> !Harmless(setup) || setup.file == [] || PrefixAnyway(setup)
  {
    if !Harmless(setup) || setup.file == [] || PrefixAnyway(setup) {
      forall events | Schedule(AnyOrder, Init(setup), events)
        ensures Flatten(Run(Init(setup), events).receiver.delivered) <= setup.file
      {
        AlwaysPrefix(setup, events);
      }
    } else if !OneRound(setup) {
      var events := MoreThanOneRoundFails(setup);
    } else {
      var events := DallyFails(setup);
    }
  }

  lemma AlwaysPrefix(setup: Setup, events: seq<Event>)
    requires setup.Proper() && Schedule(AnyOrder, Init(setup), events)
    requires !Harmless(setup) || setup.file == [] || PrefixAnyway(setup)
    ensures Flatten(Run(Init(setup), events).receiver.delivered) <= setup.file
  {
    if !Harmless(setup) || setup.file == [] || setup.dally {
      AlwaysDelivers(setup, events);
    } else {
      NoDallyPrefix(setup, events);
    }
  }
}
