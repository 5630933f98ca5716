/**
 * Exactly when success means the whole file, and when the delivered bytes are a prefix of the file, over networks that
 * keep the order of datagrams.
 */
module Agreements {
  import opened Basics
  import opened BlockNumbers
  import opened MemoryFiles
  import opened Receivers
  import opened Packets
  import opened Negotiation
  import opened Transfers
  import opened Opening
  import opened Honesty
  import opened Safety
  import opened Aborts
  import opened Barrenness
  import opened Orderliness
  import opened Periods
  import opened Volleys
  import opened Overruns

  ghost predicate SuccessMeansFile(rule: Rule, setup: Setup) {
    forall events :: Schedule(rule, Init(setup), events) ==> WholeOnSuccess(setup.file, Run(Init(setup), events))
  }

  ghost predicate PrefixSafe(rule: Rule, setup: Setup) {
    forall events :: Schedule(rule, Init(setup), events) ==>
      Flatten(Run(Init(setup), events).receiver.delivered) <= setup.file
  }

  /** A write with options that is otherwise in order: an OACK that is taken again can put the client ahead. */
  predicate Fragile(setup: Setup) {
    Harmless(setup) && setup.direction == Write && SendsOack(setup)
  }

  // Empty files

  ghost predicate NothingButEmpty(plan: Plan, sys: System) {
    Honest(plan, sys) && Flatten(sys.receiver.delivered) == []
  }

  lemma EmptyData(r: ReceiverState, block: uint16)
    ensures Flatten(r.OnPacket(Some(Data(block, []))).delivered) == Flatten(r.delivered)
  {
    DataTaken(r.(op := r.op.Received()), block, []);
    FlattenMore(r.delivered, []);
  }

  lemma EmptyBlocks(plan: Plan, datagram: Datagram, reached: nat)
    requires plan.Sound() && plan.file == [] && FromSender(plan, datagram, reached)
    ensures var seen := Seen(datagram.packet, plan.bufferSize);
            if seen.Some? && seen.value.Data? then seen.value.data == []
            else seen.Some? ==> seen.value.Error? || seen.value.OptionsAcknowledgement?
  {
    DatagramSeen(plan, datagram, reached);
  }

  lemma EmptyTaken(plan: Plan, sys: System, position: nat)
    requires plan.Sound() && plan.file == [] && NothingButEmpty(plan, sys) && position < |sys.toReceiver|
    requires sys.receiver.Open()
    ensures Flatten(sys.receiver.OnPacket(Seen(sys.toReceiver[position].packet, plan.bufferSize)).delivered) == []
  {
    var r, seen := sys.receiver, Seen(sys.toReceiver[position].packet, plan.bufferSize);
    EmptyBlocks(plan, sys.toReceiver[position], sys.sender.blocksSent);
    if seen.Some? && seen.value.Data? {
      EmptyData(r, seen.value.block);
    } else {
      NoDataDelivered(r, seen);
    }
  }

  lemma StepEmpty(plan: Plan, sys: System, event: Event)
    requires plan.Sound() && plan.file == [] && NothingButEmpty(plan, sys)
    ensures NothingButEmpty(plan, Step(sys, event))
  {
    StepHonest(plan, sys, event);
    if event.ToReceiver? && Enabled(sys, event) && sys.receiver.Open() {
      EmptyTaken(plan, sys, event.position);
    }
  }

  lemma {:induction false} RunEmpty(rule: Rule, plan: Plan, sys: System, events: seq<Event>)
    requires plan.Sound() && plan.file == [] && NothingButEmpty(plan, sys) && Schedule(rule, sys, events)
    ensures NothingButEmpty(plan, Run(sys, events))
  {
    if events != [] {
      var front, last := events[..|events| - 1], events[|events| - 1];
      RunEmpty(rule, plan, sys, front);
      StepEmpty(plan, Run(sys, front), last);
    }
  }

  // Where both hold

  /** What is delivered is a prefix of the file, and the whole file on success. */
  ghost predicate Delivers(setup: Setup, events: seq<Event>) {
    var end := Run(Init(setup), events);
    Flatten(end.receiver.delivered) <= setup.file && WholeOnSuccess(setup.file, end)
  }

  /** Over any network. */
  lemma EmptyFileDelivers(rule: Rule, setup: Setup, events: seq<Event>)
    requires setup.Proper() && setup.file == [] && Schedule(rule, Init(setup), events)
    ensures Delivers(setup, events)
  {
    InitHonest(setup);
    RunEmpty(rule, PlanOf(setup), Init(setup), events);
  }

  /** Over any network. */
  lemma HarmfulDelivers(rule: Rule, setup: Setup, events: seq<Event>)
    requires setup.Proper() && !Harmless(setup) && Schedule(rule, Init(setup), events)
    ensures Delivers(setup, events)
  {
    HarmfulDeliversNothing(rule, setup, events);
  }

  lemma RobustDelivers(setup: Setup, events: seq<Event>)
    requires setup.Proper() && !Fragile(setup) && Schedule(InOrder, Init(setup), events)
    ensures Delivers(setup, events)
  {
    if !Harmless(setup) {
      HarmfulDelivers(InOrder, setup, events);
    } else {
      AlwaysInLockstep(setup, events);
      InitInLockstep(setup);
      SafeDelivers(PlanOf(setup), Run(Init(setup), events));
    }
  }

  /** Without duplicates a server that repeats a packet less than 65535 times is enough. */
  lemma LossOnlyDelivers(setup: Setup, events: seq<Event>)
    requires setup.Proper() && Schedule(InOrderOnce, Init(setup), events)
    requires Fragile(setup) ==> setup.serverRetries < 0xFFFF
    ensures Delivers(setup, events)
  {
    if Fragile(setup) {
      InitOrderly(setup);
      RunOrderly(PlanOf(setup), Init(setup), events);
      SafeUnderReordering(setup, events);
    } else {
      OnceIsInOrder(Init(setup), events);
      RobustDelivers(setup, events);
    }
  }

  lemma PeriodicDelivers(setup: Setup, events: seq<Event>)
    requires setup.Proper() && Fragile(setup) && Schedule(InOrder, Init(setup), events)
    requires Periodic(setup.file, AgreedBlockSize(setup.client, setup.server))
    ensures Flatten(Run(Init(setup), events).receiver.delivered) <= setup.file
  {
    InitOackUnderWay(setup);
    InitHonest(setup);
    PlanSize(setup);
    PeriodicPrefix(PlanOf(setup), Init(setup), events);
  }

  // Where they fail

  /** What a run over a network can lead to. */
  ghost function Reachable(rule: Rule, start: System): System -> bool {
    (sys: System) => exists events :: Schedule(rule, start, events) && Run(start, events) == sys
  }

  lemma ReachableStep(rule: Rule, start: System, events: seq<Event>, event: Event)
    requires Schedule(rule, start, events) && Enabled(Run(start, events), event) && rule(Run(start, events), event)
    ensures Reachable(rule, start)(Step(Run(start, events), event))
  {
    Extended(rule, start, events, event);
  }

  lemma ReachableClosed(start: System)
    ensures Reachable(InOrderOnce, start)(start) && Closed(Reachable(InOrderOnce, start))
  {
    assert Schedule(InOrderOnce, start, []) && Run(start, []) == start;
    forall sys, event | Reachable(InOrderOnce, start)(sys) && Enabled(sys, event) && InOrderOnce(sys, event)
      ensures Reachable(InOrderOnce, start)(Step(sys, event))
    {
      var events :| Schedule(InOrderOnce, start, events) && Run(start, events) == sys;
      ReachableStep(InOrderOnce, start, events, event);
    }
  }

  lemma ReachableClosedUnderDuplicates(start: System)
    ensures Reachable(InOrder, start)(start)
    ensures Closed(Reachable(InOrder, start)) && ClosedUnderDuplicates(Reachable(InOrder, start))
  {
    assert Schedule(InOrder, start, []) && Run(start, []) == start;
    forall sys, event | Reachable(InOrder, start)(sys) && Enabled(sys, event) && InOrder(sys, event)
      ensures Reachable(InOrder, start)(Step(sys, event))
    {
      var events :| Schedule(InOrder, start, events) && Run(start, events) == sys;
      ReachableStep(InOrder, start, events, event);
    }
  }

  lemma RunTo(rule: Rule, start: System, end: System) returns (events: seq<Event>)
    requires Reachable(rule, start)(end)
    ensures Schedule(rule, start, events) && Run(start, events) == end
  {
    events :| Schedule(rule, start, events) && Run(start, events) == end;
  }

  /** A client that is 65535 blocks ahead, over a network that duplicates datagrams. */
  lemma FragileOverrun(setup: Setup) returns (reach: System -> bool, ahead: System)
    requires setup.Proper() && Fragile(setup)
    ensures reach == Reachable(InOrder, Init(setup)) && Closed(reach) && reach(ahead)
    ensures PlanOf(setup).Sound() && Volley(PlanOf(setup), ahead, 0, PERIOD, 1) && ahead.nextToReceiver == 0
  {
    InitOackUnderWay(setup);
    reach := Reachable(InOrder, Init(setup));
    ReachableClosedUnderDuplicates(Init(setup));
    ahead := OverrunByDuplicates(PlanOf(setup), reach, Init(setup));
  }

  /** A run from the start to a success of the server with something that is not the file. */
  lemma FragileFails(setup: Setup) returns (events: seq<Event>)
    requires setup.Proper() && Fragile(setup) && setup.file != []
    ensures Schedule(InOrder, Init(setup), events)
    ensures !WholeOnSuccess(setup.file, Run(Init(setup), events))
  {
    var reach, ahead := FragileOverrun(setup);
    PlanSize(setup);
    var end := WrongSuccess(PlanOf(setup), reach, ahead);
    events := RunTo(InOrder, Init(setup), end);
  }

  /** A run from the start after which the server holds something that is not a prefix of the file. */
  lemma FragilePrefixFails(setup: Setup) returns (events: seq<Event>)
    requires setup.Proper() && Fragile(setup)
    requires !Periodic(setup.file, AgreedBlockSize(setup.client, setup.server))
    ensures Schedule(InOrder, Init(setup), events)
    ensures !(Flatten(Run(Init(setup), events).receiver.delivered) <= setup.file)
  {
    var reach, ahead := FragileOverrun(setup);
    PlanSize(setup);
    var end := WrongPrefix(PlanOf(setup), reach, ahead);
    events := RunTo(InOrder, Init(setup), end);
  }

  /** A client that is 65535 blocks ahead, over a network that only loses datagrams. */
  lemma StubbornOverrun(setup: Setup) returns (reach: System -> bool, ahead: System)
    requires setup.Proper() && Fragile(setup) && setup.serverRetries == 0xFFFF
    ensures reach == Reachable(InOrderOnce, Init(setup)) && Closed(reach) && reach(ahead)
    ensures PlanOf(setup).Sound() && Volley(PlanOf(setup), ahead, 0, PERIOD, 1) && ahead.nextToReceiver == 0
  {
    InitOackUnderWay(setup);
    reach := Reachable(InOrderOnce, Init(setup));
    ReachableClosed(Init(setup));
    ahead := OverrunByRepetitions(PlanOf(setup), reach, Init(setup));
  }

  /** A run from the start to a success of the server with something that is not the file. */
  lemma StubbornFails(setup: Setup) returns (events: seq<Event>)
    requires setup.Proper() && Fragile(setup) && setup.serverRetries == 0xFFFF && setup.file != []
    ensures Schedule(InOrderOnce, Init(setup), events)
    ensures !WholeOnSuccess(setup.file, Run(Init(setup), events))
  {
    var reach, ahead := StubbornOverrun(setup);
    PlanSize(setup);
    var end := WrongSuccess(PlanOf(setup), reach, ahead);
    events := RunTo(InOrderOnce, Init(setup), end);
  }

  /** A run from the start after which the server holds something that is not a prefix of the file. */
  lemma StubbornPrefixFails(setup: Setup) returns (events: seq<Event>)
    requires setup.Proper() && Fragile(setup) && setup.serverRetries == 0xFFFF
    requires !Periodic(setup.file, AgreedBlockSize(setup.client, setup.server))
    ensures Schedule(InOrderOnce, Init(setup), events)
    ensures !(Flatten(Run(Init(setup), events).receiver.delivered) <= setup.file)
  {
    var reach, ahead := StubbornOverrun(setup);
    PlanSize(setup);
    var end := WrongPrefix(PlanOf(setup), reach, ahead);
    events := RunTo(InOrderOnce, Init(setup), end);
  }

  // The theorems

  /**
   * Over a network that loses and duplicates datagrams but keeps their order, success of either side means the whole
   * file exactly if the transfer is not a harmless write with options of a file that is not empty.
   */
  lemma SuccessInOrder(setup: Setup)
    requires setup.Proper()
    ensures SuccessMeansFile(InOrder, setup) <==> !(Fragile(setup) && setup.file != [])
  {
    if Fragile(setup) && setup.file != [] {
      var events := FragileFails(setup);
    } else {
      forall events | Schedule(InOrder, Init(setup), events)
        ensures WholeOnSuccess(setup.file, Run(Init(setup), events))
      {
        if setup.file == [] {
          EmptyFileDelivers(InOrder, setup, events);
        } else {
          RobustDelivers(setup, events);
        }
      }
    }
  }

  /**
   * Over a network that only loses datagrams, success means the whole file exactly if it is not such a write with a
   * server that may repeat a packet 65535 times.
   */
  lemma SuccessInOrderOnce(setup: Setup)
    requires setup.Proper()
    ensures SuccessMeansFile(InOrderOnce, setup) <==>
      !(Fragile(setup) && setup.file != [] && setup.serverRetries == 0xFFFF)
  {
    if Fragile(setup) && setup.file != [] && setup.serverRetries == 0xFFFF {
      var events := StubbornFails(setup);
    } else {
      forall events | Schedule(InOrderOnce, Init(setup), events)
        ensures WholeOnSuccess(setup.file, Run(Init(setup), events))
      {
        if setup.file == [] {
          EmptyFileDelivers(InOrderOnce, setup, events);
        } else {
          LossOnlyDelivers(setup, events);
        }
      }
    }
  }

  /**
   * Over a network that loses and duplicates datagrams but keeps their order, what is delivered is always a prefix of
   * the file exactly if the transfer is not a harmless write with options, or the file is not longer than 65535 blocks
   * or goes on after them as it began.
   */
  lemma PrefixInOrder(setup: Setup)
    requires setup.Proper()
    ensures PrefixSafe(InOrder, setup) <==>
      !Fragile(setup) || Periodic(setup.file, AgreedBlockSize(setup.client, setup.server))
  {
    if Fragile(setup) && !Periodic(setup.file, AgreedBlockSize(setup.client, setup.server)) {
      var events := FragilePrefixFails(setup);
    } else {
      forall events | Schedule(InOrder, Init(setup), events)
        ensures Flatten(Run(Init(setup), events).receiver.delivered) <= setup.file
      {
        if Fragile(setup) {
          PeriodicDelivers(setup, events);
        } else {
          RobustDelivers(setup, events);
        }
      }
    }
  }

  /** Over a network that only loses datagrams, the same holds, and a server with fewer retries is enough as well. */
  lemma PrefixInOrderOnce(setup: Setup)
    requires setup.Proper()
    ensures PrefixSafe(InOrderOnce, setup) <==>
      !(Fragile(setup) && setup.serverRetries == 0xFFFF)
      || Periodic(setup.file, AgreedBlockSize(setup.client, setup.server))
  {
    if Fragile(setup) && setup.serverRetries == 0xFFFF
       && !Periodic(setup.file, AgreedBlockSize(setup.client, setup.server)) {
      var events := StubbornPrefixFails(setup);
    } else {
      forall events | Schedule(InOrderOnce, Init(setup), events)
        ensures Flatten(Run(Init(setup), events).receiver.delivered) <= setup.file
      {
        if Fragile(setup) && setup.serverRetries == 0xFFFF {
          OnceIsInOrder(Init(setup), events);
          PeriodicDelivers(setup, events);
        } else {
          LossOnlyDelivers(setup, events);
        }
      }
    }
  }
}
