/**
 * Over a network that keeps the order but loses and duplicates datagrams, every delivered block is the awaited one or
 * lies a multiple of 65535 blocks behind it in the file. So what is delivered is a prefix of the file if the file
 * repeats itself after 65535 blocks, or is not that long.
 */
module Periods {
  import opened Basics
  import opened BlockNumbers
  import opened MemoryFiles
  import opened Packets
  import opened Operations
  import opened Senders
  import opened Receivers
  import opened Transfers
  import opened Opening
  import opened Honesty
  import opened Orderliness

  // Files

  /** What follows the first 65535 blocks of the file, if anything does, is how the file begins. */
  predicate Periodic(file: Bytes, size: nat) {
    file[Min(PERIOD * size, |file|)..] <= file
  }

  lemma PeriodicAt(file: Bytes, size: nat, at: nat)
    requires Periodic(file, size) && PERIOD * size <= at < |file|
    ensures file[at] == file[at - PERIOD * size]
  {
    var round := PERIOD * size;
    assert file[at] == file[round..][at - round];
  }

  lemma {:induction false} PeriodicShift(file: Bytes, size: nat, rounds: nat, at: nat)
    requires Periodic(file, size) && rounds * (PERIOD * size) <= at < |file|
    ensures file[at] == file[at - rounds * (PERIOD * size)]
  {
    var round := PERIOD * size;
    if rounds > 0 {
      assert (rounds - 1) * round + round == rounds * round;
      PeriodicAt(file, size, at);
      PeriodicShift(file, size, rounds - 1, at - round);
    }
  }

  lemma {:induction false} CursorIsProduct(length: nat, size: nat, index: nat)
    ensures Cursor(length, size, index) == Min(index * size, length)
  {
    if index > 0 {
      CursorIsProduct(length, size, index - 1);
      assert (index - 1) * size + size == index * size;
    }
  }

  /** An index with the number that is awaited after `count` blocks. */
  predicate InPlace(index: nat, count: nat) {
    index >= count + 1 && (index - (count + 1)) % PERIOD == 0
  }

  /** The indices of the delivered blocks rise, and each has the number that was awaited. */
  predicate Rising(indices: seq<nat>) {
    && (forall i :: 0 <= i < |indices| ==> InPlace(indices[i], i))
    && (forall i, j :: 0 <= i < j < |indices| ==> indices[i] < indices[j])
  }

  predicate BlocksAt(file: Bytes, size: nat, indices: seq<nat>, blocks: seq<Bytes>) {
    && |blocks| == |indices|
    && forall i :: 0 <= i < |indices| ==> indices[i] >= 1 && blocks[i] == Block(file, size, indices[i])
  }

  lemma Distribute(count: nat, rounds: nat, size: nat)
    ensures (count + rounds * PERIOD) * size == count * size + rounds * (PERIOD * size)
  {
    assert (count + rounds * PERIOD) * size == count * size + (rounds * PERIOD) * size;
    assert (rounds * PERIOD) * size == rounds * (PERIOD * size);
  }

  /** A block that lies whole rounds behind is how the file goes on. */
  lemma BlockGoesOn(file: Bytes, size: nat, count: nat, index: nat)
    requires Periodic(file, size) && InPlace(index, count)
    requires count * size <= |file|
    ensures file[..count * size] + Block(file, size, index) <= file
  {
    var rounds := (index - (count + 1)) / PERIOD;
    assert index - 1 == count + rounds * PERIOD;
    Distribute(count, rounds, size);
    CursorIsProduct(|file|, size, index - 1);
    var block, from, shift := Block(file, size, index), Cursor(|file|, size, index - 1), rounds * (PERIOD * size);
    if block != [] {
      assert from == count * size + shift;
      RepeatsAfterRounds(file, size, rounds);
      ShiftedPart(file, shift, count * size, |block|);
    } else {
      assert file[..count * size] + block == file[..count * size];
    }
  }

  predicate RepeatsAfter(file: Bytes, shift: nat) {
    forall i :: shift <= i < |file| ==> file[i] == file[i - shift]
  }

  lemma RepeatsAfterRounds(file: Bytes, size: nat, rounds: nat)
    requires Periodic(file, size)
    ensures RepeatsAfter(file, rounds * (PERIOD * size))
  {
    var shift := rounds * (PERIOD * size);
    forall i | shift <= i < |file|
      ensures file[i] == file[i - shift]
    {
      PeriodicShift(file, size, rounds, i);
    }
  }

  /** A part of the file that lies one repetition behind a place is how the file goes on there. */
  lemma ShiftedPart(file: Bytes, shift: nat, at: nat, count: nat)
    requires RepeatsAfter(file, shift) && at + shift + count <= |file|
    ensures file[..at] + file[at + shift..at + shift + count] <= file
  {
    assert file[at + shift..at + shift + count] == file[at..at + count];
    assert file[..at] + file[at..at + count] == file[..at + count];
  }

  lemma PastTheEnd(file: Bytes, size: nat, index: nat)
    requires size >= 1 && index > BlockCount(|file|, size)
    ensures Block(file, size, index) == []
  {
    CursorAtEnd(|file|, size, index - 1);
    CursorAtEnd(|file|, size, index);
  }

  lemma FullBlocks(file: Bytes, size: nat, index: nat)
    requires size >= 1 && 1 <= index < BlockCount(|file|, size)
    ensures |Block(file, size, index)| == size
  {
    ShortBlock(file, size, index);
  }

  lemma FullSoFar(length: nat, size: nat, count: nat)
    requires size >= 1 && count < BlockCount(length, size)
    ensures Cursor(length, size, count) == count * size <= length
  {
    CursorIsProduct(length, size, count);
    if count >= 1 {
      CursorNearEnd(length, size, count - 1);
    }
  }

  /** One block after full ones. */
  lemma OneMoreBlock(file: Bytes, size: nat, front: Bytes, count: nat, index: nat)
    requires size >= 1 && Periodic(file, size) && InPlace(index, count) && count < BlockCount(|file|, size)
    requires front <= file && |front| == Cursor(|file|, size, count)
    ensures front + Block(file, size, index) <= file
    ensures index < BlockCount(|file|, size) ==> |front + Block(file, size, index)| == Cursor(|file|, size, count + 1)
  {
    FullSoFar(|file|, size, count);
    BlockGoesOn(file, size, count, index);
    assert front == file[..count * size];
    if index < BlockCount(|file|, size) {
      FullBlocks(file, size, index);
      CursorNearEnd(|file|, size, count);
    }
  }

  lemma RisingStep(file: Bytes, size: nat, front: Bytes, count: nat, before: nat, index: nat)
    requires size >= 1 && Periodic(file, size) && InPlace(index, count)
    requires front <= file && count <= before < index
    requires before < BlockCount(|file|, size) ==> |front| == Cursor(|file|, size, count)
    ensures front + Block(file, size, index) <= file
    ensures index < BlockCount(|file|, size) ==> |front + Block(file, size, index)| == Cursor(|file|, size, count + 1)
  {
    if before >= BlockCount(|file|, size) {
      PastTheEnd(file, size, index);
      assert front + Block(file, size, index) == front;
    } else {
      OneMoreBlock(file, size, front, count, index);
    }
  }

  /** Blocks with rising indices are a prefix of a periodic file; they are full as long as the last one is. */
  lemma {:induction false} RisingPrefix(file: Bytes, size: nat, indices: seq<nat>, blocks: seq<Bytes>)
    requires size >= 1 && Periodic(file, size) && Rising(indices) && BlocksAt(file, size, indices, blocks)
    ensures Flatten(blocks) <= file
    ensures indices == [] || indices[|indices| - 1] < BlockCount(|file|, size) ==>
      |Flatten(blocks)| == Cursor(|file|, size, |indices|)
  {
    if indices != [] {
      var last := |indices| - 1;
      RisingPrefix(file, size, indices[..last], blocks[..last]);
      RisingStep(
        file, size, Flatten(blocks[..last]), last, if last > 0 then indices[last - 1] else 0, indices[last]);
    }
  }

  // Runs

  /**
   * Each delivered block was sent under an index with the awaited number, and nothing older than the last of them is
   * under way or can be duplicated.
   */
  ghost predicate Stepped(plan: Plan, sys: System, indices: seq<nat>) {
    && Honest(plan, sys) && DataSorted(sys.toReceiver)
    && Rising(indices) && BlocksAt(plan.file, plan.size, indices, sys.receiver.delivered)
    && (indices != [] ==>
          var last := indices[|indices| - 1];
          && last <= sys.sender.blocksSent
          && forall i :: 0 <= i < |sys.toReceiver| && i + 1 >= sys.nextToReceiver && sys.toReceiver[i].packet.Data? ==>
               sys.toReceiver[i].index >= last)
  }

  lemma NumberOfNext(index: nat, count: nat)
    requires index >= 1 && index >= count && Number(index) == Number(count + 1)
    ensures InPlace(index, count)
  {
    if index == count {
      SameNumber(index, count + 1);
    } else {
      SameNumber(count + 1, index);
    }
  }

  lemma LaterRound(index: nat, last: nat, count: nat)
    requires index >= last >= count >= 1 && index >= count + 1
    requires (index - (count + 1)) % PERIOD == 0 && (last - count) % PERIOD == 0
    ensures index > last
  {
    var rounds := (last - count) / PERIOD;
    assert last - count - 1 == (rounds - 1) * PERIOD + (PERIOD - 1);
    assert (last - (count + 1)) % PERIOD == PERIOD - 1;
  }

  lemma RisingFurther(indices: seq<nat>, index: nat)
    requires Rising(indices) && InPlace(index, |indices|)
    requires indices != [] ==> index >= indices[|indices| - 1]
    ensures Rising(indices + [index])
  {
    if indices != [] {
      LaterRound(index, indices[|indices| - 1], |indices|);
    }
  }

  /** What the receiver does with any DATA: it is taken only under the awaited number. */
  lemma DataTaken(r: ReceiverState, block: uint16, data: Bytes)
    ensures var next := r.OnData(block, data).delivered;
            next == r.delivered || (next == r.delivered + [data] && block == Next(r.lastReceivedBlockNumber))
  {
  }

  lemma BlockStepped(plan: Plan, r: ReceiverState, indices: seq<nat>, index: nat)
    requires Rising(indices) && BlocksAt(plan.file, plan.size, indices, r.delivered)
    requires r.lastReceivedBlockNumber == Number(|r.delivered|) && index >= 1
    requires indices != [] ==> index >= indices[|indices| - 1]
    ensures var next := r.OnData(Number(index), Block(plan.file, plan.size, index)).delivered;
            || next == r.delivered
            || (Rising(indices + [index]) && BlocksAt(plan.file, plan.size, indices + [index], next))
  {
    DataTaken(r, Number(index), Block(plan.file, plan.size, index));
    NextNumber(|r.delivered|);
    if Number(index) == Number(|r.delivered| + 1) {
      NumberOfNext(index, |r.delivered|);
      RisingFurther(indices, index);
    }
  }

  /** The indices of the delivered blocks after a datagram has arrived. */
  lemma ReceivedStepped(plan: Plan, r: ReceiverState, reached: nat, indices: seq<nat>, datagram: Datagram)
    returns (more: seq<nat>)
    requires plan.Sound() && FromSender(plan, datagram, reached) && r.lastReceivedBlockNumber == Number(|r.delivered|)
    requires Rising(indices) && BlocksAt(plan.file, plan.size, indices, r.delivered)
    requires indices != [] && datagram.packet.Data? ==> datagram.index >= indices[|indices| - 1]
    ensures var next := r.OnPacket(Seen(datagram.packet, plan.bufferSize));
            && Rising(more) && BlocksAt(plan.file, plan.size, more, next.delivered)
            && (more == indices || (more == indices + [datagram.index] && datagram.packet.Data?))
  {
    var seen := Seen(datagram.packet, plan.bufferSize);
    DatagramSeen(plan, datagram, reached);
    if seen.Some? && seen.value.Data? {
      BlockStepped(plan, r.(op := r.op.Received()), indices, datagram.index);
      return if r.OnPacket(seen).delivered == r.delivered then indices else indices + [datagram.index];
    }
    NoDataDelivered(r, seen);
    return indices;
  }

  lemma ReceiverStepped(
    plan: Plan, sys: System, indices: seq<nat>, more: seq<nat>, position: nat, next: ReceiverState)
    requires Stepped(plan, sys, indices) && position < |sys.toReceiver| && position + 1 >= sys.nextToReceiver
    requires Rising(more) && BlocksAt(plan.file, plan.size, more, next.delivered)
    requires more != indices ==>
      more == indices + [sys.toReceiver[position].index] && sys.toReceiver[position].packet.Data?
    requires Honest(plan, WithReceiver(sys.(nextToReceiver := position + 1), next))
    ensures Stepped(plan, WithReceiver(sys.(nextToReceiver := position + 1), next), more)
  {
    assert FromSender(plan, sys.toReceiver[position], sys.sender.blocksSent);
  }

  lemma ToReceiverStepped(plan: Plan, sys: System, indices: seq<nat>, position: nat) returns (more: seq<nat>)
    requires plan.Sound() && Stepped(plan, sys, indices) && position < |sys.toReceiver|
    requires position + 1 >= sys.nextToReceiver
    ensures Stepped(plan, Step(sys, Event.ToReceiver(position)), more)
  {
    ToReceiverHonest(plan, sys, position);
    if !sys.receiver.Open() {
      return indices;
    }
    var datagram := sys.toReceiver[position];
    more := ReceivedStepped(plan, sys.receiver, sys.sender.blocksSent, indices, datagram);
    ReceiverStepped(
      plan, sys, indices, more, position, sys.receiver.OnPacket(Seen(datagram.packet, plan.bufferSize)));
  }

  lemma SenderStepped(plan: Plan, sys: System, indices: seq<nat>, next: SenderState, seen: nat)
    requires Stepped(plan, sys, indices) && sys.sender.blocksSent <= next.blocksSent
    requires Honest(plan, WithSender(sys.(nextToSender := seen), next))
    ensures Stepped(plan, WithSender(sys.(nextToSender := seen), next), indices)
  {
    forall i | 0 <= i < |sys.toReceiver| && sys.toReceiver[i].packet.Data?
      ensures sys.toReceiver[i].index <= sys.sender.blocksSent
    {
      assert FromSender(plan, sys.toReceiver[i], sys.sender.blocksSent);
    }
  }

  lemma StepStepped(plan: Plan, sys: System, indices: seq<nat>, event: Event) returns (more: seq<nat>)
    requires plan.Sound() && Stepped(plan, sys, indices) && Enabled(sys, event) && InOrder(sys, event)
    ensures Stepped(plan, Step(sys, event), more)
  {
    StepHonest(plan, sys, event);
    match event {
      case ToReceiver(position) =>
        more := ToReceiverStepped(plan, sys, indices, position);
        return more;
      case ToSender(position) =>
        if sys.sender.Open() {
          AnsweredGoesOn(plan, sys.sender, sys.receiver, sys.toSender[position]);
          SenderStepped(
            plan, sys, indices, sys.sender.OnPacket(Seen(sys.toSender[position].packet, DEFAULT_MAX_PACKET_SIZE)),
            position + 1);
        }
      case SenderTimeout =>
        TimeoutGoesOnSender(plan, sys.sender);
        if sys.sender.op.timer != FirstTimer {
          SenderStepped(plan, sys, indices, sys.sender.OnTimeout(), sys.nextToSender);
        }
      case ReceiverTimeout =>
    }
    return indices;
  }

  lemma {:induction false} RunStepped(plan: Plan, sys: System, events: seq<Event>) returns (indices: seq<nat>)
    requires plan.Sound() && Stepped(plan, sys, []) && Schedule(InOrder, sys, events)
    ensures Stepped(plan, Run(sys, events), indices)
  {
    if events == [] {
      return [];
    }
    var front, last := events[..|events| - 1], events[|events| - 1];
    indices := RunStepped(plan, sys, front);
    indices := StepStepped(plan, Run(sys, front), indices, last);
  }

  /** Over a network that keeps the order, what is delivered is a prefix of a periodic file. */
  lemma PeriodicPrefix(plan: Plan, sys: System, events: seq<Event>)
    requires plan.Sound() && plan.size >= 1 && Periodic(plan.file, plan.size)
    requires Honest(plan, sys) && JustStarted(sys) && |sys.toReceiver| <= 1 && Schedule(InOrder, sys, events)
    ensures Flatten(Run(sys, events).receiver.delivered) <= plan.file
  {
    var indices := RunStepped(plan, sys, events);
    RisingPrefix(plan.file, plan.size, indices, Run(sys, events).receiver.delivered);
  }
}
