/**
 * Runs in which the OACK of a write is taken so often that the client is 65535 blocks ahead of the server. Then the
 * server takes a later block for the first one, and both may succeed with the wrong file.
 */
module Overruns {
  import opened Basics
  import opened BlockNumbers
  import opened MemoryFiles
  import opened Packets
  import opened Negotiation
  import opened Operations
  import opened Senders
  import opened Transfers
  import opened Opening
  import opened Honesty
  import opened Safety
  import opened Aborts
  import opened Periods
  import opened Volleys

  // Ahead of the receiver

  lemma VerdictSendsNext(plan: Plan, s: SenderState, verdict: Verdict)
    requires plan.Sound() && plan.usable && plan.direction == Write && SenderHonest(plan, s) && s.Open()
    requires verdict.refusal.None? && verdict.dataSize.GetOr(DEFAULT_DATA_SIZE) == plan.size
    ensures var next := s.(op := s.op.Received()).OnVerdict(verdict);
            && next.Open() && next.blocksSent == s.blocksSent + 1
            && next.lastReceivedBlockNumber == s.lastReceivedBlockNumber
            && next.op.sent == s.op.sent + [BlockDatagram(plan, s.blocksSent + 1).packet]
  {
    var changed := s.(
      op := s.op.Received().(receiveTimeout := verdict.timeout.GetOr(s.op.receiveTimeout)),
      transmitDataSize := verdict.dataSize.GetOr(s.transmitDataSize));
    AcceptedVerdict(s.(op := s.op.Received()), verdict);
    VerdictSize(plan, s, verdict);
    SendDataResult(plan, changed);
  }

  lemma AcceptedVerdict(s: SenderState, verdict: Verdict)
    requires verdict.refusal.None?
    ensures s.OnVerdict(verdict) ==
      s.(op := s.op.(receiveTimeout := verdict.timeout.GetOr(s.op.receiveTimeout)),
         transmitDataSize := verdict.dataSize.GetOr(s.transmitDataSize)).SendData().Receive()
  {
  }

  lemma VerdictSize(plan: Plan, s: SenderState, verdict: Verdict)
    requires plan.usable && plan.direction == Write && SenderHonest(plan, s) && s.Open()
    requires verdict.dataSize.GetOr(DEFAULT_DATA_SIZE) == plan.size
    ensures verdict.dataSize.GetOr(s.transmitDataSize) == plan.size
  {
  }

  /** An OACK makes a client that has accepted no ACK yet send its next block. */
  lemma OackSendsNext(plan: Plan, s: SenderState)
    requires plan.Sound() && plan.usable && plan.direction == Write && plan.oack != map[]
    requires SenderHonest(plan, s) && s.Open() && s.lastReceivedBlockNumber == 0xFFFF
    ensures var next := s.OnPacket(Some(OptionsAcknowledgement(plan.oack)));
            && next.Open() && next.blocksSent == s.blocksSent + 1 && next.lastReceivedBlockNumber == 0xFFFF
            && next.op.sent == s.op.sent + [BlockDatagram(plan, s.blocksSent + 1).packet]
  {
    var verdict := CheckOack(plan.client, plan.rule, plan.oack);
    VerdictSendsNext(plan, s, verdict);
    OackVerdict(plan, s);
  }

  lemma OackVerdict(plan: Plan, s: SenderState)
    requires plan.direction == Write && SenderHonest(plan, s) && s.lastReceivedBlockNumber == 0xFFFF
    ensures s.OnPacket(Some(OptionsAcknowledgement(plan.oack))) ==
      s.(op := s.op.Received()).OnVerdict(CheckOack(plan.client, plan.rule, plan.oack))
  {
  }

  /** The client has taken an OACK `count` times, and the server nothing. */
  ghost predicate Pushed(plan: Plan, sys: System, count: nat) {
    && Honest(plan, sys) && plan.usable && plan.size >= 1 && plan.bufferSize > 3
    && plan.direction == Write && plan.oack != map[]
    && sys.sender.Open() && sys.sender.blocksSent == count && sys.sender.lastReceivedBlockNumber == 0xFFFF
    && sys.receiver.Open() && sys.receiver.delivered == []
    && BlocksLogged(plan, sys.toReceiver, 0, count) && sys.nextToReceiver == 0
    && sys.nextToSender <= |sys.toSender|
  }

  lemma PushedHonestly(plan: Plan, sys: System, position: nat)
    requires plan.Sound() && Honest(plan, sys) && position < |sys.toSender|
    ensures Honest(plan, Step(sys, Event.ToSender(position)))
  {
    ToSenderHonest(plan, sys, position);
  }

  lemma OackArrives(plan: Plan, sys: System, position: nat)
    requires plan.Sound() && Honest(plan, sys) && sys.sender.Open() && position < |sys.toSender|
    requires sys.toSender[position].packet == OptionsAcknowledgement(plan.oack)
    ensures var next := sys.sender.OnPacket(Some(OptionsAcknowledgement(plan.oack)));
            Step(sys, Event.ToSender(position)) == WithSender(sys.(nextToSender := position + 1), next)
  {
    assert FromReceiver(plan, sys.toSender[position], sys.receiver);
    AnswerSeen(plan, sys.toSender[position], sys.receiver);
    SenderStep(sys, position, Some(OptionsAcknowledgement(plan.oack)));
  }

  lemma PushedFurther(plan: Plan, sys: System, count: nat, position: nat) returns (next: System)
    requires plan.Sound() && Pushed(plan, sys, count) && position < |sys.toSender|
    requires sys.toSender[position].packet == OptionsAcknowledgement(plan.oack)
    ensures next == Step(sys, Event.ToSender(position))
    ensures Pushed(plan, next, count + 1)
    ensures next.receiver == sys.receiver && next.toSender == sys.toSender && next.nextToSender == position + 1
  {
    var s := sys.sender.OnPacket(Some(OptionsAcknowledgement(plan.oack)));
    next := WithSender(sys.(nextToSender := position + 1), s);
    OackArrives(plan, sys, position);
    PushedHonestly(plan, sys, position);
    OackSendsNext(plan, sys.sender);
    PushedBy(plan, sys, s, count, position + 1);
  }

  lemma PushedBy(plan: Plan, sys: System, next: SenderState, count: nat, seen: nat)
    requires Pushed(plan, sys, count) && seen <= |sys.toSender|
    requires next.Open() && next.blocksSent == count + 1 && next.lastReceivedBlockNumber == 0xFFFF
    requires next.op.sent == sys.sender.op.sent + [BlockDatagram(plan, count + 1).packet]
    requires Honest(plan, WithSender(sys.(nextToSender := seen), next))
    ensures Pushed(plan, WithSender(sys.(nextToSender := seen), next), count + 1)
  {
    BlockLogged(plan, sys, next, 0, count, seen);
  }

  lemma PushedVolley(plan: Plan, sys: System)
    requires Pushed(plan, sys, PERIOD + 1)
    ensures Volley(plan, sys, 0, PERIOD, 1)
  {
  }

  // By duplicates of the OACK

  /** Where a run can go on from, it can go on by any event that keeps the order. */
  ghost predicate ClosedUnderDuplicates(reach: System -> bool) {
    forall sys, event :: reach(sys) && Enabled(sys, event) && InOrder(sys, event) ==> reach(Step(sys, event))
  }

  lemma {:induction false} PushByDuplicates(plan: Plan, reach: System -> bool, sys: System, count: nat)
    returns (end: System)
    requires plan.Sound() && ClosedUnderDuplicates(reach) && reach(sys) && OackUnderWay(plan, sys)
    ensures reach(end) && Pushed(plan, end, count) && end.nextToSender <= 1 && |end.toSender| >= 1
    ensures end.toSender[0].packet == OptionsAcknowledgement(plan.oack) && end.receiver == sys.receiver
  {
    if count == 0 {
      return sys;
    }
    var before := PushByDuplicates(plan, reach, sys, count - 1);
    end := PushedFurther(plan, before, count - 1, 0);
  }

  // By repetitions of the OACK

  predicate AllOacks(plan: Plan, log: seq<Datagram>) {
    forall i :: 0 <= i < |log| ==> log[i].packet == OptionsAcknowledgement(plan.oack)
  }

  /** The server has repeated its OACK `count` times. */
  ghost predicate Repeating(plan: Plan, sys: System, count: nat) {
    && Pushed(plan, sys, 0) && sys.nextToSender == 0
    && |sys.toSender| == count + 1 && AllOacks(plan, sys.toSender)
    && sys.receiver.op.stored == Some(OptionsAcknowledgement(plan.oack))
    && sys.receiver.op.timer == ReceiveTimer && sys.receiver.op.counter == count + 1
  }

  lemma RepeatedFurther(plan: Plan, sys: System, count: nat)
    requires plan.Sound() && Repeating(plan, sys, count) && count + 1 <= sys.receiver.op.retries
    ensures var next := Step(sys, ReceiverTimeout);
            Repeating(plan, next, count + 1) && next.receiver.op.retries == sys.receiver.op.retries
  {
    StepHonest(plan, sys, ReceiverTimeout);
    var next := sys.receiver.OnTimeout();
    assert Tagged(Since(sys.receiver.op, next.op), 0) == [Datagram(OptionsAcknowledgement(plan.oack), 0)];
  }

  lemma {:induction false} RepeatOack(plan: Plan, reach: System -> bool, sys: System, count: nat) returns (end: System)
    requires plan.Sound() && Closed(reach) && reach(sys) && OackUnderWay(plan, sys) && count <= sys.receiver.op.retries
    ensures reach(end) && Repeating(plan, end, count) && end.receiver.op.retries == sys.receiver.op.retries
  {
    if count == 0 {
      return sys;
    }
    var before := RepeatOack(plan, reach, sys, count - 1);
    RepeatedFurther(plan, before, count - 1);
    Onward(reach, before, ReceiverTimeout);
    return Step(before, ReceiverTimeout);
  }

  lemma PushOnce(plan: Plan, reach: System -> bool, sys: System, count: nat) returns (end: System)
    requires plan.Sound() && Closed(reach) && reach(sys) && Pushed(plan, sys, count)
    requires sys.nextToSender == count < |sys.toSender|
    requires sys.toSender[count].packet == OptionsAcknowledgement(plan.oack)
    ensures reach(end) && Pushed(plan, end, count + 1)
    ensures end.nextToSender == count + 1 && end.toSender == sys.toSender
  {
    end := PushedFurther(plan, sys, count, count);
    Onward(reach, sys, Event.ToSender(count));
  }

  lemma {:induction false} PushByRepetitions(plan: Plan, reach: System -> bool, sys: System, total: nat, count: nat)
    returns (end: System)
    requires plan.Sound() && Closed(reach) && reach(sys) && Repeating(plan, sys, total) && count <= total + 1
    ensures reach(end) && Pushed(plan, end, count)
    ensures end.nextToSender == count && |end.toSender| == total + 1 && AllOacks(plan, end.toSender)
  {
    if count == 0 {
      return sys;
    }
    var before := PushByRepetitions(plan, reach, sys, total, count - 1);
    assert before.toSender[count - 1].packet == OptionsAcknowledgement(plan.oack);
    end := PushOnce(plan, reach, before, count - 1);
  }

  /** A network that duplicates can put the client 65535 blocks ahead. */
  lemma OverrunByDuplicates(plan: Plan, reach: System -> bool, sys: System) returns (end: System)
    requires plan.Sound() && ClosedUnderDuplicates(reach) && reach(sys) && OackUnderWay(plan, sys)
    ensures reach(end) && Volley(plan, end, 0, PERIOD, 1) && end.nextToReceiver == 0
  {
    end := PushByDuplicates(plan, reach, sys, PERIOD + 1);
    PushedVolley(plan, end);
  }

  /** So can a server that repeats its OACK 65535 times. */
  lemma OverrunByRepetitions(plan: Plan, reach: System -> bool, sys: System) returns (end: System)
    requires plan.Sound() && Closed(reach) && reach(sys) && OackUnderWay(plan, sys)
    requires sys.receiver.op.retries == 0xFFFF
    ensures reach(end) && Volley(plan, end, 0, PERIOD, 1) && end.nextToReceiver == 0
  {
    end := RepeatOack(plan, reach, sys, PERIOD);
    end := PushByRepetitions(plan, reach, end, PERIOD, PERIOD + 1);
    PushedVolley(plan, end);
  }

  // Success with the wrong file

  /** Blocks in a row, from behind the first `from` blocks on. */
  function BlocksFrom(file: Bytes, size: nat, from: nat, count: nat): (blocks: seq<Bytes>)
    ensures |blocks| == count
  {
    seq(count, i requires 0 <= i < count => Block(file, size, from + i + 1))
  }

  lemma BlocksFromFurther(file: Bytes, size: nat, from: nat, count: nat)
    ensures BlocksFrom(file, size, from, count + 1) ==
      BlocksFrom(file, size, from, count) + [Block(file, size, from + count + 1)]
  {
  }

  lemma {:induction false} FlattenFrom(file: Bytes, size: nat, from: nat, count: nat)
    ensures |Flatten(BlocksFrom(file, size, from, count))| + Cursor(|file|, size, from) ==
      Cursor(|file|, size, from + count)
  {
    if count > 0 {
      FlattenFrom(file, size, from, count - 1);
      BlocksFromFurther(file, size, from, count - 1);
      FlattenMore(BlocksFrom(file, size, from, count - 1), Block(file, size, from + count));
    }
  }

  /** What follows the first blocks is not the file. */
  lemma NotTheFile(file: Bytes, size: nat, from: nat, count: nat)
    requires file != [] && size >= 1 && from >= 1
    ensures Flatten(BlocksFrom(file, size, from, count)) != file
  {
    FlattenFrom(file, size, from, count);
    CursorIsProduct(|file|, size, from);
    assert from * size >= 1;
  }

  /** A dallying receiver succeeds when its timer expires. */
  lemma Dallied(reach: System -> bool, sys: System) returns (next: System)
    requires Closed(reach) && reach(sys)
    requires sys.receiver.Open() ==> sys.receiver.op.timer == DallyTimer
    requires !sys.receiver.Open() ==> sys.receiver.op.completions == [Successful]
    ensures reach(next) && next.receiver.op.completions == [Successful]
    ensures next.receiver.delivered == sys.receiver.delivered
  {
    if !sys.receiver.Open() {
      return sys;
    }
    Onward(reach, sys, ReceiverTimeout);
    return Step(sys, ReceiverTimeout);
  }

  /** The server has taken the blocks of the client for those of one round earlier. */
  ghost predicate Shifted(plan: Plan, sys: System, turn: nat) {
    && turn >= 1 && Volley(plan, sys, 0, PERIOD, turn) && sys.nextToReceiver < PERIOD + turn
    && sys.receiver.delivered == BlocksFrom(plan.file, plan.size, PERIOD, turn - 1)
  }

  lemma ShiftedFurther(plan: Plan, reach: System -> bool, sys: System, turn: nat) returns (next: System)
    requires plan.Sound() && Closed(reach) && reach(sys) && Shifted(plan, sys, turn)
    requires PERIOD + turn < BlockCount(|plan.file|, plan.size)
    ensures reach(next) && Shifted(plan, next, turn + 1)
  {
    BlocksFromFurther(plan.file, plan.size, PERIOD, turn - 1);
    next := Round(plan, reach, sys, 0, PERIOD, turn, PERIOD + turn);
  }

  lemma ShiftedEnd(plan: Plan, reach: System -> bool, sys: System, turn: nat) returns (next: System)
    requires plan.Sound() && Closed(reach) && reach(sys) && Shifted(plan, sys, turn)
    requires PERIOD + turn >= BlockCount(|plan.file|, plan.size)
    ensures reach(next) && next.receiver.op.completions == [Successful]
    ensures next.receiver.delivered == BlocksFrom(plan.file, plan.size, PERIOD, turn)
  {
    ShortBlock(plan.file, plan.size, PERIOD + turn);
    BlocksFromFurther(plan.file, plan.size, PERIOD, turn - 1);
    var taken := TakeBlock(plan, reach, sys, 0, PERIOD, turn, PERIOD + turn);
    BlockStepTakes(plan, sys, taken, 0, turn, PERIOD + turn);
    next := Dallied(reach, taken);
  }

  /** Up to the last block. */
  lemma {:induction false} ShiftedSuccess(plan: Plan, reach: System -> bool, sys: System, turn: nat)
    returns (end: System, count: nat)
    requires plan.Sound() && plan.size >= 1 && Closed(reach) && reach(sys) && Shifted(plan, sys, turn)
    ensures reach(end) && end.receiver.op.completions == [Successful]
    ensures end.receiver.delivered == BlocksFrom(plan.file, plan.size, PERIOD, count)
    decreases BlockCount(|plan.file|, plan.size) - turn
  {
    if PERIOD + turn >= BlockCount(|plan.file|, plan.size) {
      end := ShiftedEnd(plan, reach, sys, turn);
      return end, turn;
    }
    var further := ShiftedFurther(plan, reach, sys, turn);
    end, count := ShiftedSuccess(plan, reach, further, turn + 1);
  }

  /** The server can succeed with something that is not the file. */
  lemma WrongSuccess(plan: Plan, reach: System -> bool, sys: System) returns (end: System)
    requires plan.Sound() && Closed(reach) && reach(sys) && plan.file != []
    requires Volley(plan, sys, 0, PERIOD, 1) && sys.nextToReceiver == 0
    ensures reach(end) && !WholeOnSuccess(plan.file, end)
  {
    var count;
    end, count := ShiftedSuccess(plan, reach, sys, 1);
    NotTheFile(plan.file, plan.size, PERIOD, count);
  }

  // A wrong prefix

  /** The receiver has taken the right blocks, even if the sender is rounds ahead. */
  ghost predicate Right(plan: Plan, sys: System, first: nat, ahead: nat, turn: nat) {
    && turn >= 1 && Volley(plan, sys, first, ahead, turn) && sys.nextToReceiver == first + turn - 1
    && sys.receiver.delivered == Blocks(plan.file, plan.size, turn - 1)
  }

  lemma RightFurther(plan: Plan, reach: System -> bool, sys: System, first: nat, ahead: nat, turn: nat)
    returns (next: System)
    requires plan.Sound() && Closed(reach) && reach(sys) && Right(plan, sys, first, ahead, turn)
    requires ahead + turn < BlockCount(|plan.file|, plan.size)
    ensures reach(next) && Right(plan, next, first, ahead, turn + 1)
    ensures next.receiver.dally == sys.receiver.dally
  {
    next := Round(plan, reach, sys, first, ahead, turn, turn);
    BlocksFurther(plan.file, plan.size, turn - 1);
  }

  lemma {:induction false} RightRounds(
    plan: Plan, reach: System -> bool, sys: System, first: nat, ahead: nat, turn: nat)
    returns (end: System)
    requires plan.Sound() && plan.size >= 1 && turn >= 1 && Closed(reach) && reach(sys)
    requires Right(plan, sys, first, ahead, 1)
    requires turn == 1 || ahead + turn - 1 < BlockCount(|plan.file|, plan.size)
    ensures reach(end) && Right(plan, end, first, ahead, turn)
    ensures end.receiver.dally == sys.receiver.dally
  {
    if turn == 1 {
      return sys;
    }
    end := RightRounds(plan, reach, sys, first, ahead, turn - 1);
    end := RightFurther(plan, reach, end, first, ahead, turn - 1);
  }

  /** The byte at a position lies in the block with the quotient of the position. */
  lemma ByteInBlock(file: Bytes, size: nat, at: nat)
    requires size >= 1 && at < |file|
    ensures var index := at / size + 1;
            && Cursor(|file|, size, index - 1) == at - at % size
            && at % size < |Block(file, size, index)|
            && Block(file, size, index)[at % size] == file[at]
            && index <= BlockCount(|file|, size)
  {
    var index := at / size + 1;
    assert (index - 1) * size == at - at % size;
    assert index * size == (index - 1) * size + size;
    CursorIsProduct(|file|, size, index - 1);
    CursorIsProduct(|file|, size, index);
    if index > BlockCount(|file|, size) {
      PastTheEnd(file, size, index);
    }
  }

  /** A round further lies the same place of a later block. */
  lemma ByteOneRoundOn(size: nat, at: nat)
    requires size >= 1
    ensures (PERIOD * size + at) / size == PERIOD + at / size && (PERIOD * size + at) % size == at % size
  {
    var quotient, rest := at / size, at % size;
    assert PERIOD * size + at == (PERIOD + quotient) * size + rest by {
      assert (PERIOD + quotient) * size == PERIOD * size + quotient * size;
    }
    UniqueQuotient(PERIOD * size + at, size, PERIOD + quotient, rest);
  }

  lemma SameBytes(part: Bytes, file: Bytes)
    requires |part| <= |file| && forall i :: 0 <= i < |part| ==> part[i] == file[i]
    ensures part <= file
  {
    assert part == file[..|part|];
  }

  /** A file that does not go on as it began has a byte that shows it. */
  lemma DifferentByte(file: Bytes, size: nat) returns (at: nat)
    requires !Periodic(file, size)
    ensures PERIOD * size + at < |file| && file[PERIOD * size + at] != file[at]
  {
    var rest := file[Min(PERIOD * size, |file|)..];
    if forall i :: 0 <= i < |rest| ==> rest[i] == file[i] {
      SameBytes(rest, file);
    }
    at :| 0 <= at < |rest| && rest[at] != file[at];
  }

  lemma NotAPrefix(file: Bytes, size: nat, index: nat, other: nat, rest: nat)
    requires index >= 1 && other >= 1 && Cursor(|file|, size, index - 1) + rest < |file|
    requires rest < |Block(file, size, other)|
    requires Block(file, size, other)[rest] != file[Cursor(|file|, size, index - 1) + rest]
    ensures !(Flatten(Blocks(file, size, index - 1) + [Block(file, size, other)]) <= file)
  {
    var blocks := Blocks(file, size, index - 1);
    FlattenPrefix(file, size, blocks);
    FlattenMore(blocks, Block(file, size, other));
    var flat := Flatten(blocks) + Block(file, size, other);
    assert flat[Cursor(|file|, size, index - 1) + rest] == Block(file, size, other)[rest];
  }

  /** The place of a byte in its block, and of the byte a round further. */
  lemma PlaceOneRoundOn(file: Bytes, size: nat, at: nat, later: nat) returns (index: nat, rest: nat)
    requires size >= 1 && later == PERIOD * size + at && later < |file|
    ensures index >= 1 && Cursor(|file|, size, index - 1) + rest == at
    ensures PERIOD + index <= BlockCount(|file|, size) && rest < |Block(file, size, PERIOD + index)|
    ensures Block(file, size, PERIOD + index)[rest] == file[later]
  {
    ByteOneRoundOn(size, at);
    ByteInBlock(file, size, later);
    ByteInBlock(file, size, at);
    return at / size + 1, at % size;
  }

  /** The block of a file that does not go on as it began that shows it. */
  lemma WrongTurn(file: Bytes, size: nat) returns (turn: nat)
    requires size >= 1 && !Periodic(file, size)
    ensures turn >= 1 && PERIOD + turn <= BlockCount(|file|, size)
    ensures !(Flatten(Blocks(file, size, turn - 1) + [Block(file, size, PERIOD + turn)]) <= file)
  {
    var at := DifferentByte(file, size);
    var rest;
    turn, rest := PlaceOneRoundOn(file, size, at, PERIOD * size + at);
    NotAPrefix(file, size, turn, PERIOD + turn, rest);
  }

  /** The server can deliver something that is not a prefix of the file. */
  lemma WrongPrefix(plan: Plan, reach: System -> bool, sys: System) returns (end: System)
    requires plan.Sound() && plan.size >= 1 && Closed(reach) && reach(sys) && !Periodic(plan.file, plan.size)
    requires Volley(plan, sys, 0, PERIOD, 1) && sys.nextToReceiver == 0
    ensures reach(end) && !(Flatten(end.receiver.delivered) <= plan.file)
  {
    var turn := WrongTurn(plan.file, plan.size);
    end := RightRounds(plan, reach, sys, 0, PERIOD, turn);
    end := WrongBlock(plan, reach, end, turn);
  }

  lemma WrongBlock(plan: Plan, reach: System -> bool, sys: System, turn: nat) returns (next: System)
    requires plan.Sound() && Closed(reach) && reach(sys) && Right(plan, sys, 0, PERIOD, turn)
    ensures reach(next)
    ensures next.receiver.delivered ==
      Blocks(plan.file, plan.size, turn - 1) + [Block(plan.file, plan.size, PERIOD + turn)]
  {
    next := TakeBlock(plan, reach, sys, 0, PERIOD, turn, PERIOD + turn);
    BlockStepTakes(plan, sys, next, 0, turn, PERIOD + turn);
  }
}
