/** What a client does with an OACK: go on with what was acknowledged, or send one ERROR and end. */
module OackReactions {
  import opened Basics
  import opened BlockNumbers
  import opened OptionLists
  import opened Packets
  import opened Negotiation
  import opened Operations
  import opened Senders
  import opened Receivers
  import opened Lifecycles

  /**
   * One ERROR with a code has been sent, which is also reported to the application, and the operation has been
   * completed once.
   */
  ghost predicate Refuses(op: OperationState, next: OperationState, code: uint16, status: TransferStatus) {
    && next.Ended() && next.completions == [status]
    && |next.sent| == |op.sent| + 1 && next.sent[..|op.sent|] == op.sent
    && next.sent[|op.sent|].Error? && next.sent[|op.sent|].code == code
    && next.errorInformation == Some(ErrorInformation(code, next.sent[|op.sent|].message))
  }

  /** The code of the ERROR for an OACK at the wrong time or without options, for a rejected size, and for the rest. */
  function CodeOfRefusal(c: Configuration, rule: Option<SizeRule>, inTime: bool, options: Options): uint16 {
    if !inTime || options == map[] then 4 else if RejectsSize(c, rule, options) then 3 else 8
  }

  function StatusOfRefusal(inTime: bool, options: Options): TransferStatus {
    if !inTime || options == map[] then TransferError else OptionNegotiationError
  }

  lemma AbortRefuses(op: OperationState, code: uint16, text: string, status: TransferStatus)
    requires op.Open()
    ensures Refuses(op, op.Received().Abort(code, text, status), code, status)
  {
  }

  lemma VerdictRefuses(r: ReceiverState, verdict: Verdict)
    requires r.Open() && verdict.refusal.Some?
    ensures var next := r.(op := r.op.Received()).OnVerdict(verdict);
            Refuses(r.op, next.op, verdict.refusal.value.code, verdict.refusal.value.status)
            && next.delivered == r.delivered
  {
    var refusal := verdict.refusal.value;
    AbortRefuses(
      r.op.(receiveTimeout := verdict.timeout.GetOr(r.op.receiveTimeout)), refusal.code, refusal.text,
      refusal.status);
  }

  /**
   * A reading client that has no block yet goes on exactly if the OACK is acceptable: it sends ACK 0 and uses the
   * acknowledged block size and timeout. Every other OACK ends the operation with one ERROR.
   */
  lemma ReaderReaction(r: ReceiverState, options: Options)
    requires r.op.Live() && r.op.role == Client
    ensures var next := r.OnPacket(Some(OptionsAcknowledgement(options)));
            if r.lastReceivedBlockNumber == 0 && AcceptableOack(r.configuration, r.SizeRule(), options) then
              && next.op.Live() && next.op.sent == r.op.sent + [Acknowledgement(0)] && next.oackReceived
              && next.receiveDataSize ==
                   (if BLKSIZE in options then NumberAt(options, BLKSIZE).value else r.receiveDataSize)
              && next.op.receiveTimeout ==
                   (if TIMEOUT in options then NumberAt(options, TIMEOUT).value else r.op.receiveTimeout)
              && next.delivered == r.delivered && next.lastReceivedBlockNumber == 0
            else
              var inTime := r.lastReceivedBlockNumber == 0;
              && Refuses(
                   r.op, next.op, CodeOfRefusal(r.configuration, r.SizeRule(), inTime, options),
                   StatusOfRefusal(inTime, options))
              && next.delivered == r.delivered
  {
    var verdict := CheckOack(r.configuration, r.SizeRule(), options);
    PacketHandledByReceiver(r, Some(OptionsAcknowledgement(options)));
    OackAcceptance(r.configuration, r.SizeRule(), options);
    RefusalCodes(r.configuration, r.SizeRule(), options);
    if r.lastReceivedBlockNumber != 0 {
      AbortRefuses(r.op, ILLEGAL_OPERATION, "OACK must occur after RRQ", TransferError);
    } else {
      assert r.OnPacket(Some(OptionsAcknowledgement(options))) == r.(op := r.op.Received()).OnVerdict(verdict);
      if verdict.refusal.Some? {
        VerdictRefuses(r, verdict);
      }
    }
  }

  /** The same OACK again, before any DATA, is acknowledged again and changes nothing else. */
  lemma ReaderReactsAgain(r: ReceiverState, options: Options)
    requires r.op.Live() && r.op.role == Client && r.lastReceivedBlockNumber == 0
    requires AcceptableOack(r.configuration, r.SizeRule(), options)
    ensures var once := r.OnPacket(Some(OptionsAcknowledgement(options)));
            var twice := once.OnPacket(Some(OptionsAcknowledgement(options)));
            twice == once.(op := once.op.(sent := once.op.sent + [Acknowledgement(0)]))
  {
    ReaderReaction(r, options);
    OackAcceptance(r.configuration, r.SizeRule(), options);
    var verdict := CheckOack(r.configuration, r.SizeRule(), options);
    var once := r.OnPacket(Some(OptionsAcknowledgement(options)));
    assert once == r.(op := r.op.Received()).OnVerdict(verdict);
    assert once.OnPacket(Some(OptionsAcknowledgement(options))) == once.(op := once.op.Received()).OnVerdict(verdict);
  }

  /**
   * A writing client whose field for the last ACK still holds 65535 goes on exactly if the OACK is acceptable: it uses
   * the acknowledged block size and timeout and sends the next data of the file under the next number. Every other OACK
   * ends the operation with one ERROR.
   */
  lemma WriterReaction(s: SenderState, options: Options)
    requires s.op.Live() && s.op.role == Client
    ensures var next := s.OnPacket(Some(OptionsAcknowledgement(options)));
            if s.lastReceivedBlockNumber == 0xFFFF && AcceptableOack(s.configuration, s.SizeRule(), options) then
              && next.op.Live() && next.blocksSent == s.blocksSent + 1
              && next.transmitDataSize ==
                   (if BLKSIZE in options then NumberAt(options, BLKSIZE).value else s.transmitDataSize)
              && next.op.receiveTimeout ==
                   (if TIMEOUT in options then NumberAt(options, TIMEOUT).value else s.op.receiveTimeout)
              && next.lastReceivedBlockNumber == 0xFFFF
              && next.position == Min(s.position + next.transmitDataSize, |s.file|)
              && next.op.sent == s.op.sent +
                   [Data(Next(s.lastTransmittedBlockNumber), s.file[Min(s.position, |s.file|)..next.position])]
            else
              var inTime := s.lastReceivedBlockNumber == 0xFFFF;
              && Refuses(
                   s.op, next.op, CodeOfRefusal(s.configuration, s.SizeRule(), inTime, options),
                   StatusOfRefusal(inTime, options))
              && next.blocksSent == s.blocksSent && next.position == 0
  {
    PacketHandledBySender(s, Some(OptionsAcknowledgement(options)));
    OackAcceptance(s.configuration, s.SizeRule(), options);
    RefusalCodes(s.configuration, s.SizeRule(), options);
    var verdict := CheckOack(s.configuration, s.SizeRule(), options);
    if s.lastReceivedBlockNumber != 0xFFFF {
      AbortRefuses(s.op, ILLEGAL_OPERATION, "OACK must occur after WRQ", TransferError);
    } else if verdict.refusal.Some? {
      var refusal := verdict.refusal.value;
      AbortRefuses(
        s.op.(receiveTimeout := verdict.timeout.GetOr(s.op.receiveTimeout)), refusal.code, refusal.text,
        refusal.status);
    } else {
      assert s.OnPacket(Some(OptionsAcknowledgement(options))) == s.(op := s.op.Received()).OnVerdict(verdict);
    }
  }
}
