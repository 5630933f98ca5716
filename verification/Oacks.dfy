/** A receiver sends an OACK at most at its start, as the server of a write request; no handler sends one. */
module Oacks {
  import opened Basics
  import opened BlockNumbers
  import opened OptionLists
  import opened Packets
  import opened Negotiation
  import opened Operations
  import opened Receivers

  /** What every handler of a receiver keeps of its operation: it sends ACKs and ERRORs only. */
  ghost predicate SendsNoOack(op: OperationState, next: OperationState) {
    && next.retries == op.retries && next.role == op.role && (op.counter >= 1 ==> next.counter >= 1)
    && ((next.sent == op.sent && !next.Open())
        || (next.stored.Some? && next.sent == op.sent + [next.stored.value]
            && !next.stored.value.OptionsAcknowledgement?))
  }

  lemma AbortSendsNoOack(op: OperationState, code: uint16, text: string, status: TransferStatus)
    ensures SendsNoOack(op, op.Abort(code, text, status))
  {
  }

  lemma UnexpectedSendsNoOack(op: OperationState, packet: Option<Packet>)
    ensures SendsNoOack(op, op.Unexpected(packet))
  {
  }

  lemma AcknowledgeLastSendsNoOack(r: ReceiverState, dataSize: nat)
    ensures SendsNoOack(r.op, r.AcknowledgeLast(dataSize).op)
  {
  }

  lemma DataSendsNoOack(r: ReceiverState, block: uint16, data: Bytes)
    ensures SendsNoOack(r.op, r.OnData(block, data).op)
  {
    if block == r.lastReceivedBlockNumber {
      AcknowledgeLastSendsNoOack(r, |data|);
    } else if block != Next(r.lastReceivedBlockNumber) {
      AbortSendsNoOack(r.op, ILLEGAL_OPERATION, "Block Number not expected", TransferError);
    } else if |data| > r.receiveDataSize {
      AbortSendsNoOack(r.op, ILLEGAL_OPERATION, "Too much data", TransferError);
    } else {
      AcknowledgeLastSendsNoOack(
        r.(delivered := r.delivered + [data], lastReceivedBlockNumber := Next(r.lastReceivedBlockNumber)), |data|);
    }
  }

  lemma OptionsSendNoOack(r: ReceiverState, options: Options)
    ensures SendsNoOack(r.op, r.OnOptionsAcknowledgement(options).op)
  {
    if r.lastReceivedBlockNumber != 0 {
      AbortSendsNoOack(r.op, ILLEGAL_OPERATION, "OACK must occur after RRQ", TransferError);
    } else {
      VerdictSendsNoOack(r, CheckOack(r.configuration, r.SizeRule(), options));
    }
  }

  lemma VerdictSendsNoOack(r: ReceiverState, verdict: Verdict)
    ensures SendsNoOack(r.op, r.OnVerdict(verdict).op)
  {
    var changed := r.op.(receiveTimeout := verdict.timeout.GetOr(r.op.receiveTimeout));
    if verdict.refusal.Some? {
      AbortSendsNoOack(
        changed, verdict.refusal.value.code, verdict.refusal.value.text, verdict.refusal.value.status);
    }
  }

  lemma ErrorSendsNoOack(op: OperationState, code: uint16, message: Bytes)
    ensures SendsNoOack(op, op.ReceivedError(code, message))
  {
  }

  lemma HandlerSendsNoOack(r: ReceiverState, packet: Option<Packet>)
    ensures SendsNoOack(r.op, r.OnPacket(packet).op)
  {
    HandleSendsNoOack(r.(op := r.op.Received()), packet);
  }

  lemma HandleSendsNoOack(called: ReceiverState, packet: Option<Packet>)
    ensures SendsNoOack(called.op, called.Handle(packet).op)
  {
    match packet
    case Some(Data(block, data)) => DataSendsNoOack(called, block, data);
    case Some(Error(code, message)) => ErrorSendsNoOack(called.op, code, message);
    case Some(Acknowledgement(_)) => AbortSendsNoOack(called.op, ILLEGAL_OPERATION, "ACK not expected", TransferError);
    case Some(OptionsAcknowledgement(options)) =>
      if called.op.role == Client {
        OptionsSendNoOack(called, options);
      } else {
        UnexpectedSendsNoOack(called.op, packet);
      }
    case _ => UnexpectedSendsNoOack(called.op, packet);
  }
}
