/**
 * A second start of a server operation that has succeeded. The start resets the file, but neither the block numbers nor
 * the flag for the last block, so the second transfer is not like the first one.
 */
module Restarts {
  import opened Basics
  import opened BlockNumbers
  import opened Packets
  import opened Negotiation
  import opened Operations
  import opened Senders
  import opened Receivers

  /** The reply to a request without options. */
  const PLAIN := Reply(None, None, map[], None)

  /** What the success of a sender leaves behind. */
  predicate HasSucceeded(s: SenderState) {
    s.lastDataPacketTransmitted && s.lastReceivedBlockNumber == s.lastTransmittedBlockNumber
  }

  lemma SuccessLeaves(s: SenderState, packet: Option<Packet>)
    requires s.Open()
    ensures Successful in s.OnPacket(packet).op.completions ==> HasSucceeded(s.OnPacket(packet))
  {
    if packet.Some? && packet.value.OptionsAcknowledgement? && s.op.role == Client
       && s.lastReceivedBlockNumber == 0xFFFF {
      var verdict := CheckOack(s.configuration, s.SizeRule(), packet.value.options);
      assert s.OnPacket(packet) == s.(op := s.op.Received()).OnVerdict(verdict);
    }
  }

  /**
   * The server of a read goes on with the number after the last one, and reports success after one block, however long
   * the file is.
   */
  lemma ReadStartedAgain(s: SenderState)
    requires HasSucceeded(s)
    ensures var number := Next(s.lastTransmittedBlockNumber);
            var started := s.Started(PLAIN);
            var acknowledged := started.OnPacket(Some(Acknowledgement(number)));
            && started.op.sent == s.op.sent + [Data(number, s.file[..Min(s.transmitDataSize, |s.file|)])]
            && acknowledged.op.sent == started.op.sent
            && acknowledged.op.completions == s.op.completions + [Successful]
  {
  }

  /**
   * The server of a write takes the first block only if the last number was 0 or 65535. After a number of 1 it
   * acknowledges the block without taking it, and reports success if it is short; after any other it ends with an
   * error.
   */
  lemma WriteStartedAgain(r: ReceiverState, data: Bytes)
    requires |data| <= r.receiveDataSize
    ensures var next := r.Started(PLAIN).OnPacket(Some(Data(1, data)));
            && next.delivered == (if r.lastReceivedBlockNumber in {0, 0xFFFF} then [data] else [])
            && next.op.completions == r.op.completions +
                 (if r.lastReceivedBlockNumber !in {0, 1, 0xFFFF} then [TransferError]
                  else if |data| < r.receiveDataSize && !r.dally then [Successful]
                  else [])
  {
  }
}
