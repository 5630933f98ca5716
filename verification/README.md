# TFTP lock-step transfers

A model of the TFTP library in `lib/tftp`: one client operation and one server operation that transfer a file over
an unreliable network, the packets they exchange, and the options they negotiate first. The protocol is that of
RFC 1350 with the options of RFC 2347, RFC 2348 and RFC 2349.

`dafny verify dfyconfig.toml` verifies the project.

## The parts

- `Basics`, `BlockNumbers`, `Decimals`, `MemoryFiles`, `OptionLists`, `Packets`, `Negotiation`: numbers, bytes, blocks
  of a file, option lists, the six packets and the negotiation, as values and functions with their laws.
- `Wire`, `Numerals`: the bytes of every packet, option list and number, said literally and in both directions.
- `PacketObjects`: the packet classes, which fill their fields from bytes and write themselves into buffers.
- `Operations`, `Senders`, `Receivers`: the state of an operation and its handlers as functions. The server of a read
  and the client of a write share the sender, the client of a read and the server of a write share the receiver; their
  `start`, `request` and OACK handlers are apart.
- `SendingOperations`, `ReceivingOperations`, and the classes in `Operations`, `MemoryFiles`, `BlockNumbers` and
  `OptionLists`: the same operations as objects whose methods assign fields step by step. Every method is proved to
  change the abstract state as the function says, so that the theorems about the functions are about the objects.
- `Transfers`: the composed system. Everything sent is kept in two logs; the network delivers any position at any
  time, and a rule says which deliveries it allows: in order and once (loss only), in order (loss and duplication), in
  any order within a window of 65535 blocks, or in any order. A datagram is delivered as bytes, cut off at the size of
  the receive buffer and decoded. A completed operation receives nothing.
- `Starts`, `Reactions`, `OackReactions`, `Lifecycles`, `Deliveries`, `ReceiveBuffers`, `Apprentice`, `WriteClients`,
  `Oacks`, `Restarts`: what one side does first, and what it does whatever reaches it.
- `Opening`, `Handshakes`: what the first packets of both sides settle.
- `Honesty`, `Safety`, `Refinement`, `Lockstep`, `Aborts`, `Terminations`, `Orderliness`, `Progress`, `Recovery`: what
  every run of both sides keeps over a network, where it can fail, that it ends, that it succeeds when nothing is lost,
  and exactly when it can still succeed after losses.
- `Barrenness`, `Periods`, `Volleys`, `Overruns`, `Stragglers`, `Agreements`, `Reorderings`: for each kind of network
  the exact condition under which success means the whole file, and under which the delivered bytes are a prefix of
  it, with runs from the start that show each failure.

Some fields exist for statements only and steer no branch: the number of blocks a sender has sent, the list of blocks
a receiver has delivered, the index of a datagram, and the list of everything an operation has sent.

## What the code does and its documents do not say

- **A second OACK of a write.** After an OACK the client of a write leaves its field for the last ACK at 65535, so
  the guard against an OACK at the wrong time lets a repeated OACK pass, and the client sends the next block early.
  If the first block was lost, the server fails with "Block Number not expected"; a repetition by the timer of the
  server is enough. `Aborts.AbortFreeInOrder` and `Aborts.AbortFreeInOrderOnce` say exactly which transfers can end in
  an error of the protocol. An OACK that is taken 65536 times puts the client a whole round of numbers ahead: the server
  then takes block 65536 for block 1, and succeeds with a file that is not the one that was sent. A network that
  duplicates the OACK can do this to every file that is not empty; a network that only loses datagrams can do it if the
  server may repeat a packet 65535 times. `Agreements.SuccessInOrder` and `Agreements.SuccessInOrderOnce` are the exact
  conditions, `Agreements.FragileFails` and `Agreements.StubbornFails` the runs. Nothing stops the client at the end of
  its file either: every acceptable OACK that arrives makes it send one more block. What it sends is bounded exactly if
  its configuration makes no OACK acceptable (`WriteClients.WriterBoundedExactly`).
- **Block sizes above 65531.** The size of the receive buffer is computed as header plus block size and converted to
  16 bits. Above 65531 it wraps to at most 3 bytes, and every datagram is invalid (`Operations.BufferFits`,
  `ReceiveBuffers.ReaderBufferFits`, `ReceiveBuffers.WriterBufferFits`). The options of a request are limited to 65464,
  the configured value is not.
- **Block sizes below 8.** A server that is configured with a block size below 8 answers with it, and the client
  refuses the answer. With block size 0 a server that is acknowledged anyway sends empty blocks without end
  (`Apprentice.BoundedExactly`).
- **Timeouts above 16 bits.** A client converts its timeout to 16 bits for the request, but compares the answer with
  the unconverted value, and then refuses it (`Negotiation.Compatible`).
- **Window.** Block 65536 has the number of block 1. Datagrams that are less than 65535 blocks late do no harm; at
  exactly 65535 an old block is delivered as a new one (`Refinement.WindowIsTight`). Over a network that reorders at
  will, a transfer of more than 65535 blocks can succeed with the wrong file (`Reorderings.MoreThanOneRoundFails`). A
  receiver that dallies does so already at 65535 blocks: the first block, when it comes again, is taken as block 65536.
- **A second request on one object.** `request` of a reading client does not reset the flag for a received OACK, and
  that of a writing client without the size option does not reset the size of an earlier one
  (`ReceivingOperations.ReceivingOperation.Request`, `SendingOperations.SendingOperation.Request`).
- **A second start of one object.** `start` of the servers resets the file, but neither the block numbers nor the flag
  for the last block. Started again without options after a success, the server of a read reports success after one
  more block, however long the file is (`Restarts.ReadStartedAgain`). The server of a write refuses block 1, unless its
  last number was 0 or 65535; if it was 1, it acknowledges the block without taking it, and may report success with an
  empty file (`Restarts.WriteStartedAgain`).

## Model

| member | source | states |
|---|---|---|
| `BlockNumbers.AdvanceFromZero` | lib/tftp/packets/BlockNumber.cpp:24-33 | counting from 0 with `next` reaches, after k steps, the number ((k-1) mod 65535)+1, and is 0 only before the first step |
| `BlockNumbers.SameNumber` | lib/tftp/packets/BlockNumber.cpp:24-33 | two blocks carry the same 16-bit number exactly if their indices differ by a multiple of 65535 |
| `BlockNumbers.NumberInWindow` | lib/tftp/packets/BlockNumber.cpp:64-82 | within a window of less than 65535 blocks the 16-bit comparison decides equality of unbounded indices |
| `BlockNumbers.BlockNumber.PreIncrement` | lib/tftp/packets/BlockNumber.cpp:51-55 | the object moves to the successor and returns the new value |
| `BlockNumbers.BlockNumber.PostIncrement` | lib/tftp/packets/BlockNumber.cpp:57-62 | the object moves to the successor and returns the old value |
| `MemoryFiles.Chunking` | lib/tftp/files/MemoryFile.cpp:81-98 | a transfer has floor(length/size)+1 blocks, all full but the strictly shorter last one, and their concatenation is the file |
| `MemoryFiles.ShortBlock` | lib/tftp/servers/implementation/ReadOperationImpl.cpp:222-237 | a block is shorter than the block size exactly from the last block of the file on, so the flag for the last block is right |
| `MemoryFiles.FlattenPrefix` | lib/tftp/files/MemoryFile.cpp:66-74 | collecting the first k blocks gives the file up to the read position after k blocks |
| `MemoryFiles.MemoryFile.SendData` | lib/tftp/files/MemoryFile.cpp:81-98 | returns the bytes between the old and the new read position; the k-th call of a transfer returns block k |
| `MemoryFiles.MemoryFile.ReceivedData` | lib/tftp/files/MemoryFile.cpp:66-74 | appends the data and, unless it is empty, rewinds the read position |
| `MemoryFiles.MemoryFile.Start` | lib/tftp/files/MemoryFile.cpp:39-47 | a receiving file is emptied, a sending one keeps its data, and both are rewound |
| `Decimals.StoullToString` | lib/tftp/packets/Options.ipp:41-54 | reading back a printed number succeeds exactly for 64-bit values and returns the number |
| `Numerals.Printed` | lib/tftp/packets/Options.ipp:41-54 | a number is printed as the only row of decimal digits, byte by byte, that has its value and no superfluous leading zero |
| `Numerals.ReadNumber` | lib/tftp/packets/Options.ipp:41-54 | of any text the leading blanks, a sign and the digits are read and the rest is ignored; a minus sign negates in 64 bits; no digits and more than 64 bits are errors |
| `Numerals.PartsOf` | lib/tftp/packets/Options.ipp:41-54 | and every text has these parts |
| `OptionLists.ParseOptions` | lib/tftp/packets/Options.cpp:44-76 | the parsing loop computes the first-wins parse of the NUL-separated list, or rejects it |
| `OptionLists.RawOptions` | lib/tftp/packets/Options.cpp:78-101 | the printing loop visits the names in the order of the map and prints the list of all entries |
| `OptionLists.ParseRaw` | lib/tftp/packets/Options.cpp:44-101 | parsing what was printed gives back every option list without NUL bytes |
| `OptionLists.ParseSucceeds` | lib/tftp/packets/Options.cpp:44-76 | parsing succeeds exactly if the input is empty, or ends in NUL and has an even number of NUL bytes |
| `OptionLists.ParseList` | lib/tftp/packets/Options.cpp:72-72 | of several entries with the same name the first one is kept |
| `OptionLists.RawParse` | lib/tftp/packets/Options.cpp:44-101 | printing a parsed list gives back the input if its names are strictly sorted |
| `OptionLists.ParseBytes` | lib/tftp/packets/Options.cpp:44-101 | any bytes are accepted exactly if they are a list of NUL-free names and values; the first of several equal names is kept, and printing what was parsed gives the bytes back exactly if the names are strictly sorted |
| `OptionLists.DecimalOption` | lib/tftp/packets/Options.ipp:19-71 | a printed number is accepted exactly if it lies in the range; only its own entry is taken out of the list |
| `OptionLists.OptionList.GetOption` | lib/tftp/packets/Options.ipp:19-71 | takes the entry out of the list of the caller and answers whether it is absent, unusable or a number in the range |
| `Packets.RoundTrip` | lib/tftp/packets/PacketHandler.cpp:28-153 | every RRQ, WRQ, DATA, ACK, ERROR and non-empty OACK whose texts are free of NUL bytes is decoded from its own bytes to equal fields and reaches its own handler |
| `Packets.ModeRoundTrip` | lib/tftp/packets/ReadWriteRequestPacket.cpp:28-70 | every transfer mode is read back from its name, and no name contains a NUL byte |
| `Packets.DispatchExactly` | lib/tftp/packets/PacketHandler.cpp:28-153 | exactly the well-formed byte strings, described without decoding them, reach the handler of their opcode; all others reach the handler for invalid packets; which opcode is whose is said in `Wire` |
| `Packets.EncodeDispatch` | lib/tftp/packets/PacketHandler.cpp:70-125 | encoding a decoded DATA, ACK or ERROR packet gives back the received bytes |
| `Packets.RequestSucceeds` | lib/tftp/packets/ReadWriteRequestPacket.cpp:161-207 | a request is accepted exactly if it ends in NUL and has an even number, at least two, of NUL bytes |
| `Wire.DataOnWire` | lib/tftp/packets/DataPacket.cpp:86-120 | DATA is 0, 3, the number and the data, byte by byte, and exactly these bytes reach the DATA handler with these fields |
| `Wire.AcknowledgementOnWire` | lib/tftp/packets/AcknowledgementPacket.cpp:61-91 | the same for ACK: 0, 4 and the number |
| `Wire.ErrorOnWire` | lib/tftp/packets/ErrorPacket.cpp:86-128 | the same for ERROR: 0, 5, the code, the message and 0 |
| `Wire.OptionsOnWire` | lib/tftp/packets/OptionsAcknowledgementPacket.cpp:66-94 | the same for OACK: 0, 6 and a non-empty option list |
| `Wire.ReadRequestOnWire` | lib/tftp/packets/ReadWriteRequestPacket.cpp:161-236 | the same for RRQ: 0, 1, file name, 0, mode, 0 and an option list |
| `Wire.WriteRequestOnWire` | lib/tftp/packets/ReadWriteRequestPacket.cpp:161-236 | the same for WRQ: 0, 2 and the rest as in an RRQ |
| `Wire.ModesOnWire` | lib/tftp/packets/ReadWriteRequestPacket.cpp:28-70 | the modes are printed as the bytes of OCTET, NETASCII and MAIL, and recognised exactly in any mix of cases |
| `Wire.NamesOnWire` | lib/tftp/packets/TftpOptions.cpp:18-36 | the option names are the bytes of blksize, timeout and tsize |
| `Wire.ParsedBytes` | lib/tftp/packets/Options.cpp:44-76 | an option list is parsed to a map exactly if it consists of NUL-ended names and values of which the map has the first of each name |
| `Wire.OrderOnWire` | lib/tftp/packets/Options.cpp:78-101 | names are ordered byte by byte, the beginning of a name before the name |
| `Wire.KnownListOnWire` | lib/tftp/packets/Options.cpp:78-101 | the printed list of negotiated options holds the block size, the timeout and the transfer size in this order, each if it is there |
| `PacketObjects.SetInt` | lib/tftp/packets/Packet.cpp:120-127 | writes two bytes, most significant first, and leaves the rest of the buffer as it is |
| `PacketObjects.Copy` | lib/tftp/packets/DataPacket.cpp:98-99 | the copying loop puts the bytes at their place and leaves the rest of the buffer as it is |
| `PacketObjects.DataPacket.EncodePacket` | lib/tftp/packets/DataPacket.cpp:86-102 | the filled buffer is the encoding of the fields |
| `PacketObjects.DataPacket.Decode` | lib/tftp/packets/DataPacket.cpp:104-120 | fails exactly on a wrong header or a short body, otherwise assigns the decoded fields |
| `PacketObjects.AcknowledgementPacket.EncodePacket` | lib/tftp/packets/AcknowledgementPacket.cpp:61-75 | the filled buffer is the encoding of the field |
| `PacketObjects.AcknowledgementPacket.Decode` | lib/tftp/packets/AcknowledgementPacket.cpp:77-91 | fails exactly on a wrong header or a body of another size, otherwise assigns the decoded field |
| `PacketObjects.ErrorPacket.EncodePacket` | lib/tftp/packets/ErrorPacket.cpp:86-102 | the filled buffer is the encoding of the fields, ended by a NUL byte |
| `PacketObjects.ErrorPacket.Decode` | lib/tftp/packets/ErrorPacket.cpp:104-128 | fails exactly on a wrong header, a short body or a missing NUL byte, otherwise assigns the decoded fields |
| `PacketObjects.OptionsAcknowledgementPacket.EncodePacket` | lib/tftp/packets/OptionsAcknowledgementPacket.cpp:66-78 | the header followed by the printed options is the encoding of the fields |
| `PacketObjects.OptionsAcknowledgementPacket.Decode` | lib/tftp/packets/OptionsAcknowledgementPacket.cpp:80-94 | fails exactly on a wrong header, an empty body or an unusable list, otherwise assigns the parsed options |
| `PacketObjects.RequestPacket.EncodePacket` | lib/tftp/packets/ReadWriteRequestPacket.cpp:209-236 | the filled buffer is the encoding of file name, mode and options |
| `PacketObjects.RequestPacket.Decode` | lib/tftp/packets/ReadWriteRequestPacket.cpp:161-207 | fails exactly where the request is not well-formed, otherwise assigns the decoded fields one after the other |
| `PacketObjects.Decode` | lib/tftp/packets/PacketHandler.cpp:28-153 | switching on the opcode and filling the packet object of that kind computes the dispatch of the bytes |
| `Negotiation.TakeKnownOptions` | lib/tftp/servers/implementation/ServerImpl.cpp:398-439 | takes the three known options out of the list of the request, one after the other, and drops unusable values |
| `Negotiation.OackAcceptance` | lib/tftp/clients/implementation/ReadOperationImpl.cpp:350-543 | the client goes on exactly if the OACK is not empty, holds only requested options, a block size from 8 to the requested one, the requested timeout and an acceptable size; it then uses the acknowledged values |
| `Negotiation.BlockSizeCode` | lib/tftp/clients/implementation/ReadOperationImpl.cpp:366-414 | an acknowledged block size is refused exactly if it cannot be used, was not asked for or is larger than asked for, with code 8 and the text for that reason |
| `Negotiation.TimeoutCode` | lib/tftp/clients/implementation/ReadOperationImpl.cpp:417-466 | the same for a timeout that is not the one asked for |
| `Negotiation.TransferSizeCode` | lib/tftp/clients/implementation/ReadOperationImpl.cpp:469-543 | a refused transfer size, or an option that is left over, has the code and the text for its reason |
| `Negotiation.RefusalCodes` | lib/tftp/clients/implementation/ReadOperationImpl.cpp:350-543 | a refused OACK has the error code 4 if it is empty, 3 if the file handler rejects the size, after block size and timeout were fine, and 8 otherwise; the status is a transfer error for an empty one, and an option negotiation error for the others |
| `Negotiation.ReadNegotiation` | lib/tftp/servers/implementation/ReadOperationImpl.cpp:109-183 | for all configurations the server of a read never refuses, both sides agree on the smaller block size or on 512, and the client accepts exactly under a condition on the configurations |
| `Negotiation.WriteNegotiation` | lib/tftp/servers/implementation/WriteOperationImpl.cpp:123-188 | the server of a write refuses exactly if it rejects the offered size; otherwise both sides agree, and the client accepts exactly under a condition on the configurations |
| `Negotiation.NumberedOnWire` | lib/tftp/packets/Options.cpp:78-101 | the known options of a request or an OACK can be printed, and are short enough for every receive buffer |
| `OackReactions.ReaderReaction` | lib/tftp/clients/implementation/ReadOperationImpl.cpp:331-550 | a reading client without a block answers an acceptable OACK with ACK 0 and takes its values; every other OACK ends it with exactly one ERROR, with code 4 for a misplaced or empty one, 3 for a rejected size and 8 for the rest |
| `OackReactions.ReaderReactsAgain` | lib/tftp/clients/implementation/ReadOperationImpl.cpp:337-348 | the same OACK again, before any DATA, is acknowledged again and changes nothing else |
| `OackReactions.WriterReaction` | lib/tftp/clients/implementation/WriteOperationImpl.cpp:296-511 | a writing client whose field for the last ACK is 65535 answers an acceptable OACK with the next data of the file under the next number, takes the acknowledged block size and timeout, and leaves that field as it is; every other OACK ends it with exactly one ERROR, with code 4 for a misplaced or empty one and 8 for the rest |
| `Operations.Operation.Send` | lib/tftp/clients/implementation/OperationImpl.cpp:167-191 | stores the packet, sets the transmit counter to 1 and hands the packet to the socket |
| `Operations.Operation.Receive` | lib/tftp/clients/implementation/OperationImpl.cpp:218-239 | starts a receive operation and arms the timer |
| `Operations.Operation.ReceiveFirst` | lib/tftp/clients/implementation/OperationImpl.cpp:193-216 | starts the first receive operation and arms the timer for the answer to the request |
| `Operations.Operation.ReceiveDally` | lib/tftp/clients/implementation/OperationImpl.cpp:241-262 | starts a receive operation and arms the timer for a repeated last packet |
| `Operations.Operation.Finished` | lib/tftp/clients/implementation/OperationImpl.cpp:264-278 | stops the timer and the socket, keeps the error information and calls the completion handler |
| `Operations.Operation.TimeoutHandler` | lib/tftp/clients/implementation/OperationImpl.cpp:458-586 | repeats the stored packet, ends after too many repetitions, and ends a dally with success |
| `Operations.Operation.ErrorHandler` | lib/tftp/clients/implementation/OperationImpl.cpp:310-340 | the status of a received ERROR depends on its code and on the stored packet, differently for client and server |
| `Operations.Operation.UnexpectedHandler` | lib/tftp/servers/implementation/OperationImpl.cpp:225-309 | a packet that no operation of this side expects is answered with an ERROR that ends the operation |
| `Operations.BufferFits` | lib/tftp/clients/implementation/ReadOperationImpl.cpp:133-145 | a DATA packet of the configured size fits into the receive buffer exactly if the block size is at most 65531, so that the 16-bit size does not wrap |
| `Senders.NextBlock` | lib/tftp/servers/implementation/ReadOperationImpl.cpp:222-237 | sending data sends the next block of the file under its number, and marks it as the last one exactly if it is |
| `SendingOperations.SendingOperation.Start` | lib/tftp/servers/implementation/ReadOperationImpl.cpp:92-196 | the start of the server of a read, option after option, of a new object or of one that was used before, has the effect of its reply to the options; block numbers and the flag for the last block stay; what a new object then uses and sends is said in `Starts` |
| `SendingOperations.SendingOperation.Request` | lib/tftp/clients/implementation/WriteOperationImpl.cpp:40-107 | the write request of the client resets the fields and sends the configured options; without the size option, a size from an earlier request stays |
| `SendingOperations.SendingOperation.SendData` | lib/tftp/clients/implementation/WriteOperationImpl.cpp:199-214 | takes the next data from the file, numbers it and sends it |
| `SendingOperations.SendingOperation.AcknowledgementPacket` | lib/tftp/clients/implementation/WriteOperationImpl.cpp:229-294 | ignores a repeated ACK, ends on a wrong one, and otherwise goes on or ends with success |
| `SendingOperations.SendingOperation.OptionsAcknowledgementPacket` | lib/tftp/clients/implementation/WriteOperationImpl.cpp:296-511 | checking the options one after the other and in place, with the accepted values applied at once, is the check of the whole OACK |
| `SendingOperations.SendingOperation.Receive` | lib/tftp/clients/implementation/OperationImpl.cpp:436-456 | received bytes reach the handler of their kind, cut off at the size of the receive buffer, and the object changes as the function of the sender says; what that is for each packet is said in `Reactions` |
| `SendingOperations.SendingOperation.Timeout` | lib/tftp/servers/implementation/OperationImpl.cpp:333-384 | the timer repeats the stored packet or ends the operation together with its file |
| `ReceivingOperations.ReceivingOperation.Start` | lib/tftp/servers/implementation/WriteOperationImpl.cpp:106-201 | the same for the server of a write, whose block number stays |
| `ReceivingOperations.ReceivingOperation.Request` | lib/tftp/clients/implementation/ReadOperationImpl.cpp:40-98 | the read request of the client resets the fields, except the flag for a received OACK, and sends the configured options with transfer size 0 |
| `ReceivingOperations.ReceivingOperation.DataPacket` | lib/tftp/clients/implementation/ReadOperationImpl.cpp:204-315 | acknowledges a repeated block, ends on a wrong or too long one, and otherwise takes it; the file always holds the concatenation of what was taken |
| `ReceivingOperations.ReceivingOperation.OptionsAcknowledgementPacket` | lib/tftp/clients/implementation/ReadOperationImpl.cpp:331-550 | checking the options one after the other and in place, with the accepted values applied at once, is the check of the whole OACK |
| `ReceivingOperations.ReceivingOperation.Receive` | lib/tftp/servers/implementation/OperationImpl.cpp:311-331 | the same for the objects that receive a file |
| `ReceivingOperations.ReceivingOperation.Timeout` | lib/tftp/clients/implementation/OperationImpl.cpp:566-586 | the timer repeats the stored packet, ends the operation, or ends a dally with success |
| `Reactions.ErrorEndsSender` | lib/tftp/servers/implementation/OperationImpl.cpp:253-281 | a received ERROR ends a sender at once and exactly once, with the information of the peer and without an answer; the status is given by role, code 8 or not, and the kind of the stored packet |
| `Reactions.ErrorEndsReceiver` | lib/tftp/clients/implementation/OperationImpl.cpp:310-340 | the same for a receiver, which delivers nothing |
| `Reactions.ErrorDatagramEnds` | lib/tftp/servers/implementation/OperationImpl.cpp:253-281 | the same for the bytes of an ERROR that reach an open operation |
| `Reactions.UnexpectedAtSender` | lib/tftp/servers/implementation/OperationImpl.cpp:225-309 | a request, an undecodable datagram, and an OACK at a server end a sender with exactly one ERROR with code 4 |
| `Reactions.UnexpectedAtReceiver` | lib/tftp/servers/implementation/OperationImpl.cpp:225-309 | the same for a receiver |
| `Reactions.DataAtSender` | lib/tftp/clients/implementation/WriteOperationImpl.cpp:216-227 | so does DATA at a sender |
| `Reactions.AcknowledgementAtReceiver` | lib/tftp/servers/implementation/WriteOperationImpl.cpp:322-334 | and an ACK at a receiver |
| `Reactions.DataAtReceiver` | lib/tftp/servers/implementation/WriteOperationImpl.cpp:227-320 | for any DATA in any state: exactly the awaited block is delivered, and only if it is not longer than agreed; it and the last one are acknowledged, a short one ends or starts a dally; a longer one and every other number end the operation with an ERROR with code 4 |
| `Reactions.AcknowledgementAtSender` | lib/tftp/servers/implementation/ReadOperationImpl.cpp:252-302 | for any ACK in any state: the number accepted last is ignored, the number sent last makes the sender send the next data of the file under the successor or succeed, every other number ends it with an ERROR with code 4 |
| `Reactions.TimeoutAtSender` | lib/tftp/servers/implementation/OperationImpl.cpp:333-384 | an expired timer repeats the stored packet and changes nothing but the counter, or ends the sender with a communication error |
| `Reactions.TimeoutAtReceiver` | lib/tftp/clients/implementation/OperationImpl.cpp:566-586 | the same for a receiver, whose dally ends with success |
| `Lifecycles.SenderLifeCycle` | lib/tftp/servers/implementation/OperationImpl.cpp:137-223 | whatever bytes arrive and whenever the timer expires, a sender has one receive operation and one timer and has sent its stored packet `counter` times in a row, at most retries+1 times, or it has been completed exactly once |
| `Lifecycles.ReceiverLifeCycle` | lib/tftp/clients/implementation/OperationImpl.cpp:140-278 | the same for a receiver |
| `Lifecycles.Silence` | lib/tftp/clients/implementation/OperationImpl.cpp:513-564 | without an answer the stored packet is sent exactly retries+1 times in all, and then the operation ends with a communication error |
| `Lifecycles.SenderStarts` | lib/tftp/servers/implementation/ReadOperationImpl.cpp:171-187 | a sender is alive after its start, or has ended if the server refuses the options |
| `Lifecycles.ReceiverStarts` | lib/tftp/servers/implementation/WriteOperationImpl.cpp:155-193 | a receiver is alive after its start, or has ended if the server refuses the size |
| `Apprentice.NoSorcerersApprentice` | lib/tftp/servers/implementation/ReadOperationImpl.cpp:222-302 | for any bytes at any time the server sends the OACK and then the blocks of the file in order, none past its end, each at most retries+1 times in a row, and no repetition without an expired timer; the total is bounded by (retries+1)(blocks+1)+1 |
| `Apprentice.BoundedExactly` | lib/tftp/servers/implementation/ReadOperationImpl.cpp:119-128 | there is a bound on what the server of a read sends exactly if it is not configured with block size 0, or the client asks for no block size, or asks with a transfer size that is refused |
| `Apprentice.Reaction` | lib/tftp/servers/implementation/ReadOperationImpl.cpp:252-302 | a server, or a client that takes no OACK, sends a new block for the acknowledgement of the current one, and for every other packet nothing or a final ERROR |
| `Negotiation.NoOackTaken` | lib/tftp/clients/implementation/WriteOperationImpl.cpp:315-500 | an OACK can only be acceptable if the client is configured with a block size of at least 8, a timeout from 1 to 255, or a size that its handler accepts |
| `Negotiation.SomeOackTaken` | lib/tftp/clients/implementation/WriteOperationImpl.cpp:315-500 | and then one that fits into every receive buffer is |
| `WriteClients.NoWritingApprentice` | lib/tftp/clients/implementation/WriteOperationImpl.cpp:229-294 | for any bytes at any time, a client of a write that takes no OACK sends the request and then the blocks of the file in order, none past its end, each at most retries+1 times in a row, and no repetition without an expired timer |
| `WriteClients.WriterBoundedExactly` | lib/tftp/clients/implementation/WriteOperationImpl.cpp:302-313 | there is a bound on what the client of a write sends exactly if its configuration makes no OACK acceptable |
| `Restarts.SuccessLeaves` | lib/tftp/servers/implementation/ReadOperationImpl.cpp:252-302 | a sender that succeeds has its flag for the last block set and both block numbers equal |
| `Restarts.ReadStartedAgain` | lib/tftp/servers/implementation/ReadOperationImpl.cpp:92-116 | started again without options after a success, the server of a read sends the first data of the file under the next number, and succeeds when that block is acknowledged |
| `Restarts.WriteStartedAgain` | lib/tftp/servers/implementation/WriteOperationImpl.cpp:106-126 | started again without options, the server of a write takes block 1 exactly if its last number was 0 or 65535, acknowledges it without taking it if that was 1, and otherwise ends with a transfer error |
| `Starts.ReadRequested` | lib/tftp/clients/implementation/ReadOperationImpl.cpp:54-91 | the client of a read sends exactly one RRQ with the configured block size, the timeout in 16 bits and transfer size 0, beside the options of the application, and waits for the first answer |
| `Starts.WriteRequested` | lib/tftp/clients/implementation/WriteOperationImpl.cpp:54-101 | the client of a write sends exactly one WRQ, with the size of its file if there is one |
| `Starts.OptionsUnderstood` | lib/tftp/servers/implementation/ServerImpl.cpp:398-439 | the server takes the block size from 8 to 65464, the timeout from 1 to 255 and any transfer size out of the list, and drops other values |
| `Starts.ReadStarts` | lib/tftp/servers/implementation/ReadOperationImpl.cpp:109-190 | the server of a read uses the block size and the timeout that its OACK says, and its own where the OACK says nothing; without anything to acknowledge it sends the first data; a transfer size that is not 0 is refused with exactly one ERROR with code 8 |
| `Starts.WriteStarts` | lib/tftp/servers/implementation/WriteOperationImpl.cpp:123-195 | the same for the server of a write, with ACK 0 for the first data, and ERROR 3 for a size that the file handler rejects |
| `Handshakes.ClientSendsRequest` | lib/tftp/clients/implementation/ReadOperationImpl.cpp:54-91 | at the start of the composed system the client has sent nothing but its request, once and once more for each repetition: an RRQ for a read, a WRQ for a write |
| `Handshakes.ServerTakesRequest` | lib/tftp/servers/implementation/ServerImpl.cpp:398-439 | the bytes of that packet fit into a datagram, reach the server as a read or a write with the same file name, mode and options, and the server understands the values that are in range |
| `Handshakes.OackSays` | lib/tftp/servers/implementation/ReadOperationImpl.cpp:119-173 | unless the server refuses, its OACK says the smaller block size, the timeout of the client in 16 bits, and the size of the file, each exactly if both sides are configured for it and the value can be used, and nothing else |
| `Handshakes.TimeoutAgreed` | lib/tftp/servers/implementation/ReadOperationImpl.cpp:130-141 | over any network and in every state, a server that does not refuse works with the timeout of the client if both sides negotiate it, and otherwise with 2 seconds; so does the client as soon as it has gone on |
| `Opening.RequestArrives` | lib/tftp/servers/implementation/ServerImpl.cpp:398-439 | the bytes of the request carry the configured options to the server |
| `Opening.SizeAgreed` | lib/tftp/servers/implementation/WriteOperationImpl.cpp:135-143 | when the client goes on, both sides hold the same block size, and it lies between 8 and 65464 |
| `Opening.UsableExactly` | lib/tftp/clients/implementation/ReadOperationImpl.cpp:350-530 | the client accepts the OACK of the server exactly if the configurations are compatible and its file handler accepts the size |
| `Honesty.StepHonest` | lib/tftp/clients/implementation/WriteOperationImpl.cpp:199-214 | every event of both operations and of any network at all keeps both sides honest: every DATA ever sent carries the data and the number of its index, every ACK the number of its index, and both sides use the agreed block size |
| `Safety.SafeUnderReordering` | lib/tftp/clients/implementation/ReadOperationImpl.cpp:204-315 | in every run that loses, repeats and reorders datagrams within the window, for all files and configurations and both directions, the delivered bytes are a prefix of the file, and success of either side means the whole file; which networks and files stay within the window by themselves is the matter of `Orderliness` and `Reorderings` |
| `Safety.StepSafe` | lib/tftp/servers/implementation/WriteOperationImpl.cpp:227-320 | every event within the window keeps the invariant of the composed system: the first blocks of the file are delivered, and success or a dally means all of them |
| `Deliveries.ReaderDelivers` | lib/tftp/clients/implementation/ReadOperationImpl.cpp:255-314 | for any bytes at any time, no block that the client of a read delivers is longer than the size it takes, and without a dally only the last one of a success is shorter |
| `Deliveries.WriterDelivers` | lib/tftp/servers/implementation/WriteOperationImpl.cpp:278-320 | the same for the server of a write, with the size it has replied with |
| `ReceiveBuffers.ReaderBufferFits` | lib/tftp/clients/implementation/ReadOperationImpl.cpp:133-145 | for any bytes at any time, the receive buffer of the client of a read has room for a DATA packet of the size it takes, in every state, exactly if the 16-bit size has not wrapped |
| `ReceiveBuffers.WriterBufferFits` | lib/tftp/servers/implementation/WriteOperationImpl.cpp:56-68 | the same for the server of a write, for any options of the request |
| `Safety.BlockDelivered` | lib/tftp/clients/implementation/ReadOperationImpl.cpp:210-253 | a block within the window is taken exactly if it is the next one; the last one again changes nothing that was delivered, and every other one ends the operation with a transfer error |
| `Safety.AcknowledgementCompletes` | lib/tftp/clients/implementation/WriteOperationImpl.cpp:235-293 | an ACK within the window moves the sender on, or ends it with success, only if it is for the current block, and ends it with success only if the receiver has the whole file |
| `Refinement.SixteenBitsSuffice` | lib/tftp/clients/implementation/ReadOperationImpl.cpp:210-253 | after a run within the window the 16-bit protocol is in the state of a stop-and-wait protocol that decides everything by unbounded indices, exactly if no OACK was taken a second time |
| `Refinement.SixteenBitsSufficeInWindow` | lib/tftp/servers/implementation/ReadOperationImpl.cpp:258-285 | for reads, and for writes without options, the window alone is enough for equal states |
| `Refinement.WindowIsTight` | lib/tftp/packets/BlockNumber.cpp:24-33 | in any safe state, a block that is exactly 65535 blocks older than the awaited one is delivered in its place, where the protocol with unbounded indices delivers nothing; `Reorderings.MoreThanOneRoundFails` is a run that gets there |
| `Aborts.LockstepMeaning` | lib/tftp/servers/implementation/ReadOperationImpl.cpp:252-302 | for a harmless transfer over a network that keeps the order, as long as no OACK reaches a client that has sent a block, the receiver has exactly the first blocks up to the block of the sender or the one before, and so are the datagrams under way; success means the whole file |
| `Lockstep.StepInLockstep` | lib/tftp/clients/implementation/ReadOperationImpl.cpp:337-348 | every event of a network that keeps the order, except an OACK that reaches a client that has sent a block, keeps both sides in lockstep and away from their error branches |
| `Aborts.AbortFreeInOrder` | lib/tftp/clients/implementation/WriteOperationImpl.cpp:302-313 | over a network that loses and duplicates but keeps the order, no run ends in an error of the protocol exactly if the configurations are harmless and a write is done without options |
| `Aborts.AbortFreeInOrderOnce` | lib/tftp/clients/implementation/WriteOperationImpl.cpp:302-313 | over a network that only loses datagrams, the same holds exactly if the configurations are harmless and the server of a write with options never repeats a packet |
| `Aborts.SecondOackFails` | lib/tftp/clients/implementation/WriteOperationImpl.cpp:302-313 | an OACK that is taken again makes the client send block 2 before block 1 is acknowledged, and the server fails on it |
| `Aborts.DuplicatedOack` | lib/tftp/clients/implementation/WriteOperationImpl.cpp:302-313 | a network that duplicates the OACK and loses the first block leads to an error of the protocol |
| `Aborts.RepeatedOack` | lib/tftp/servers/implementation/OperationImpl.cpp:350-376 | so does a server that repeats its OACK because the first block was lost |
| `Aborts.HarmfulFails` | lib/tftp/clients/implementation/ReadOperationImpl.cpp:133-145 | a transfer that is not harmless has a run of at most two events, without duplicates, that ends in an error of the protocol |
| `Barrenness.HarmfulDeliversNothing` | lib/tftp/clients/implementation/ReadOperationImpl.cpp:350-543 | whatever the network does, a transfer that is not harmless never delivers a block and never succeeds on either side |
| `Oacks.HandlerSendsNoOack` | lib/tftp/servers/implementation/WriteOperationImpl.cpp:227-334 | no handler of a receiver sends an OACK |
| `Terminations.EveryRunEnds` | lib/tftp/servers/implementation/OperationImpl.cpp:333-384 | over a network that only loses datagrams, for every request that fits into a datagram, the number of events of every run is bounded by a number computed from the start, and when nothing more can happen both operations have been completed exactly once |
| `Terminations.LongestRunInNumbers` | lib/tftp/servers/implementation/OperationImpl.cpp:350-376 | that bound, in terms of the number of blocks and the retries of both sides |
| `Terminations.EventConsumes` | lib/tftp/servers/implementation/OperationImpl.cpp:137-161 | with every event that keeps the order and repeats nothing, blocks, retries or datagrams are used up, although every new packet starts the retries anew |
| `Progress.SucceedsExactly` | lib/tftp/servers/implementation/ReadOperationImpl.cpp:252-302 | when every datagram arrives, once, in order and in time, the transfer can be run to a point where nothing more happens, and at every such point both sides have ended with success, once, and the whole file is delivered, exactly if the transfer is harmless |
| `Progress.StepOnCourse` | lib/tftp/servers/implementation/WriteOperationImpl.cpp:227-320 | in such a run there is at most one datagram under way: the next block or OACK, or the answer to the last one, and the sender ends with the answer to the last block |
| `Progress.SmoothRunOn` | lib/tftp/clients/implementation/OperationImpl.cpp:458-586 | every such run can be continued to its end, within the bound on all runs |
| `Recovery.RecoversExactly` | lib/tftp/servers/implementation/OperationImpl.cpp:350-376 | after any run of a harmless transfer over a network that only loses datagrams, in which no OACK goes to a writing client, and which has left both operations open: the run can be continued to success on both sides with the whole file exactly if the block of the sender or its answer is under way, or the sender has a retry left for its block, or the receiver one for the answer to it |
| `Recovery.StaysStuck` | lib/tftp/clients/implementation/OperationImpl.cpp:513-564 | where none of these holds, no event over such a network ever brings one of them back, and the sender never succeeds |
| `Orderliness.RunOrderly` | lib/tftp/servers/implementation/OperationImpl.cpp:350-376 | a network that only loses datagrams keeps them within the window by itself, unless the server of a write with options may repeat its OACK 65535 times |
| `Agreements.SuccessInOrder` | lib/tftp/clients/implementation/WriteOperationImpl.cpp:302-313 | over a network that loses and duplicates but keeps the order, success of either side means the whole file in every run exactly if the transfer is not a harmless write with options of a file that is not empty |
| `Agreements.SuccessInOrderOnce` | lib/tftp/clients/implementation/WriteOperationImpl.cpp:302-313 | over a network that only loses datagrams, the same holds exactly if it is not such a write with a server that may repeat a packet 65535 times |
| `Agreements.PrefixInOrder` | lib/tftp/clients/implementation/WriteOperationImpl.cpp:302-313 | over a network that loses and duplicates but keeps the order, the delivered bytes are a prefix of the file in every run exactly if the transfer is not a harmless write with options, or what follows the first 65535 blocks of the file is how the file begins |
| `Agreements.PrefixInOrderOnce` | lib/tftp/clients/implementation/WriteOperationImpl.cpp:302-313 | over a network that only loses datagrams, the same holds exactly if it is not such a write with a server that may repeat a packet 65535 times, or the file is of that kind |
| `Agreements.FragileFails` | lib/tftp/clients/implementation/WriteOperationImpl.cpp:235-313 | a run from the start, over a network that duplicates the OACK, in which the server succeeds with something that is not the file |
| `Agreements.StubbornFails` | lib/tftp/servers/implementation/OperationImpl.cpp:350-376 | a run from the start with the same result over a network that only loses datagrams, for a server that may repeat a packet 65535 times |
| `Periods.RunStepped` | lib/tftp/servers/implementation/WriteOperationImpl.cpp:233-276 | over a network that keeps the order, the delivered blocks have rising indices, and each is the awaited one or lies whole rounds of 65535 behind it |
| `Periods.PeriodicPrefix` | lib/tftp/servers/implementation/WriteOperationImpl.cpp:233-276 | so over such a network a file that goes on after 65535 blocks as it began, or is not that long, is delivered without a gap |
| `Reorderings.SuccessInAnyOrder` | lib/tftp/packets/BlockNumber.cpp:24-33 | over a network that loses, duplicates and reorders at will, success of either side means the whole file in every run exactly if the transfer is not harmless, the file is empty, or no OACK goes to a writing client and there are at most 65535 blocks, with a dally 65534 |
| `Reorderings.PrefixInAnyOrder` | lib/tftp/clients/implementation/ReadOperationImpl.cpp:210-253 | over the same network, the delivered bytes are a prefix of the file in every run exactly if the transfer is not harmless, the file is empty, or there are at most 65535 blocks and, with a dally, at most 65534 and no OACK that goes to a writing client |
| `Reorderings.OneRoundIsIdeal` | lib/tftp/clients/implementation/ReadOperationImpl.cpp:210-253 | for a harmless transfer of at most 65535 blocks, with a dally 65534, and without an OACK that goes to a writing client, every run over any network is that of the protocol with unbounded indices |
| `Reorderings.MoreThanOneRoundFails` | lib/tftp/servers/implementation/WriteOperationImpl.cpp:233-276 | a run from the start, for every harmless transfer of more blocks, after which the sender has succeeded and the receiver has more than the file |

## Left out

- Sockets, endpoints, `connect`, `bind` and their exceptions: socket calls do not fail; loss belongs to the network.
- Durations: a timer is armed or not, and may expire at any time while it is armed; the double duration of the dally
  timer is not modelled.
- Transfer identifiers, packets from a wrong source (`receiveFirstHandler`) and repeated requests that make the server
  start further operations: one client operation meets one server operation. A repeated request counts as a timeout of
  the client.
- `gracefulAbort` and `abort`, which the application calls from outside.
- The helper library of the byte encoding is not part of this model: its integers are taken as big-endian, its
  strings as copied bytes.
- `toupper` is that of the C locale.
- Negotiation handlers of the user are absent. The effects of `CheckOack`, of the replies of the server and of the
  requests are modelled with additional options, but the composed system has none.
- `StreamFile`, `NullSinkFile` and `checkFilename`: behaviour of the file system.
- Logging, texts for display, the packet statistic, the configuration, the command-line programs and the Qt model.
- `ClientImpl` and the setters of `ServerImpl`, which copy defaults.
- `Safety.SafeUnderReordering`: assumes the window of 65535 blocks; without it the exact conditions are those of
  `Agreements` and `Reorderings`.
- `Terminations.EveryRunEnds`: only for networks that do not duplicate; a network that duplicates a datagram without
  end has runs without end.
