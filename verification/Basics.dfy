/** Machine integers, byte strings and the small datatypes shared by all modules. */
module Basics {

  type byte = x: int | 0 <= x < 0x100
  type uint16 = x: int | 0 <= x < 0x1_0000

  /** One more than the largest value of the C++ type `unsigned long long`. */
  const UINT64_LIMIT: nat := 0x1_0000_0000_0000_0000

  type uint64 = x: int | 0 <= x < UINT64_LIMIT

  /** The contents of a `std::string`, a `std::vector<std::byte>` or a datagram. */
  type Bytes = seq<byte>

  datatype Option<+T> = None | Some(value: T) {
    function GetOr(default: T): T {
      match this
      case Some(v) => v
      case None => default
    }
  }

  /** How an operation ends. */
  datatype TransferStatus =
    | Successful | CommunicationError | RequestError | OptionNegotiationError | TransferError | Aborted

  /** The bytes of a string literal. */
  function Ascii(text: string): (bytes: Bytes)
    ensures |bytes| == |text|
  {
    seq(|text|, i requires 0 <= i < |text| => text[i] as int % 0x100)
  }

  function Min(a: int, b: int): int {
    if a <= b then a else b
  }

  function Max(a: int, b: int): int {
    if a >= b then a else b
  }
}
