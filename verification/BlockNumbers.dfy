/** 16-bit block numbers: the successor of 65535 is 1, so 0 is never reached again. */
module BlockNumbers {
  import opened Basics

  /** The number of block numbers in one round: 1 to 65535. */
  const PERIOD := 0xFFFF

  function Next(number: uint16): uint16 {
    if number == 0xFFFF then 1 else number + 1
  }

  /** The block number carried by the block with unbounded index `index`; index 0 is the opening of a transfer. */
  function Number(index: nat): uint16 {
    if index == 0 then 0 else (index - 1) % PERIOD + 1
  }

  /** `Next` applied `times` times. */
  function Advance(number: uint16, times: nat): uint16 {
    if times == 0 then number else Next(Advance(number, times - 1))
  }

  lemma NextNumber(index: nat)
    ensures Next(Number(index)) == Number(index + 1)
  {
    if index > 0 {
      var k := index - 1;
      assert (k + 1) % PERIOD == if k % PERIOD == PERIOD - 1 then 0 else k % PERIOD + 1;
    }
  }

  /** Counting from 0 gives the closed form, which is 0 only before the first step. */
  lemma {:induction false} AdvanceFromZero(times: nat)
    ensures Advance(0, times) == Number(times)
    ensures Advance(0, times) == 0 <==> times == 0
  {
    if times > 0 {
      AdvanceFromZero(times - 1);
      NextNumber(times - 1);
    }
  }

  /** Two blocks carry the same number exactly when their indices differ by a multiple of 65535. */
  lemma SameNumber(i: nat, j: nat)
    requires 1 <= i <= j
    ensures Number(i) == Number(j) <==> (j - i) % PERIOD == 0
  {
    var a, b := i - 1, j - 1;
    assert b - a == (b / PERIOD - a / PERIOD) * PERIOD + (b % PERIOD - a % PERIOD);
    var quotient, d := b / PERIOD - a / PERIOD, b % PERIOD - a % PERIOD;
    assert (quotient * PERIOD + d) % PERIOD == d % PERIOD;
  }

  /** Within a window of less than 65535 blocks the 16-bit comparison decides equality of indices. */
  lemma NumberInWindow(i: nat, j: nat)
    requires -PERIOD < i - j < PERIOD
    ensures Number(i) == Number(j) <==> i == j
  {
    if 1 <= i <= j {
      SameNumber(i, j);
    } else if 1 <= j <= i {
      SameNumber(j, i);
    }
  }

  /** The mutable object of the source: it converts to its value and is incremented in place. */
  class BlockNumber {
    var blockNumber: uint16

    constructor (value: uint16)
      ensures blockNumber == value
    {
      blockNumber := value;
    }

    method Assign(value: uint16)
      modifies this
      ensures blockNumber == value
    {
      blockNumber := value;
    }

    method PreIncrement() returns (value: uint16)
      modifies this
      ensures blockNumber == Next(old(blockNumber)) && value == blockNumber
    {
      blockNumber := Next(blockNumber);
      value := blockNumber;
    }

    method PostIncrement() returns (value: uint16)
      modifies this
      ensures blockNumber == Next(old(blockNumber)) && value == old(blockNumber)
    {
      value := blockNumber;
      blockNumber := Next(blockNumber);
    }
  }
}
