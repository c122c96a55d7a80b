/** The checksum arithmetic of the FS20 sender: an 8-bit running sum
    against the same sum formed in 32 bits, where it cannot wrap. */
module ByteSum {
  /** The checksum byte fs20_send forms from the four data bytes: a
      running sum seeded with 6, in 8 bits, so it wraps at 256. */
  function ChecksumOf(hi: bv8, lo: bv8, address: bv8, command: bv8): bv8 {
    6 + (hi + lo + address + command)
  }

  /** The sum of the seed and the four data bytes, formed in 32 bits so
      that it never wraps. */
  function UnwrappedSum(hi: bv8, lo: bv8, address: bv8, command: bv8): bv32 {
    6 + hi as bv32 + lo as bv32 + address as bv32 + command as bv32
  }

  lemma WidenAdd(a: bv8, b: bv8)
    ensures (a + b) as bv32 == (a as bv32 + b as bv32) & 0xFF
  {
  }

  lemma LowByteOfSum(x: bv32, y: bv32)
    ensures ((x & 0xFF) + y) & 0xFF == (x + y) & 0xFF
  {
  }

  /** One more byte added to an 8-bit running sum keeps it the low byte of
      the unwrapped sum. */
  lemma RunningSumStep(s: bv8, b: bv8, wide: bv32)
    requires s as bv32 == wide & 0xFF
    ensures (s + b) as bv32 == (wide + b as bv32) & 0xFF
  {
    WidenAdd(s, b);
    LowByteOfSum(wide, b as bv32);
  }

  lemma SumOrder(hi: bv8, lo: bv8, address: bv8, command: bv8)
    ensures 6 + (hi + lo + address + command) == 6 + hi + lo + address + command
  {
  }

  lemma RunningSumSteps(hi: bv8, lo: bv8, address: bv8, command: bv8)
    ensures (6 + hi + lo + address + command) as bv32
            == (6 + hi as bv32 + lo as bv32 + address as bv32 + command as bv32) & 0xFF
  {
    var six: bv8 := 6;
    RunningSumStep(six, hi, 6);
    RunningSumStep(six + hi, lo, 6 + hi as bv32);
    RunningSumStep(six + hi + lo, address, 6 + hi as bv32 + lo as bv32);
    RunningSumStep(six + hi + lo + address, command, 6 + hi as bv32 + lo as bv32 + address as bv32);
  }

  /** The checksum byte is the low byte of the unwrapped sum of the same
      bytes. */
  lemma ChecksumIsLowByte(hi: bv8, lo: bv8, address: bv8, command: bv8)
    ensures ChecksumOf(hi, lo, address, command) as bv32 == UnwrappedSum(hi, lo, address, command) & 0xFF
  {
    SumOrder(hi, lo, address, command);
    RunningSumSteps(hi, lo, address, command);
  }
}
