/** The protocol constants of fs20.h and the two bit-field layouts, written
    as explicit shift/mask accessors. avr-gcc allocates bit-fields from the
    least significant bit upward, so the first declared field of a struct is
    the lowest bit of the underlying integer (or of byte 0). */
module Layout {

  /** Full FS20 datagram: six 8-bit fields, each followed by its parity bit. */
  const DatagramLength: nat := 54
  /** An FS20 datagram without the extension byte is 9 bits shorter. */
  const ShortDatagramLength: nat := 45
  /** A WS300 datagram as received: 16 nibbles and 15 markers. */
  const Ws300DatagramLength: nat := 79
  /** The bits of the WS300 layout (16 nibbles, 16 markers) held in 10 bytes. */
  const Ws300LayoutBits: nat := 80
  const Ws300Constant: bv4 := 7
  /** Bit of the WS300 flags nibble set when rain is detected. */
  const Ws300FlagWater: nat := 1
  /** Bit of the WS300 flags nibble set when the temperature is negative. */
  const Ws300FlagTemp: nat := 3
  /** Length of the receive queue. */
  const QueueLength: nat := 4

  /** Bit positions of the FS20 datagram inside the 64-bit raw buffer. */
  const PosP6: bv64 := 0
  const PosChecksum: bv64 := 1
  const PosP5: bv64 := 9
  const PosExt: bv64 := 10
  const PosP4: bv64 := 18
  const PosCmd: bv64 := 19
  const PosP3: bv64 := 27
  const PosAddr: bv64 := 28
  const PosP2: bv64 := 36
  const PosHc2: bv64 := 37
  const PosP1: bv64 := 45
  const PosHc1: bv64 := 46

  /** Bit i of a byte. */
  function BitOf(b: bv8, i: nat): bv1
    requires i < 8
  {
    ((b >> i) & 1) as bv1
  }

  /** parity_even_bit of avr-libc: 1 when the byte has an odd number of ones,
      so that the byte together with the bit has even parity. */
  function ParityEven(b: bv8): bv1 {
    BitOf(b, 0) ^ BitOf(b, 1) ^ BitOf(b, 2) ^ BitOf(b, 3)
    ^ BitOf(b, 4) ^ BitOf(b, 5) ^ BitOf(b, 6) ^ BitOf(b, 7)
  }

  /** An 8-bit running sum of five bytes (it wraps at 256). */
  function Sum8(a: bv8, b: bv8, c: bv8, d: bv8, e: bv8): bv8 {
    a + b + c + d + e
  }

  /** Number of one bits among the low n bits of a byte. */
  function OnesBelow(b: bv8, n: nat): nat
    requires n <= 8
  {
    if n == 0 then 0 else OnesBelow(b, n - 1) + BitOf(b, n - 1) as nat
  }

  /** Exclusive or of the low n bits of a byte. */
  function XorBelow(b: bv8, n: nat): bv1
    requires n <= 8
  {
    if n == 0 then 0 else XorBelow(b, n - 1) ^ BitOf(b, n - 1)
  }

  lemma {:induction false} XorBelowIsOnesParity(b: bv8, n: nat)
    requires n <= 8
    ensures XorBelow(b, n) as nat == OnesBelow(b, n) % 2
  {
    if n > 0 {
      XorBelowIsOnesParity(b, n - 1);
    }
  }

  /** The parity bit makes the number of ones even. */
  lemma ParityEvenCountsOnes(b: bv8)
    ensures ParityEven(b) as nat == OnesBelow(b, 8) % 2
    ensures (OnesBelow(b, 8) + ParityEven(b) as nat) % 2 == 0
  {
    XorBelowIsOnesParity(b, 8);
    assert XorBelow(b, 1) == BitOf(b, 0);
    assert XorBelow(b, 2) == BitOf(b, 0) ^ BitOf(b, 1);
    assert XorBelow(b, 4) == BitOf(b, 0) ^ BitOf(b, 1) ^ BitOf(b, 2) ^ BitOf(b, 3);
    assert XorBelow(b, 6) == XorBelow(b, 4) ^ BitOf(b, 4) ^ BitOf(b, 5);
    assert XorBelow(b, 8) == XorBelow(b, 6) ^ BitOf(b, 6) ^ BitOf(b, 7);
  }

  /** The structured view of the FS20 raw buffer (struct fs20_datagram_t). */
  datatype Fs20Datagram = Fs20Datagram(
    hc1: bv8, p1: bv1,
    hc2: bv8, p2: bv1,
    addr: bv8, p3: bv1,
    cmd: bv8, p4: bv1,
    ext: bv8, p5: bv1,
    checksum: bv8, p6: bv1)

  /** The 8-bit field at bit position pos of raw. */
  function Field8(raw: bv64, pos: bv64): bv8
    requires pos <= 56
  {
    ((raw >> pos) & 0xFF) as bv8
  }

  /** The 1-bit field at bit position pos of raw. */
  function Field1(raw: bv64, pos: bv64): bv1
    requires pos < 64
  {
    ((raw >> pos) & 1) as bv1
  }

  /** Reading the datagram through the union. */
  function Unpack(raw: bv64): Fs20Datagram {
    Fs20Datagram(
      Field8(raw, PosHc1), Field1(raw, PosP1),
      Field8(raw, PosHc2), Field1(raw, PosP2),
      Field8(raw, PosAddr), Field1(raw, PosP3),
      Field8(raw, PosCmd), Field1(raw, PosP4),
      Field8(raw, PosExt), Field1(raw, PosP5),
      Field8(raw, PosChecksum), Field1(raw, PosP6))
  }

  /** Writing every field of the datagram into a cleared buffer. */
  function Pack(d: Fs20Datagram): bv64 {
    ((d.hc1 as bv64) << PosHc1) | ((d.p1 as bv64) << PosP1)
    | ((d.hc2 as bv64) << PosHc2) | ((d.p2 as bv64) << PosP2)
    | ((d.addr as bv64) << PosAddr) | ((d.p3 as bv64) << PosP3)
    | ((d.cmd as bv64) << PosCmd) | ((d.p4 as bv64) << PosP4)
    | ((d.ext as bv64) << PosExt) | ((d.p5 as bv64) << PosP5)
    | ((d.checksum as bv64) << PosChecksum) | ((d.p6 as bv64) << PosP6)
  }

  /** The fields tile bits 0..53 with no gap and no overlap: packing then
      reading gives every field back ... */
  lemma UnpackPack(d: Fs20Datagram)
    ensures Unpack(Pack(d)) == d
  {
  }

  /** ... and a buffer of at most 54 bits is exactly its fields. */
  lemma PackUnpack(raw: bv64)
    requires raw >> DatagramLength == 0
    ensures Pack(Unpack(raw)) == raw
  {
  }

  /** The WS300 datagram (struct ws300_datagram_t): nibble k of the 16 and
      its trailing marker p(k+1). Nibble 0 is the constant, 1 the flags,
      2..4 temperature, 5..6 humidity, 7..9 wind, 10..12 rain counter,
      13 unknown, 14 checksum1, 15 checksum2. */
  datatype Ws300Datagram = Ws300Datagram(nibbles: seq<bv4>, markers: seq<bv1>)
  {
    predicate WellFormed() { |nibbles| == 16 && |markers| == 16 }
  }

  /** The WS300 datagram buffer: the union's uint8_t bytes[10]. */
  type Ws300Bytes = b: seq<bv8> | |b| == 10 witness [0, 0, 0, 0, 0, 0, 0, 0, 0, 0]

  const Ws300Zeroed: Ws300Bytes := [0, 0, 0, 0, 0, 0, 0, 0, 0, 0]

  /** Bit j of the datagram is bit j%8 of byte j/8. */
  function Ws300Bit(bytes: Ws300Bytes, j: nat): bv1
    requires j < Ws300LayoutBits
  {
    BitOf(bytes[j / 8], j % 8)
  }

  /** Nibble k occupies bits 5k .. 5k+3, least significant first. */
  function Ws300Nibble(bytes: Ws300Bytes, k: nat): bv4
    requires k < 16
  {
    NibbleOf(Ws300Bit(bytes, 5 * k), Ws300Bit(bytes, 5 * k + 1),
             Ws300Bit(bytes, 5 * k + 2), Ws300Bit(bytes, 5 * k + 3))
  }

  /** Four bits, least significant first, as one nibble. */
  function NibbleOf(b0: bv1, b1: bv1, b2: bv1, b3: bv1): bv4 {
    (b0 as bv4) | ((b1 as bv4) << 1) | ((b2 as bv4) << 2) | ((b3 as bv4) << 3)
  }

  /** Marker p(k+1) occupies bit 5k+4. */
  function Ws300Marker(bytes: Ws300Bytes, k: nat): bv1
    requires k < 16
  {
    Ws300Bit(bytes, 5 * k + 4)
  }

  /** Reading the datagram through the union. */
  function Ws300View(bytes: Ws300Bytes): (d: Ws300Datagram)
    ensures d.WellFormed()
  {
    Ws300Datagram(
      seq(16, k requires 0 <= k < 16 => Ws300Nibble(bytes, k)),
      seq(16, k requires 0 <= k < 16 => Ws300Marker(bytes, k)))
  }

  /** Bit j of the serialised datagram. */
  function StreamBit(d: Ws300Datagram, j: nat): bv1
    requires d.WellFormed() && j < Ws300LayoutBits
  {
    if j % 5 == 4 then d.markers[j / 5] else ((d.nibbles[j / 5] >> (j % 5)) & 1) as bv1
  }

  /** Eight bits, least significant first, as one byte. */
  function ByteOfBits(bits: seq<bv1>): bv8
    requires |bits| == 8
  {
    (bits[0] as bv8) | ((bits[1] as bv8) << 1) | ((bits[2] as bv8) << 2) | ((bits[3] as bv8) << 3)
    | ((bits[4] as bv8) << 4) | ((bits[5] as bv8) << 5) | ((bits[6] as bv8) << 6) | ((bits[7] as bv8) << 7)
  }

  lemma ByteOfBitsBit(bits: seq<bv1>, m: nat)
    requires |bits| == 8 && m < 8
    ensures BitOf(ByteOfBits(bits), m) == bits[m]
  {
  }

  /** Writing a datagram into the 10-byte buffer. */
  function Ws300Pack(d: Ws300Datagram): Ws300Bytes
    requires d.WellFormed()
  {
    seq(10, i requires 0 <= i < 10 =>
      ByteOfBits(seq(8, t requires 0 <= t < 8 => StreamBit(d, 8 * i + t))))
  }

  lemma NibbleOfBits(n: bv4, b0: bv1, b1: bv1, b2: bv1, b3: bv1)
    requires b0 == (n & 1) as bv1 && b1 == ((n >> 1) & 1) as bv1
    requires b2 == ((n >> 2) & 1) as bv1 && b3 == ((n >> 3) & 1) as bv1
    ensures n == NibbleOf(b0, b1, b2, b3)
  {
  }

  lemma Ws300PackBit(d: Ws300Datagram, j: nat)
    requires d.WellFormed() && j < Ws300LayoutBits
    ensures Ws300Bit(Ws300Pack(d), j) == StreamBit(d, j)
  {
    var i, m := j / 8, j % 8;
    var bits := seq(8, t requires 0 <= t < 8 => StreamBit(d, 8 * i + t));
    assert Ws300Pack(d)[i] == ByteOfBits(bits);
    ByteOfBitsBit(bits, m);
    assert 8 * i + m == j;
  }

  lemma Ws300PackNibbleBit(d: Ws300Datagram, k: nat, t: nat)
    requires d.WellFormed() && k < 16 && t < 4
    ensures Ws300Bit(Ws300Pack(d), 5 * k + t) == ((d.nibbles[k] >> t) & 1) as bv1
  {
    Ws300PackBit(d, 5 * k + t);
    assert (5 * k + t) / 5 == k && (5 * k + t) % 5 == t;
  }

  lemma Ws300PackNibble(d: Ws300Datagram, k: nat)
    requires d.WellFormed() && k < 16
    ensures Ws300Nibble(Ws300Pack(d), k) == d.nibbles[k]
  {
    var bytes := Ws300Pack(d);
    Ws300PackNibbleBit(d, k, 0);
    Ws300PackNibbleBit(d, k, 1);
    Ws300PackNibbleBit(d, k, 2);
    Ws300PackNibbleBit(d, k, 3);
    NibbleOfBits(d.nibbles[k], Ws300Bit(bytes, 5 * k), Ws300Bit(bytes, 5 * k + 1),
                 Ws300Bit(bytes, 5 * k + 2), Ws300Bit(bytes, 5 * k + 3));
  }

  lemma Ws300PackMarker(d: Ws300Datagram, k: nat)
    requires d.WellFormed() && k < 16
    ensures Ws300Marker(Ws300Pack(d), k) == d.markers[k]
  {
    Ws300PackBit(d, 5 * k + 4);
    assert (5 * k + 4) / 5 == k && (5 * k + 4) % 5 == 4;
  }

  /** The 16 nibbles and 16 markers tile the 80 bits of the 10-byte buffer:
      writing a datagram and reading it back gives it unchanged. */
  lemma Ws300ViewPack(d: Ws300Datagram)
    requires d.WellFormed()
    ensures Ws300View(Ws300Pack(d)) == d
  {
    var v := Ws300View(Ws300Pack(d));
    forall k | 0 <= k < 16
      ensures v.nibbles[k] == d.nibbles[k] && v.markers[k] == d.markers[k]
    {
      Ws300PackNibble(d, k);
      Ws300PackMarker(d, k);
    }
  }

  lemma NibbleOfBit(b0: bv1, b1: bv1, b2: bv1, b3: bv1, t: nat)
    requires t < 4
    ensures ((NibbleOf(b0, b1, b2, b3) >> t) & 1) as bv1 == [b0, b1, b2, b3][t]
  {
  }

  lemma ByteOfBitsOf(bits: seq<bv1>, x: bv8)
    requires |bits| == 8
    requires forall t | 0 <= t < 8 :: bits[t] == BitOf(x, t)
    ensures ByteOfBits(bits) == x
  {
    assert bits[0] == BitOf(x, 0) && bits[1] == BitOf(x, 1);
    assert bits[2] == BitOf(x, 2) && bits[3] == BitOf(x, 3);
    assert bits[4] == BitOf(x, 4) && bits[5] == BitOf(x, 5);
    assert bits[6] == BitOf(x, 6) && bits[7] == BitOf(x, 7);
  }

  lemma Ws300ViewNibbleBit(bytes: Ws300Bytes, k: nat, t: nat)
    requires k < 16 && t < 4
    ensures ((Ws300View(bytes).nibbles[k] >> t) & 1) as bv1 == Ws300Bit(bytes, 5 * k + t)
  {
    assert Ws300View(bytes).nibbles[k] == Ws300Nibble(bytes, k);
    NibbleOfBit(Ws300Bit(bytes, 5 * k), Ws300Bit(bytes, 5 * k + 1),
                Ws300Bit(bytes, 5 * k + 2), Ws300Bit(bytes, 5 * k + 3), t);
  }

  /** Bit j of the datagram read through the union is bit j of the buffer. */
  lemma Ws300ViewBit(bytes: Ws300Bytes, j: nat)
    requires j < Ws300LayoutBits
    ensures StreamBit(Ws300View(bytes), j) == Ws300Bit(bytes, j)
  {
    var k, t := j / 5, j % 5;
    assert 5 * k + t == j;
    if t < 4 {
      Ws300ViewNibbleBit(bytes, k, t);
    } else {
      assert Ws300View(bytes).markers[k] == Ws300Marker(bytes, k);
    }
  }

  lemma Ws300PackByte(d: Ws300Datagram, i: nat, x: bv8)
    requires d.WellFormed() && i < 10
    requires forall t | 0 <= t < 8 :: StreamBit(d, 8 * i + t) == BitOf(x, t)
    ensures Ws300Pack(d)[i] == x
  {
    var bits := seq(8, t requires 0 <= t < 8 => StreamBit(d, 8 * i + t));
    assert Ws300Pack(d)[i] == ByteOfBits(bits);
    ByteOfBitsOf(bits, x);
  }

  lemma Ws300PackViewByte(bytes: Ws300Bytes, i: nat)
    requires i < 10
    ensures Ws300Pack(Ws300View(bytes))[i] == bytes[i]
  {
    forall t | 0 <= t < 8
      ensures StreamBit(Ws300View(bytes), 8 * i + t) == BitOf(bytes[i], t)
    {
      Ws300ViewBit(bytes, 8 * i + t);
      assert (8 * i + t) / 8 == i && (8 * i + t) % 8 == t;
    }
    Ws300PackByte(Ws300View(bytes), i, bytes[i]);
  }

  /** The converse of Ws300ViewPack: every one of the 80 buffer bits belongs
      to a nibble or a marker, so reading any buffer as a datagram and
      writing it back gives the same ten bytes. */
  lemma Ws300PackView(bytes: Ws300Bytes)
    ensures Ws300Pack(Ws300View(bytes)) == bytes
  {
    forall i | 0 <= i < 10
      ensures Ws300Pack(Ws300View(bytes))[i] == bytes[i]
    {
      Ws300PackViewByte(bytes, i);
    }
  }
}
