/** ws300_parse_datagram: the checks a received WS300 datagram must pass and
    the decoding of its BCD readings into the ws300 part of fs20_global. */
module Weather {
  import opened Layout
  import opened Results

  /** Nibbles 0 .. 14 (constant up to checksum1) are covered by both
      checksums; nibble 15 is checksum2. */
  const Checked: nat := 15

  /** The constant added to the nibble sum before it is cut to 4 bits. */
  const SumOffset: nat := 5

  /** Indices of the nibbles, as in struct ws300_datagram_t. */
  const NConstant: nat := 0
  const NFlags: nat := 1
  const NTemp1: nat := 2
  const NTemp2: nat := 3
  const NTemp3: nat := 4
  const NHygro1: nat := 5
  const NHygro2: nat := 6
  const NWind1: nat := 7
  const NWind2: nat := 8
  const NWind3: nat := 9
  const NRain1: nat := 10
  const NRain2: nat := 11
  const NRain3: nat := 12
  const NChecksum1: nat := 14
  const NChecksum2: nat := 15

  /** Why a datagram is rejected, in the order the checks are made. */
  datatype Failure = MarkerMissing | WrongConstant | BadXor | BadSum

  /** Exclusive or of the first n nibbles. */
  function XorOf(ns: seq<bv4>, n: nat): bv4
    requires n <= |ns|
  {
    if n == 0 then 0 else XorOf(ns, n - 1) ^ ns[n - 1]
  }

  /** Sum of the first n nibbles. */
  function SumOf(ns: seq<bv4>, n: nat): nat
    requires n <= |ns|
  {
    if n == 0 then 0 else SumOf(ns, n - 1) + ns[n - 1] as nat
  }

  lemma {:induction false} XorOfPrefix(a: seq<bv4>, b: seq<bv4>, n: nat)
    requires n <= |a| && n <= |b| && a[..n] == b[..n]
    ensures XorOf(a, n) == XorOf(b, n)
  {
    if n > 0 {
      assert a[..n - 1] == a[..n][..n - 1];
      assert b[..n - 1] == b[..n][..n - 1];
      assert a[n - 1] == a[..n][n - 1];
      assert b[n - 1] == b[..n][n - 1];
      XorOfPrefix(a, b, n - 1);
    }
  }

  lemma {:induction false} SumOfPrefix(a: seq<bv4>, b: seq<bv4>, n: nat)
    requires n <= |a| && n <= |b| && a[..n] == b[..n]
    ensures SumOf(a, n) == SumOf(b, n)
  {
    if n > 0 {
      assert a[..n - 1] == a[..n][..n - 1];
      assert b[..n - 1] == b[..n][..n - 1];
      assert a[n - 1] == a[..n][n - 1];
      assert b[n - 1] == b[..n][n - 1];
      SumOfPrefix(a, b, n - 1);
    }
  }

  /** The 4-bit value checksum2 must have: the low four bits of the 8-bit
      nibble sum plus 5. */
  function SumCheck(ns: seq<bv4>): (v: nat)
    requires |ns| >= Checked
    ensures v < 16
  {
    (SumOf(ns, Checked) % 256 + SumOffset) % 16
  }

  /** The checks of ws300_parse_datagram, in order; the first that fails
      is reported. Marker p16 is not examined. */
  function Check(d: Ws300Datagram): (r: Result<(), Failure>)
    requires d.WellFormed()
    ensures r.Ok? <==>
              && (forall k :: 0 <= k < Checked ==> d.markers[k] == 1)
              && d.nibbles[NConstant] == Ws300Constant
              && XorOf(d.nibbles, Checked) == 0
              && SumCheck(d.nibbles) == d.nibbles[NChecksum2] as nat
  {
    if exists k :: 0 <= k < Checked && d.markers[k] != 1 then Err(MarkerMissing)
    else if d.nibbles[NConstant] != Ws300Constant then Err(WrongConstant)
    else if XorOf(d.nibbles, Checked) != 0 then Err(BadXor)
    else if SumCheck(d.nibbles) != d.nibbles[NChecksum2] as nat then Err(BadSum)
    else Ok(())
  }

  /** An int8_t store: the value modulo 256, read as two's complement. */
  function Int8(x: int): (r: int)
    ensures -128 <= r < 128
    ensures (r - x) % 256 == 0
  {
    (x + 128) % 256 - 128
  }

  lemma Int8Exact(x: int)
    requires -128 <= x < 128
    ensures Int8(x) == x
  {
  }

  /** A uint8_t or uint16_t store. */
  function Unsigned(x: int, bits: nat): (r: nat)
    requires bits == 8 || bits == 16
    ensures r < (if bits == 8 then 256 else 65536)
  {
    if bits == 8 then x % 256 else x % 65536
  }

  lemma UnsignedExact(x: nat, bits: nat)
    requires bits == 8 || bits == 16
    requires x < (if bits == 8 then 256 else 65536)
    ensures Unsigned(x, bits) == x
  {
  }

  /** The decoded readings of one datagram. */
  datatype Reading = Reading(
    temp: int,        // int8_t, whole degrees, sign from the flags
    tempFrac: bv4,    // tenths of a degree
    rain: bool,       // water detected
    rainValue: nat,   // rain counter, uint16_t
    hygro: nat,       // relative humidity, uint8_t
    wind: nat,        // wind speed, uint8_t
    windFrac: bv4)    // tenths of wind speed

  /** Two BCD digits, least significant first, by their places. */
  function Places2(lo: bv4, hi: bv4): nat {
    lo as nat + 10 * hi as nat
  }

  /** Three BCD digits, least significant first, by their places. */
  function Places3(lo: bv4, mid: bv4, hi: bv4): nat {
    lo as nat + 10 * mid as nat + 100 * hi as nat
  }

  /** The temperature store: the two digits go into an int8_t, which is
      negated (again as an int8_t) when bit 3 of the flags is set. */
  function Temperature(flags: bv4, lo: bv4, hi: bv4): (r: int)
    ensures -128 <= r < 128
  {
    var magnitude := Int8(Places2(lo, hi));
    if flags & 8 != 0 then Int8(-magnitude) else magnitude
  }

  /** The readings ws300_parse_datagram stores, with the store widths. */
  function Decode(d: Ws300Datagram): (r: Reading)
    requires d.WellFormed()
    ensures -128 <= r.temp < 128 && r.rainValue < 65536 && r.hygro < 256 && r.wind < 256
  {
    var n := d.nibbles;
    Reading(
      Temperature(n[NFlags], n[NTemp2], n[NTemp3]),
      n[NTemp1],
      n[NFlags] & 2 != 0,
      Unsigned(Places3(n[NRain1], n[NRain2], n[NRain3]), 16),
      Unsigned(Places2(n[NHygro1], n[NHygro2]), 8),
      Unsigned(Places2(n[NWind2], n[NWind3]), 8),
      n[NWind1])
  }

  /** The decoded part of the ws300 state and its age counter. */
  datatype Station = Station(reading: Reading, lastUpdate: nat)

  /** ws300_parse_datagram on the 10-byte buffer: an accepted datagram
      replaces the readings and restarts the age counter; a rejected one
      changes nothing. */
  function Parse(bytes: Ws300Bytes, st: Station): (r: Station)
    ensures Check(Ws300View(bytes)).Err? ==> r == st
    ensures Check(Ws300View(bytes)).Ok? ==> r == Station(Decode(Ws300View(bytes)), 0)
    ensures r == st || r.lastUpdate == 0
  {
    var d := Ws300View(bytes);
    if Check(d).Ok? then Station(Decode(d), 0) else st
  }

  /** The timer(50) job: one more second since the last update; the
      counter is a uint16_t, so 65535 wraps to 0. */
  function Age(st: Station): (r: Station)
    ensures r.reading == st.reading
    ensures st.lastUpdate < 65535 ==> r.lastUpdate == st.lastUpdate + 1
    ensures st.lastUpdate == 65535 ==> r.lastUpdate == 0
  {
    st.(lastUpdate := (st.lastUpdate + 1) % 65536)
  }

  // ---- the partner: building the datagrams that pass ----

  function NibbleOfValue(v: nat): (n: bv4)
    requires v < 16
    ensures n as nat == v
  {
    v as bv4
  }

  /** The datagram a sensor sends for the thirteen payload nibbles (flags
      up to unknown): the constant in front, checksum1 making the XOR zero,
      checksum2 from the sum, every marker set but the unchecked p16. */
  function Seal(payload: seq<bv4>, p16: bv1): (d: Ws300Datagram)
    requires |payload| == 13
    ensures d.WellFormed()
    ensures d.nibbles[1..14] == payload && d.markers[15] == p16
  {
    var head := [Ws300Constant] + payload;
    var withXor := head + [XorOf(head, 14)];
    var nibbles := withXor + [NibbleOfValue(SumCheck(withXor))];
    assert nibbles[1..14] == payload;
    Ws300Datagram(nibbles, seq(15, _ => 1) + [p16])
  }

  /** Every sealed datagram passes all four checks ... */
  lemma SealPasses(payload: seq<bv4>, p16: bv1)
    requires |payload| == 13
    ensures Check(Seal(payload, p16)).Ok?
  {
    var d := Seal(payload, p16);
    var head := [Ws300Constant] + payload;
    var withXor := head + [XorOf(head, 14)];
    assert d.nibbles[..14] == head[..14];
    XorOfPrefix(d.nibbles, head, 14);
    assert XorOf(d.nibbles, Checked) == XorOf(head, 14) ^ XorOf(head, 14);
    assert d.nibbles[..15] == withXor[..15];
    SumOfPrefix(d.nibbles, withXor, 15);
    assert forall k :: 0 <= k < Checked ==> d.markers[k] == 1;
  }

  lemma XorSelf(a: bv4, b: bv4)
    ensures a ^ b == 0 <==> a == b
  {
  }

  /** ... and every datagram that passes them is the sealed form of its own
      payload: the checks accept exactly the sealed datagrams. */
  lemma PassingIsSealed(d: Ws300Datagram)
    requires d.WellFormed() && Check(d).Ok?
    ensures d == Seal(d.nibbles[1..14], d.markers[15])
  {
    var s := Seal(d.nibbles[1..14], d.markers[15]);
    var head := [Ws300Constant] + d.nibbles[1..14];
    var withXor := head + [XorOf(head, 14)];
    assert head == d.nibbles[..14];
    XorOfPrefix(d.nibbles, head, 14);
    XorSelf(XorOf(d.nibbles, 14), d.nibbles[14]);
    assert withXor == d.nibbles[..15];
    SumOfPrefix(d.nibbles, withXor, 15);
    assert s.nibbles == d.nibbles;
    assert s.markers == d.markers;
  }

  /** Two digits are at most 165 and three at most 1665, so a uint8_t
      holds the former and a uint16_t the latter. */
  lemma PlacesBounds(a: bv4, b: bv4, c: bv4)
    ensures Places2(a, b) <= 165 && Places3(a, b, c) <= 1665
  {
    assert a as nat < 16 && b as nat < 16 && c as nat < 16;
  }

  /** The unsigned readings never exceed their store width. */
  lemma DecodeUnsigned(d: Ws300Datagram)
    requires d.WellFormed()
    ensures var r := Decode(d);
            var n := d.nibbles;
            && r.tempFrac == n[NTemp1] && r.windFrac == n[NWind1]
            && r.rain == (n[NFlags] & 2 != 0)
            && r.hygro == Places2(n[NHygro1], n[NHygro2])
            && r.wind == Places2(n[NWind2], n[NWind3])
            && r.rainValue == Places3(n[NRain1], n[NRain2], n[NRain3])
  {
    var n := d.nibbles;
    PlacesBounds(n[NHygro1], n[NHygro2], 0);
    UnsignedExact(Places2(n[NHygro1], n[NHygro2]), 8);
    PlacesBounds(n[NWind2], n[NWind3], 0);
    UnsignedExact(Places2(n[NWind2], n[NWind3]), 8);
    PlacesBounds(n[NRain1], n[NRain2], n[NRain3]);
    UnsignedExact(Places3(n[NRain1], n[NRain2], n[NRain3]), 16);
  }

  /** What a sealed datagram decodes to: the payload's digits, read in BCD
      and weighted by their places. */
  lemma SealDecodes(payload: seq<bv4>, p16: bv1)
    requires |payload| == 13
    ensures var r := Decode(Seal(payload, p16));
            && r.tempFrac == payload[NTemp1 - 1] && r.windFrac == payload[NWind1 - 1]
            && r.rain == (payload[NFlags - 1] & 2 != 0)
            && r.hygro == Places2(payload[NHygro1 - 1], payload[NHygro2 - 1])
            && r.wind == Places2(payload[NWind2 - 1], payload[NWind3 - 1])
            && r.rainValue == Places3(payload[NRain1 - 1], payload[NRain2 - 1], payload[NRain3 - 1])
  {
    var d := Seal(payload, p16);
    var n := d.nibbles;
    DecodeUnsigned(d);
    assert n[1..14] == payload;
    assert n[NFlags] == payload[0] && n[NTemp1] == payload[1];
    assert n[NHygro1] == payload[4] && n[NHygro2] == payload[5];
    assert n[NWind1] == payload[6] && n[NWind2] == payload[7] && n[NWind3] == payload[8];
    assert n[NRain1] == payload[9] && n[NRain2] == payload[10] && n[NRain3] == payload[11];
  }

  /** Proper BCD digits give a magnitude below 100, so neither int8_t
      store wraps and the flag only chooses the sign. */
  lemma TemperatureBcd(flags: bv4, lo: bv4, hi: bv4)
    requires lo as nat <= 9 && hi as nat <= 9
    ensures Places2(lo, hi) <= 99
    ensures Temperature(flags, lo, hi) == if flags & 8 != 0 then -(Places2(lo, hi) as int) else Places2(lo, hi)
  {
    var m: int := Places2(lo, hi);
    Int8Exact(m);
    Int8Exact(-m);
  }

  lemma PlacesBcd(a: bv4, b: bv4, c: bv4)
    requires a as nat <= 9 && b as nat <= 9 && c as nat <= 9
    ensures Places2(a, b) <= 99 && Places3(a, b, c) <= 999
  {
  }

  lemma DecodeBcd(d: Ws300Datagram)
    requires d.WellFormed()
    requires forall k :: NTemp1 <= k <= NRain3 ==> d.nibbles[k] as nat <= 9
    ensures var r := Decode(d);
            var n := d.nibbles;
            var magnitude := Places2(n[NTemp2], n[NTemp3]);
            && magnitude <= 99
            && r.temp == (if n[NFlags] & 8 != 0 then -(magnitude as int) else magnitude)
            && r.hygro == Places2(n[NHygro1], n[NHygro2]) <= 99
            && r.wind == Places2(n[NWind2], n[NWind3]) <= 99
            && r.rainValue == Places3(n[NRain1], n[NRain2], n[NRain3]) <= 999
  {
    var n := d.nibbles;
    DecodeUnsigned(d);
    assert n[NTemp2] as nat <= 9 && n[NTemp3] as nat <= 9;
    TemperatureBcd(n[NFlags], n[NTemp2], n[NTemp3]);
    assert n[NHygro1] as nat <= 9 && n[NHygro2] as nat <= 9;
    PlacesBcd(n[NHygro1], n[NHygro2], 0);
    assert n[NWind2] as nat <= 9 && n[NWind3] as nat <= 9;
    PlacesBcd(n[NWind2], n[NWind3], 0);
    assert n[NRain1] as nat <= 9 && n[NRain2] as nat <= 9 && n[NRain3] as nat <= 9;
    PlacesBcd(n[NRain1], n[NRain2], n[NRain3]);
  }

  /** Without the BCD restriction the int8_t store does wrap: temperature
      digits 5 and 15 would be 155 degrees but are stored as -101. */
  lemma TemperatureWrapsOutsideBcd()
    ensures Temperature(0, 5, 0xF) == -101
  {
  }
}
