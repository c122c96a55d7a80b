/** From the sender to the receive queue: one repetition of fs20_send, seen
    by the edge interrupt as the lengths of its high and low phases,
    completed by the silence interrupt and checked by fs20_process, ends up
    at the head of the queue. */
module EndToEnd {
  import opened Timing
  import opened Layout
  import opened Results
  import opened Encoder
  import opened Fs20Receiver
  import ByteSum

  /** The interval a symbol's phases last: z ticks for a ZERO, o for a ONE
      (the sender keeps the line high and then low for equal times). */
  function Interval(s: Symbol, z: Ticks, o: Ticks): Ticks {
    if s == One then o else z
  }

  /** The intervals the edge interrupt measures for a list of symbols: a
      high and a low phase per symbol. */
  function HalfWaves(syms: seq<Symbol>, z: Ticks, o: Ticks): (ts: seq<Ticks>)
    ensures |ts| == 2 * |syms|
  {
    if |syms| == 0 then []
    else [Interval(syms[0], z, o), Interval(syms[0], z, o)] + HalfWaves(syms[1..], z, o)
  }

  /** The edge interrupt run over a list of timer readings. */
  function Run(fcpu: nat, ch: Fs20Channel, ts: seq<Ticks>): (r: Fs20Channel)
    ensures r.queue == ch.queue && r.len == ch.len && r.timeout == ch.timeout
    decreases |ts|
  {
    if |ts| == 0 then ch else Run(fcpu, Edge(fcpu, ch, ts[0]), ts[1..])
  }

  /** The bits of a symbol list shifted into raw, first symbol first. */
  function ShiftIn(raw: bv64, syms: seq<Symbol>): bv64
    decreases |syms|
  {
    if |syms| == 0 then raw else ShiftIn(Shifted(raw, syms[0]), syms[1..])
  }

  /** Nominal intervals that classify as intended: inside their windows,
      the ONE outside the ZERO window, at a clock where 0 is no pulse. */
  predicate GoodIntervals(fcpu: nat, z: Ticks, o: Ticks) {
    fcpu >= MinClock && PulseZero(fcpu, z) && PulseOne(fcpu, o) && !PulseZero(fcpu, o)
  }

  lemma {:induction false} RunAppend(fcpu: nat, ch: Fs20Channel, a: seq<Ticks>, b: seq<Ticks>)
    ensures Run(fcpu, ch, a + b) == Run(fcpu, Run(fcpu, ch, a), b)
    decreases |a|
  {
    if |a| == 0 {
      assert a + b == b;
    } else {
      assert (a + b)[1..] == a[1..] + b;
      RunAppend(fcpu, Edge(fcpu, ch, a[0]), a[1..], b);
    }
  }

  lemma {:induction false} HalfWavesAppend(a: seq<Symbol>, b: seq<Symbol>, z: Ticks, o: Ticks)
    ensures HalfWaves(a + b, z, o) == HalfWaves(a, z, o) + HalfWaves(b, z, o)
  {
    if |a| == 0 {
      assert a + b == b;
    } else {
      assert (a + b)[1..] == a[1..] + b;
      HalfWavesAppend(a[1..], b, z, o);
    }
  }

  lemma {:induction false} ShiftInAppend(raw: bv64, a: seq<Symbol>, b: seq<Symbol>)
    ensures ShiftIn(raw, a + b) == ShiftIn(ShiftIn(raw, a), b)
    decreases |a|
  {
    if |a| == 0 {
      assert a + b == b;
    } else {
      assert (a + b)[1..] == a[1..] + b;
      ShiftInAppend(Shifted(raw, a[0]), a[1..], b);
    }
  }

  /** Running over a symbol's two phases. */
  lemma RunPair(fcpu: nat, ch: Fs20Channel, t: Ticks, rest: seq<Ticks>)
    ensures Run(fcpu, ch, [t, t] + rest) == Run(fcpu, Edge(fcpu, Edge(fcpu, ch, t), t), rest)
  {
    assert ([t, t] + rest)[1..] == [t] + rest;
    assert ([t] + rest)[1..] == rest;
  }

  /** A symbol's first phase meets a cleared time_old and is no symbol;
      its second phase completes it. */
  lemma ClassifyPhases(fcpu: nat, z: Ticks, o: Ticks, s: Symbol)
    requires GoodIntervals(fcpu, z, o)
    ensures Fs20Classify(fcpu, Interval(s, z, o), 0) == Invalid
    ensures Fs20Classify(fcpu, Interval(s, z, o), Interval(s, z, o)) == Valid(s)
  {
    ZeroTickIsNoPulse(fcpu);
  }

  // ---- the phases of one repetition ----

  /** Before synchronisation, a ZERO's two phases count one preamble
      ZERO. */
  lemma ZeroWhileUnsynced(fcpu: nat, ch: Fs20Channel, z: Ticks)
    requires Fs20Classify(fcpu, z, 0) == Invalid && Fs20Classify(fcpu, z, z) == Valid(Zero)
    requires !ch.sync && ch.start && ch.timeOld == 0 && Open(ch) && ch.zeros + 1 < NullModulus
    ensures Edge(fcpu, Edge(fcpu, ch, z), z) == ch.(zeros := ch.zeros + 1)
  {
    var mid := ch.(timeOld := z);
    assert Edge(fcpu, ch, z) == mid;
  }

  /** ZEROs before synchronisation only count. */
  lemma {:induction false} PreamblePhase(fcpu: nat, ch: Fs20Channel, k: nat, z: Ticks, o: Ticks)
    requires GoodIntervals(fcpu, z, o)
    requires !ch.sync && ch.start && ch.timeOld == 0 && Open(ch) && ch.zeros + k < NullModulus
    ensures Run(fcpu, ch, HalfWaves(seq(k, _ => Zero), z, o)) == ch.(zeros := ch.zeros + k)
    decreases k
  {
    var zs := seq(k, _ => Zero);
    if k > 0 {
      assert zs[0] == Zero && zs[1..] == seq(k - 1, _ => Zero);
      RunPair(fcpu, ch, z, HalfWaves(zs[1..], z, o));
      ClassifyPhases(fcpu, z, o, Zero);
      ZeroWhileUnsynced(fcpu, ch, z);
      PreamblePhase(fcpu, ch.(zeros := ch.zeros + 1), k - 1, z, o);
    }
  }

  /** The ONE after at least eight ZEROs synchronises. */
  lemma SyncPhase(fcpu: nat, ch: Fs20Channel, z: Ticks, o: Ticks)
    requires GoodIntervals(fcpu, z, o)
    requires !ch.sync && ch.start && ch.timeOld == 0 && Open(ch) && SyncZeros <= ch.zeros < NullModulus
    ensures Run(fcpu, ch, HalfWaves([One], z, o)) == ch.(sync := true, zeros := 0)
  {
    ClassifyPhases(fcpu, z, o, One);
    assert HalfWaves([One], z, o) == [o, o] + [];
    RunPair(fcpu, ch, o, []);
  }

  /** Synchronised, a symbol's first phase is one tolerated error and its
      second phase shifts its bit in. */
  lemma SymbolWhileSynced(fcpu: nat, ch: Fs20Channel, s: Symbol, t: Ticks)
    requires Fs20Classify(fcpu, t, 0) == Invalid && Fs20Classify(fcpu, t, t) == Valid(s)
    requires ch.sync && ch.start && ch.timeOld == 0 && ch.timeout == 0 && ch.err <= ErrorLimit
    requires ch.rec < DatagramLength
    ensures Edge(fcpu, Edge(fcpu, ch, t), t) == ch.(raw := Shifted(ch.raw, s), rec := ch.rec + 1, err := 0)
  {
    var mid := ch.(err := ch.err + 1, timeOld := t);
    assert Edge(fcpu, ch, t) == mid;
  }

  /** Synchronised, every symbol's bit is shifted in; the first phase of
      each symbol is one tolerated error. */
  lemma {:induction false} DataPhase(fcpu: nat, ch: Fs20Channel, syms: seq<Symbol>, z: Ticks, o: Ticks)
    requires GoodIntervals(fcpu, z, o)
    requires ch.sync && ch.start && ch.timeOld == 0 && ch.timeout == 0 && ch.err <= ErrorLimit
    requires ch.rec + |syms| <= DatagramLength
    ensures Run(fcpu, ch, HalfWaves(syms, z, o)) ==
              ch.(raw := ShiftIn(ch.raw, syms), rec := ch.rec + |syms|,
                  err := if |syms| == 0 then ch.err else 0)
    decreases |syms|
  {
    if |syms| > 0 {
      var s := syms[0];
      var t := Interval(s, z, o);
      RunPair(fcpu, ch, t, HalfWaves(syms[1..], z, o));
      ClassifyPhases(fcpu, z, o, s);
      SymbolWhileSynced(fcpu, ch, s, t);
      var next := ch.(raw := Shifted(ch.raw, s), rec := ch.rec + 1, err := 0);
      DataPhase(fcpu, next, syms[1..], z, o);
    }
  }

  // ---- from symbols to the datagram ----

  /** Nine symbols of a byte put the byte and its parity bit below raw. */
  function ByteStep(raw: bv64, b: bv8): bv64 {
    (raw << 9) | ((b as bv64) << 1) | (ParityEven(b) as bv64)
  }

  function Step(raw: bv64, c: bv1): bv64 {
    (raw << 1) | (c as bv64)
  }

  /** The low n bits of b shifted in, most significant first. */
  function Accumulate(raw: bv64, b: bv8, n: nat): bv64
    requires n <= 8
    decreases n
  {
    if n == 0 then raw else Accumulate(Step(raw, BitOf(b, n - 1)), b, n - 1)
  }

  lemma {:induction false} ShiftInMsbFirst(raw: bv64, b: bv8, n: nat)
    requires n <= 8
    ensures ShiftIn(raw, MsbFirst(b, n)) == Accumulate(raw, b, n)
    decreases n
  {
    if n > 0 {
      var m := MsbFirst(b, n);
      assert m[1..] == MsbFirst(b, n - 1);
      BitOfSymbolOf(BitOf(b, n - 1));
      assert BitValue(m[0]) == BitOf(b, n - 1) as bv64;
      ShiftInMsbFirst(Step(raw, BitOf(b, n - 1)), b, n - 1);
    }
  }

  lemma EightStepsBits(raw: bv64, b: bv8)
    ensures Step(Step(Step(Step(Step(Step(Step(Step(raw, BitOf(b, 7)), BitOf(b, 6)), BitOf(b, 5)),
              BitOf(b, 4)), BitOf(b, 3)), BitOf(b, 2)), BitOf(b, 1)), BitOf(b, 0)) == (raw << 8) | (b as bv64)
  {
  }

  lemma EightSteps(raw: bv64, b: bv8)
    ensures Accumulate(raw, b, 8) == (raw << 8) | (b as bv64)
  {
    var r1 := Step(raw, BitOf(b, 7));
    var r2 := Step(r1, BitOf(b, 6));
    var r3 := Step(r2, BitOf(b, 5));
    var r4 := Step(r3, BitOf(b, 4));
    var r5 := Step(r4, BitOf(b, 3));
    var r6 := Step(r5, BitOf(b, 2));
    var r7 := Step(r6, BitOf(b, 1));
    var r8 := Step(r7, BitOf(b, 0));
    assert Accumulate(raw, b, 8) == Accumulate(r1, b, 7);
    assert Accumulate(r1, b, 7) == Accumulate(r2, b, 6);
    assert Accumulate(r2, b, 6) == Accumulate(r3, b, 5);
    assert Accumulate(r3, b, 5) == Accumulate(r4, b, 4);
    assert Accumulate(r4, b, 4) == Accumulate(r5, b, 3);
    assert Accumulate(r5, b, 3) == Accumulate(r6, b, 2);
    assert Accumulate(r6, b, 2) == Accumulate(r7, b, 1);
    assert Accumulate(r7, b, 1) == Accumulate(r8, b, 0);
    EightStepsBits(raw, b);
  }

  lemma NineBits(raw: bv64, b: bv8, q: bv1)
    ensures (((raw << 8) | (b as bv64)) << 1) | (q as bv64) == (raw << 9) | ((b as bv64) << 1) | (q as bv64)
  {
  }

  /** Shifting in the parity symbol after the eight data bits completes a
      byte step. */
  lemma ParityStep(raw: bv64, b: bv8)
    ensures Shifted((raw << 8) | (b as bv64), SymbolOf(ParityEven(b))) == ByteStep(raw, b)
  {
    var q := ParityEven(b);
    assert BitValue(SymbolOf(q)) == q as bv64;
    NineBits(raw, b, q);
  }

  lemma ShiftInByte(raw: bv64, b: bv8)
    ensures ShiftIn(raw, ByteSymbols(b)) == ByteStep(raw, b)
  {
    var p := SymbolOf(ParityEven(b));
    ShiftInAppend(raw, MsbFirst(b, 8), [p]);
    ShiftInMsbFirst(raw, b, 8);
    EightSteps(raw, b);
    var x := (raw << 8) | (b as bv64);
    assert ShiftIn(x, [p]) == ShiftIn(Shifted(x, p), []);
    ParityStep(raw, b);
  }

  /** The 45 data symbols of a telegram, shifted into a cleared raw. */
  lemma ShiftInBody(t: Telegram)
    ensures var b := TelegramBytes(t);
            ShiftIn(0, BodySymbols(t)) ==
              ByteStep(ByteStep(ByteStep(ByteStep(ByteStep(0, b[0]), b[1]), b[2]), b[3]), b[4])
  {
    var b := TelegramBytes(t);
    var s0, s1, s2, s3, s4 := ByteSymbols(b[0]), ByteSymbols(b[1]), ByteSymbols(b[2]), ByteSymbols(b[3]), ByteSymbols(b[4]);
    assert BodySymbols(t) == s0 + s1 + s2 + s3 + s4;
    ShiftInAppend(0, s0 + s1 + s2 + s3, s4);
    ShiftInAppend(0, s0 + s1 + s2, s3);
    ShiftInAppend(0, s0 + s1, s2);
    ShiftInAppend(0, s0, s1);
    ShiftInByte(0, b[0]);
    ShiftInByte(ShiftIn(0, s0), b[1]);
    ShiftInByte(ShiftIn(0, s0 + s1), b[2]);
    ShiftInByte(ShiftIn(0, s0 + s1 + s2), b[3]);
    ShiftInByte(ShiftIn(0, s0 + s1 + s2 + s3), b[4]);
  }

  /** Five bytes in a row land in the fields of the 45-bit layout. */
  lemma FiveBytes(b0: bv8, b1: bv8, b2: bv8, b3: bv8, b4: bv8)
    ensures ShortView(ByteStep(ByteStep(ByteStep(ByteStep(ByteStep(0, b0), b1), b2), b3), b4)) ==
              Fs20Datagram(b0, ParityEven(b0), b1, ParityEven(b1), b2, ParityEven(b2),
                           b3, ParityEven(b3), 0, 0, b4, ParityEven(b4))
  {
  }

  /** The datagram the receiver reconstructs from five received bytes:
      each with its parity bit, and no extension byte. */
  function DatagramOf(hi: bv8, lo: bv8, address: bv8, command: bv8, checksum: bv8): Fs20Datagram {
    Fs20Datagram(hi, ParityEven(hi), lo, ParityEven(lo), address, ParityEven(address),
                 command, ParityEven(command), 0, 0, checksum, ParityEven(checksum))
  }

  /** The datagram received from one repetition of a telegram. */
  function Received(t: Telegram): Fs20Datagram {
    DatagramOf(Hi8(t.housecode), Lo8(t.housecode), t.address, t.command, Checksum(t))
  }

  lemma BodyDatagram(t: Telegram)
    ensures ShortView(ShiftIn(0, BodySymbols(t))) == Received(t)
  {
    var b := TelegramBytes(t);
    ShiftInBody(t);
    FiveBytes(b[0], b[1], b[2], b[3], b[4]);
  }

  lemma DatagramOfParity(hi: bv8, lo: bv8, address: bv8, command: bv8, checksum: bv8)
    ensures ParityMatches(DatagramOf(hi, lo, address, command, checksum))
  {
    assert ParityEven(0) == 0;
  }

  /** The sender's checksum byte less the data sum the receiver forms
      (with extension byte 0) is the FS20 offset. */
  lemma SeedCancels(hi: bv8, lo: bv8, address: bv8, command: bv8)
    ensures ByteSum.ChecksumOf(hi, lo, address, command) - Sum8(hi, lo, address, command, 0) == OffsetFs20
  {
  }

  lemma ReceivedParity(t: Telegram)
    ensures ParityMatches(Received(t))
  {
    DatagramOfParity(Hi8(t.housecode), Lo8(t.housecode), t.address, t.command, Checksum(t));
  }

  lemma ReceivedChecksum(t: Telegram)
    ensures Received(t).checksum - FieldSum(Received(t)) == OffsetFs20
  {
    SeedCancels(Hi8(t.housecode), Lo8(t.housecode), t.address, t.command);
  }

  lemma ReceivedFields(t: Telegram)
    ensures ParityMatches(Received(t))
    ensures Received(t).checksum - FieldSum(Received(t)) == OffsetFs20
  {
    ReceivedParity(t);
    ReceivedChecksum(t);
  }

  /** Every telegram the sender builds passes the 8-bit check as an FS20
      telegram. */
  lemma ReceivedIsValid(t: Telegram)
    ensures Validate(Received(t)) == Some(TypeFs20)
  {
    ReceivedFields(t);
  }

  /** The same telegram under the int-width comparison as written: it is
      accepted only while the 8-bit sum of its data bytes stays below 250. */
  lemma ReceivedAsWritten(t: Telegram)
    ensures ValidateAsWritten(Received(t)).Some? <==> FieldSum(Received(t)) < 250
  {
    ReceivedFields(t);
  }

  /** A concrete telegram the check as written drops: housecode 0x00FA,
      address 0, command 0 has data sum 250 and checksum byte 0, and
      0 is neither 256 nor 262. */
  lemma AsWrittenDropsWrappedChecksum()
    ensures var t := Telegram(0x00FA, 0, 0);
            && Checksum(t) == 0
            && ValidateAsWritten(Received(t)).None?
            && Validate(Received(t)) == Some(TypeFs20)
  {
    var t := Telegram(0x00FA, 0, 0);
    ReceivedAsWritten(t);
    ReceivedIsValid(t);
    assert FieldSum(Received(t)) == 250;
  }

  // ---- the whole path ----

  /** The state the silence interrupt leaves when no datagram is held. */
  predicate Idle(ch: Fs20Channel) {
    && !ch.sync && !ch.start && ch.rec == 0 && ch.raw == 0 && ch.zeros == 0
    && ch.timeout == 0 && |ch.queue| == QueueLength
  }

  /** The edges of one repetition: an edge with an arbitrary reading that
      arms the receiver, both phases of the preamble and of the 45 data
      symbols, and the high phase of the trailing ZERO (its low phase ends
      in silence, not in an edge). */
  function RepetitionEdges(t: Telegram, first: Ticks, z: Ticks, o: Ticks): seq<Ticks> {
    [first] + HalfWaves(SyncSymbols(), z, o) + HalfWaves(BodySymbols(t), z, o) + [z]
  }

  lemma SyncSymbolsSplit()
    ensures SyncSymbols() == seq(PreambleZeros, _ => Zero) + [One]
  {
  }

  /** The arming edge, the twelve preamble ZEROs and the sync ONE take an
      idle receiver to the synchronised state. */
  lemma HeaderReceived(fcpu: nat, first: Ticks, z: Ticks, o: Ticks, ch: Fs20Channel)
    requires GoodIntervals(fcpu, z, o)
    requires Inv(ch) && Idle(ch)
    ensures Run(fcpu, ch, [first] + HalfWaves(SyncSymbols(), z, o)) ==
              ch.(sync := true, start := true, zeros := 0, timeOld := 0)
  {
    var zeros := seq(PreambleZeros, _ => Zero);
    var pre := HalfWaves(zeros, z, o);
    var one := HalfWaves([One], z, o);
    SyncSymbolsSplit();
    HalfWavesAppend(zeros, [One], z, o);
    assert [first] + HalfWaves(SyncSymbols(), z, o) == [first] + pre + one;
    RunAppend(fcpu, ch, [first] + pre, one);
    RunAppend(fcpu, ch, [first], pre);
    var c1 := ch.(start := true, timeOld := 0);
    FirstEdgeIgnoresMeasurement(fcpu, ch, first, 0);
    assert Run(fcpu, ch, [first]) == c1;
    PreamblePhase(fcpu, c1, PreambleZeros, z, o);
    SyncPhase(fcpu, c1.(zeros := PreambleZeros), z, o);
  }

  /** The high phase of the trailing ZERO is one tolerated error. */
  lemma TrailingEdge(fcpu: nat, ch: Fs20Channel, z: Ticks)
    requires Fs20Classify(fcpu, z, 0) == Invalid
    requires ch.sync && ch.start && ch.timeOld == 0 && Open(ch) && ch.err <= ErrorLimit
    ensures Run(fcpu, ch, [z]) == ch.(err := ch.err + 1, timeOld := z)
  {
    assert Run(fcpu, ch, [z]) == Run(fcpu, Edge(fcpu, ch, z), []);
  }

  /** The edge interrupt over one repetition leaves the 45 data bits in raw
      and an error run of one. */
  lemma RepetitionEdgesReceived(fcpu: nat, t: Telegram, first: Ticks, z: Ticks, o: Ticks, ch: Fs20Channel)
    requires GoodIntervals(fcpu, z, o)
    requires Inv(ch) && Idle(ch) && ch.err <= ErrorLimit
    ensures Run(fcpu, ch, RepetitionEdges(t, first, z, o)) ==
              ch.(sync := true, start := true, zeros := 0, timeOld := z, err := 1,
                  rec := ShortDatagramLength, raw := ShiftIn(0, BodySymbols(t)))
  {
    var head := [first] + HalfWaves(SyncSymbols(), z, o);
    var body := HalfWaves(BodySymbols(t), z, o);
    assert RepetitionEdges(t, first, z, o) == head + body + [z];
    RunAppend(fcpu, ch, head + body, [z]);
    RunAppend(fcpu, ch, head, body);
    HeaderReceived(fcpu, first, z, o, ch);
    var c3 := ch.(sync := true, start := true, zeros := 0, timeOld := 0);
    DataPhase(fcpu, c3, BodySymbols(t), z, o);
    var c4 := c3.(raw := ShiftIn(0, BodySymbols(t)), rec := ShortDatagramLength, err := 0);
    ClassifyPhases(fcpu, z, o, Zero);
    TrailingEdge(fcpu, c4, z);
  }

  /** One repetition of fs20_send, received from an idle receiver whose
      error run is at most four, then followed by silence and the mainloop
      check: the telegram is at the head of the queue as an FS20 command
      with extension byte 0, the queue grows by one up to its capacity, and
      the quiet period starts. */
  lemma TransmissionReceived(fcpu: nat, t: Telegram, first: Ticks, z: Ticks, o: Ticks, ch: Fs20Channel)
    requires GoodIntervals(fcpu, z, o)
    requires Inv(ch) && Idle(ch) && ch.err <= ErrorLimit
    ensures var r := Process(Tick(Run(fcpu, ch, RepetitionEdges(t, first, z, o))));
            && r.queue == Push(ch.queue, Command(TypeFs20, Hi8(t.housecode), Lo8(t.housecode),
                                                 t.address, t.command, 0))
            && r.len == (if ch.len < QueueLength then ch.len + 1 else ch.len)
            && r.timeout == QuietPeriod
            && !r.sync && r.rec == 0
  {
    RepetitionEdgesReceived(fcpu, t, first, z, o, ch);
    BodyDatagram(t);
    ReceivedIsValid(t);
  }

  /** TransmissionReceived for fs20_process as written: the telegram is
      queued exactly when the 8-bit sum of its data bytes (with extension
      byte 0) is below 250; otherwise its wrapped checksum is refused and
      the queue, its length and the quiet period stay as they were. */
  lemma TransmissionReceivedAsWritten(fcpu: nat, t: Telegram, first: Ticks, z: Ticks, o: Ticks, ch: Fs20Channel)
    requires GoodIntervals(fcpu, z, o)
    requires Inv(ch) && Idle(ch) && ch.err <= ErrorLimit
    ensures var r := ProcessAsWritten(Tick(Run(fcpu, ch, RepetitionEdges(t, first, z, o))));
            var sum := Sum8(Hi8(t.housecode), Lo8(t.housecode), t.address, t.command, 0);
            && !r.sync && r.rec == 0
            && (sum < 250 ==>
                  && r.queue == Push(ch.queue, Command(TypeFs20, Hi8(t.housecode), Lo8(t.housecode),
                                                       t.address, t.command, 0))
                  && r.len == (if ch.len < QueueLength then ch.len + 1 else ch.len)
                  && r.timeout == QuietPeriod)
            && (sum >= 250 ==> r.queue == ch.queue && r.len == ch.len && r.timeout == ch.timeout)
  {
    RepetitionEdgesReceived(fcpu, t, first, z, o, ch);
    BodyDatagram(t);
    ReceivedIsValid(t);
    ReceivedAsWritten(t);
    ReceivedFields(t);
    ProcessExtendsAsWritten(Tick(Run(fcpu, ch, RepetitionEdges(t, first, z, o))));
  }
}
