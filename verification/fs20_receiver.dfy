/** The FS20/FHT receive path: the analog-comparator edge interrupt, the
    timer-0 silence interrupt, the mainloop frame check with its queue, and
    the quiet-period countdown. Each is a pure step on the fs20 part of
    fs20_global (plus the static time_old of the edge interrupt). */
module Fs20Receiver {
  import opened Timing
  import opened Layout
  import opened Results

  /** Type tags of a queued command (struct fs20_command_t.type). */
  const TypeFs20: char := 'F'
  const TypeFht: char := 'T'

  /** Checksum offsets of the two telegram families. */
  const OffsetFs20: bv8 := 0x06
  const OffsetFht: bv8 := 0x0c

  /** Length of the quiet period after a reception, in 20ms steps. */
  const QuietPeriod: nat := 6

  /** The error run that is still tolerated; one more invalid interval
      resets the receiver. */
  const ErrorLimit: nat := 4

  /** The preamble counter (null) is a 6-bit field. */
  const NullModulus: nat := 64

  /** The preamble length needed before a ONE synchronises. */
  const SyncZeros: nat := 8

  /** An entry of the receive queue (struct fs20_command_t). */
  datatype Command = Command(kind: char, hc1: bv8, hc2: bv8, addr: bv8, cmd: bv8, ext: bv8)

  const EmptyCommand: Command := Command(0 as char, 0, 0, 0, 0, 0)

  /** The fs20 part of fs20_global, with the static time_old of the edge
      interrupt. */
  datatype Fs20Channel = Fs20Channel(
    sync: bool,        // preamble n*ZERO + ONE seen
    start: bool,       // the first edge has been seen
    zeros: nat,        // preamble ZEROs counted (6-bit field)
    rec: nat,          // datagram bits received
    err: nat,          // consecutive invalid intervals while synced
    timeout: nat,      // quiet period after a reception
    raw: bv64,         // the datagram union
    timeOld: Ticks,    // the cached previous interval
    queue: seq<Command>,
    len: nat)

  /** The state fs20_init leaves behind: everything zero. */
  const InitialChannel: Fs20Channel :=
    Fs20Channel(false, false, 0, 0, 0, 0, 0, 0, seq(QueueLength, _ => EmptyCommand), 0)

  /** What every reachable state satisfies. */
  predicate Inv(ch: Fs20Channel) {
    && ch.zeros < NullModulus
    && ch.rec <= DatagramLength
    && ch.err <= ErrorLimit + 1
    && ch.timeout <= QuietPeriod
    && |ch.queue| == QueueLength
    && ch.len <= QueueLength
    && (!ch.sync ==> ch.rec == 0 && ch.raw == 0)
    && (ch.sync ==> ch.start)
  }

  lemma InitialChannelInv()
    ensures Inv(InitialChannel)
  {
  }

  // ---- the edge interrupt ----

  /** The bit a symbol contributes to raw. */
  function BitValue(s: Symbol): bv64 {
    if s == One then 1 else 0
  }

  /** raw with a symbol's bit shifted in at the bottom. */
  function Shifted(raw: bv64, s: Symbol): bv64 {
    (raw << 1) | BitValue(s)
  }

  /** The error-run reset of the synced branch. */
  function ErrorReset(ch: Fs20Channel): Fs20Channel {
    ch.(err := 0, rec := 0, timeOld := 0, raw := 0, sync := false, start := false, zeros := 0)
  }

  /** The edge interrupt once it has passed its gate; time is the interval
      after the first-edge rule has been applied. */
  function Absorb(fcpu: nat, ch: Fs20Channel, time: Ticks): Fs20Channel {
    var c := Fs20Classify(fcpu, time, ch.timeOld);
    if !ch.sync then
      match c
      case Valid(Zero) => ch.(zeros := (ch.zeros + 1) % NullModulus, timeOld := 0)
      case Valid(One) =>
        if ch.zeros >= SyncZeros then ch.(sync := true, timeOld := 0, zeros := 0)
        else ch.(timeOld := time, zeros := 0)
      case Invalid => ch.(timeOld := time)
    else
      match c
      case Valid(s) => ch.(err := 0, raw := Shifted(ch.raw, s), rec := ch.rec + 1, timeOld := 0)
      case Invalid =>
        if ch.err > ErrorLimit then ErrorReset(ch)
        else ch.(timeOld := (ch.timeOld + time) % 256, err := ch.err + 1)
  }

  /** Whether the edge interrupt looks at the FS20 state at all. */
  predicate Open(ch: Fs20Channel) {
    ch.timeout == 0 && ch.rec < DatagramLength
  }

  /** ISR(ANALOG_COMP_vect), FS20 part: measured is the timer-0 count. */
  function Edge(fcpu: nat, ch: Fs20Channel, measured: Ticks): (r: Fs20Channel)
    ensures !Open(ch) ==> r == ch
    ensures r.queue == ch.queue && r.len == ch.len && r.timeout == ch.timeout
  {
    if !Open(ch) then ch
    else
      var time := if ch.start then measured else 0;
      Absorb(fcpu, ch.(start := true), time)
  }

  /** Every edge keeps the invariant; in particular rec never passes 54. */
  lemma EdgeKeepsInv(fcpu: nat, ch: Fs20Channel, measured: Ticks)
    requires Inv(ch)
    ensures Inv(Edge(fcpu, ch, measured))
  {
  }

  /** The first edge after a reset carries no measurement: whatever the
      timer says, the interval is taken as 0, and at a clock of at least
      1 MHz it only arms the receiver. */
  lemma FirstEdgeIgnoresMeasurement(fcpu: nat, ch: Fs20Channel, m1: Ticks, m2: Ticks)
    requires Inv(ch) && Open(ch) && !ch.start && fcpu >= MinClock
    ensures Edge(fcpu, ch, m1) == Edge(fcpu, ch, m2) == ch.(start := true, timeOld := 0)
  {
    ZeroTickIsNoPulse(fcpu);
  }

  /** While unsynced, a ONE synchronises exactly when at least eight ZEROs
      were counted, and always restarts the count. */
  lemma OneSyncsAfterEightZeros(fcpu: nat, ch: Fs20Channel, time: Ticks)
    requires !ch.sync
    requires Fs20Classify(fcpu, time, ch.timeOld) == Valid(One)
    ensures Absorb(fcpu, ch, time).sync <==> ch.zeros >= SyncZeros
    ensures Absorb(fcpu, ch, time).zeros == 0
  {
  }

  /** While synced, an invalid interval is tolerated after at most four
      others; the next one resets the receiver completely. */
  lemma InvalidWhileSynced(fcpu: nat, ch: Fs20Channel, time: Ticks)
    requires ch.sync
    requires Fs20Classify(fcpu, time, ch.timeOld) == Invalid
    ensures var r := Absorb(fcpu, ch, time);
            if ch.err <= ErrorLimit then
              && r.sync && r.raw == ch.raw && r.rec == ch.rec && r.err == ch.err + 1
              && r.timeOld == (ch.timeOld + time) % 256
            else
              && !r.sync && !r.start && r.rec == 0 && r.raw == 0 && r.err == 0 && r.zeros == 0
              && r.timeOld == 0
  {
  }

  /** While unsynced, a ZERO counts one more preamble ZERO in the 6-bit
      null field (so the 64th wraps the count to 0) and clears time_old;
      nothing else changes. */
  lemma ZeroCountsPreamble(fcpu: nat, ch: Fs20Channel, time: Ticks)
    requires !ch.sync
    requires Fs20Classify(fcpu, time, ch.timeOld) == Valid(Zero)
    ensures Absorb(fcpu, ch, time) == ch.(zeros := (ch.zeros + 1) % NullModulus, timeOld := 0)
    ensures ch.zeros == NullModulus - 1 ==> Absorb(fcpu, ch, time).zeros == 0
  {
  }

  /** While unsynced, an invalid interval is only cached in time_old: the
      preamble count and everything else stay as they were. */
  lemma InvalidWhileUnsynced(fcpu: nat, ch: Fs20Channel, time: Ticks)
    requires !ch.sync
    requires Fs20Classify(fcpu, time, ch.timeOld) == Invalid
    ensures Absorb(fcpu, ch, time) == ch.(timeOld := time)
  {
  }

  /** While synced, a valid symbol appends its bit below the bits already
      received and clears the error run. */
  lemma ValidWhileSynced(fcpu: nat, ch: Fs20Channel, time: Ticks, s: Symbol)
    requires ch.sync
    requires Fs20Classify(fcpu, time, ch.timeOld) == Valid(s)
    ensures var r := Absorb(fcpu, ch, time);
            && r.sync && r.rec == ch.rec + 1 && r.err == 0 && r.timeOld == 0
            && r.raw >> 1 == ch.raw & 0x7FFF_FFFF_FFFF_FFFF
            && r.raw & 1 == BitValue(s)
  {
  }

  // ---- the silence interrupt ----

  /** A 45-bit frame (no extension byte) moved to the 54-bit layout: bits
      above the checksum and p6 go up by nine, leaving ext and p5 clear. */
  function Telescope(raw: bv64): bv64 {
    ((raw & !0x1FF) << 9) | (raw & 0x1FF)
  }

  /** How a 45-bit frame is laid out before the telescoping: received MSB
      first, so the checksum and p6 are already in place and everything
      from cmd upwards sits nine bits lower than in the full layout. */
  function ShortView(raw: bv64): Fs20Datagram {
    Fs20Datagram(
      Field8(raw, PosHc1 - 9), Field1(raw, PosP1 - 9),
      Field8(raw, PosHc2 - 9), Field1(raw, PosP2 - 9),
      Field8(raw, PosAddr - 9), Field1(raw, PosP3 - 9),
      Field8(raw, PosCmd - 9), Field1(raw, PosP4 - 9),
      0, 0,
      Field8(raw, PosChecksum), Field1(raw, PosP6))
  }

  /** Telescoping a short frame gives the datagram with a zero extension
      byte and every other field read from its 45-bit position. */
  lemma TelescopeShortFrame(raw: bv64)
    ensures Unpack(Telescope(raw)) == ShortView(raw)
  {
  }

  /** ISR(TIMER0_COMPA_vect), FS20 part: 1500us of silence. A 45-bit frame
      is completed; unless a whole datagram is held and no quiet period
      runs, reception restarts. */
  function Tick(ch: Fs20Channel): (r: Fs20Channel)
    ensures r.err == ch.err && r.timeOld == ch.timeOld && r.timeout == ch.timeout
    ensures r.queue == ch.queue && r.len == ch.len
    ensures r.rec == DatagramLength <==>
              (ch.rec == DatagramLength || ch.rec == ShortDatagramLength) && ch.timeout == 0
    ensures r.rec != DatagramLength ==> r.rec == 0 && r.raw == 0 && !r.sync && !r.start && r.zeros == 0
    ensures r.rec == DatagramLength ==>
              Unpack(r.raw) == (if ch.rec == DatagramLength then Unpack(ch.raw) else ShortView(ch.raw))
  {
    TelescopeShortFrame(ch.raw);
    var held := if ch.rec == ShortDatagramLength then ch.(raw := Telescope(ch.raw), rec := DatagramLength) else ch;
    if held.rec != DatagramLength || held.timeout > 0 then
      held.(rec := 0, raw := 0, sync := false, start := false, zeros := 0)
    else
      held
  }

  lemma TickKeepsInv(ch: Fs20Channel)
    requires Inv(ch)
    ensures Inv(Tick(ch))
  {
  }

  // ---- the mainloop check ----

  /** The sum of the six parity mismatches, as fs20_process counts them. */
  function ParityErrors(d: Fs20Datagram): nat {
    (ParityEven(d.hc1) ^ d.p1) as nat + (ParityEven(d.hc2) ^ d.p2) as nat
    + (ParityEven(d.addr) ^ d.p3) as nat + (ParityEven(d.cmd) ^ d.p4) as nat
    + (ParityEven(d.ext) ^ d.p5) as nat + (ParityEven(d.checksum) ^ d.p6) as nat
  }

  /** Every byte of the datagram carries its own even-parity bit. */
  predicate ParityMatches(d: Fs20Datagram) {
    && d.p1 == ParityEven(d.hc1) && d.p2 == ParityEven(d.hc2)
    && d.p3 == ParityEven(d.addr) && d.p4 == ParityEven(d.cmd)
    && d.p5 == ParityEven(d.ext) && d.p6 == ParityEven(d.checksum)
  }

  lemma MismatchCount(a: bv1, b: bv1)
    ensures (a ^ b) as nat == (if a == b then 0 else 1)
  {
    if a == b {
      assert a ^ b == 0;
    } else {
      assert a ^ b == 1;
    }
  }

  /** Counting the mismatches is the same as checking every parity bit. */
  lemma {:induction false} ParityErrorsZero(d: Fs20Datagram)
    ensures ParityErrors(d) == 0 <==> ParityMatches(d)
  {
    MismatchCount(ParityEven(d.hc1), d.p1);
    MismatchCount(ParityEven(d.hc2), d.p2);
    MismatchCount(ParityEven(d.addr), d.p3);
    MismatchCount(ParityEven(d.cmd), d.p4);
    MismatchCount(ParityEven(d.ext), d.p5);
    MismatchCount(ParityEven(d.checksum), d.p6);
  }

  /** cs of fs20_process: the 8-bit sum of the five data bytes. */
  function FieldSum(d: Fs20Datagram): bv8 {
    Sum8(d.hc1, d.hc2, d.addr, d.cmd, d.ext)
  }

  /** Comparing a byte with the int-width sum cs + 6 is comparing it with
      the 8-bit sum, provided that sum does not wrap ... */
  lemma IntWidthSumFs20(c: bv8, cs: bv8)
    ensures c as int == cs as int + OffsetFs20 as int <==> cs < 250 && c == cs + OffsetFs20
  {
  }

  /** ... and likewise for cs + 12. */
  lemma IntWidthSumFht(c: bv8, cs: bv8)
    ensures c as int == cs as int + OffsetFht as int <==> cs < 244 && c == cs + OffsetFht
  {
  }

  /** The type a checksum byte c announces for the field sum cs, compared
      as fs20_process writes it: at int width, without reducing cs + 6 or
      cs + 12 mod 256. */
  function KindAsWritten(c: bv8, cs: bv8): (k: Option<char>)
    ensures k == Some(TypeFs20) <==> cs < 250 && c == cs + OffsetFs20
    ensures k == Some(TypeFht) <==> cs < 244 && c == cs + OffsetFht
    ensures k.Some? ==> k.value == TypeFs20 || k.value == TypeFht
  {
    IntWidthSumFs20(c, cs);
    IntWidthSumFht(c, cs);
    if c as int == cs as int + OffsetFs20 as int then Some(TypeFs20)
    else if c as int == cs as int + OffsetFht as int then Some(TypeFht)
    else None
  }

  /** The type announced for the field sum cs with the 8-bit sum the
      protocol defines (and the sender computes). */
  function Kind(c: bv8, cs: bv8): (k: Option<char>)
    ensures k == Some(TypeFs20) <==> c - cs == OffsetFs20
    ensures k == Some(TypeFht) <==> c - cs == OffsetFht
    ensures k.Some? ==> k.value == TypeFs20 || k.value == TypeFht
  {
    if c == cs + OffsetFs20 then Some(TypeFs20)
    else if c == cs + OffsetFht then Some(TypeFht)
    else None
  }

  /** The frame check as written: parity, then the int-width checksum
      comparison. */
  function ValidateAsWritten(d: Fs20Datagram): (k: Option<char>)
    ensures k.Some? <==> ParityMatches(d) && KindAsWritten(d.checksum, FieldSum(d)).Some?
    ensures k.Some? ==> k == KindAsWritten(d.checksum, FieldSum(d))
  {
    ParityErrorsZero(d);
    if ParityErrors(d) != 0 then None else KindAsWritten(d.checksum, FieldSum(d))
  }

  /** The frame check with the 8-bit checksum: every byte has its parity
      bit, and the checksum byte is the field sum plus 6 (FS20) or plus 12
      (FHT), modulo 256. */
  function Validate(d: Fs20Datagram): (k: Option<char>)
    ensures k.Some? <==> ParityMatches(d) && Kind(d.checksum, FieldSum(d)).Some?
    ensures k.Some? ==> k == Kind(d.checksum, FieldSum(d))
  {
    ParityErrorsZero(d);
    if ParityErrors(d) != 0 then None else Kind(d.checksum, FieldSum(d))
  }

  /** Wherever the test as written accepts, the corrected test gives the
      same type; it additionally accepts the frames whose sum wraps. */
  lemma ValidateExtendsAsWritten(d: Fs20Datagram)
    ensures ValidateAsWritten(d).Some? ==> Validate(d) == ValidateAsWritten(d)
  {
    KindExtendsAsWritten(d.checksum, FieldSum(d));
  }

  lemma KindExtendsAsWritten(c: bv8, cs: bv8)
    ensures KindAsWritten(c, cs).Some? ==> Kind(c, cs) == KindAsWritten(c, cs)
  {
  }

  /** The newest entry goes in front; the oldest falls off the end. */
  function Push(q: seq<Command>, c: Command): (r: seq<Command>)
    requires |q| == QueueLength
    ensures |r| == QueueLength && r[0] == c
    ensures forall i :: 0 < i < QueueLength ==> r[i] == q[i - 1]
  {
    [c] + q[..QueueLength - 1]
  }

  /** The queue entry made from an accepted datagram. */
  function CommandOf(kind: char, d: Fs20Datagram): Command {
    Command(kind, d.hc1, d.hc2, d.addr, d.cmd, d.ext)
  }

  /** The rest of fs20_process once the datagram has been judged: an
      accepted one is queued with its kind and starts the quiet period;
      either way the receiver is cleared for the next datagram. */
  function Deliver(ch: Fs20Channel, k: Option<char>): Fs20Channel
    requires |ch.queue| == QueueLength
  {
    var pushed :=
      if k.Some? then
        ch.(queue := Push(ch.queue, CommandOf(k.value, Unpack(ch.raw))),
            len := if ch.len < QueueLength then ch.len + 1 else ch.len,
            timeout := QuietPeriod)
      else ch;
    pushed.(raw := 0, rec := 0, sync := false, zeros := 0)
  }

  /** fs20_process, FS20 part, with the checksum comparison corrected
      (see Validate). */
  function Process(ch: Fs20Channel): (r: Fs20Channel)
    requires |ch.queue| == QueueLength
    ensures ch.rec != DatagramLength ==> r == ch
    ensures ch.rec == DatagramLength ==>
              && r.rec == 0 && r.raw == 0 && !r.sync && r.zeros == 0
              && r.start == ch.start && r.err == ch.err && r.timeOld == ch.timeOld
    ensures ch.rec == DatagramLength ==>
              var k := Validate(Unpack(ch.raw));
              if k.Some? then
                && r.queue == Push(ch.queue, CommandOf(k.value, Unpack(ch.raw)))
                && r.len == (if ch.len < QueueLength then ch.len + 1 else ch.len)
                && r.timeout == QuietPeriod
              else
                r.queue == ch.queue && r.len == ch.len && r.timeout == ch.timeout
  {
    if ch.rec != DatagramLength then ch else Deliver(ch, Validate(Unpack(ch.raw)))
  }

  /** fs20_process, FS20 part, as written: the checksum comparison wraps
      (see ValidateAsWritten). */
  function ProcessAsWritten(ch: Fs20Channel): (r: Fs20Channel)
    requires |ch.queue| == QueueLength
    ensures ch.rec != DatagramLength ==> r == ch
    ensures ch.rec == DatagramLength ==>
              && r.rec == 0 && r.raw == 0 && !r.sync && r.zeros == 0
              && r.start == ch.start && r.err == ch.err && r.timeOld == ch.timeOld
    ensures ch.rec == DatagramLength ==>
              var k := ValidateAsWritten(Unpack(ch.raw));
              if k.Some? then
                && r.queue == Push(ch.queue, CommandOf(k.value, Unpack(ch.raw)))
                && r.len == (if ch.len < QueueLength then ch.len + 1 else ch.len)
                && r.timeout == QuietPeriod
              else
                r.queue == ch.queue && r.len == ch.len && r.timeout == ch.timeout
  {
    if ch.rec != DatagramLength then ch else Deliver(ch, ValidateAsWritten(Unpack(ch.raw)))
  }

  /** Whatever the firmware as written accepts, the corrected comparison
      accepts with the same kind, so the two handle it identically; the
      only difference is datagrams the firmware drops. */
  lemma ProcessExtendsAsWritten(ch: Fs20Channel)
    requires |ch.queue| == QueueLength
    ensures ValidateAsWritten(Unpack(ch.raw)).Some? ==> ProcessAsWritten(ch) == Process(ch)
    ensures ch.rec == DatagramLength && ValidateAsWritten(Unpack(ch.raw)).None? ==>
              ProcessAsWritten(ch) == Process(ch).(queue := ch.queue, len := ch.len, timeout := ch.timeout)
  {
    ValidateExtendsAsWritten(Unpack(ch.raw));
  }

  lemma ProcessKeepsInv(ch: Fs20Channel)
    requires Inv(ch)
    ensures Inv(Process(ch))
  {
  }

  /** fs20_process_timeout: the quiet period counts down to zero. */
  function ProcessTimeout(ch: Fs20Channel): (r: Fs20Channel)
    ensures r.timeout == if ch.timeout > 0 then ch.timeout - 1 else 0
    ensures r.(timeout := ch.timeout) == ch
  {
    if ch.timeout > 0 then ch.(timeout := ch.timeout - 1) else ch
  }

  lemma ProcessTimeoutKeepsInv(ch: Fs20Channel)
    requires Inv(ch)
    ensures Inv(ProcessTimeout(ch))
  {
  }
}
