/** The WS300 weather-sensor receiver that shares the comparator edges with
    the FS20 receiver: its half of the edge interrupt, of the silence
    interrupt and of fs20_process. Bits arrive LSB first into the 10-byte
    buffer of the datagram union. */
module Ws300Receiver {
  import opened Timing
  import opened Layout
  import opened Weather

  /** The preamble length needed before a ONE synchronises. */
  const Ws300SyncZeros: nat := 5

  /** The error run that is still tolerated. */
  const Ws300ErrorLimit: nat := 4

  /** The ws300 part of fs20_global, with the static time_old of its half
      of the edge interrupt. */
  datatype Ws300Channel = Ws300Channel(
    sync: bool,          // preamble seen
    start: bool,         // the first edge has been seen
    zeros: nat,          // preamble ZEROs counted (the 6-bit null field)
    rec: nat,            // datagram bits received
    err: nat,            // consecutive invalid interval pairs while synced
    timeOld: Ticks,      // the cached previous interval
    bytes: Ws300Bytes,   // the datagram union
    station: Station)    // decoded readings and their age

  /** Bits at or above position j of the buffer are all clear. */
  predicate ClearFrom(bytes: Ws300Bytes, j: nat) {
    forall i :: j <= i < Ws300LayoutBits ==> Ws300Bit(bytes, i) == 0
  }

  /** What every reachable state satisfies: only the received bits can be
      set, and nothing is received before the preamble. */
  predicate Inv(ch: Ws300Channel) {
    && ch.zeros < 64
    && ch.rec <= Ws300DatagramLength
    && ch.err <= Ws300ErrorLimit + 1
    && ClearFrom(ch.bytes, ch.rec)
    && (!ch.sync ==> ch.rec == 0)
    && (ch.sync ==> ch.start)
  }

  /** The |= _BV(bit) of the edge interrupt: bit j%8 of byte j/8. */
  function SetBit(bytes: Ws300Bytes, j: nat): (r: Ws300Bytes)
    requires j < Ws300LayoutBits
  {
    bytes[j / 8 := bytes[j / 8] | (1 << (j % 8))]
  }

  lemma OrBit(b: bv8, m: nat, t: nat)
    requires m < 8 && t < 8
    ensures BitOf(b | (1 << m), t) == if t == m then 1 else BitOf(b, t)
  {
  }

  /** Setting bit j sets exactly that bit of the datagram. */
  lemma SetBitBit(bytes: Ws300Bytes, j: nat, i: nat)
    requires j < Ws300LayoutBits && i < Ws300LayoutBits
    ensures Ws300Bit(SetBit(bytes, j), i) == if i == j then 1 else Ws300Bit(bytes, i)
  {
    if i / 8 == j / 8 {
      OrBit(bytes[j / 8], j % 8, i % 8);
      assert i == j <==> i % 8 == j % 8;
    }
  }

  lemma ZeroedIsClear()
    ensures ClearFrom(Ws300Zeroed, 0)
  {
    forall i | 0 <= i < Ws300LayoutBits
      ensures Ws300Bit(Ws300Zeroed, i) == 0
    {
      assert Ws300Zeroed[i / 8] == 0;
    }
  }

  function ErrorReset(ch: Ws300Channel): Ws300Channel {
    ch.(err := 0, rec := 0, timeOld := 0, sync := false, start := false, zeros := 0, bytes := Ws300Zeroed)
  }

  /** The WS300 half of the edge interrupt once it has passed its gate. */
  function Absorb(fcpu: nat, ch: Ws300Channel, time: Ticks): Ws300Channel
    requires ch.rec < Ws300DatagramLength
  {
    var c := Ws300Classify(fcpu, ch.timeOld, time);
    if !ch.sync then
      match c
      case Valid(Zero) => ch.(zeros := (ch.zeros + 1) % 64, timeOld := 0)
      case Valid(One) =>
        if ch.zeros >= Ws300SyncZeros then ch.(sync := true, timeOld := 0, zeros := 0)
        else ch.(timeOld := time, zeros := 0)
      case Invalid => ch.(timeOld := time)
    else
      match c
      case Valid(s) =>
        ch.(bytes := if s == One then SetBit(ch.bytes, ch.rec) else ch.bytes,
            timeOld := 0, rec := ch.rec + 1, err := 0)
      case Invalid =>
        if ch.err > Ws300ErrorLimit then ErrorReset(ch)
        else ch.(timeOld := (ch.timeOld + time) % 256, err := ch.err + 1)
  }

  /** ISR(ANALOG_COMP_vect), WS300 part: it works on the timer count even
      when the FS20 part forced its own copy to 0, and stops once 79 bits
      are held. */
  function Edge(fcpu: nat, ch: Ws300Channel, measured: Ticks): (r: Ws300Channel)
    ensures ch.rec >= Ws300DatagramLength ==> r == ch
    ensures r.station == ch.station
  {
    if ch.rec >= Ws300DatagramLength then ch
    else Absorb(fcpu, ch.(start := true), if ch.start then measured else 0)
  }

  lemma EdgeKeepsInv(fcpu: nat, ch: Ws300Channel, measured: Ticks)
    requires Inv(ch)
    ensures Inv(Edge(fcpu, ch, measured))
  {
    if ch.rec < Ws300DatagramLength {
      var time := if ch.start then measured else 0;
      var c := Ws300Classify(fcpu, ch.timeOld, time);
      if ch.sync && c == Valid(One) {
        var b := SetBit(ch.bytes, ch.rec);
        forall i | ch.rec + 1 <= i < Ws300LayoutBits
          ensures Ws300Bit(b, i) == 0
        {
          SetBitBit(ch.bytes, ch.rec, i);
        }
      } else if ch.sync && c == Invalid && ch.err > Ws300ErrorLimit {
        ZeroedIsClear();
      }
    }
  }

  /** While synced, a valid pair stores its bit at position rec (set for a
      ONE, left clear for a ZERO) and touches no other bit. */
  lemma ValidWhileSynced(fcpu: nat, ch: Ws300Channel, time: Ticks, s: Symbol)
    requires Inv(ch) && ch.sync && ch.rec < Ws300DatagramLength
    requires Ws300Classify(fcpu, ch.timeOld, time) == Valid(s)
    ensures var r := Absorb(fcpu, ch, time);
            && r.rec == ch.rec + 1 && r.err == 0 && r.sync
            && Ws300Bit(r.bytes, ch.rec) == (if s == One then 1 else 0)
            && forall i :: 0 <= i < Ws300LayoutBits && i != ch.rec ==>
                 Ws300Bit(r.bytes, i) == Ws300Bit(ch.bytes, i)
  {
    if s == One {
      forall i | 0 <= i < Ws300LayoutBits
        ensures Ws300Bit(SetBit(ch.bytes, ch.rec), i) == if i == ch.rec then 1 else Ws300Bit(ch.bytes, i)
      {
        SetBitBit(ch.bytes, ch.rec, i);
      }
    }
  }

  /** While unsynced, a ONE synchronises exactly when at least five ZEROs
      were counted, and always restarts the count. */
  lemma OneSyncsAfterFiveZeros(fcpu: nat, ch: Ws300Channel, time: Ticks)
    requires !ch.sync && ch.rec < Ws300DatagramLength
    requires Ws300Classify(fcpu, ch.timeOld, time) == Valid(One)
    ensures Absorb(fcpu, ch, time).sync <==> ch.zeros >= Ws300SyncZeros
    ensures Absorb(fcpu, ch, time).zeros == 0
  {
  }

  /** While synced, the sixth invalid pair in a row resets the receiver and
      clears the buffer. */
  lemma InvalidWhileSynced(fcpu: nat, ch: Ws300Channel, time: Ticks)
    requires ch.sync && ch.rec < Ws300DatagramLength
    requires Ws300Classify(fcpu, ch.timeOld, time) == Invalid
    ensures var r := Absorb(fcpu, ch, time);
            if ch.err <= Ws300ErrorLimit then
              && r.sync && r.bytes == ch.bytes && r.rec == ch.rec && r.err == ch.err + 1
              && r.timeOld == (ch.timeOld + time) % 256
            else
              && !r.sync && !r.start && r.rec == 0 && r.bytes == Ws300Zeroed && r.zeros == 0
              && r.err == 0 && r.timeOld == 0
  {
  }

  /** While unsynced, a ZERO counts one more preamble ZERO in the 6-bit
      null field (so the 64th wraps the count to 0) and clears time_old;
      nothing else changes. */
  lemma ZeroCountsPreamble(fcpu: nat, ch: Ws300Channel, time: Ticks)
    requires !ch.sync && ch.rec < Ws300DatagramLength
    requires Ws300Classify(fcpu, ch.timeOld, time) == Valid(Zero)
    ensures Absorb(fcpu, ch, time) == ch.(zeros := (ch.zeros + 1) % 64, timeOld := 0)
    ensures ch.zeros == 63 ==> Absorb(fcpu, ch, time).zeros == 0
  {
  }

  /** While unsynced, an invalid pair is only cached in time_old. */
  lemma InvalidWhileUnsynced(fcpu: nat, ch: Ws300Channel, time: Ticks)
    requires !ch.sync && ch.rec < Ws300DatagramLength
    requires Ws300Classify(fcpu, ch.timeOld, time) == Invalid
    ensures Absorb(fcpu, ch, time) == ch.(timeOld := time)
  {
  }

  /** ISR(TIMER0_COMPA_vect), WS300 part: silence resets reception unless
      a whole datagram is held. */
  function Tick(ch: Ws300Channel): (r: Ws300Channel)
    ensures ch.rec == Ws300DatagramLength ==> r == ch
    ensures ch.rec != Ws300DatagramLength ==>
              && r.rec == 0 && !r.sync && !r.start && r.zeros == 0 && r.bytes == Ws300Zeroed
              && r.err == ch.err && r.timeOld == ch.timeOld && r.station == ch.station
  {
    if ch.rec != Ws300DatagramLength then
      ch.(rec := 0, sync := false, start := false, zeros := 0, bytes := Ws300Zeroed)
    else ch
  }

  lemma TickKeepsInv(ch: Ws300Channel)
    requires Inv(ch)
    ensures Inv(Tick(ch))
  {
    ZeroedIsClear();
  }

  /** fs20_process, WS300 part: a complete datagram is parsed, then the
      buffer and the sync state are cleared whatever the outcome. */
  function Process(ch: Ws300Channel): (r: Ws300Channel)
    ensures ch.rec != Ws300DatagramLength ==> r == ch
    ensures ch.rec == Ws300DatagramLength ==>
              && r.station == Parse(ch.bytes, ch.station)
              && r.rec == 0 && !r.sync && r.zeros == 0 && r.bytes == Ws300Zeroed
              && r.start == ch.start && r.err == ch.err
  {
    if ch.rec == Ws300DatagramLength then
      ch.(station := Parse(ch.bytes, ch.station), bytes := Ws300Zeroed, sync := false, zeros := 0, rec := 0)
    else ch
  }

  lemma ProcessKeepsInv(ch: Ws300Channel)
    requires Inv(ch)
    ensures Inv(Process(ch))
  {
    ZeroedIsClear();
  }

  /** The timer(50) job on the ws300 state. */
  function AgeChannel(ch: Ws300Channel): (r: Ws300Channel)
    ensures r.station == Age(ch.station)
    ensures r.(station := ch.station) == ch
  {
    ch.(station := Age(ch.station))
  }
}
