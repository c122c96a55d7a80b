/** fs20_global as a whole: the FS20 and WS300 receivers side by side,
    driven by the five events of the firmware (a comparator edge, the
    silence interrupt, the mainloop, the 1-tick timer and the 50-tick
    timer). Each event is one atomic step. */
module Radio {
  import opened Timing
  import opened Layout
  import opened Weather
  import F = Fs20Receiver
  import W = Ws300Receiver

  datatype Global = Global(fs20: F.Fs20Channel, ws300: W.Ws300Channel)

  /** What the firmware reacts to. An edge carries the timer-0 count. */
  datatype Event = EdgeAt(measured: Ticks) | Silence | Mainloop | Timer1 | Timer50

  const NoReading: Reading := Reading(0, 0, false, 0, 0, 0, 0)

  /** The state fs20_init leaves behind: both parts zeroed. */
  const Initial: Global :=
    Global(F.InitialChannel, W.Ws300Channel(false, false, 0, 0, 0, 0, Ws300Zeroed, Station(NoReading, 0)))

  /** Both halves keep their own invariant; the age counter is a uint16_t. */
  predicate Inv(g: Global) {
    F.Inv(g.fs20) && W.Inv(g.ws300) && g.ws300.station.lastUpdate < 65536
  }

  lemma InitialInv()
    ensures Inv(Initial)
  {
    F.InitialChannelInv();
    W.ZeroedIsClear();
  }

  /** One event. The edge interrupt runs its FS20 part and then its WS300
      part on the same timer count; the silence interrupt and the mainloop
      likewise run both parts. */
  function Step(fcpu: nat, g: Global, e: Event): (r: Global)
    requires |g.fs20.queue| == QueueLength
    ensures e.Timer1? || e.Timer50? ==> r.fs20.rec == g.fs20.rec && r.ws300.rec == g.ws300.rec
    ensures !e.Mainloop? ==> r.fs20.queue == g.fs20.queue && r.fs20.len == g.fs20.len
    ensures !e.Timer50? && !e.Mainloop? ==> r.ws300.station == g.ws300.station
  {
    match e
    case EdgeAt(m) => Global(F.Edge(fcpu, g.fs20, m), W.Edge(fcpu, g.ws300, m))
    case Silence => Global(F.Tick(g.fs20), W.Tick(g.ws300))
    case Mainloop => Global(F.Process(g.fs20), W.Process(g.ws300))
    case Timer1 => g.(fs20 := F.ProcessTimeout(g.fs20))
    case Timer50 => g.(ws300 := W.AgeChannel(g.ws300))
  }

  /** Every event keeps the invariant. */
  lemma StepKeepsInv(fcpu: nat, g: Global, e: Event)
    requires Inv(g)
    ensures Inv(Step(fcpu, g, e))
  {
    match e
    case EdgeAt(m) =>
      F.EdgeKeepsInv(fcpu, g.fs20, m);
      W.EdgeKeepsInv(fcpu, g.ws300, m);
    case Silence =>
      F.TickKeepsInv(g.fs20);
      W.TickKeepsInv(g.ws300);
    case Mainloop =>
      F.ProcessKeepsInv(g.fs20);
      W.ProcessKeepsInv(g.ws300);
    case Timer1 =>
      F.ProcessTimeoutKeepsInv(g.fs20);
    case Timer50 =>
  }

  /** A run of events, first event first. */
  function Steps(fcpu: nat, g: Global, es: seq<Event>): Global
    requires Inv(g)
    decreases |es|
  {
    if |es| == 0 then g
    else
      StepKeepsInv(fcpu, g, es[0]);
      Steps(fcpu, Step(fcpu, g, es[0]), es[1..])
  }

  /** Whatever happens, the invariant holds afterwards. */
  lemma {:induction false} StepsKeepInv(fcpu: nat, g: Global, es: seq<Event>)
    requires Inv(g)
    ensures Inv(Steps(fcpu, g, es))
    decreases |es|
  {
    if |es| > 0 {
      StepKeepsInv(fcpu, g, es[0]);
      StepsKeepInv(fcpu, Step(fcpu, g, es[0]), es[1..]);
    }
  }

  /** From power-up, the receivers never hold more bits than a datagram
      has, the queue never claims more than four entries and the age
      counter stays a uint16_t. */
  lemma Reachable(fcpu: nat, es: seq<Event>)
    ensures var g := Steps(fcpu, Initial, es);
            && g.fs20.rec <= DatagramLength && g.ws300.rec <= Ws300DatagramLength
            && g.fs20.len <= QueueLength && |g.fs20.queue| == QueueLength
            && g.fs20.timeout <= F.QuietPeriod
            && g.ws300.station.lastUpdate < 65536
  {
    InitialInv();
    StepsKeepInv(fcpu, Initial, es);
  }
}
