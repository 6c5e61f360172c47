/** The packet datapath of rust-datapath/src/lib.rs: bounded ring, watermarks with hysteresis, latency breaker. */
module Datapath {
  import opened Options

  datatype Config = Config(
    interfaces: seq<string>, ringBufferSize: nat, packetMaxSize: nat, highWatermarkPct: nat, lowWatermarkPct: nat,
    latencyThresholdMs: nat, windowSize: nat, cooldownTicks: nat)

  datatype Slot = Slot(interfaceIndex: nat, payloadLen: nat)
  datatype Stats = Stats(
    enqueued: nat, processed: nat, dropped: nat, throttled: nat, backpressureDrops: nat, circuitOpenDrops: nat)
  datatype CircuitState = Closed | Open | HalfOpen
  datatype Outcome = Enqueued | UnknownInterface | OversizedPacket | RingFull | BackpressureActive | CircuitOpen

  datatype State = State(
    ring: seq<Slot>, stats: Stats, circuit: CircuitState, cooldown: nat, backpressure: bool, latencies: seq<nat>)

  const IDLE := State([], Stats(0, 0, 0, 0, 0, 0), Closed, 0, false, [])

  function IndexOf(items: seq<string>, item: string): (i: Option<nat>)
    ensures i.Some? ==> i.value < |items| && items[i.value] == item && item !in items[..i.value]
    ensures i.None? ==> item !in items
  {
    if items == [] then None
    else
      assert items == items[..|items| - 1] + [items[|items| - 1]];
      match IndexOf(items[..|items| - 1], item)
      case Some(i) =>
        assert items[..|items| - 1][..i] == items[..i];
        Some(i)
      case None => if items[|items| - 1] == item then Some(|items| - 1) else None
  }

  function UsagePct(c: Config, len: nat): nat {
    if c.ringBufferSize == 0 then 100
    else if len * 100 / c.ringBufferSize < 100 then len * 100 / c.ringBufferSize else 100
  }

  function Throttled(c: Config, active: bool, usage: nat): bool {
    (active || usage >= c.highWatermarkPct) && usage > c.lowWatermarkPct
  }

  function Repressured(c: Config, s: State): State {
    s.(backpressure := Throttled(c, s.backpressure, UsagePct(c, |s.ring|)))
  }

  function Ticked(s: State): State {
    if !s.circuit.Open? then s
    else if s.cooldown <= 1 then s.(cooldown := 0, circuit := HalfOpen)
    else s.(cooldown := s.cooldown - 1)
  }

  function Refused(c: Config, s: State, iface: string, size: nat): Option<Outcome> {
    if s.circuit.Open? then Some(CircuitOpen)
    else if s.backpressure then Some(BackpressureActive)
    else if IndexOf(c.interfaces, iface).None? then Some(UnknownInterface)
    else if size > c.packetMaxSize then Some(OversizedPacket)
    else if |s.ring| >= c.ringBufferSize then Some(RingFull)
    else None
  }

  function Counted(stats: Stats, refusal: Outcome): Stats {
    stats.(dropped := stats.dropped + 1,
           throttled := stats.throttled + (if refusal.BackpressureActive? then 1 else 0),
           backpressureDrops := stats.backpressureDrops + (if refusal.BackpressureActive? then 1 else 0),
           circuitOpenDrops := stats.circuitOpenDrops + (if refusal.CircuitOpen? then 1 else 0))
  }

  function Ready(c: Config, s: State): State {
    Repressured(c, Ticked(s))
  }

  function OutcomeOf(c: Config, s: State, iface: string, size: nat): Outcome {
    match Refused(c, Ready(c, s), iface, size)
    case Some(refusal) => refusal
    case None => Enqueued
  }

  function Processed(c: Config, s: State, iface: string, size: nat): State {
    var r := Ready(c, s);
    match Refused(c, r, iface, size)
    case Some(refusal) => r.(stats := Counted(r.stats, refusal))
    case None =>
      Repressured(c, r.(
        ring := r.ring + [Slot(IndexOf(c.interfaces, iface).value, size)],
        stats := r.stats.(enqueued := r.stats.enqueued + 1),
        circuit := if r.circuit.HalfOpen? then Closed else r.circuit))
  }

  function Flushed(c: Config, s: State): State {
    Repressured(c, s.(ring := [], stats := s.stats.(processed := s.stats.processed + |s.ring|)))
  }

  function Total(samples: seq<nat>): nat {
    if samples == [] then 0 else Total(samples[..|samples| - 1]) + samples[|samples| - 1]
  }

  function Average(samples: seq<nat>): nat {
    if samples == [] then 0 else Total(samples) / |samples|
  }

  /** The last `n` elements, or all of them. */
  function Last(samples: seq<nat>, n: nat): seq<nat> {
    if |samples| <= n then samples else samples[|samples| - n..]
  }

  lemma DropFirst(all: seq<nat>, t: seq<nat>)
    requires 0 < |t| <= |all| && t == all[|all| - |t|..]
    ensures t[1..] == all[|all| - |t[1..]|..]
  {
  }

  lemma TrimmedIsLast(all: seq<nat>, trimmed: seq<nat>, n: nat)
    requires |trimmed| <= |all| && trimmed == all[|all| - |trimmed|..] && |trimmed| <= n
    requires (|all| >= n ==> |trimmed| >= n) && (|all| <= n ==> trimmed == all)
    ensures trimmed == Last(all, n)
  {
  }

  predicate Breaches(c: Config, s: State, latency: nat) {
    Average(Last(s.latencies + [latency], c.windowSize)) > c.latencyThresholdMs
  }

  function Recorded(c: Config, s: State, latency: nat): State {
    var t := s.(latencies := Last(s.latencies + [latency], c.windowSize));
    if Breaches(c, s, latency) then t.(circuit := Open, cooldown := c.cooldownTicks)
    else if s.circuit.HalfOpen? then t.(circuit := Closed)
    else t
  }

  class PacketRing {
    const capacity: nat
    var queue: seq<Slot>

    constructor (capacity: nat)
      ensures this.capacity == capacity && queue == []
    {
      this.capacity := capacity;
      queue := [];
    }

    method Push(slot: Slot) returns (ok: bool)
      modifies this
      ensures ok <==> |old(queue)| < capacity
      ensures queue == if ok then old(queue) + [slot] else old(queue)
    {
      if |queue| >= capacity {
        return false;
      }
      queue := queue + [slot];
      return true;
    }

    method Pop() returns (slot: Option<Slot>)
      modifies this
      ensures old(queue) == [] ==> slot == None && queue == []
      ensures old(queue) != [] ==> slot == Some(old(queue)[0]) && queue == old(queue)[1..]
    {
      if queue == [] {
        return None;
      }
      slot := Some(queue[0]);
      queue := queue[1..];
    }
  }

  class Datapath {
    const config: Config
    const ring: PacketRing
    var stats: Stats
    var circuitState: CircuitState
    var cooldownTicksRemaining: nat
    var backpressureActive: bool
    var latencySamplesMs: seq<nat>

    function Abs(): State
      reads this, ring
    {
      State(ring.queue, stats, circuitState, cooldownTicksRemaining, backpressureActive, latencySamplesMs)
    }

    ghost predicate Valid() {
      ring.capacity == config.ringBufferSize
    }

    constructor (config: Config)
      ensures Valid() && fresh(ring) && this.config == config && Abs() == IDLE
    {
      this.config := config;
      ring := new PacketRing(config.ringBufferSize);
      stats := Stats(0, 0, 0, 0, 0, 0);
      circuitState, cooldownTicksRemaining, backpressureActive, latencySamplesMs := Closed, 0, false, [];
    }

    method UpdateBackpressure()
      modifies this
      ensures Abs() == Repressured(config, old(Abs()))
    {
      var usage := UsagePct(config, |ring.queue|);
      if usage >= config.highWatermarkPct {
        backpressureActive := true;
      }
      if backpressureActive && usage <= config.lowWatermarkPct {
        backpressureActive := false;
      }
    }

    method TickCircuit()
      modifies this
      ensures Abs() == Ticked(old(Abs()))
    {
      if circuitState == Open {
        if cooldownTicksRemaining > 0 {
          cooldownTicksRemaining := cooldownTicksRemaining - 1;
        }
        if cooldownTicksRemaining == 0 {
          circuitState := HalfOpen;
        }
      }
    }

    method RecordLatencySample(latencyMs: nat)
      requires Valid()
      modifies this
      ensures Abs() == Recorded(config, old(Abs()), latencyMs)
    {
      latencySamplesMs := latencySamplesMs + [latencyMs];
      ghost var all := latencySamplesMs;
      while |latencySamplesMs| > config.windowSize
        invariant |latencySamplesMs| <= |all| && latencySamplesMs == all[|all| - |latencySamplesMs|..]
        invariant |all| >= config.windowSize ==> |latencySamplesMs| >= config.windowSize
        invariant |all| <= config.windowSize ==> latencySamplesMs == all
        invariant Abs() == old(Abs()).(latencies := latencySamplesMs)
      {
        DropFirst(all, latencySamplesMs);
        latencySamplesMs := latencySamplesMs[1..];
      }
      TrimmedIsLast(all, latencySamplesMs, config.windowSize);
      var avg := Average(latencySamplesMs);
      if avg > config.latencyThresholdMs {
        circuitState := Open;
        cooldownTicksRemaining := config.cooldownTicks;
      } else if circuitState == HalfOpen {
        circuitState := Closed;
      }
    }

    method ProcessPacket(iface: string, size: nat) returns (r: Outcome)
      requires Valid()
      modifies this, ring
      ensures Abs() == Processed(config, old(Abs()), iface, size)
      ensures r == OutcomeOf(config, old(Abs()), iface, size)
    {
      TickCircuit();
      UpdateBackpressure();
      if circuitState == Open {
        stats := stats.(dropped := stats.dropped + 1, circuitOpenDrops := stats.circuitOpenDrops + 1);
        return CircuitOpen;
      }
      if backpressureActive {
        stats := stats.(dropped := stats.dropped + 1, throttled := stats.throttled + 1,
                        backpressureDrops := stats.backpressureDrops + 1);
        return BackpressureActive;
      }
      var position := IndexOf(config.interfaces, iface);
      if position.None? {
        stats := stats.(dropped := stats.dropped + 1);
        return UnknownInterface;
      }
      if size > config.packetMaxSize {
        stats := stats.(dropped := stats.dropped + 1);
        return OversizedPacket;
      }
      var pushed := ring.Push(Slot(position.value, size));
      if !pushed {
        stats := stats.(dropped := stats.dropped + 1);
        return RingFull;
      }
      stats := stats.(enqueued := stats.enqueued + 1);
      if circuitState == HalfOpen {
        circuitState := Closed;
      }
      UpdateBackpressure();
      return Enqueued;
    }

    method Flush() returns (drained: nat)
      requires Valid()
      modifies this, ring
      ensures Abs() == Flushed(config, old(Abs()))
      ensures drained == |old(ring.queue)|
    {
      drained := 0;
      var slot := ring.Pop();
      while slot.Some?
        invariant drained + |ring.queue| + (if slot.Some? then 1 else 0) == |old(ring.queue)|
        invariant slot.None? ==> ring.queue == []
        invariant Abs()
               == old(Abs()).(ring := ring.queue, stats := old(stats).(processed := old(stats).processed + drained))
        decreases |ring.queue|, slot.Some?
      {
        drained := drained + 1;
        stats := stats.(processed := stats.processed + 1);
        slot := ring.Pop();
      }
      UpdateBackpressure();
    }
  }

  // ---------- Whole runs ----------

  datatype Event = Process(iface: string, size: nat) | Flush | Record(latency: nat)

  function Step(c: Config, s: State, e: Event): State {
    match e
    case Process(iface, size) => Processed(c, s, iface, size)
    case Flush => Flushed(c, s)
    case Record(latency) => Recorded(c, s, latency)
  }

  function Run(c: Config, s: State, es: seq<Event>): State {
    if es == [] then s else Step(c, Run(c, s, es[..|es| - 1]), es[|es| - 1])
  }

  /** The number of `process_packet` calls. */
  function Packets(es: seq<Event>): nat {
    if es == [] then 0 else Packets(es[..|es| - 1]) + if es[|es| - 1].Process? then 1 else 0
  }

  ghost predicate Conserved(s: State, packets: nat) {
    && s.stats.enqueued == s.stats.processed + |s.ring|
    && packets == s.stats.enqueued + s.stats.dropped
    && s.stats.throttled == s.stats.backpressureDrops
    && s.stats.backpressureDrops + s.stats.circuitOpenDrops <= s.stats.dropped
  }

  lemma ProcessConserves(c: Config, s: State, iface: string, size: nat, packets: nat)
    requires Conserved(s, packets)
    ensures Conserved(Processed(c, s, iface, size), packets + 1)
  {
    assert Ready(c, s).stats == s.stats && Ready(c, s).ring == s.ring;
  }

  /** Conservation: every call is enqueued or dropped, every enqueued packet is in the ring or processed, in any run. */
  lemma {:induction false} PacketsAreConserved(c: Config, es: seq<Event>)
    ensures Conserved(Run(c, IDLE, es), Packets(es))
  {
    if es != [] {
      PacketsAreConserved(c, es[..|es| - 1]);
      var s, e := Run(c, IDLE, es[..|es| - 1]), es[|es| - 1];
      if e.Process? {
        ProcessConserves(c, s, e.iface, e.size, Packets(es[..|es| - 1]));
      }
    }
  }

  /** The accepted packets since the last flush, in order of arrival. */
  function AcceptedSinceFlush(c: Config, es: seq<Event>): seq<Event> {
    if es == [] then []
    else
      var init, e := es[..|es| - 1], es[|es| - 1];
      match e
      case Flush => []
      case Record(_) => AcceptedSinceFlush(c, init)
      case Process(iface, size) =>
        if OutcomeOf(c, Run(c, IDLE, init), iface, size).Enqueued? then AcceptedSinceFlush(c, init) + [e]
        else AcceptedSinceFlush(c, init)
  }

  /** The ring holds exactly those packets, in order, each known to come from a configured interface and to fit. */
  lemma {:induction false} RingHoldsAcceptedInOrder(c: Config, es: seq<Event>)
    ensures var ring, accepted := Run(c, IDLE, es).ring, AcceptedSinceFlush(c, es);
      && |ring| == |accepted|
      && forall i :: 0 <= i < |ring| ==>
        && accepted[i].Process?
        && ring[i].interfaceIndex < |c.interfaces| && c.interfaces[ring[i].interfaceIndex] == accepted[i].iface
        && ring[i].payloadLen == accepted[i].size <= c.packetMaxSize
  {
    if es != [] {
      RingHoldsAcceptedInOrder(c, es[..|es| - 1]);
    }
  }

  // ---------- Occupancy ----------

  /** Usage at or above this percentage always throttles. */
  function Ceiling(c: Config): nat {
    if c.highWatermarkPct > c.lowWatermarkPct then c.highWatermarkPct else c.lowWatermarkPct + 1
  }

  lemma FloorBelow(a: nat, b: nat, m: nat)
    requires b > 0 && a / b < m
    ensures a < m * b
  {
    assert a == (a / b) * b + a % b;
    assert (a / b + 1) * b <= m * b;
  }

  lemma DivideMultiple(b: nat)
    requires b > 0
    ensures b * 100 / b == 100
  {
  }

  lemma FullMeansHundred(c: Config)
    ensures UsagePct(c, c.ringBufferSize) == 100
  {
    if c.ringBufferSize > 0 {
      DivideMultiple(c.ringBufferSize);
    }
  }

  ghost predicate Occupied(c: Config, s: State) {
    && |s.ring| <= c.ringBufferSize
    && (s.ring != [] ==> 100 * (|s.ring| - 1) < Ceiling(c) * c.ringBufferSize)
    && (s.backpressure ==> UsagePct(c, |s.ring|) > c.lowWatermarkPct)
  }

  lemma AdmittedBelowCeiling(c: Config, s: State)
    requires |s.ring| < c.ringBufferSize && !Repressured(c, s).backpressure
    ensures 100 * |s.ring| < Ceiling(c) * c.ringBufferSize
  {
    var n, size := |s.ring|, c.ringBufferSize;
    assert n * 100 / size < 100;
    FloorBelow(n * 100, size, Ceiling(c));
  }

  lemma ProcessKeepsOccupied(c: Config, s: State, iface: string, size: nat)
    requires Occupied(c, s)
    ensures Occupied(c, Processed(c, s, iface, size))
  {
    if OutcomeOf(c, s, iface, size).Enqueued? {
      AdmittedBelowCeiling(c, Ticked(s));
      assert |Processed(c, s, iface, size).ring| == |s.ring| + 1;
    } else {
      assert Processed(c, s, iface, size).ring == s.ring;
    }
  }

  lemma FlushKeepsOccupied(c: Config, s: State)
    ensures Occupied(c, Flushed(c, s))
  {
  }

  /**
    On every run, a non-empty ring was below the ceiling before its last packet was admitted.  With the low
    watermark below the high one the ceiling is the high watermark.
   */
  lemma {:induction false} OccupancyBound(c: Config, es: seq<Event>)
    ensures Occupied(c, Run(c, IDLE, es))
  {
    if es != [] {
      OccupancyBound(c, es[..|es| - 1]);
      var s := Run(c, IDLE, es[..|es| - 1]);
      match es[|es| - 1]
      case Process(iface, size) => ProcessKeepsOccupied(c, s, iface, size);
      case Flush => FlushKeepsOccupied(c, s);
      case Record(_) =>
    }
  }

  lemma SafeWatermarksThrottleFullRing(c: Config, es: seq<Event>, iface: string, size: nat)
    requires c.highWatermarkPct <= 100 && c.lowWatermarkPct < 100
    ensures OutcomeOf(c, Run(c, IDLE, es), iface, size) != RingFull
  {
    OccupancyBound(c, es);
    FullMeansHundred(c);
  }

  function Fill(iface: string, k: nat): seq<Event> {
    if k == 0 then [] else Fill(iface, k - 1) + [Process(iface, 0)]
  }

  /** A closed, unthrottled datapath whose watermarks never throttle takes every well-formed packet that fits. */
  lemma UnsafeWatermarksAdmit(c: Config, s: State, iface: string)
    requires c.highWatermarkPct > 100 || c.lowWatermarkPct >= 100
    requires iface in c.interfaces && |s.ring| < c.ringBufferSize && !s.backpressure && s.circuit == Closed
    ensures var t := Processed(c, s, iface, 0); |t.ring| == |s.ring| + 1 && !t.backpressure && t.circuit == Closed
  {
    assert IndexOf(c.interfaces, iface).Some?;
    assert !Ready(c, s).backpressure && Ready(c, s).circuit == Closed;
    assert Refused(c, Ready(c, s), iface, 0) == None;
  }

  lemma {:induction false} UnsafeWatermarksLetRingFill(c: Config, iface: string, k: nat)
    requires c.highWatermarkPct > 100 || c.lowWatermarkPct >= 100
    requires iface in c.interfaces && k <= c.ringBufferSize
    ensures var s := Run(c, IDLE, Fill(iface, k)); |s.ring| == k && !s.backpressure && s.circuit == Closed
  {
    if k > 0 {
      UnsafeWatermarksLetRingFill(c, iface, k - 1);
      assert Fill(iface, k)[..|Fill(iface, k)| - 1] == Fill(iface, k - 1);
      UnsafeWatermarksAdmit(c, Run(c, IDLE, Fill(iface, k - 1)), iface);
    }
  }

  /** `RingFull` can never be returned exactly when the high watermark is at most 100 and the low one below 100. */
  lemma RingFullUnreachableIff(c: Config)
    requires c.interfaces != []
    ensures (forall es, iface, size :: OutcomeOf(c, Run(c, IDLE, es), iface, size) != RingFull)
       <==> c.highWatermarkPct <= 100 && c.lowWatermarkPct < 100
  {
    if c.highWatermarkPct <= 100 && c.lowWatermarkPct < 100 {
      forall es, iface, size ensures OutcomeOf(c, Run(c, IDLE, es), iface, size) != RingFull {
        SafeWatermarksThrottleFullRing(c, es, iface, size);
      }
    } else {
      var iface := c.interfaces[0];
      UnsafeWatermarksLetRingFill(c, iface, c.ringBufferSize);
      FullMeansHundred(c);
      assert OutcomeOf(c, Run(c, IDLE, Fill(iface, c.ringBufferSize)), iface, 0) == RingFull;
    }
  }

  lemma ThrottledStep(c: Config, s: State, e: Event)
    requires Occupied(c, s) && s.backpressure && !e.Flush?
    ensures var t := Step(c, s, e); t.backpressure && t.ring == s.ring && Occupied(c, t)
  {
    if e.Process? {
      assert Ready(c, s).backpressure;
    }
  }

  lemma {:induction false} ThrottledRun(c: Config, s: State, es: seq<Event>)
    requires Occupied(c, s) && s.backpressure
    requires forall i :: 0 <= i < |es| ==> !es[i].Flush?
    ensures var t := Run(c, s, es); t.backpressure && t.ring == s.ring && Occupied(c, t)
  {
    if es != [] {
      ThrottledRun(c, s, es[..|es| - 1]);
      ThrottledStep(c, Run(c, s, es[..|es| - 1]), es[|es| - 1]);
    }
  }

  lemma ThrottledRefuses(c: Config, s: State, iface: string, size: nat)
    requires Occupied(c, s) && s.backpressure
    ensures OutcomeOf(c, s, iface, size) in {BackpressureActive, CircuitOpen}
  {
    assert Ready(c, s).backpressure;
  }

  /** Hysteresis: once throttled, every packet is refused and the ring stays as it is until the next flush. */
  lemma ThrottledUntilFlush(c: Config, before: seq<Event>, es: seq<Event>)
    requires Run(c, IDLE, before).backpressure
    requires forall i :: 0 <= i < |es| ==> !es[i].Flush?
    ensures var s, t := Run(c, IDLE, before), Run(c, Run(c, IDLE, before), es);
      && t.backpressure && t.ring == s.ring
      && forall iface, size :: OutcomeOf(c, t, iface, size) in {BackpressureActive, CircuitOpen}
  {
    OccupancyBound(c, before);
    ThrottledRun(c, Run(c, IDLE, before), es);
    forall iface, size {
      ThrottledRefuses(c, Run(c, Run(c, IDLE, before), es), iface, size);
    }
  }

  lemma FlushEndsThrottling(c: Config, s: State)
    requires c.ringBufferSize > 0
    ensures !Flushed(c, s).backpressure
  {
    assert 0 * 100 / c.ringBufferSize == 0;
  }

  // ---------- Latency window and breaker timing ----------

  /** All samples ever recorded. */
  function Samples(es: seq<Event>): seq<nat> {
    if es == [] then []
    else
      var earlier, e := Samples(es[..|es| - 1]), es[|es| - 1];
      if e.Record? then earlier + [e.latency] else earlier
  }

  lemma LastOfLast(samples: seq<nat>, x: nat, n: nat)
    ensures Last(Last(samples, n) + [x], n) == Last(samples + [x], n)
  {
  }

  lemma StepDeque(c: Config, s: State, e: Event)
    ensures Step(c, s, e).latencies == if e.Record? then Last(s.latencies + [e.latency], c.windowSize) else s.latencies
  {
  }

  /** On every run the deque holds the most recent samples, as many as the window has room for. */
  lemma {:induction false} DequeIsLatestSamples(c: Config, es: seq<Event>)
    ensures Run(c, IDLE, es).latencies == Last(Samples(es), c.windowSize)
  {
    if es != [] {
      var init, e := es[..|es| - 1], es[|es| - 1];
      DequeIsLatestSamples(c, init);
      StepDeque(c, Run(c, IDLE, init), e);
      if e.Record? {
        LastOfLast(Samples(init), e.latency, c.windowSize);
      }
    }
  }

  /** No sample in `es` breaches the threshold when it is recorded. */
  ghost predicate NoBreach(c: Config, s: State, es: seq<Event>) {
    forall i :: 0 <= i < |es| && es[i].Record? ==> !Breaches(c, Run(c, s, es[..i]), es[i].latency)
  }

  function Cooldown(r: nat): nat {
    if r == 0 then 1 else r
  }

  lemma {:induction false} OpenCountsPackets(c: Config, s: State, es: seq<Event>)
    requires s.circuit.Open? && NoBreach(c, s, es)
    ensures var t := Run(c, s, es);
      && (t.circuit.Open? <==> Packets(es) < Cooldown(s.cooldown))
      && (t.circuit.Open? ==> t.cooldown == s.cooldown - Packets(es))
  {
    if es != [] {
      var init := es[..|es| - 1];
      assert NoBreach(c, s, init) by {
        forall i | 0 <= i < |init| && init[i].Record? ensures !Breaches(c, Run(c, s, init[..i]), init[i].latency) {
          assert init[..i] == es[..i];
        }
      }
      OpenCountsPackets(c, s, init);
      assert es[|es| - 1].Record? ==> !Breaches(c, Run(c, s, init), es[|es| - 1].latency);
    }
  }

  /**
    Cooldown: after an opening sample and with no breaching one since, the n-th packet from then on fails with
    CircuitOpen exactly when n is less than the cooldown (a cooldown of 0 acts like 1), however flushes and good
    samples come in between.
   */
  lemma CooldownCountsPackets(c: Config, s: State, latency: nat, es: seq<Event>, iface: string, size: nat)
    requires Breaches(c, s, latency) && NoBreach(c, Recorded(c, s, latency), es)
    ensures OutcomeOf(c, Run(c, Recorded(c, s, latency), es), iface, size) == CircuitOpen
       <==> Packets(es) + 1 < Cooldown(c.cooldownTicks)
  {
    OpenCountsPackets(c, Recorded(c, s, latency), es);
  }

  /**
    The breaker's transitions, all of them: it opens exactly on a breaching sample, half-opens only on the packet
    that uses up the cooldown, and closes only from half-open, by a good sample or an accepted packet.
   */
  lemma CircuitTransitions(c: Config, s: State, e: Event)
    ensures var t := Step(c, s, e);
      && (t.circuit.Open? <==>
            (e.Record? && Breaches(c, s, e.latency)) || (s.circuit.Open? && !(e.Process? && s.cooldown <= 1)))
      && (t.circuit.Closed? <==>
            || (s.circuit.Closed? && !(e.Record? && Breaches(c, s, e.latency)))
            || (s.circuit.HalfOpen? && e.Record? && !Breaches(c, s, e.latency))
            || (!s.circuit.Closed? && e.Process? && OutcomeOf(c, s, e.iface, e.size).Enqueued?))
  {
  }

  // ---------- What opens the breaker, from the samples ----------

  lemma {:induction false} TotalConcat(a: seq<nat>, b: seq<nat>)
    ensures Total(a + b) == Total(a) + Total(b)
  {
    if b == [] {
      assert a + b == a;
    } else {
      assert (a + b)[..|a + b| - 1] == a + b[..|b| - 1];
      TotalConcat(a, b[..|b| - 1]);
    }
  }

  lemma TotalSingle(x: nat)
    ensures Total([x]) == x
  {
    assert [x][..0] == [];
  }

  lemma SplitAround<T>(s: seq<T>, p: nat)
    requires p < |s|
    ensures s == s[..p] + [s[p]] + s[p + 1..]
    ensures multiset(s[..p] + s[p + 1..]) == multiset(s) - multiset{s[p]}
  {
    assert s == s[..p] + [s[p]] + s[p + 1..];
  }

  lemma TotalAround(before: seq<nat>, x: nat, after: seq<nat>, whole: seq<nat>, rest: seq<nat>)
    requires whole == before + [x] + after && rest == before + after
    ensures Total(whole) == Total(rest) + x
  {
    TotalConcat(before + [x], after);
    TotalConcat(before, [x]);
    TotalConcat(before, after);
    TotalSingle(x);
  }

  /** The sum does not depend on the order of the samples. */
  lemma {:induction false} TotalIgnoresOrder(a: seq<nat>, b: seq<nat>)
    requires multiset(a) == multiset(b)
    ensures Total(a) == Total(b)
  {
    assert |a| == |multiset(a)| == |multiset(b)| == |b|;
    if a != [] {
      assert a[0] in multiset(b);
      var p :| 0 <= p < |b| && b[p] == a[0];
      SplitAround(a, 0);
      SplitAround(b, p);
      TotalAround(a[..0], a[0], a[1..], a, a[..0] + a[1..]);
      TotalAround(b[..p], b[p], b[p + 1..], b, b[..p] + b[p + 1..]);
      TotalIgnoresOrder(a[..0] + a[1..], b[..p] + b[p + 1..]);
    }
  }

  lemma QuotientAbove(sum: nat, n: nat, threshold: nat)
    requires n > 0
    ensures sum / n > threshold <==> sum >= n * (threshold + 1)
  {
    assert sum == n * (sum / n) + sum % n;
    if sum / n > threshold {
      assert n * (sum / n) >= n * (threshold + 1);
    } else {
      assert n * (sum / n) <= n * threshold;
    }
  }

  /** The samples add up to at least one more than the threshold each. */
  predicate Exceeds(window: seq<nat>, threshold: nat) {
    window != [] && Total(window) >= |window| * (threshold + 1)
  }

  lemma WindowBreachesIff(c: Config, s: State, latency: nat, window: seq<nat>)
    requires window == Last(s.latencies + [latency], c.windowSize)
    ensures Breaches(c, s, latency) <==> Exceeds(window, c.latencyThresholdMs)
  {
    if window != [] {
      QuotientAbove(Total(window), |window|, c.latencyThresholdMs);
    }
  }

  /** The samples that count once `latency` is recorded: the last ones ever recorded, as many as the window holds. */
  function WindowAfter(c: Config, es: seq<Event>, latency: nat): seq<nat> {
    var all := Samples(es) + [latency];
    if |all| <= c.windowSize then all else all[|all| - c.windowSize..]
  }

  /**
    A sample breaches the threshold exactly when the samples that then count add up to at least one more than the
    threshold each: integer division rounds the average down.  A breaching sample opens the breaker, or restarts its
    cooldown; any other leaves an open breaker and its cooldown alone and closes a half-open one.
   */
  lemma SampleOpensIff(c: Config, es: seq<Event>, latency: nat)
    ensures var s, t := Run(c, IDLE, es), Step(c, Run(c, IDLE, es), Record(latency));
      if Exceeds(WindowAfter(c, es, latency), c.latencyThresholdMs)
      then t.circuit == Open && t.cooldown == c.cooldownTicks
      else t.cooldown == s.cooldown && t.circuit == if s.circuit == Open then Open else Closed
  {
    DequeIsLatestSamples(c, es);
    LastOfLast(Samples(es), latency, c.windowSize);
    WindowBreachesIff(c, Run(c, IDLE, es), latency, WindowAfter(c, es, latency));
  }

  lemma Distribute(n: nat, x: nat)
    ensures (n + 1) * x == n * x + x
  {
  }

  lemma {:induction false} AtMostIsBounded(samples: seq<nat>, hi: nat)
    requires forall i :: 0 <= i < |samples| ==> samples[i] <= hi
    ensures Total(samples) <= |samples| * hi
  {
    if samples != [] {
      AtMostIsBounded(samples[..|samples| - 1], hi);
      Distribute(|samples| - 1, hi);
    }
  }

  lemma {:induction false} AtLeastIsBounded(samples: seq<nat>, lo: nat)
    requires forall i :: 0 <= i < |samples| ==> lo <= samples[i]
    ensures |samples| * lo <= Total(samples)
  {
    if samples != [] {
      AtLeastIsBounded(samples[..|samples| - 1], lo);
      Distribute(|samples| - 1, lo);
    }
  }

  lemma UniformSums(w: seq<nat>, threshold: nat)
    ensures (forall i :: 0 <= i < |w| ==> w[i] <= threshold) ==> !Exceeds(w, threshold)
    ensures w != [] && (forall i :: 0 <= i < |w| ==> w[i] > threshold) ==> Exceeds(w, threshold)
  {
    assert |w| * (threshold + 1) == |w| * threshold + |w|;
    if forall i :: 0 <= i < |w| ==> w[i] <= threshold {
      AtMostIsBounded(w, threshold);
    }
    if forall i :: 0 <= i < |w| ==> w[i] > threshold {
      AtLeastIsBounded(w, threshold + 1);
    }
  }

  /** Samples that all stay within the threshold never open the breaker; a window entirely above it always does. */
  lemma UniformWindowsDecide(c: Config, es: seq<Event>, latency: nat)
    ensures var s, t, w := Run(c, IDLE, es), Step(c, Run(c, IDLE, es), Record(latency)), WindowAfter(c, es, latency);
      && ((forall i :: 0 <= i < |w| ==> w[i] <= c.latencyThresholdMs) && s.circuit != Open ==> t.circuit == Closed)
      && (w != [] && (forall i :: 0 <= i < |w| ==> w[i] > c.latencyThresholdMs) ==> t.circuit == Open)
  {
    SampleOpensIff(c, es, latency);
    UniformSums(WindowAfter(c, es, latency), c.latencyThresholdMs);
  }

  // ---------- What a packet meets, and what the counters count ----------

  /** The refusals in their order of precedence, as the datapath is after its tick and its backpressure update. */
  lemma OutcomeIff(c: Config, s: State, iface: string, size: nat)
    ensures var r, o := Ready(c, s), OutcomeOf(c, s, iface, size);
      && (o == CircuitOpen <==> r.circuit == Open)
      && (o == BackpressureActive <==> r.circuit != Open && r.backpressure)
      && (o == UnknownInterface <==> r.circuit != Open && !r.backpressure && iface !in c.interfaces)
      && (o == OversizedPacket <==>
            r.circuit != Open && !r.backpressure && iface in c.interfaces && size > c.packetMaxSize)
      && (o == RingFull <==>
            r.circuit != Open && !r.backpressure && iface in c.interfaces && size <= c.packetMaxSize
            && |s.ring| >= c.ringBufferSize)
  {
  }

  /** A ring usage of `len` slots reaches `pct` percent. */
  ghost predicate Reaches(c: Config, len: nat, pct: nat) {
    c.ringBufferSize > 0 && 100 * len >= pct * c.ringBufferSize
  }

  lemma UsageReaches(c: Config, len: nat, pct: nat)
    requires 0 < len <= c.ringBufferSize && pct <= 100
    ensures UsagePct(c, len) >= pct <==> Reaches(c, len, pct)
  {
    var n, b := 100 * len, c.ringBufferSize;
    if pct == 0 {
      assert n >= 0 * b;
    } else {
      QuotientAbove(n, b, pct - 1);
      assert b * pct == pct * b;
      assert n <= 100 * b;
      FullQuotient(n, b);
    }
  }

  lemma FullQuotient(n: nat, b: nat)
    requires b > 0 && n <= 100 * b
    ensures n / b <= 100
  {
    QuotientAbove(n, b, 100);
    assert b * 101 == 101 * b;
  }

  /**
    Admitting a packet turns backpressure on exactly when the ring then reaches the high watermark above the low one.
   */
  lemma AdmissionThrottlesIff(c: Config, s: State, iface: string, size: nat)
    requires OutcomeOf(c, s, iface, size) == Enqueued && c.lowWatermarkPct < c.highWatermarkPct <= 100
    ensures Processed(c, s, iface, size).backpressure <==> Reaches(c, |s.ring| + 1, c.highWatermarkPct)
  {
    OutcomeIff(c, s, iface, size);
    UsageReaches(c, |s.ring| + 1, c.highWatermarkPct);
  }

  /** The number of packets of a run that met the given outcome. */
  function Count(c: Config, es: seq<Event>, o: Outcome): nat {
    if es == [] then 0
    else
      var init, e := es[..|es| - 1], es[|es| - 1];
      Count(c, init, o) + if e.Process? && OutcomeOf(c, Run(c, IDLE, init), e.iface, e.size) == o then 1 else 0
  }

  lemma ProcessCounts(c: Config, s: State, iface: string, size: nat)
    ensures var a, b, o := s.stats, Processed(c, s, iface, size).stats, OutcomeOf(c, s, iface, size);
      && b.enqueued == a.enqueued + (if o == Enqueued then 1 else 0)
      && b.dropped == a.dropped + (if o == Enqueued then 0 else 1)
      && b.throttled == a.throttled + (if o == BackpressureActive then 1 else 0)
      && b.backpressureDrops == a.backpressureDrops + (if o == BackpressureActive then 1 else 0)
      && b.circuitOpenDrops == a.circuitOpenDrops + (if o == CircuitOpen then 1 else 0)
  {
  }

  /** On every run each counter is the number of packets that met the outcome it is named after. */
  lemma {:induction false} StatsCountOutcomes(c: Config, es: seq<Event>)
    ensures var stats := Run(c, IDLE, es).stats;
      && stats.enqueued == Count(c, es, Enqueued)
      && stats.dropped == Count(c, es, UnknownInterface) + Count(c, es, OversizedPacket) + Count(c, es, RingFull)
                        + Count(c, es, BackpressureActive) + Count(c, es, CircuitOpen)
      && stats.throttled == stats.backpressureDrops == Count(c, es, BackpressureActive)
      && stats.circuitOpenDrops == Count(c, es, CircuitOpen)
  {
    if es != [] {
      var init, e := es[..|es| - 1], es[|es| - 1];
      StatsCountOutcomes(c, init);
      if e.Process? {
        ProcessCounts(c, Run(c, IDLE, init), e.iface, e.size);
      }
    }
  }
}
