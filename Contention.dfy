/** The contention state machine of one station (simulate_csma in
    docs/project1.c), stated over values.

    One run keeps, besides the station record, a contention window CW and a
    clock in microseconds. While the clock is below the simulated duration,
    each outer iteration polls for a frame arrival; on an arrival it draws a
    backoff in [0, CW] and counts it down one slot at a time, testing every
    slot for a collision that depends on the topology; a collision doubles
    CW (up to CW_MAX) and abandons the countdown; a countdown that ends with
    the backoff at 0 is a successful transmission and resets CW to CW0.
    Every outer iteration then advances the clock by one more slot.

    The functions below follow that code branch for branch, including two
    behaviours a reader might not expect:
    - a collision on the slot that brings the backoff to 0 leaves it at 0,
      so the frame is counted both as a collision and as a success;
    - a backoff draw of 0 skips the countdown, hence the collision test,
      and succeeds at once.
    The clock advances both in the countdown and once more per outer
    iteration; that is reproduced as written.

    The arrival rate, the parameter lambda of simulate_csma (frames per
    thousand polls), is called `rate` throughout. */
module Contention {
  import opened RandomSource

  /** Length of one slot, in microseconds. */
  const SLOT_DURATION: int := 10
  /** Initial and minimum contention window. */
  const CW0: nat := 8
  /** Largest contention window. */
  const CW_MAX: nat := 1024
  /** Bytes credited per successful frame. */
  const FRAME_SIZE: int := 1500
  /** Simulated duration of one run, in seconds. */
  const SIMULATION_TIME: int := 10
  /** The loop bound of a run: SIMULATION_TIME in microseconds. */
  const SIM_LIMIT: int := SIMULATION_TIME * 1000000
  /** An arrival is polled as rand() % ARRIVAL_SCALE < rate. */
  const ARRIVAL_SCALE: nat := 1000
  /** A collision is tested as rand() % 100 < CollisionPercent(topology). */
  const PERCENT: nat := 100

  /** The Station record: remaining backoff slots, collisions seen, bytes
      delivered and frames delivered. */
  datatype StationState = StationState(backoff: int, collisions: int, throughput: int, framesTransmitted: int)

  /** The record as main resets it before every trial. */
  const RESET_STATION: StationState := StationState(0, 0, 0, 0)

  /** Everything one run of simulate_csma keeps: the station record, the
      local contention window and clock, and how many rand() calls were
      made so far. */
  datatype Sim = Sim(station: StationState, cw: nat, time: int, cursor: nat)

  /** Integer form of fmin, used on CW. */
  function Min(a: int, b: int): (m: int)
    ensures m <= a && m <= b
    ensures m == a || m == b
  {
    if a <= b then a else b
  }

  /** The contention window always lies in [CW0, CW_MAX]. */
  predicate CwInRange(cw: int) {
    CW0 <= cw <= CW_MAX
  }

  /** Topology 1 (single collision domain) and 2 (hidden terminals) test
      every countdown slot for a collision; any other value never does. */
  predicate Contended(topology: int) {
    topology == 1 || topology == 2
  }

  /** Per-slot collision chance, in percent. */
  function CollisionPercent(topology: int): nat
    requires Contended(topology)
  {
    if topology == 1 then 5 else 10
  }

  /** The arrival test of one outer iteration on rand() result r. A rate
      of 0 or less never sees an arrival, a rate of ARRIVAL_SCALE or more
      always does. */
  predicate Arrives(r: nat, rate: int)
    ensures rate <= 0 ==> !Arrives(r, rate)
    ensures ARRIVAL_SCALE <= rate ==> Arrives(r, rate)
  {
    r % ARRIVAL_SCALE < rate
  }

  /** The collision test of one countdown slot on rand() result r. The
      lowest 5 values of every hundred collide in both topologies, values
      from 10 up never do. */
  predicate Collides(r: nat, topology: int)
    requires Contended(topology)
    ensures r % PERCENT < 5 ==> Collides(r, topology)
    ensures 10 <= r % PERCENT ==> !Collides(r, topology)
  {
    r % PERCENT < CollisionPercent(topology)
  }

  /** Raising the arrival rate never turns an arrival away. */
  lemma ArrivalsGrowWithRate(r: nat, rate: int, higher: int)
    requires rate <= higher
    ensures Arrives(r, rate) ==> Arrives(r, higher)
  {
  }

  /** Every rand() value that collides in topology 1 also collides in
      topology 2. */
  lemma HiddenTerminalsCollideMore(r: nat)
    ensures Collides(r, 1) ==> Collides(r, 2)
  {
  }

  /** The window after a collision: doubled, capped at CW_MAX. */
  function Grow(cw: nat): (g: nat)
    ensures CwInRange(cw) ==> CwInRange(g) && cw <= g
    ensures g == CW_MAX || g == 2 * cw
    ensures 2 * cw <= CW_MAX ==> g == 2 * cw
    ensures CW_MAX <= 2 * cw ==> g == CW_MAX
  {
    Min(cw * 2, CW_MAX)
  }

  /** A collision: one more collision counted and the window grown, which
      keeps it in [CW0, CW_MAX]; the backoff, frames, bytes, clock and
      rand() cursor are untouched. */
  function Collide(s: Sim): (r: Sim)
    ensures r.station.collisions == s.station.collisions + 1
    ensures r.cw == Grow(s.cw) && (CwInRange(s.cw) ==> CwInRange(r.cw) && s.cw <= r.cw)
    ensures r.station.backoff == s.station.backoff
    ensures r.station.framesTransmitted == s.station.framesTransmitted
    ensures r.station.throughput == s.station.throughput
    ensures r.time == s.time && r.cursor == s.cursor
  {
    s.(station := s.station.(collisions := s.station.collisions + 1), cw := Grow(s.cw))
  }

  /** A successful transmission: one more frame and FRAME_SIZE more bytes
      delivered, window back to CW0; nothing else changes, so a record
      whose bytes are FRAME_SIZE per frame keeps that property. */
  function Succeed(s: Sim): (r: Sim)
    ensures r.station.framesTransmitted == s.station.framesTransmitted + 1
    ensures r.station.throughput == s.station.throughput + FRAME_SIZE
    ensures r.cw == CW0 && CwInRange(r.cw)
    ensures r.station.backoff == s.station.backoff && r.station.collisions == s.station.collisions
    ensures r.time == s.time && r.cursor == s.cursor
    ensures s.station.throughput == FRAME_SIZE * s.station.framesTransmitted
            ==> r.station.throughput == FRAME_SIZE * r.station.framesTransmitted
  {
    s.(station := s.station.(framesTransmitted := s.station.framesTransmitted + 1,
                             throughput := s.station.throughput + FRAME_SIZE),
       cw := CW0)
  }

  /** One slot of the countdown: the clock advances one slot, the backoff
      goes down by one, and in a contended topology one rand() value is
      used for the collision test. */
  function Spend(s: Sim, topology: int): (r: Sim)
    ensures r.time == s.time + SLOT_DURATION
    ensures r.station.backoff == s.station.backoff - 1
    ensures r.station.collisions == s.station.collisions
    ensures r.station.framesTransmitted == s.station.framesTransmitted
    ensures r.station.throughput == s.station.throughput
    ensures r.cw == s.cw
    ensures r.cursor == if Contended(topology) then s.cursor + 1 else s.cursor
  {
    var slot := s.(time := s.time + SLOT_DURATION,
                   station := s.station.(backoff := s.station.backoff - 1));
    if Contended(topology) then slot.(cursor := slot.cursor + 1) else slot
  }

  /** The countdown loop: while the backoff is positive, spend a slot and,
      in a contended topology, test it for a collision, which ends the
      loop. The clock advances exactly one slot per decrement, and a
      positive backoff never goes below 0. */
  function Countdown(s: Sim, topology: int, rnd: Oracle): (r: Sim)
    ensures r.time == s.time + SLOT_DURATION * (s.station.backoff - r.station.backoff)
    ensures s.station.backoff > 0 ==> 0 <= r.station.backoff < s.station.backoff
    ensures s.station.backoff <= 0 ==> r == s
    ensures s.cursor <= r.cursor
    decreases s.station.backoff
  {
    if s.station.backoff <= 0 then s
    else if Contended(topology) && Collides(rnd(s.cursor), topology) then Collide(Spend(s, topology))
    else Countdown(Spend(s, topology), topology, rnd)
  }

  /** What happens after an arrival: draw the backoff in [0, CW], count it
      down, and record a success if it ended at 0. The backoff left over
      lies in [0, CW]; if it is 0 the window is back at CW0; the countdown
      takes at most CW slots; and the backoff draw uses one rand() call. */
  function Attempt(s: Sim, topology: int, rnd: Oracle): (r: Sim)
    ensures 0 <= r.station.backoff <= s.cw
    ensures r.station.backoff == 0 ==> r.cw == CW0
    ensures s.time <= r.time <= s.time + SLOT_DURATION * s.cw
    ensures s.cursor < r.cursor
  {
    var drawn := s.(station := s.station.(backoff := GetRandom(0, s.cw, rnd(s.cursor))),
                    cursor := s.cursor + 1);
    var counted := Countdown(drawn, topology, rnd);
    if counted.station.backoff == 0 then Succeed(counted) else counted
  }

  /** One iteration of the outer loop: poll for an arrival, serve it, and
      advance the clock one more slot. It takes between one slot and CW + 1
      slots, and always calls rand() at least once. */
  function Iteration(s: Sim, rate: int, topology: int, rnd: Oracle): (r: Sim)
    ensures s.time + SLOT_DURATION <= r.time <= s.time + SLOT_DURATION * (s.cw + 1)
    ensures s.cursor < r.cursor
  {
    var polled := s.(cursor := s.cursor + 1);
    var served := if Arrives(rnd(s.cursor), rate) then Attempt(polled, topology, rnd) else polled;
    served.(time := served.time + SLOT_DURATION)
  }

  /** The outer loop: iterate until the clock reaches SIM_LIMIT. It
      terminates because every iteration advances the clock. */
  function Run(s: Sim, rate: int, topology: int, rnd: Oracle): (r: Sim)
    ensures SIM_LIMIT <= r.time
    ensures s.time <= r.time && s.cursor <= r.cursor
    decreases SIM_LIMIT - s.time
  {
    if s.time >= SIM_LIMIT then s
    else Run(Iteration(s, rate, topology, rnd), rate, topology, rnd)
  }

  /** simulate_csma on a station record, starting with CW = CW0 and the
      clock at 0, after `cursor` earlier rand() calls. */
  function Simulate(station: StationState, rate: int, topology: int, rnd: Oracle, cursor: nat): (r: Sim)
    ensures SIM_LIMIT <= r.time
    ensures cursor <= r.cursor
  {
    Run(Sim(station, CW0, 0, cursor), rate, topology, rnd)
  }

  // ---------------------------------------------------------------------
  // The countdown

  /** A countdown from a non-negative backoff ends in exactly one of two
      ways. Either it ran to 0 without a collision, leaving counters and
      window as they were; or it hit one collision (only possible in a
      contended topology), which adds 1 to the collisions and grows the
      window. Frames and bytes are never touched, and an uncontended
      countdown makes no rand() calls. */
  lemma {:induction false} CountdownOutcome(s: Sim, topology: int, rnd: Oracle)
    requires s.station.backoff >= 0
    ensures var r := Countdown(s, topology, rnd);
      && r.station.framesTransmitted == s.station.framesTransmitted
      && r.station.throughput == s.station.throughput
      && ((r.station.collisions == s.station.collisions && r.cw == s.cw && r.station.backoff == 0)
          || (Contended(topology) && r.station.collisions == s.station.collisions + 1 && r.cw == Grow(s.cw)))
    ensures !Contended(topology) ==> Countdown(s, topology, rnd).cursor == s.cursor
    decreases s.station.backoff
  {
    if s.station.backoff > 0 && !(Contended(topology) && Collides(rnd(s.cursor), topology)) {
      CountdownOutcome(Spend(s, topology), topology, rnd);
    }
  }

  /** In a contended topology every slot of the countdown uses exactly one
      rand() call, so the calls made equal the slots spent. No call before
      the last one collides, and a collision is counted exactly when the
      last call collided: the first collision ends the countdown and the
      rest of the backoff is abandoned. */
  lemma {:induction false} CountdownStopsAtFirstCollision(s: Sim, topology: int, rnd: Oracle)
    requires Contended(topology)
    requires s.station.backoff >= 0
    ensures var r := Countdown(s, topology, rnd);
      && r.cursor - s.cursor == s.station.backoff - r.station.backoff
      && (forall k :: s.cursor <= k < r.cursor - 1 ==> !Collides(rnd(k), topology))
      && (r.station.collisions == s.station.collisions + 1
          <==> r.cursor > s.cursor && Collides(rnd(r.cursor - 1), topology))
    decreases s.station.backoff
  {
    if s.station.backoff > 0 && !Collides(rnd(s.cursor), topology) {
      CountdownStopsAtFirstCollision(Spend(s, topology), topology, rnd);
      CountdownOutcome(Spend(s, topology), topology, rnd);
    }
  }

  // ---------------------------------------------------------------------
  // One outer iteration

  /** The bookkeeping of one outer iteration:
      - at most one frame is delivered, and the bytes grow by FRAME_SIZE
        per frame;
      - at most one collision is counted, and only after an arrival in a
        contended topology;
      - a frame is delivered exactly when a frame arrived and its backoff
        ended at 0, and then CW is back at CW0; an arrival whose countdown
        saw no collision is always delivered;
      - a collision without a delivery leaves CW grown, and an iteration
        with neither leaves CW as it was;
      - after an arrival the backoff lies in [0, CW];
      - without an arrival the station record and CW are unchanged. */
  lemma IterationOutcome(s: Sim, rate: int, topology: int, rnd: Oracle)
    ensures var r := Iteration(s, rate, topology, rnd);
      && var pre, post := s.station, r.station;
      && (post.framesTransmitted == pre.framesTransmitted || post.framesTransmitted == pre.framesTransmitted + 1)
      && post.throughput - pre.throughput == FRAME_SIZE * (post.framesTransmitted - pre.framesTransmitted)
      && (post.collisions == pre.collisions || post.collisions == pre.collisions + 1)
      && (post.collisions == pre.collisions + 1 ==> Arrives(rnd(s.cursor), rate) && Contended(topology))
      && (post.framesTransmitted == pre.framesTransmitted + 1
          <==> Arrives(rnd(s.cursor), rate) && post.backoff == 0)
      && (Arrives(rnd(s.cursor), rate) && post.collisions == pre.collisions
          ==> post.framesTransmitted == pre.framesTransmitted + 1)
      && (post.framesTransmitted == pre.framesTransmitted + 1 ==> r.cw == CW0)
      && (post.framesTransmitted == pre.framesTransmitted && post.collisions == pre.collisions + 1 ==> r.cw == Grow(s.cw))
      && (post.framesTransmitted == pre.framesTransmitted && post.collisions == pre.collisions ==> r.cw == s.cw)
      && (Arrives(rnd(s.cursor), rate) ==> 0 <= post.backoff <= s.cw)
      && (!Arrives(rnd(s.cursor), rate) ==> post == pre && r.cw == s.cw)
  {
    if Arrives(rnd(s.cursor), rate) {
      var polled := s.(cursor := s.cursor + 1);
      var drawn := polled.(station := polled.station.(backoff := GetRandom(0, polled.cw, rnd(polled.cursor))),
                           cursor := polled.cursor + 1);
      CountdownOutcome(drawn, topology, rnd);
    }
  }

  /** An iteration keeps the contention window in [CW0, CW_MAX]. */
  lemma IterationKeepsCwInRange(s: Sim, rate: int, topology: int, rnd: Oracle)
    requires CwInRange(s.cw)
    ensures CwInRange(Iteration(s, rate, topology, rnd).cw)
  {
    IterationOutcome(s, rate, topology, rnd);
  }

  /** A backoff draw of 0 succeeds at once: no slot is spent, no collision
      test is drawn, the frame is delivered and CW goes back to CW0. */
  lemma ZeroDrawSucceeds(s: Sim, rate: int, topology: int, rnd: Oracle)
    requires Arrives(rnd(s.cursor), rate)
    requires rnd(s.cursor + 1) % (s.cw + 1) == 0
    ensures var r := Iteration(s, rate, topology, rnd);
      && r.station.framesTransmitted == s.station.framesTransmitted + 1
      && r.station.throughput == s.station.throughput + FRAME_SIZE
      && r.station.collisions == s.station.collisions
      && r.cw == CW0
      && r.time == s.time + SLOT_DURATION
      && r.cursor == s.cursor + 2
  {
  }

  /** A collision on the slot that brings the backoff to 0 leaves it at 0:
      the countdown ends having counted the collision and grown the window,
      with the backoff at 0, in either contended topology. */
  lemma FinalSlotCollision(s: Sim, topology: int, rnd: Oracle)
    requires Contended(topology)
    requires s.station.backoff == 1
    requires Collides(rnd(s.cursor), topology)
    ensures var r := Countdown(s, topology, rnd);
      && r.station.backoff == 0
      && r.station.collisions == s.station.collisions + 1
      && r.cw == Grow(s.cw)
      && r.station.framesTransmitted == s.station.framesTransmitted
  {
  }

  /** Hence such a frame counts both as a collision and as a delivered
      frame, and the success resets the window that the collision had just
      grown (here: a backoff of 1 drawn and a collision on its slot). */
  lemma CollisionOnFinalSlotAlsoSucceeds(s: Sim, rate: int, topology: int, rnd: Oracle)
    requires Contended(topology)
    requires 1 <= s.cw
    requires Arrives(rnd(s.cursor), rate)
    requires rnd(s.cursor + 1) % (s.cw + 1) == 1
    requires Collides(rnd(s.cursor + 2), topology)
    ensures var r := Iteration(s, rate, topology, rnd);
      && r.station.collisions == s.station.collisions + 1
      && r.station.framesTransmitted == s.station.framesTransmitted + 1
      && r.station.throughput == s.station.throughput + FRAME_SIZE
      && r.cw == CW0
      && r.time == s.time + 2 * SLOT_DURATION
  {
  }

  /** Without contention and with an arrival on every poll (rate at
      least ARRIVAL_SCALE), every iteration delivers exactly one frame,
      counts no collision and leaves CW at CW0. */
  lemma SaturatedUncontendedIterationDelivers(s: Sim, rate: int, topology: int, rnd: Oracle)
    requires !Contended(topology)
    requires rate >= ARRIVAL_SCALE
    ensures var r := Iteration(s, rate, topology, rnd);
      && r.station.framesTransmitted == s.station.framesTransmitted + 1
      && r.station.collisions == s.station.collisions
      && r.cw == CW0
  {
    IterationOutcome(s, rate, topology, rnd);
  }

  // ---------------------------------------------------------------------
  // Whole runs

  /** The contention window stays in [CW0, CW_MAX] for a whole run. */
  lemma {:induction false} RunKeepsCwInRange(s: Sim, rate: int, topology: int, rnd: Oracle)
    requires CwInRange(s.cw)
    ensures CwInRange(Run(s, rate, topology, rnd).cw)
    decreases SIM_LIMIT - s.time
  {
    if s.time < SIM_LIMIT {
      IterationKeepsCwInRange(s, rate, topology, rnd);
      RunKeepsCwInRange(Iteration(s, rate, topology, rnd), rate, topology, rnd);
    }
  }

  /** Over a run, collisions and frames never decrease, the bytes grow by
      exactly FRAME_SIZE per delivered frame, and a non-negative backoff
      stays non-negative. */
  lemma {:induction false} RunMonotone(s: Sim, rate: int, topology: int, rnd: Oracle)
    ensures var r := Run(s, rate, topology, rnd);
      && s.station.collisions <= r.station.collisions
      && s.station.framesTransmitted <= r.station.framesTransmitted
      && r.station.throughput - s.station.throughput
         == FRAME_SIZE * (r.station.framesTransmitted - s.station.framesTransmitted)
      && (s.station.backoff >= 0 ==> r.station.backoff >= 0)
    decreases SIM_LIMIT - s.time
  {
    if s.time < SIM_LIMIT {
      IterationOutcome(s, rate, topology, rnd);
      RunMonotone(Iteration(s, rate, topology, rnd), rate, topology, rnd);
    }
  }

  /** With rate <= 0 no frame ever arrives: the run leaves the station
      record and the window exactly as it found them. */
  lemma {:induction false} RunWithoutArrivalsIsIdle(s: Sim, rate: int, topology: int, rnd: Oracle)
    requires rate <= 0
    ensures Run(s, rate, topology, rnd).station == s.station
    ensures Run(s, rate, topology, rnd).cw == s.cw
    decreases SIM_LIMIT - s.time
  {
    if s.time < SIM_LIMIT {
      IterationOutcome(s, rate, topology, rnd);
      RunWithoutArrivalsIsIdle(Iteration(s, rate, topology, rnd), rate, topology, rnd);
    }
  }

  /** In a topology other than 1 and 2 no collision is ever counted, and a
      run that starts at CW0 never leaves it. */
  lemma {:induction false} RunWithoutContention(s: Sim, rate: int, topology: int, rnd: Oracle)
    requires !Contended(topology)
    ensures Run(s, rate, topology, rnd).station.collisions == s.station.collisions
    ensures s.cw == CW0 ==> Run(s, rate, topology, rnd).cw == CW0
    decreases SIM_LIMIT - s.time
  {
    if s.time < SIM_LIMIT {
      IterationOutcome(s, rate, topology, rnd);
      RunWithoutContention(Iteration(s, rate, topology, rnd), rate, topology, rnd);
    }
  }

  /** A run that starts before SIM_LIMIT stops within one maximal
      iteration (CW_MAX + 1 slots) after it. */
  lemma {:induction false} RunOvershootIsBounded(s: Sim, rate: int, topology: int, rnd: Oracle)
    requires CwInRange(s.cw)
    requires s.time < SIM_LIMIT
    ensures Run(s, rate, topology, rnd).time < SIM_LIMIT + SLOT_DURATION * (CW_MAX + 1)
    decreases SIM_LIMIT - s.time
  {
    var next := Iteration(s, rate, topology, rnd);
    IterationKeepsCwInRange(s, rate, topology, rnd);
    if next.time < SIM_LIMIT {
      RunOvershootIsBounded(next, rate, topology, rnd);
    }
  }

  /** simulate_csma from any record: CW stays in range; the counters do
      not decrease; from a record whose bytes match its frames (as the
      reset record does), they still match afterwards. */
  lemma SimulateInvariants(station: StationState, rate: int, topology: int, rnd: Oracle, cursor: nat)
    ensures var r := Simulate(station, rate, topology, rnd, cursor);
      && CwInRange(r.cw)
      && station.collisions <= r.station.collisions
      && station.framesTransmitted <= r.station.framesTransmitted
      && (station.throughput == FRAME_SIZE * station.framesTransmitted
          ==> r.station.throughput == FRAME_SIZE * r.station.framesTransmitted)
      && SIM_LIMIT <= r.time < SIM_LIMIT + SLOT_DURATION * (CW_MAX + 1)
  {
    var s := Sim(station, CW0, 0, cursor);
    RunKeepsCwInRange(s, rate, topology, rnd);
    RunMonotone(s, rate, topology, rnd);
    RunOvershootIsBounded(s, rate, topology, rnd);
  }

  /** Every outer iteration takes at least one slot and adds at most one
      frame and one collision, so over a run neither counter can grow
      faster than the clock: one per SLOT_DURATION microseconds. */
  lemma {:induction false} RunCountersBoundedByClock(s: Sim, rate: int, topology: int, rnd: Oracle)
    ensures var r := Run(s, rate, topology, rnd);
      && SLOT_DURATION * (r.station.framesTransmitted - s.station.framesTransmitted) <= r.time - s.time
      && SLOT_DURATION * (r.station.collisions - s.station.collisions) <= r.time - s.time
    decreases SIM_LIMIT - s.time
  {
    if s.time < SIM_LIMIT {
      IterationOutcome(s, rate, topology, rnd);
      RunCountersBoundedByClock(Iteration(s, rate, topology, rnd), rate, topology, rnd);
    }
  }

  /** Largest value of the 32-bit int of the C program. */
  const INT_MAX: int := 0x7fff_ffff

  /** From the reset record, no value of a run exceeds a 32-bit int: the
      clock, both counters and the byte count all stay below INT_MAX, so
      modelling them as unbounded integers loses nothing. */
  lemma SimulateFitsInInt(rate: int, topology: int, rnd: Oracle, cursor: nat)
    ensures var r := Simulate(RESET_STATION, rate, topology, rnd, cursor);
      && 0 <= r.time < INT_MAX
      && 0 <= r.station.collisions < INT_MAX
      && 0 <= r.station.framesTransmitted < INT_MAX
      && 0 <= r.station.throughput < INT_MAX
  {
    var s := Sim(RESET_STATION, CW0, 0, cursor);
    RunMonotone(s, rate, topology, rnd);
    RunOvershootIsBounded(s, rate, topology, rnd);
    RunCountersBoundedByClock(s, rate, topology, rnd);
  }

  // ---------------------------------------------------------------------
  // Collision streaks

  /** The window after n collisions in a row, with no success between. */
  function GrowN(cw: nat, n: nat): nat {
    if n == 0 then cw else Grow(GrowN(cw, n - 1))
  }

  function Pow2(n: nat): (p: nat)
    ensures p >= 1
  {
    if n == 0 then 1 else 2 * Pow2(n - 1)
  }

  /** From CW0, n collisions in a row leave the window at
      min(CW0 * 2^n, CW_MAX): it doubles until it reaches CW_MAX and then
      stays there however long the streak. */
  lemma {:induction false} CollisionStreak(n: nat)
    ensures GrowN(CW0, n) == Min(CW0 * Pow2(n), CW_MAX)
    ensures n >= 7 ==> GrowN(CW0, n) == CW_MAX
  {
    if n > 0 {
      CollisionStreak(n - 1);
      assert Pow2(n) == 2 * Pow2(n - 1);
    }
    if n >= 7 {
      Pow2AtLeast(n);
    }
  }

  lemma {:induction false} Pow2AtLeast(n: nat)
    requires n >= 7
    ensures Pow2(n) >= 128
  {
    if n > 7 {
      Pow2AtLeast(n - 1);
    }
  }
}
