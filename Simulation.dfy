/** The simulator as the C program runs it: a Station record updated in
    place through a pointer by simulate_csma, and the loops of main that reset
    every station of an array and then simulate each in turn.

    Each method is proved to leave exactly the state that the value-level
    definitions of modules Contention and Experiment describe, so the
    lemmas proved there hold of these runs. */
module Simulation {
  import opened RandomSource
  import opened Contention
  import opened Experiment

  /** The Station struct. Its throughput is a byte count. */
  class Station {
    var backoff: int
    var collisions: int
    var throughput: int
    var framesTransmitted: int

    /** The current value of the record. */
    function State(): StationState
      reads this
    {
      StationState(backoff, collisions, throughput, framesTransmitted)
    }
  }

  /** simulate_csma(station, rate, topology), with the rand() stream
      `rnd` of which `cursor` values are already used; returns the number
      used afterwards. The station ends in the state Simulate describes. */
  method SimulateCsma(station: Station, rate: int, topology: int, rnd: Oracle, cursor: nat) returns (next: nat)
    modifies station
    ensures station.State() == Simulate(old(station.State()), rate, topology, rnd, cursor).station
    ensures next == Simulate(old(station.State()), rate, topology, rnd, cursor).cursor
  {
    var cw: nat := CW0;
    var time := 0;
    next := cursor;
    ghost var g := Sim(station.State(), cw, time, next);
    while time < SIM_LIMIT
      invariant g == Sim(station.State(), cw, time, next)
      invariant Run(g, rate, topology, rnd) == Simulate(old(station.State()), rate, topology, rnd, cursor)
      decreases SIM_LIMIT - time
    {
      ghost var before := g;
      var arrival := rnd(next);
      next := next + 1;
      g := before.(cursor := before.cursor + 1);
      if arrival % ARRIVAL_SCALE < rate {
        assert g == Sim(station.State(), cw, time, next);
        cw, time, next := ServeArrival(station, cw, time, next, topology, rnd);
        g := Attempt(g, topology, rnd);
        assert g == Sim(station.State(), cw, time, next);
      }
      g := g.(time := g.time + SLOT_DURATION);
      time := time + SLOT_DURATION;
      assert g == Iteration(before, rate, topology, rnd);
    }
  }

  /** The arrival branch of simulate_csma: draw the backoff with
      get_random(0, CW), count it down, and on reaching 0 record a
      successful transmission and reset the window. The station and the
      window of the run, clock and rand() cursor end as Attempt describes. */
  method ServeArrival(station: Station, startCw: nat, startTime: int, cursor: nat, topology: int, rnd: Oracle)
    returns (cw: nat, time: int, next: nat)
    modifies station
    ensures Sim(station.State(), cw, time, next) == Attempt(Sim(old(station.State()), startCw, startTime, cursor), topology, rnd)
  {
    station.backoff := GetRandom(0, startCw, rnd(cursor));
    ghost var drawn := Sim(station.State(), startCw, startTime, cursor + 1);
    cw, time, next := CountBackoff(station, startCw, startTime, cursor + 1, topology, rnd);
    if station.backoff == 0 {
      station.framesTransmitted := station.framesTransmitted + 1;
      station.throughput := station.throughput + FRAME_SIZE;
      cw := CW0;
      assert Sim(station.State(), cw, time, next) == Succeed(Countdown(drawn, topology, rnd));
    }
  }

  /** The backoff countdown of simulate_csma (its inner loop): spend one
      slot per unit of backoff and, in topologies 1 and 2, test each slot
      for a collision, which grows the window and ends the countdown. The
      station and the window of the run, clock and rand() cursor end as
      Countdown describes. */
  method CountBackoff(station: Station, startCw: nat, startTime: int, cursor: nat, topology: int, rnd: Oracle)
    returns (cw: nat, time: int, next: nat)
    modifies station
    ensures Sim(station.State(), cw, time, next) == Countdown(Sim(old(station.State()), startCw, startTime, cursor), topology, rnd)
  {
    ghost var drawn := Sim(station.State(), startCw, startTime, cursor);
    ghost var g := drawn;
    cw, time, next := startCw, startTime, cursor;
    while station.backoff > 0
      invariant g == Sim(station.State(), cw, time, next)
      invariant Countdown(g, topology, rnd) == Countdown(drawn, topology, rnd)
      decreases station.backoff
    {
      ghost var slot := g;
      g := Spend(g, topology);
      time := time + SLOT_DURATION;
      station.backoff := station.backoff - 1;
      if topology == 1 {
        var draw := rnd(next);
        next := next + 1;
        if draw % PERCENT < 5 {
          station.collisions := station.collisions + 1;
          cw := Min(cw * 2, CW_MAX);
          g := Collide(g);
          assert g == Countdown(slot, topology, rnd);
          break;
        }
      } else if topology == 2 {
        var draw := rnd(next);
        next := next + 1;
        if draw % PERCENT < 10 {
          station.collisions := station.collisions + 1;
          cw := Min(cw * 2, CW_MAX);
          g := Collide(g);
          assert g == Countdown(slot, topology, rnd);
          break;
        }
      }
    }
  }

  /** No two elements of the array are the same record, as the elements of
      a C array of structs never are. */
  predicate Distinct(stations: array<Station>)
    reads stations
  {
    forall i, j :: 0 <= i < j < stations.Length ==> stations[i] != stations[j]
  }

  /** One trial of main: reset every station to zero, then simulate each
      in order on the shared rand() stream. The stations end holding the
      records Trial describes, whatever they held before. */
  method RunTrial(stations: array<Station>, rate: int, topology: int, rnd: Oracle, cursor: nat) returns (next: nat)
    requires Distinct(stations)
    modifies set i | 0 <= i < stations.Length :: stations[i]
    ensures forall i :: 0 <= i < stations.Length
              ==> stations[i].State() == Trial(stations.Length, rate, topology, rnd, cursor).stations[i]
    ensures next == Trial(stations.Length, rate, topology, rnd, cursor).cursor
  {
    for i := 0 to stations.Length
      invariant forall j :: 0 <= j < i ==> stations[j].State() == RESET_STATION
    {
      stations[i].backoff := 0;
      stations[i].collisions := 0;
      stations[i].throughput := 0;
      stations[i].framesTransmitted := 0;
    }
    next := cursor;
    for i := 0 to stations.Length
      invariant forall j :: i <= j < stations.Length ==> stations[j].State() == RESET_STATION
      invariant forall j :: 0 <= j < i ==> stations[j].State() == Trial(i, rate, topology, rnd, cursor).stations[j]
      invariant next == Trial(i, rate, topology, rnd, cursor).cursor
    {
      next := SimulateCsma(stations[i], rate, topology, rnd, next);
    }
  }

  /** The records main reports after a trial, read station by station. */
  method ReadRecords(stations: array<Station>) returns (records: seq<StationState>)
    ensures |records| == stations.Length
    ensures forall i :: 0 <= i < stations.Length ==> records[i] == stations[i].State()
  {
    records := [];
    for i := 0 to stations.Length
      invariant |records| == i
      invariant forall j :: 0 <= j < i ==> records[j] == stations[j].State()
    {
      records := records + [stations[i].State()];
    }
  }

  /** The sweep of main: one trial per arrival rate, in order, returning for
      each the records main reports. */
  method RunExperiment(stations: array<Station>, rates: seq<int>, topology: int, rnd: Oracle, cursor: nat)
    returns (records: seq<seq<StationState>>, next: nat)
    requires Distinct(stations)
    modifies set i | 0 <= i < stations.Length :: stations[i]
    ensures records == Sweep(rates, stations.Length, topology, rnd, cursor).records
    ensures next == Sweep(rates, stations.Length, topology, rnd, cursor).cursor
  {
    records := [];
    next := cursor;
    for l := 0 to |rates|
      invariant records == Sweep(rates[..l], stations.Length, topology, rnd, cursor).records
      invariant next == Sweep(rates[..l], stations.Length, topology, rnd, cursor).cursor
    {
      ghost var prev := Sweep(rates[..l], stations.Length, topology, rnd, cursor);
      next := RunTrial(stations, rates[l], topology, rnd, next);
      var trial := ReadRecords(stations);
      assert trial == Trial(stations.Length, rates[l], topology, rnd, prev.cursor).stations;
      assert rates[..l + 1][..l] == rates[..l];
      records := records + [trial];
    }
    assert rates[..|rates|] == rates;
  }
}
