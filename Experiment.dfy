/** The experiment driver of docs/project1.c (main), stated over values.

    For each arrival rate in turn, main resets every station record to zero
    and then runs simulate_csma on the stations one after the other. All
    runs draw from the one rand() stream, so each run starts where the
    previous one stopped. */
module Experiment {
  import opened RandomSource
  import opened Contention

  /** Number of stations in the experiment. */
  const NUM_STATIONS: nat := 2
  /** The arrival rates swept, in order. */
  const LAMBDA_VALUES: seq<int> := [100, 200, 300, 500, 700, 1000]
  /** The topology the experiment uses: single collision domain. */
  const TOPOLOGY: int := 1

  /** The records of one trial and the rand() cursor after it. */
  datatype TrialResult = TrialResult(stations: seq<StationState>, cursor: nat)

  /** The records of a whole sweep, one trial per arrival rate, and the
      rand() cursor after it. */
  datatype SweepResult = SweepResult(records: seq<seq<StationState>>, cursor: nat)

  /** One trial of n stations: each is reset, then simulated in order,
      continuing the rand() stream of the one before. */
  function Trial(n: nat, rate: int, topology: int, rnd: Oracle, cursor: nat): (t: TrialResult)
    ensures |t.stations| == n
    ensures cursor <= t.cursor
  {
    if n == 0 then TrialResult([], cursor)
    else
      var prev := Trial(n - 1, rate, topology, rnd, cursor);
      var run := Simulate(RESET_STATION, rate, topology, rnd, prev.cursor);
      TrialResult(prev.stations + [run.station], run.cursor)
  }

  /** One trial per arrival rate, in the order given. */
  function Sweep(rates: seq<int>, n: nat, topology: int, rnd: Oracle, cursor: nat): (w: SweepResult)
    ensures |w.records| == |rates|
    ensures forall j :: 0 <= j < |w.records| ==> |w.records[j]| == n
    ensures cursor <= w.cursor
  {
    if rates == [] then SweepResult([], cursor)
    else
      var prev := Sweep(rates[..|rates| - 1], n, topology, rnd, cursor);
      var trial := Trial(n, rates[|rates| - 1], topology, rnd, prev.cursor);
      SweepResult(prev.records + [trial.stations], trial.cursor)
  }

  /** What main may report about a station after its trial: the counters
      are non-negative, the bytes are FRAME_SIZE per delivered frame, and
      the backoff is not negative. */
  predicate Consistent(st: StationState) {
    && st.backoff >= 0
    && st.collisions >= 0
    && st.framesTransmitted >= 0
    && st.throughput == FRAME_SIZE * st.framesTransmitted
  }

  /** Since every station starts a trial from the reset record, every
      record of a trial is consistent, and with rate <= 0 every record is
      still the reset record. */
  lemma {:induction false} TrialRecordsConsistent(n: nat, rate: int, topology: int, rnd: Oracle, cursor: nat)
    ensures forall i :: 0 <= i < n ==> Consistent(Trial(n, rate, topology, rnd, cursor).stations[i])
    ensures rate <= 0 ==> forall i :: 0 <= i < n ==> Trial(n, rate, topology, rnd, cursor).stations[i] == RESET_STATION
  {
    if n > 0 {
      var prev := Trial(n - 1, rate, topology, rnd, cursor);
      TrialRecordsConsistent(n - 1, rate, topology, rnd, cursor);
      var start := Sim(RESET_STATION, CW0, 0, prev.cursor);
      RunMonotone(start, rate, topology, rnd);
      if rate <= 0 {
        RunWithoutArrivalsIsIdle(start, rate, topology, rnd);
      }
    }
  }

  /** No state carries across trials: every record of a sweep is
      consistent, whatever came before it. */
  lemma {:induction false} SweepRecordsConsistent(rates: seq<int>, n: nat, topology: int, rnd: Oracle, cursor: nat)
    ensures forall j, i :: 0 <= j < |rates| && 0 <= i < n
              ==> Consistent(Sweep(rates, n, topology, rnd, cursor).records[j][i])
    decreases |rates|
  {
    if rates != [] {
      var prev := Sweep(rates[..|rates| - 1], n, topology, rnd, cursor);
      SweepRecordsConsistent(rates[..|rates| - 1], n, topology, rnd, cursor);
      var trial := Trial(n, rates[|rates| - 1], topology, rnd, prev.cursor);
      TrialRecordsConsistent(n, rates[|rates| - 1], topology, rnd, prev.cursor);
      var w := Sweep(rates, n, topology, rnd, cursor);
      assert w.records == prev.records + [trial.stations];
      forall j, i | 0 <= j < |rates| && 0 <= i < n
        ensures Consistent(w.records[j][i])
      {
        if j < |rates| - 1 {
          assert w.records[j] == prev.records[j];
          assert Consistent(prev.records[j][i]);
        } else {
          assert w.records[j] == trial.stations;
          assert Consistent(trial.stations[i]);
        }
      }
    }
  }

  /** The experiment as configured: six trials of two stations each, every
      record consistent, for every rand() stream. */
  lemma ReferenceSweepConsistent(rnd: Oracle, cursor: nat)
    ensures var w := Sweep(LAMBDA_VALUES, NUM_STATIONS, TOPOLOGY, rnd, cursor);
      && |w.records| == 6
      && forall j :: 0 <= j < 6 ==> |w.records[j]| == 2 && Consistent(w.records[j][0]) && Consistent(w.records[j][1])
  {
    SweepRecordsConsistent(LAMBDA_VALUES, NUM_STATIONS, TOPOLOGY, rnd, cursor);
  }
}
