# CSMA/CA contention simulator — Dafny model

The simulator estimates, for two wireless stations, the throughput, the
number of collisions and the frames delivered under a simplified form of
the IEEE 802.11 CSMA/CA binary exponential backoff, for a sweep of arrival
rates. It is one C file, `docs/project1.c`. This project models its core:

- `get_random`, the reduction of a `rand()` value into `[min, max]`;
- `simulate_csma`, the contention state machine of one station. While the
  clock (in microseconds) is below `SIMULATION_TIME * 1000000`, each outer
  iteration polls for a frame arrival (`rand() % 1000 < lambda`). On an
  arrival it draws a backoff in `[0, CW]` and counts it down one slot at
  a time. Each slot of the countdown is tested for a collision, with 5 %
  per slot in topology 1 and 10 % in topology 2; any other topology never
  collides. A collision counts once, sets `CW` to `min(2 * CW, CW_MAX)`
  and abandons the countdown. A countdown that ends with the backoff at 0
  is a delivery: one more frame, `FRAME_SIZE` more bytes, and `CW` back to
  `CW0`. Every outer iteration then adds one more slot to the clock;
- the part of `main` that, for each arrival rate, resets every station
  record to zero and then runs `simulate_csma` on each station in turn.

The arrival rate, the parameter `lambda` of `simulate_csma`, is called
`rate` in the model, and main's list of rates `rates`.

`rand()` is an input. An `Oracle` (`nat -> nat`) gives the result of
every call, and each operation threads a cursor that counts the calls made
so far. Every property below therefore holds for every random stream.

Files:

- `RandomSource.dfy` — the oracle type and `GetRandom`.
- `Contention.dfy` — `simulate_csma` stated over values. `Countdown` is
  the inner loop, `Attempt` the arrival branch, `Iteration` one outer
  iteration, `Run` the outer loop and `Simulate` the whole function. It
  also holds the lemmas about them.
- `Experiment.dfy` — main's reset/run loops over values (`Trial`,
  `Sweep`) and lemmas about the records they produce.
- `Simulation.dfy` — the program as it runs. The `Station` struct is a
  class updated in place. `SimulateCsma` is the outer loop, and
  `RunTrial` and `RunExperiment` are main's loops over an array of
  stations. Each method is proved to leave exactly the state that the
  value-level definitions describe. To keep each proof small, the arrival
  branch and the inner countdown loop of `simulate_csma` are methods of
  their own, `ServeArrival` and `CountBackoff`. Together the three methods
  keep the source's statements, branches and `break` in order.

The model reproduces two behaviours of the code as written. A collision on
the slot that brings the backoff to 0 leaves it at 0, so that frame counts
as a collision and as a delivery, and `CW` ends at `CW0`
(`FinalSlotCollision`, `CollisionOnFinalSlotAlsoSucceeds`). A backoff draw of 0 skips the
countdown and its collision test and succeeds at once (`ZeroDrawSucceeds`).
The clock advances in the countdown and again, unconditionally, at the end
of every outer iteration.

## Model

| member | source | states |
|---|---|---|
| `RandomSource.GetRandom` | docs/project1.c:25-27 | for `min <= max`, the result lies in `[min, max]`, and a `rand()` value below the range width is taken as it is |
| `Contention.Min` | docs/project1.c:50 | `fmin` on integers: the result is one of the two arguments and no larger than either |
| `Contention.Arrives` | docs/project1.c:36 | the arrival test never fires for a rate of 0 or less and always fires for a rate of 1000 or more |
| `Contention.ArrivalsGrowWithRate` | docs/project1.c:36 | a `rand()` value that is an arrival at some rate is an arrival at every higher rate |
| `Contention.Collides` | docs/project1.c:46-55 | the collision test fires for `rand() % 100 < 5` in topologies 1 and 2, and never for `rand() % 100 >= 10` |
| `Contention.HiddenTerminalsCollideMore` | docs/project1.c:48-55 | every `rand()` value that collides in topology 1 also collides in topology 2 |
| `Contention.Spend` | docs/project1.c:42-55 | one countdown slot: the clock advances one slot, the backoff drops by one, counters and `CW` are untouched, and one `rand()` call is used exactly in topologies 1 and 2 |
| `Contention.Collide` | docs/project1.c:49-50 | a collision adds one to `collisions` and sets `CW` to `Grow(CW)`, keeping it in range; backoff, frames, bytes, clock and cursor are untouched |
| `Contention.Succeed` | docs/project1.c:63-67 | a delivery adds one frame and `FRAME_SIZE` bytes and resets `CW` to `CW0`; nothing else changes, so bytes equal to `FRAME_SIZE * frames` stay so |
| `Contention.Grow` | docs/project1.c:50 | the window after a collision is `CW` doubled, capped at `CW_MAX`: exactly `2 * CW` when that is at most `CW_MAX`, otherwise `CW_MAX`; from `[CW0, CW_MAX]` it stays in that range and does not shrink |
| `Contention.Countdown` | docs/project1.c:41-61 | the clock advances exactly `SLOT_DURATION` per unit the backoff goes down; a positive backoff ends in `[0, backoff)`; a non-positive one leaves the state unchanged; `rand()` calls are never undone; that it uses one `rand()` call per slot in topologies 1 and 2 and stops at the first collision is proved by `CountdownStopsAtFirstCollision` |
| `Contention.Attempt` | docs/project1.c:38-68 | the arrival branch leaves a backoff in `[0, CW]`, resets `CW` to `CW0` when the backoff ended at 0, spends at most `CW` slots and uses at least one `rand()` call; its bookkeeping is stated per iteration by `IterationOutcome` and `ZeroDrawSucceeds` |
| `Contention.Iteration` | docs/project1.c:36-70 | one outer iteration advances the clock by at least one slot and at most `CW + 1` slots, and makes at least one `rand()` call |
| `Contention.Run` | docs/project1.c:34-71 | the outer loop terminates with the clock at or past `SIMULATION_TIME * 1000000`, never turning it back |
| `Contention.Simulate` | docs/project1.c:30-72 | `simulate_csma` starts a run with `CW = CW0` and the clock at 0, and ends at or past the time limit without undoing any `rand()` call; its whole-run invariants are stated by `SimulateInvariants` |
| `Contention.CountdownOutcome` | docs/project1.c:41-61 | a countdown either reaches 0 with counters and `CW` unchanged, or hits exactly one collision (only in topology 1 or 2), which adds 1 to `collisions` and sets `CW` to `min(2*CW, CW_MAX)`; frames and bytes are untouched; other topologies make no `rand()` call; that the collision also abandons the rest of the backoff is `CountdownStopsAtFirstCollision` |
| `Contention.CountdownStopsAtFirstCollision` | docs/project1.c:41-61 | in topology 1 or 2 each countdown slot uses exactly one `rand()` call, no call before the last one collides, and a collision is counted exactly when the last call collided, so the first collision ends the countdown (the `break`) and the remaining backoff is left unused |
| `Contention.IterationOutcome` | docs/project1.c:36-70 | per outer iteration: at most one delivery and at most one collision; bytes grow by `FRAME_SIZE` per frame; a delivery happens exactly when a frame arrived and its backoff ended at 0, and then `CW == CW0`; an arrival without collision is always delivered; a collision only follows an arrival in topology 1 or 2; collision without delivery grows `CW`; the drawn backoff ends in `[0, CW]`; without an arrival the station and `CW` are unchanged |
| `Contention.IterationKeepsCwInRange` | docs/project1.c:50-67 | an iteration keeps `CW` in `[CW0, CW_MAX]` |
| `Contention.ZeroDrawSucceeds` | docs/project1.c:38-68 | a backoff draw of 0 delivers at once: one more frame, `FRAME_SIZE` more bytes, no collision, `CW == CW0`, one slot on the clock, and only the arrival and backoff draws used |
| `Contention.FinalSlotCollision` | docs/project1.c:41-61 | in topology 1 or 2, a collision on the slot that brings the backoff from 1 to 0 ends the countdown with the backoff at 0, one more collision and `CW` grown |
| `Contention.CollisionOnFinalSlotAlsoSucceeds` | docs/project1.c:41-68 | in topology 1 or 2, a backoff of 1 whose slot collides counts one collision and one delivery, and leaves `CW == CW0` |
| `Contention.SaturatedUncontendedIterationDelivers` | docs/project1.c:36-68 | with no collision topology and `rate >= 1000`, every iteration delivers exactly one frame, counts no collision and leaves `CW == CW0` |
| `Contention.RunKeepsCwInRange` | docs/project1.c:31-71 | `CW0 <= CW <= CW_MAX` holds after every run that starts in that range |
| `Contention.RunMonotone` | docs/project1.c:34-71 | over a run, collisions and frames never decrease, bytes grow by exactly `FRAME_SIZE` per delivered frame, and a non-negative backoff stays non-negative |
| `Contention.RunWithoutArrivalsIsIdle` | docs/project1.c:34-71 | with `rate <= 0` the run leaves the station record and `CW` unchanged |
| `Contention.RunWithoutContention` | docs/project1.c:46-60 | with a topology other than 1 and 2, no collision is ever counted and `CW` stays at `CW0` |
| `Contention.RunOvershootIsBounded` | docs/project1.c:34-71 | a run that starts before the time limit with `CW` in `[CW0, CW_MAX]` stops less than `CW_MAX + 1` slots after the limit |
| `Contention.RunCountersBoundedByClock` | docs/project1.c:34-71 | frames and collisions each grow by at most one per `SLOT_DURATION` of clock |
| `Contention.SimulateInvariants` | docs/project1.c:30-72 | `simulate_csma` ends with `CW` in range, non-decreasing counters, bytes equal to `FRAME_SIZE * frames` if they were before, and the clock in `[limit, limit + (CW_MAX + 1) slots)` |
| `Contention.SimulateFitsInInt` | docs/project1.c:30-72 | from the reset record, the clock, both counters and the byte count stay below the 32-bit `int` maximum |
| `Contention.CollisionStreak` | docs/project1.c:50 | after n collisions in a row from `CW0`, `CW == min(CW0 * 2^n, CW_MAX)`, which is `CW_MAX` for every n >= 7 |
| `Experiment.Trial` | docs/project1.c:88-98 | one trial yields one record per station and consumes the `rand()` stream forward |
| `Experiment.Sweep` | docs/project1.c:83-98 | a sweep yields one trial per arrival rate, each with one record per station |
| `Experiment.TrialRecordsConsistent` | docs/project1.c:88-98 | after a trial every station has non-negative counters and backoff and bytes equal to `FRAME_SIZE * frames`; with `rate <= 0` every station is still the reset record |
| `Experiment.SweepRecordsConsistent` | docs/project1.c:83-98 | every record of every trial of a sweep is consistent in that sense, whatever earlier trials did |
| `Experiment.ReferenceSweepConsistent` | docs/project1.c:78-98 | the configured experiment (rates 100 to 1000, two stations, topology 1) yields six trials of two consistent records |
| `Simulation.SimulateCsma` | docs/project1.c:30-72 | updating the station in place leaves exactly the record `Simulate` gives, and reports how many `rand()` calls were made |
| `Simulation.ServeArrival` | docs/project1.c:38-68 | the arrival branch leaves station, `CW`, clock and cursor as `Attempt` gives |
| `Simulation.CountBackoff` | docs/project1.c:41-61 | the countdown loop with its `break` leaves station, `CW`, clock and cursor as `Countdown` gives |
| `Simulation.RunTrial` | docs/project1.c:88-98 | resetting every station in place and simulating each in turn leaves exactly the records `Trial` gives, whatever the stations held before |
| `Simulation.ReadRecords` | docs/project1.c:102-108 | the per-station values that main reports are read in station order |
| `Simulation.RunExperiment` | docs/project1.c:83-98 | the sweep over arrival rates returns exactly the records `Sweep` gives |

## Left out

- Console output (docs/project1.c:85, 103-110) and the bytes-to-kilobytes conversion for display: formatting only. `ReadRecords` returns the values that would be printed.
- `srand(time(NULL))` and the library's `rand()`: replaced by the `Oracle` input. The oracle may return any natural number, not only values up to `RAND_MAX`.
- `fairness_index` (docs/project1.c:101): the ratio of the two stations' frame counts as a `double`, computed by a plain division with no guard, so it divides by zero when station 2 delivers nothing. Floating point is not modelled.
- `SIFS_DURATION` and `DIFS_DURATION` (docs/project1.c:7-8): defined but never used.
- Statistical claims (fairness near 1, collision rates near 5 % or 10 %): they hold only in probability, not for every trace.
- `throughput` is a `double` in the source. It is an integer byte count here, because only the integer `FRAME_SIZE` is ever added to it, and `SimulateFitsInInt` shows the sums stay far below 2^53.
- C's 32-bit `int` wrap-around is not modelled. `SimulateFitsInInt` proves that no value of a run from the reset record reaches `INT_MAX`.
- RandomSource.GetRandom: requires `min <= max`. With `max == min - 1` the source divides by zero, and the overflow of `max - min + 1` near the `int` limits is not modelled. The only call passes `0` and `CW >= 0`.
- `main` uses a fixed array of `NUM_STATIONS` structs. `RunTrial` and `RunExperiment` accept any number of distinct stations, and `ReferenceSweepConsistent` states the configured case.
