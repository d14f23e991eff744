# Monty Hall simulator — verified model of the decision core

The simulator is a tkinter application with two modes. In *simulate* mode
it plays a batch of `n` Monty Hall games with a fixed switch policy and a
random first pick, and it reports progress snapshots (trials done, wins,
losses) to the window as it goes. In *play* mode the user plays one game in
two clicks: a first pick, after which the host opens a goat door, and a
final pick. The repository holds two near-identical copies of the program,
`MATH_335_MH_Cy_Ramos.py` and `MATH_335_CR.py`; this project models their
shared core once:

- `wrappers.dfy` (module `Wrappers`): the `Option` type, whose `None`
  stands for an absent door or a rejected run.
- `doors.dfy` (module `Doors`): the door type `0..2`, Python's `list(...)`
  of a set of doors (`Listed`), and `next(i for i in xs if i != door)`
  (`FirstOther`).
- `resolver.dfy` (module `Resolver`): `PlayMonteHall`, the one-game
  resolver, with the rules it obeys and the nine-case count of games won.
- `aggregator.dfy` (module `Aggregator`): the list helper `SimMonteHall`
  and the simulation loop (`_simulate`, named `SimApp.SimMonteHall` in the
  second copy) as the method `Simulate`, proved against the specification
  function `Snapshots`.
- `play_mode.dfy` (module `PlayMode`): the play-mode fields
  `_play_door`, `_revealed_door`, `_winning_door` as the class
  `PlayStage`, with `_reset_play_stage` and `_on_door_click`.
- `validation.dfy` (module `Validation`): `_validate` and the start of
  `_on_run`.

Randomness is an input. `random.randint(0, 2)` for the car is the parameter
`winning`; `random.choice(remaining)` is `Choice(remaining, hostPick)`, the
entry at `hostPick` reduced modulo the list's length, which reaches every
door the host may open. In simulate mode each trial's three draws (first
pick, car, host's choice) are one `Draw`, and a run consumes a sequence of
them. The `self.after(0, self._update_ui, ...)` calls become the returned
sequence of `Snapshot` values, in emission order. Each keeps the first four
arguments `(i, n, wins, losses)`; the last two, `None` and the switch policy,
are the same for every report of a run and are not repeated in it.

The two copies are the same in every modelled line. Where they sit:

| logic | MATH_335_MH_Cy_Ramos.py | MATH_335_CR.py |
|---|---|---|
| `PlayMonteHall` | 11-24 | 11-24 |
| list helper `SimMonteHall` | 30-31 | 29-30 (commented out) |
| simulation loop | 539-549 | 520-530 |
| play-stage fields set in `__init__` | 42-44 | 41-43 |
| `_reset_play_stage` | 371-374 | 358-361 |
| `_on_door_click` | 387-411 | 374-398 |
| `_validate` | 491-499 | 476-484 |
| `_on_run` settings | 505-510 | 488-493 |

The simulation loop does not check `n`. `_validate` rejects a count below
one before `_on_run` starts a run, and `range(1, n + 1)` is empty for
`n <= 0`. The model follows the code.

## Model

| member | source | states |
|---|---|---|
| Doors.FirstOther | MATH_335_MH_Cy_Ramos.py:18-19 | `next(...)` yields a door of the list other than `door` when the list has one, and only when it has none does it fail (the StopIteration case) |
| Doors.FirstOtherIsFirst | MATH_335_MH_Cy_Ramos.py:19 | the door `next(...)` yields is the first one of the list that differs from `door` |
| Doors.ListedIsSortedListing | MATH_335_MH_Cy_Ramos.py:15 | `list(set)` holds exactly the set's doors, in ascending order |
| Resolver.Remaining | MATH_335_MH_Cy_Ramos.py:13-15 | the host's candidates are exactly the doors that are neither the pick nor the car; two of them when the pick is the car, one otherwise, so `random.choice` always has a door to draw |
| Resolver.Choice | MATH_335_MH_Cy_Ramos.py:16 | the door `random.choice` draws is one of the candidates |
| Resolver.SwitchTarget | MATH_335_MH_Cy_Ramos.py:18-19 | the switch target exists and is the third door: different from the pick and from the opened door, the three together being all doors |
| Resolver.PlayMonteHall | MATH_335_MH_Cy_Ramos.py:11-24 | the opened door is never the pick and never the car; the returned car is the drawn one; staying wins exactly when the pick was the car, switching exactly when it was not, whichever goat door was opened |
| Resolver.HostChoice | MATH_335_CR.py:15-16 | when the pick is the car, both other doors can be the one opened; otherwise the opened door is forced to be the third door |
| Resolver.WonIgnoresHostPick | MATH_335_CR.py:12-23 | the result of a game does not depend on the host's draw |
| Resolver.SwitchWinsSixOfNine | MATH_335_MH_Cy_Ramos.py:11-24 | over the nine (pick, car) pairs switching wins six and staying three, for any host rule |
| Aggregator.SimMonteHall | MATH_335_MH_Cy_Ramos.py:30-31 | the list has one entry per trial, and entry `i` is whether trial `i` was won by the rule of the game |
| Aggregator.SimMonteHallCountsWins | MATH_335_MH_Cy_Ramos.py:30-31 | the number of `True` entries in the helper's list equals the loop's running win count after the same trials |
| Aggregator.Batch | MATH_335_CR.py:522 | the batch size is at least 1, is 1 below 400 trials, and otherwise is the number of whole 200s in `n` |
| Aggregator.Wins | MATH_335_CR.py:521-526 | the running win count never exceeds the number of trials played |
| Aggregator.Simulate | MATH_335_CR.py:520-530 | the loop emits exactly the snapshot sequence `Snapshots(n, n)`: after trial `i` when `i % batch == 0 or i == n`, with the running wins and `i - wins` losses |
| Aggregator.SnapshotsConsistent | MATH_335_CR.py:528-530 | every snapshot carries `n`, a trial number in `1..k` that emits, the wins among those trials, `0 <= wins <= i` and `losses == i - wins` |
| Aggregator.SnapshotsWithin | MATH_335_CR.py:524-530 | snapshots taken during the first `k` trials are numbered 1 to `k` |
| Aggregator.SnapshotsIncreasing | MATH_335_CR.py:524-530 | snapshot trial numbers strictly increase |
| Aggregator.SnapshotEmittedIff | MATH_335_CR.py:528 | a snapshot is taken after trial `i` if and only if `i % batch == 0 or i == n` |
| Aggregator.LastSnapshot | MATH_335_CR.py:524-530 | for `n >= 1` the last snapshot is `(n, n, wins, n - wins)` with the final counts, and it is the only one with `i == n` |
| Aggregator.SingleTrial | MATH_335_CR.py:522-530 | a run of one trial emits exactly one snapshot |
| Aggregator.SnapshotCount | MATH_335_CR.py:522-530 | a run emits `n // batch` snapshots, plus one for the last trial when `n` is not a multiple of the batch size |
| Aggregator.WinsCountPicks | MATH_335_MH_Cy_Ramos.py:543-545 | over the same draws, switching wins exactly the trials whose first pick missed the car and staying wins exactly the others |
| PlayMode.PlayStage.constructor | MATH_335_CR.py:41-43 | a new window starts with all three play-stage fields empty |
| PlayMode.PlayStage.ResetPlayStage | MATH_335_CR.py:358-361 | resetting returns all three fields to empty |
| PlayMode.PlayStage.OnDoorClick | MATH_335_CR.py:374-398 | the first click records the pick, the car and an opened door that is neither; a later click on the opened door changes nothing; any other later click ends the game with `switched == (idx != pick)` and `won == (idx == car)`, so a switch wins exactly when the pick was wrong; later clicks change no field |
| PlayMode.PlayOneGame | MATH_335_MH_Cy_Ramos.py:387-411 | a two-click game from a fresh board ends unless the second click is on the opened door, and it is won exactly when the user switched from a wrong pick or stayed on the right one |
| Validation.DecimalValue | MATH_335_MH_Cy_Ramos.py:495 | `int(...)` of a digit string is 0 exactly when every digit is `0` |
| Validation.Decimal | MATH_335_MH_Cy_Ramos.py:495 | every natural number has a digit string that passes `isdigit()` and reads back, under `int(...)`, as that number |
| Validation.Validate | MATH_335_MH_Cy_Ramos.py:491-499 | validation passes exactly when a switch option was chosen and the count is all digits with value at least 1; otherwise it gives the switch message first, then the count message |
| Validation.CountAcceptedIffNonzero | MATH_335_MH_Cy_Ramos.py:495 | with a switch option chosen, a count passes exactly when it is all digits and not all zeros |
| Validation.ValidateAcceptsPositive | MATH_335_MH_Cy_Ramos.py:495 | every positive count written in decimal passes validation |
| Validation.StartRun | MATH_335_MH_Cy_Ramos.py:505-510 | a run starts only after validation passes, then with `n == int(count)`, so `n >= 1`, and switching exactly when "Yes" was chosen |

## Left out

- Widget construction, layout, colours, progress bars, console text, ASCII art, the canvas graph and its pixel arithmetic: presentation only.
- The float percentages and the `(runs_done, wins / runs_done)` graph points of `_update_ui`: floating point. Snapshots keep the integer counts they are computed from.
- The background thread and the `self.after(...)` hand-off to the interface thread: concurrency plumbing. The snapshots are a returned sequence in emission order.
- Real randomness and the convergence of the win rate to 2/3 and 1/3: the draws are inputs. Only the exact count over the nine (pick, car) pairs is proved.
- `Choice` reduces any number modulo the list length instead of drawing uniformly below it: it reaches the same doors, but the probability of each is not modelled.
- Python's Unicode-aware `str.isdigit` and `int`: digits are ASCII `'0'..'9'`. Whitespace never reaches `int` because `isdigit` rejects it first.
- Validation.Validate: reads a digit string of any length. On current CPython, `int()` of a decimal string longer than 4300 digits raises `ValueError`, which leaves `_validate` and `_on_run` with no run started and no message set; the model accepts such a count, and `Validation.StartRun` then starts a run with it.
- The order in which CPython lists a set is taken to be ascending for the doors 0, 1 and 2; it only decides which entry a given host draw selects.
- Aggregator.Simulate: takes `n` as a natural number. The run handler only calls it with a validated `n >= 1`, and Python's `range(1, n + 1)` is empty for every `n <= 0`, as the model's loop is for `n = 0`.
- PlayMode.PlayStage.OnDoorClick: the window disables every door button once a game ends, so no third click reaches the handler; the model lets one through, and it reports the same end of game again without changing any field.
- The messages written to `error_var` and `instruction_var` are kept only as the `Rejected` message of `Validate`; the play-mode instruction texts are presentation.
