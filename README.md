# VQE dashboard run state in Dafny

This project models the run-state bookkeeping of the `VQEDashboard` class in
`vqe_simulator_dashboard.py`. The dashboard tracks three simulation methods
(`normal_vqe`, `vqe_uccsd_hybrid`, `vqe_uccsd_hybrid_zne`) and keeps, for each
one, a series of parallel `iterations` and `energy` lists. It also keeps a
tick counter (`current_iteration`), a set of converged methods and a stop
flag. A timer tick guards on the stop flag, then appends one energy per
method, runs the sliding-window convergence check, stops the run once all
three methods have converged, counts the tick and cuts every series back to
its last 50 entries. The "Run Simulation" button resets all of it.

The project has two modules:

- `vqe_run.dfy`, module `VqeRun`: the entities as values (`Method`,
  `Series`, `RunState`), the constants (threshold 0.001, window 5, history
  limit 50, jitter 0.001 / 0.001 / 0.0005) and one function per step of the
  dashboard: `Converge` (the convergence check), `Generate` (the tick body),
  `Step` (the guarded tick) and `Cleared` (the reset). It also defines the run
  invariant `Inv`, the history relation `Tracks` and the lemmas that state
  what a run promises.
- `vqe_dashboard.dfy`, module `VqeDashboard`: class `Dashboard`, with the
  dashboard's fields updated in place by methods that follow the source. The
  for-loops over the table are kept as loops. `CheckConvergence`,
  `AppendSamples`, `TruncateSeries`, `GenerateNewDataPoint`, `Tick` and
  `Reset` are each proved to leave the state equal to the `VqeRun` function
  of the old state (`Converge`, `Appended`, `Trimmed`, `Generate`, `Step`,
  `Cleared`); `FinishTick` states its two field updates directly. `Tick` keeps
  `Valid()`, which is `Inv` plus `Tracks` over a ghost `history` of every
  energy appended in the run.

The unconverged sample and the random draw are inputs: each tick takes
`sample, u: Method -> real`. `sample(m)` is the value the source computes
from its exponential formula for method `m`. `u(m)` is the tick's one
`np.random.random()` draw for `m`, which the converged branch uses.

The model follows the code's exact order and conditions, including these
details:

- A tick checks convergence before it truncates, not after.
- Truncation is decided by the length of the `normal_vqe` series alone
  (lines 560-563). Under `Inv` all series have the same length, so this is
  the same as truncating each series on its own.
- The code bounds each converged step by half the jitter, not the distance
  from the value at convergence. `ConvergedStepBound` states the per-step
  bound, which is all the code gives: the steps form a random walk.

## Model

| member | source | states |
|---|---|---|
| VqeRun.CountOfConverged | vqe_simulator_dashboard.py:491-492 | a set of methods has at most three members, and it has three or more exactly when it is all three methods, so `len(...) >= 3` and `== 3` agree |
| VqeRun.Max | vqe_simulator_dashboard.py:575 | `max` of a non-empty list is one of its elements and no element exceeds it |
| VqeRun.Min | vqe_simulator_dashboard.py:575 | `min` of a non-empty list is one of its elements and no element is below it |
| VqeRun.SettledIff | vqe_simulator_dashboard.py:571-577 | the convergence test holds exactly when the list has at least 5 energies and any two of the last 5 differ by less than 0.001 |
| VqeRun.Jitter | vqe_simulator_dashboard.py:512-524 | each jitter amplitude is positive and at most 0.001 |
| VqeRun.JitterBound | vqe_simulator_dashboard.py:508-524 | for a draw in [0, 1) a converged method's next energy is within half its jitter of its last one: the step lies in [-0.0005, 0.0005) for normal_vqe and vqe_uccsd_hybrid, in [-0.00025, 0.00025) for vqe_uccsd_hybrid_zne |
| VqeRun.KeepLast | vqe_simulator_dashboard.py:562-563 | the `[-50:]` slice keeps min(length, 50) entries, and they are the list's final entries in order |
| VqeRun.Retained | vqe_simulator_dashboard.py:559-563 | after `iter` ticks a series holds min(iter, 50) entries |
| VqeRun.InitialInv | vqe_simulator_dashboard.py:43-58 | the initial state satisfies the run invariant |
| VqeRun.KeepLastOfAppend | vqe_simulator_dashboard.py:559-563 | appending to a truncated list and truncating again gives the same list as truncating the full history once |
| VqeRun.GenerateAppends | vqe_simulator_dashboard.py:527-534 | under the invariant, the tick body gives each series this tick's number and next energy appended, cut to its last 50, and moves the counter on by one |
| VqeRun.GeneratePreservesInv | vqe_simulator_dashboard.py:502-563 | the tick body preserves the run invariant |
| VqeRun.RecordedKeepsLast | vqe_simulator_dashboard.py:527-534 | after a tick, each method's full history is one entry longer, and its last 50 entries are the series' energies with the new one appended, truncated |
| VqeRun.GenerateTracks | vqe_simulator_dashboard.py:559-563 | after the tick body each energy list is exactly the last 50 of all energies appended in the run, in append order |
| VqeRun.StepPreservesInv | vqe_simulator_dashboard.py:488-500 | every guarded tick preserves the run invariant: equal lengths of at most 50, consecutive iteration numbers, at least 5 energies for every converged method, stop flag set exactly when all three have converged |
| VqeRun.StepAppendsOnce | vqe_simulator_dashboard.py:504-557 | a tick of a run that is not stopped appends the same current iteration number to all three series and increments the counter by exactly 1 |
| VqeRun.StepWhenDoneIsIdle | vqe_simulator_dashboard.py:491-495 | a tick that starts stopped or with three converged methods changes no series, keeps the counter and leaves the run stopped |
| VqeRun.ConvergenceIsOneShot | vqe_simulator_dashboard.py:567-578 | a converged method stays converged; a method joins exactly when the run was not stopped, it was not converged, and its energies with the new one appended pass the test |
| VqeRun.ConvergedAfterWindow | vqe_simulator_dashboard.py:572 | a converged method implies at least 5 ticks in the run and a non-empty energy list, so the `[-1]` reads on the converged branch are defined |
| VqeRun.ConvergedStepBound | vqe_simulator_dashboard.py:508-524 | in a tick of a running run, a converged method's newest energy differs from its previous one by a step in [-0.0005, 0.0005) ([-0.00025, 0.00025) for vqe_uccsd_hybrid_zne) |
| VqeRun.StopsExactlyWhenAllConverged | vqe_simulator_dashboard.py:547-550 | after every tick the run is stopped exactly when three methods have converged |
| VqeRun.ClearedIsInitial | vqe_simulator_dashboard.py:164-169 | reset from any state gives counter 0, no converged method, flag cleared and all series empty, which satisfies the invariant |
| VqeDashboard.Dashboard.constructor | vqe_simulator_dashboard.py:43-58 | the new dashboard is in the initial state, consistent with an empty history |
| VqeDashboard.Dashboard.CheckConvergence | vqe_simulator_dashboard.py:565-578 | the loop over the table leaves the set equal to `Converge` of the old set: it adds exactly the unconverged methods whose last five energies pass the test, and removes none |
| VqeDashboard.Dashboard.AppendSamples | vqe_simulator_dashboard.py:504-534 | the table afterwards has (iteration, sample or jittered last energy) appended to every series |
| VqeDashboard.Dashboard.FinishTick | vqe_simulator_dashboard.py:547-557 | the flag is set once three methods have converged, and the counter goes up by one |
| VqeDashboard.Dashboard.TruncateSeries | vqe_simulator_dashboard.py:559-563 | the table afterwards is the truncation keyed on normal_vqe's length |
| VqeDashboard.Dashboard.GenerateNewDataPoint | vqe_simulator_dashboard.py:502-563 | the state afterwards is the tick body's, and the history records each method's new energy |
| VqeDashboard.Dashboard.Tick | vqe_simulator_dashboard.py:488-497 | keeps the invariant and the history relation; the state afterwards is the guarded tick's; a stopped run records nothing |
| VqeDashboard.Dashboard.Reset | vqe_simulator_dashboard.py:164-169 | whatever the prior state, the dashboard afterwards is in the initial state and satisfies the invariant |

Helper lemmas that only serve the proofs above, and are not listed in the
table: `MethodsListsAll` (every method is a table key), `ConvergeMembers`
(membership in `Converge`), `AppendedInOrder` (the three map updates equal
`Appended`), `TrimmedIsTrim` (truncation keyed on `normal_vqe` cuts each
series alike), `SeriesInvAppend` (one series keeps its invariant),
`GenerateKeepsSeries`, `GenerateKeepsConverged` and `GenerateKeepsStop`
(the three parts of `GeneratePreservesInv`), and `GenerateInPhases` (the
tick body's state assembled from its phases).

## Left out

- The exponential sample formula and `np.random.random()` (lines 509, 516, 522): floating-point transcendental maths and an external generator. The sample and the draw are parameters of each tick.
- Energies are modelled as mathematical reals, not IEEE doubles.
- Timer self-scheduling through `root.after` (lines 174, 500): event-loop plumbing. `Tick` is called directly. A related quirk is not modelled either: after a stop, reset schedules no new ticks.
- Status and label text, chart updates, `print` and `mark_convergence` (lines 540-546, 549, 551-554, 579-582): display only. The `'vqe_uccsd'` branch of `mark_convergence` (line 593) never matches, because the `Method` type has only the three table keys.
- The widget, layout and chart code in the rest of the file, and `main`.
- The first tick that `__init__` runs at once (line 63): the constructor stops at the initial state, and the caller constructs the dashboard and then calls `Tick`.
- `AppendSamples`, `FinishTick` and `TruncateSeries` are three parts of `generate_new_data_point`, split out as methods of their own. `GenerateNewDataPoint` calls them in the source's order.
- ConvergedStepBound: bounds one step after convergence and not the drift since convergence, because the code allows the jittered energies to random-walk.
