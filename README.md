# Clock-period search of `syn.py`

`syn.py` looks for the shortest synthesis clock period at which the processor
design meets timing. It starts from the bracket `low_p = 8`, `high_p = 12`. While
the bracket is wider than 0.5 it takes the midpoint, writes it into the Makefile
as `CLOCK_PERIOD`, rebuilds the design, and runs `grep` for `VIOLATED` on that
period's timing report. A zero status (the marker was found) makes the midpoint
the new lower bound. Any other status makes it the new upper bound.

This project models that loop in one Dafny module, `ClockPeriodSearch`
(`clock_period_search.dfy`):

- The rebuild-and-grep chain is the parameter `synth: real -> int`. For a period
  it gives the status that `os.system` returns for the grep. A pure function
  loses no generality here: the periods one search probes are all different,
  because the brackets are strictly nested.
- `SearchClockPeriod` is the loop itself: local `low`/`high` overwritten by the
  midpoint, with a ghost step count as its termination measure. It also returns
  the probes it made, one `Probe(period, outcome)` per iteration. These are the
  periods and verdicts the script prints. The script prints nothing after the
  loop and returns nothing: the final `high_p` reaches its user only as the last
  MADE line, when there is one (`BoundsAreWitnessed`).
- `Run` is the same search written as a recursive function from any bracket whose
  width is `0.5 * 2^k`. The method is proved equal to `Run` from (8, 12). The
  lemmas state what `Run` guarantees.
- `Report`, `GrepExitCode`, `SystemStatus` and `Classify` model the decision rule.
  grep exits with 0 on a match, 1 on no match and 2 when the report cannot be
  read. `os.system` returns the exit code times 256. The script tests the status
  against 0.
- Periods are exact `real`s. `ProbesAreHalfIntegers` shows that every probed
  period is a multiple of 0.5, so Python's floats hold every value exactly.

## Model

| member | source | states |
|---|---|---|
| `ClockPeriodSearch.SearchClockPeriod` | syn.py:12-31 | The loop from (8, 12) makes exactly 3 probes and ends with `low < high`, `high - low == 0.5`, both bounds inside [8, 12]. Its result is that of `Run`. `low` is the last period probed VIOLATED, or 8 if none was, and `high` is the last period probed MADE, or 12 if none was. Each probe's verdict is the script's test on the status `synth` gives for that period, and every probed period is a multiple of 0.5. For any timing threshold `t` in (8, 12], `t <= high < t + 0.5`. |
| `ClockPeriodSearch.Midpoint` | syn.py:18 | The candidate period is equidistant from both bounds and lies strictly between them when `low < high`. |
| `ClockPeriodSearch.Step` | syn.py:26-31 | One iteration moves exactly one bound to the midpoint: the lower bound on VIOLATED, the upper bound on MADE. The other bound is unchanged. The width halves, and a non-empty bracket stays non-empty and inside the old one, so `low` never decreases and `high` never increases. |
| `ClockPeriodSearch.DecisionRule` | syn.py:24-31 | Only a readable report that contains the marker gives status 0 (VIOLATED). A clean report gives 256. A report that cannot be read gives a non-zero status and so counts as MADE. |
| `ClockPeriodSearch.RunAdvance` | syn.py:17-31 | One iteration keeps the loop invariant "probes so far followed by the rest of the run equal the whole run". While the bracket is wider than 0.5, at least one more step remains. |
| `ClockPeriodSearch.RunShape` | syn.py:12-31 | From a bracket `0.5 * 2^k` wide, the loop makes exactly `k` probes. It ends with a bracket exactly 0.5 wide, nested in the initial one. Every probe lies strictly inside the initial bracket. |
| `ClockPeriodSearch.BoundsAreWitnessed` | syn.py:12-31 | The final lower bound is the period of the last VIOLATED probe, and the final upper bound is the period of the last MADE probe. When no probe had that verdict, the bound is the initial one. The initial bounds are never evaluated: every probe lies strictly between them. |
| `ClockPeriodSearch.ThresholdStaysBracketed` | syn.py:17-31 | If periods inside the bracket violate timing exactly when they are below a threshold `t`, the invariant `low < t <= high` holds at the end whenever it held at the start. |
| `ClockPeriodSearch.ConvergesAboveThreshold` | syn.py:17-31 | Under such a threshold inside the bracket, the final upper bound satisfies `t <= high < t + 0.5`. |
| `ClockPeriodSearch.AlreadyMadeAtLow` | syn.py:29-31 | If the threshold is at or below the lower bound, every probe is MADE and the search ends at `(low, low + 0.5)`. |
| `ClockPeriodSearch.ViolatedEverywhere` | syn.py:26-28 | If the threshold is above the upper bound, every probe is VIOLATED, so no MADE line is printed. Every probe lies strictly inside the bracket. The loop ends at `(high - 0.5, high)`: `high_p` is still the initial upper bound, which was never evaluated. |
| `ClockPeriodSearch.ProbesAreHalfIntegers` | syn.py:12-18 | From a lower bound that is a multiple of 0.5 and a width of `0.5 * 2^k`, every probed period is a multiple of 0.5. |
| `ClockPeriodSearch.SearchFromInitial` | syn.py:12-31 | From (8, 12), `Run` makes 3 probes. It ends 0.5 wide inside [8, 12], with both bounds witnessed. Each probe's verdict is `Classify` of the status for its period, and every probed period is a multiple of 0.5. It ends within 0.5 above any threshold in (8, 12]. |
| `ClockPeriodSearch.ProbesAreVerdicts` | syn.py:18-31 | Every probe records the verdict that the script's test (`Classify`) gives for the status `synth` returns at that probe's period. |
| `ClockPeriodSearch.Run` | syn.py:17-31 | No contract of its own: the loop as a recursive function. `SearchClockPeriod` is proved equal to it, and `RunShape`, `RunAdvance`, `BoundsAreWitnessed`, `ProbesAreVerdicts`, `ThresholdStaysBracketed`, `AlreadyMadeAtLow` and `ViolatedEverywhere` state what it does. |
| `ClockPeriodSearch.Classify` | syn.py:26 | No contract of its own: the test `violated == 0`. `DecisionRule` and `ProbesAreVerdicts` state what it does. |
| `ClockPeriodSearch.GrepExitCode` | syn.py:24 | No contract of its own: grep's exit code 0, 1 or 2. `DecisionRule` states what it does. |
| `ClockPeriodSearch.SystemStatus` | syn.py:24 | No contract of its own: the exit code times 256, as `os.system` returns it. `DecisionRule` states what it does. |
| `ClockPeriodSearch.ReferenceScenario` | syn.py:12-31 | With a threshold of 10.3, the search probes 10 (VIOLATED), 11 (MADE) and 10.5 (MADE), and ends at (10, 10.5). |

## Left out

- The `sed -i` edits of `verilog/sys_defs.svh` and of the Makefile (syn.py:9-10, 19): line-numbered text substitution in external files. They are part of what `synth` stands for.
- The `make nuke` and `make syn_simv` calls (syn.py:20-21): an external toolchain, folded into `synth`.
- How grep searches the report (syn.py:24): only its exit code is modelled, through `Report`. Exit codes other than 0, 1 and 2, such as a signal that kills the shell, are covered only because `synth` may return any integer.
- The console output (syn.py:23, 27, 30). `SearchClockPeriod` returns the probed periods and verdicts instead of printing them.
- Reading `N` from the command line (syn.py:7): it is only used in a sed edit.
- The unused variable `inc` (syn.py:14).
- IEEE floating point: periods are exact reals. `ProbesAreHalfIntegers` shows that nothing is lost, because every value reached is a multiple of 0.5.
- `Run` and the lemmas about it cover brackets whose width is `0.5 * 2^k`. The script's (8, 12) is one of these. A general iteration count of `ceil(log2(width / 0.5))` for other widths is not modelled, because the script never starts from such a bracket.
- A report that cannot be read counts as MADE, because the script tests only for status 0. The model keeps that behaviour and does not add a separate "indeterminate" outcome.
- The script does not check whether the initial bracket contains a feasible period. When timing fails at every period it prints only VIOLATED lines, and the loop ends with `high_p` still 12, never evaluated. The model keeps this behaviour and states it in `ViolatedEverywhere`.
