/** A model of the clock-period search in syn.py: a bisection over the synthesis
    clock period that starts from the bracket (8, 12), builds the design at the
    midpoint, and moves the lower bound up when timing is VIOLATED and the upper
    bound down when it is MADE, until the bracket is no wider than 0.5.

    The build-and-check chain (sed, make, grep) is the parameter `synth`: for a
    period it gives the status that `os.system` returns for the grep on that
    period's timing report. Periods are exact reals: every period the search
    probes is a multiple of 0.5 (ProbesAreHalfIntegers), so the script's
    floating-point arithmetic is exact on them. */
module ClockPeriodSearch {

  /** The initial bracket and the stopping width of the search. */
  const InitialLow: real := 8.0
  const InitialHigh: real := 12.0
  const Tolerance: real := 0.5

  /** The initial width is Tolerance * 2^3, so the search makes three steps. */
  const InitialSteps: nat := 3

  function Initial(): Bracket {
    Bracket(InitialLow, InitialHigh)
  }

  // ---------------------------------------------------------------------------
  // Deciding VIOLATED or MADE from the grep status
  // ---------------------------------------------------------------------------

  /** The verdict the script prints for a probed period. */
  datatype Outcome = Violated | Made

  /** What grep finds in the timing report of one build: the report cannot be
      read (missing, or the build failed), or it can and does or does not hold
      a line matching VIOLATED. */
  datatype Report = Unreadable | Readable(hasMarker: bool)

  /** The grep exit code: 0 when a line matches, 1 when none does, 2 on error. */
  function GrepExitCode(r: Report): int {
    match r
    case Readable(true) => 0
    case Readable(false) => 1
    case Unreadable => 2
  }

  /** `os.system` returns the POSIX wait status of the shell: the exit code
      shifted left by eight bits. */
  function SystemStatus(exitCode: int): int {
    exitCode * 256
  }

  /** The script's test on the status: zero is VIOLATED, any other value MADE. */
  function Classify(status: int): Outcome {
    if status == 0 then Violated else Made
  }

  /** Only a readable report holding the marker is VIOLATED; a clean report
      gives 256, and a report that cannot be read is MADE as well. */
  lemma DecisionRule(r: Report)
    ensures Classify(SystemStatus(GrepExitCode(r))) == Violated <==> r == Readable(true)
    ensures SystemStatus(GrepExitCode(Readable(false))) == 256
    ensures r == Unreadable ==> SystemStatus(GrepExitCode(r)) != 0 && Classify(SystemStatus(GrepExitCode(r))) == Made
  {
  }

  // ---------------------------------------------------------------------------
  // One bisection step
  // ---------------------------------------------------------------------------

  /** The bracket (low_p, high_p). */
  datatype Bracket = Bracket(low: real, high: real)

  function Width(b: Bracket): real {
    b.high - b.low
  }

  /** The candidate period: equidistant from both bounds, and strictly between
      them when the bracket is not empty. */
  function Midpoint(b: Bracket): (mid: real)
    ensures mid - b.low == b.high - mid
    ensures b.low < b.high ==> b.low < mid < b.high
  {
    (b.high + b.low) / 2.0
  }

  /** One iteration: exactly one bound moves, to the midpoint; the bracket
      halves and stays inside the old one. */
  function Step(b: Bracket, o: Outcome): (r: Bracket)
    ensures Width(r) == Width(b) / 2.0
    ensures o == Violated ==> r.low == Midpoint(b) && r.high == b.high
    ensures o == Made ==> r.high == Midpoint(b) && r.low == b.low
    ensures b.low < b.high ==> b.low <= r.low < r.high <= b.high
  {
    match o
    case Violated => Bracket(Midpoint(b), b.high)
    case Made => Bracket(b.low, Midpoint(b))
  }

  // ---------------------------------------------------------------------------
  // The whole search, as a function
  // ---------------------------------------------------------------------------

  function Pow2(k: nat): (r: nat)
    ensures r >= 1
    ensures k > 0 ==> r >= 2
  {
    if k == 0 then 1 else 2 * Pow2(k - 1)
  }

  /** The bracket is Tolerance * 2^k wide (2^k / 2, Tolerance being 0.5):
      k more steps until the loop stops. */
  predicate StepsLeft(b: Bracket, k: nat) {
    Width(b) == Pow2(k) as real / 2.0
  }

  /** A period the search evaluated and the verdict it printed for it. */
  datatype Probe = Probe(period: real, outcome: Outcome)

  datatype SearchResult = SearchResult(final: Bracket, probes: seq<Probe>)

  /** The loop of the script, from bracket b: while the bracket is wider than
      the tolerance, probe the midpoint and step. The ghost count k only
      bounds the recursion; the guard is the script's. */
  function Run(b: Bracket, k: nat, synth: real -> int): SearchResult
    requires StepsLeft(b, k)
    decreases k
  {
    if Width(b) <= Tolerance then SearchResult(b, [])
    else
      var mid := Midpoint(b);
      var o := Classify(synth(mid));
      var rest := Run(Step(b, o), k - 1, synth);
      SearchResult(rest.final, [Probe(mid, o)] + rest.probes)
  }

  /** One iteration of the loop keeps "the probes so far followed by the rest
      of the run are the whole run": from b, the next bracket is the step on
      the midpoint's verdict and the next probe records that verdict. */
  lemma RunAdvance(b: Bracket, k: nat, synth: real -> int, done: seq<Probe>, whole: SearchResult, next: Bracket, probe: Probe)
    requires StepsLeft(b, k)
    requires Width(b) > Tolerance
    requires whole.final == Run(b, k, synth).final
    requires whole.probes == done + Run(b, k, synth).probes
    requires probe == Probe(Midpoint(b), Classify(synth(Midpoint(b))))
    requires next == Step(b, probe.outcome)
    ensures k > 0 && StepsLeft(next, k - 1)
    ensures whole.final == Run(next, k - 1, synth).final
    ensures whole.probes == (done + [probe]) + Run(next, k - 1, synth).probes
  {
  }

  /** The period of the last probe with outcome o, or the default when there is none. */
  function LastOf(probes: seq<Probe>, o: Outcome, default: real): real {
    if probes == [] then default
    else if probes[|probes| - 1].outcome == o then probes[|probes| - 1].period
    else LastOf(probes[..|probes| - 1], o, default)
  }

  /** The synthesis result has a timing threshold t inside b: every period
      strictly inside b violates timing exactly when it is below t. */
  ghost predicate ThresholdIn(synth: real -> int, t: real, b: Bracket) {
    forall p :: b.low < p < b.high ==> (Classify(synth(p)) == Violated <==> p < t)
  }

  // ---------------------------------------------------------------------------
  // The loop of syn.py
  // ---------------------------------------------------------------------------

  /** The search of syn.py. `probes` records the periods it synthesized and the
      verdict printed for each. */
  method SearchClockPeriod(synth: real -> int) returns (low: real, high: real, probes: seq<Probe>)
    ensures Run(Initial(), InitialSteps, synth) == SearchResult(Bracket(low, high), probes)
    ensures |probes| == 3
    ensures InitialLow <= low < high <= InitialHigh && high - low == Tolerance
    ensures low == LastOf(probes, Violated, InitialLow)
    ensures high == LastOf(probes, Made, InitialHigh)
    ensures forall i :: 0 <= i < |probes| ==> probes[i].outcome == Classify(synth(probes[i].period))
    ensures forall i :: 0 <= i < |probes| ==> HalfInteger(probes[i].period)
    ensures forall t :: ThresholdIn(synth, t, Initial()) && InitialLow < t <= InitialHigh ==> t <= high < t + Tolerance
  {
    low, high := InitialLow, InitialHigh;
    probes := [];
    ghost var k: nat := InitialSteps;
    ghost var spec := Run(Bracket(low, high), k, synth);
    while high - low > Tolerance
      invariant StepsLeft(Bracket(low, high), k)
      invariant spec.final == Run(Bracket(low, high), k, synth).final
      invariant spec.probes == probes + Run(Bracket(low, high), k, synth).probes
      decreases k
    {
      ghost var b, done := Bracket(low, high), probes;
      var mid := (high + low) / 2.0;
      var violated := synth(mid);
      if violated == 0 {
        probes := probes + [Probe(mid, Violated)];
        low := mid;
      } else {
        probes := probes + [Probe(mid, Made)];
        high := mid;
      }
      RunAdvance(b, k, synth, done, spec, Bracket(low, high), probes[|done|]);
      k := k - 1;
    }
    SearchFromInitial(synth);
  }

  /** What the search promises from the script's initial bracket (8, 12). */
  lemma SearchFromInitial(synth: real -> int)
    ensures var r := Run(Initial(), InitialSteps, synth);
      && |r.probes| == 3
      && InitialLow <= r.final.low < r.final.high <= InitialHigh
      && Width(r.final) == Tolerance
      && r.final.low == LastOf(r.probes, Violated, InitialLow)
      && r.final.high == LastOf(r.probes, Made, InitialHigh)
      && (forall i :: 0 <= i < |r.probes| ==> r.probes[i].outcome == Classify(synth(r.probes[i].period)))
      && (forall i :: 0 <= i < |r.probes| ==> HalfInteger(r.probes[i].period))
      && forall t :: ThresholdIn(synth, t, Initial()) && InitialLow < t <= InitialHigh ==> t <= r.final.high < t + Tolerance
  {
    RunShape(Initial(), InitialSteps, synth);
    BoundsAreWitnessed(Initial(), InitialSteps, synth);
    ProbesAreVerdicts(Initial(), InitialSteps, synth);
    assert (2.0 * InitialLow).Floor == 16;
    ProbesAreHalfIntegers(Initial(), InitialSteps, synth);
    forall t | ThresholdIn(synth, t, Initial()) && InitialLow < t <= InitialHigh
      ensures t <= Run(Initial(), InitialSteps, synth).final.high < t + Tolerance
    {
      ConvergesAboveThreshold(Initial(), InitialSteps, synth, t);
    }
  }

  // ---------------------------------------------------------------------------
  // Properties of the search
  // ---------------------------------------------------------------------------

  /** The search makes exactly k probes, ends with a bracket exactly Tolerance
      wide, and its bounds only move inward: every probe lies strictly inside
      the initial bracket. */
  lemma {:induction false} RunShape(b: Bracket, k: nat, synth: real -> int)
    requires StepsLeft(b, k)
    ensures var r := Run(b, k, synth);
      && |r.probes| == k
      && Width(r.final) == Tolerance
      && b.low <= r.final.low < r.final.high <= b.high
      && forall i :: 0 <= i < |r.probes| ==> b.low < r.probes[i].period < b.high
    decreases k
  {
    if k > 0 {
      var o := Classify(synth(Midpoint(b)));
      RunShape(Step(b, o), k - 1, synth);
    }
  }

  /** Every probe records the verdict the script drew from the grep status
      for that period. */
  lemma {:induction false} ProbesAreVerdicts(b: Bracket, k: nat, synth: real -> int)
    requires StepsLeft(b, k)
    ensures forall i :: 0 <= i < |Run(b, k, synth).probes| ==>
      Run(b, k, synth).probes[i].outcome == Classify(synth(Run(b, k, synth).probes[i].period))
    decreases k
  {
    if Width(b) > Tolerance {
      var o := Classify(synth(Midpoint(b)));
      ProbesAreVerdicts(Step(b, o), k - 1, synth);
    }
  }

  lemma {:induction false} LastOfPrepend(p: Probe, probes: seq<Probe>, o: Outcome, default: real)
    ensures LastOf([p] + probes, o, default)
         == LastOf(probes, o, if p.outcome == o then p.period else default)
    decreases |probes|
  {
    if probes != [] {
      var n := |probes|;
      assert ([p] + probes)[..n] == [p] + probes[..n - 1];
      LastOfPrepend(p, probes[..n - 1], o, default);
    }
  }

  /** Every value the lower bound takes after the start was observed VIOLATED,
      and every value the upper bound takes was observed MADE: each final
      bound is the last probe with that verdict, or the initial bound when no
      probe had it. The initial bounds are never evaluated: every probe lies
      strictly between them. */
  lemma {:induction false} BoundsAreWitnessed(b: Bracket, k: nat, synth: real -> int)
    requires StepsLeft(b, k)
    ensures Run(b, k, synth).final.low == LastOf(Run(b, k, synth).probes, Violated, b.low)
    ensures Run(b, k, synth).final.high == LastOf(Run(b, k, synth).probes, Made, b.high)
    ensures forall i :: 0 <= i < |Run(b, k, synth).probes| ==> b.low < Run(b, k, synth).probes[i].period < b.high
    decreases k
  {
    RunShape(b, k, synth);
    if Width(b) > Tolerance {
      var mid := Midpoint(b);
      var o := Classify(synth(mid));
      var next := Step(b, o);
      BoundsAreWitnessed(next, k - 1, synth);
      LastOfPrepend(Probe(mid, o), Run(next, k - 1, synth).probes, Violated, b.low);
      LastOfPrepend(Probe(mid, o), Run(next, k - 1, synth).probes, Made, b.high);
    }
  }

  /** With a timing threshold t inside the bracket, the invariant
      low < t <= high is kept by every step. */
  lemma {:induction false} ThresholdStaysBracketed(b: Bracket, k: nat, synth: real -> int, t: real)
    requires StepsLeft(b, k)
    requires ThresholdIn(synth, t, b)
    requires b.low < t <= b.high
    ensures Run(b, k, synth).final.low < t <= Run(b, k, synth).final.high
    decreases k
  {
    if Width(b) > Tolerance {
      var o := Classify(synth(Midpoint(b)));
      ThresholdStaysBracketed(Step(b, o), k - 1, synth, t);
    }
  }

  /** With a timing threshold t inside the bracket, the final upper bound lies
      within the tolerance above the threshold. */
  lemma ConvergesAboveThreshold(b: Bracket, k: nat, synth: real -> int, t: real)
    requires StepsLeft(b, k)
    requires ThresholdIn(synth, t, b)
    requires b.low < t <= b.high
    ensures t <= Run(b, k, synth).final.high < t + Tolerance
  {
    RunShape(b, k, synth);
    ThresholdStaysBracketed(b, k, synth, t);
  }

  /** Threshold at or below the lower bound: every probe is MADE and the
      search ends at (low, low + Tolerance). */
  lemma {:induction false} AlreadyMadeAtLow(b: Bracket, k: nat, synth: real -> int, t: real)
    requires StepsLeft(b, k)
    requires ThresholdIn(synth, t, b)
    requires t <= b.low
    ensures Run(b, k, synth).final == Bracket(b.low, b.low + Tolerance)
    ensures forall i :: 0 <= i < |Run(b, k, synth).probes| ==> Run(b, k, synth).probes[i].outcome == Made
    decreases k
  {
    if Width(b) > Tolerance {
      AlreadyMadeAtLow(Step(b, Made), k - 1, synth, t);
    }
  }

  /** Threshold above the upper bound: every probe is VIOLATED, so no MADE
      verdict is ever printed, and the loop ends with the upper bound still
      the initial one, which was never evaluated. */
  lemma {:induction false} ViolatedEverywhere(b: Bracket, k: nat, synth: real -> int, t: real)
    requires StepsLeft(b, k)
    requires ThresholdIn(synth, t, b)
    requires t > b.high
    ensures Run(b, k, synth).final == Bracket(b.high - Tolerance, b.high)
    ensures forall i :: 0 <= i < |Run(b, k, synth).probes| ==> Run(b, k, synth).probes[i].outcome == Violated
    ensures forall i :: 0 <= i < |Run(b, k, synth).probes| ==> b.low < Run(b, k, synth).probes[i].period < b.high
    decreases k
  {
    RunShape(b, k, synth);
    if Width(b) > Tolerance {
      ViolatedEverywhere(Step(b, Violated), k - 1, synth, t);
    }
  }

  /** x is a whole multiple of one half. */
  ghost predicate HalfInteger(x: real) {
    (2.0 * x).Floor as real == 2.0 * x
  }

  /** From a bracket whose lower bound is a multiple of 0.5, every probed
      period is a multiple of 0.5: the script's floats hold them exactly. */
  lemma {:induction false} ProbesAreHalfIntegers(b: Bracket, k: nat, synth: real -> int)
    requires StepsLeft(b, k)
    requires HalfInteger(b.low)
    ensures forall i :: 0 <= i < |Run(b, k, synth).probes| ==> HalfInteger(Run(b, k, synth).probes[i].period)
    decreases k
  {
    if Width(b) > Tolerance {
      var mid := Midpoint(b);
      var o := Classify(synth(mid));
      var half: nat := Pow2(k - 1);
      assert 2.0 * mid == 2.0 * b.low + half as real;
      assert (2.0 * mid).Floor == (2.0 * b.low).Floor + half;
      ProbesAreHalfIntegers(Step(b, o), k - 1, synth);
    }
  }

  /** The search of syn.py on a design whose timing threshold is 10.3 probes
      10 (VIOLATED), 11 (MADE) and 10.5 (MADE), and ends at (10, 10.5). */
  lemma ReferenceScenario()
    ensures var synth := (p: real) => if p < 10.3 then 0 else 256;
      Run(Initial(), InitialSteps, synth)
      == SearchResult(Bracket(10.0, 10.5), [Probe(10.0, Violated), Probe(11.0, Made), Probe(10.5, Made)])
  {
  }
}
