/** The counter of src/utils/error_tracker.rs that decides when repeated track
    read or write failures become fatal. The sender and the receiver call
    `increment_with_error` after a failed read/write and stop when it returns
    true, and call `increment` after a successful one. */
module ErrorTracking {
  import opened Text

  /** The four u32 fields of an ErrorTracker, as a value. */
  datatype Counters = Counters(iterations: nat, errors: nat, threshold: nat, resetLimit: nat)

  /** What the caller reports for one track read or write. */
  datatype Report = Failure | Success

  /** The counters after one report; the ErrorTracker methods are proved to
      perform exactly this step. */
  function Step(c: Counters, r: Report): Counters
  {
    match r
    case Failure => c.(errors := c.errors + 1, iterations := c.iterations + 1)
    case Success =>
      if c.iterations + 1 >= c.resetLimit then c.(iterations := 0, errors := 0)
      else c.(iterations := c.iterations + 1)
  }

  /** Whether a failure reported in state c makes the tracker answer true. */
  predicate FatalIn(c: Counters) { c.errors + 1 >= c.threshold }

  /** The counters after a run of reports. */
  function Run(c: Counters, reports: seq<Report>): Counters
    decreases |reports|
  {
    if reports == [] then c else Run(Step(c, reports[0]), reports[1..])
  }

  function CountFailures(reports: seq<Report>): nat
    decreases |reports|
  {
    if reports == [] then 0
    else (if reports[0] == Failure then 1 else 0) + CountFailures(reports[1..])
  }

  /** The invariant every ErrorTracker keeps: no more errors than iterations. */
  predicate Consistent(c: Counters) { c.errors <= c.iterations }

  /** Any run of reports keeps the invariant, and never changes the threshold
      or the reset limit. */
  lemma {:induction false} RunKeepsInvariant(c: Counters, reports: seq<Report>)
    requires Consistent(c)
    ensures Consistent(Run(c, reports))
    ensures Run(c, reports).threshold == c.threshold
    ensures Run(c, reports).resetLimit == c.resetLimit
    decreases |reports|
  {
    if reports != [] {
      RunKeepsInvariant(Step(c, reports[0]), reports[1..]);
    }
  }

  /** k failures in a row raise both counters by exactly k: a failure never
      resets the tracker, whatever the reset limit. */
  lemma {:induction false} FailuresInARow(c: Counters, k: nat)
    ensures Run(c, seq(k, _ => Failure)) == c.(errors := c.errors + k, iterations := c.iterations + k)
    decreases k
  {
    if k > 0 {
      var rs := seq(k, _ => Failure);
      assert rs[0] == Failure && rs[1..] == seq(k - 1, _ => Failure);
      FailuresInARow(Step(c, Failure), k - 1);
    }
  }

  /** From a fresh tracker with threshold t >= 1, the first t - 1 consecutive
      failures are not fatal and the t-th one is. */
  lemma FatalExactlyAtThreshold(t: nat, resetLimit: nat, k: nat)
    requires 1 <= t
    ensures var c := Run(Counters(0, 0, t, resetLimit), seq(k, _ => Failure));
            FatalIn(c) <==> k + 1 >= t
  {
    FailuresInARow(Counters(0, 0, t, resetLimit), k);
  }

  /** Errors only come from failures: a run of reports adds at most one
      error per failure reported. */
  lemma {:induction false} ErrorsBoundedByFailures(c: Counters, reports: seq<Report>)
    ensures Run(c, reports).errors <= c.errors + CountFailures(reports)
    decreases |reports|
  {
    if reports != [] {
      ErrorsBoundedByFailures(Step(c, reports[0]), reports[1..]);
    }
  }

  /** A mutable ErrorTracker. The counters are u32 in the source; the model
      keeps them below 2^32 and requires that an increment cannot overflow. */
  class ErrorTracker {
    var iterationsCounter: nat
    var errorsCounter: nat
    var threshold: nat
    var resetLimit: nat

    ghost predicate Valid()
      reads this
    {
      errorsCounter <= iterationsCounter <= U32_MAX && threshold <= U32_MAX && resetLimit <= U32_MAX
    }

    function State(): Counters
      reads this
    {
      Counters(iterationsCounter, errorsCounter, threshold, resetLimit)
    }

    /** `ErrorTracker::new`: both counters start at 0 and the limits are kept. */
    constructor (threshold: nat, resetLimit: nat)
      requires threshold <= U32_MAX && resetLimit <= U32_MAX
      ensures Valid()
      ensures iterationsCounter == 0 && errorsCounter == 0
      ensures this.threshold == threshold && this.resetLimit == resetLimit
    {
      iterationsCounter := 0;
      errorsCounter := 0;
      this.threshold := threshold;
      this.resetLimit := resetLimit;
    }

    /** `increment_with_error`: one more error and one more iteration; the
        answer is whether the error count has reached the threshold. */
    method IncrementWithError() returns (fatal: bool)
      requires Valid() && iterationsCounter < U32_MAX
      modifies this
      ensures Valid()
      ensures errorsCounter == old(errorsCounter) + 1
      ensures iterationsCounter == old(iterationsCounter) + 1
      ensures threshold == old(threshold) && resetLimit == old(resetLimit)
      ensures fatal <==> errorsCounter >= threshold
      ensures State() == Step(old(State()), Failure) && fatal == FatalIn(old(State()))
    {
      errorsCounter := errorsCounter + 1;
      iterationsCounter := iterationsCounter + 1;
      fatal := errorsCounter >= threshold;
    }

    /** `increment`: one more iteration; reaching the reset limit clears both
        counters, otherwise the error count is untouched. */
    method Increment()
      requires Valid() && iterationsCounter < U32_MAX
      modifies this
      ensures Valid()
      ensures threshold == old(threshold) && resetLimit == old(resetLimit)
      ensures old(iterationsCounter) + 1 >= resetLimit ==> iterationsCounter == 0 && errorsCounter == 0
      ensures old(iterationsCounter) + 1 < resetLimit ==>
                iterationsCounter == old(iterationsCounter) + 1 && errorsCounter == old(errorsCounter)
      ensures resetLimit >= 1 ==> iterationsCounter < resetLimit
      ensures State() == Step(old(State()), Success)
    {
      iterationsCounter := iterationsCounter + 1;
      if iterationsCounter >= resetLimit {
        Reset();
      }
    }

    /** `reset`: both counters back to 0. */
    method Reset()
      modifies this
      ensures iterationsCounter == 0 && errorsCounter == 0
      ensures threshold == old(threshold) && resetLimit == old(resetLimit)
    {
      iterationsCounter := 0;
      errorsCounter := 0;
    }
  }
}
