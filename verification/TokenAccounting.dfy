/** Token accounting across process generations: the token branch of `measurement` in
    src/broker/worker-budget-enforcer.ts over `monotonicBudgetMeasurement` in src/broker/worker-coordination.ts. */
module TokenAccounting {
  import opened Finite

  type Time = nat
  type Generation = nat

  datatype Unit = Tokens | WallClock | Percent
  datatype Measurement =
    | Unknown(seenAt: Option<Time>)
    | Known(unit: Unit, amount: nat, observedAt: Time, generation: Option<Generation>, baseline: Option<nat>)

  function AmountOf(m: Measurement): nat { if m.Known? then m.amount else 0 }

  /** `monotonicBudgetMeasurement`. */
  function Monotonic(current: Measurement, observed: Measurement): Measurement {
    if observed.Unknown? then
      if current.Known? then current
      else if current.seenAt.Some? && observed.seenAt.Some? && observed.seenAt.value < current.seenAt.value then current
      else observed
    else if current.Unknown? then observed
    else if observed.unit != current.unit || observed.observedAt < current.observedAt || observed.amount < current.amount
    then current
    else observed
  }

  /** Whatever is observed, a recorded amount never goes down and its unit and clock never go back. */
  lemma NeverDecreases(current: Measurement, observed: Measurement)
    ensures AmountOf(current) <= AmountOf(Monotonic(current, observed))
    ensures current.Known? ==>
      && Monotonic(current, observed).Known? && Monotonic(current, observed).unit == current.unit
      && current.observedAt <= Monotonic(current, observed).observedAt
  {}

  /** Exactly which observations replace the record: a first known one; a known one of the same unit, no older and no
      smaller; and an unknown one only over an unknown one it is not older than. Anything else changes nothing. */
  lemma ObservationReplacesIff(current: Measurement, observed: Measurement)
    ensures Monotonic(current, observed) == current || Monotonic(current, observed) == observed
    ensures current != observed ==>
      (Monotonic(current, observed) == observed <==>
        || (current.Unknown? && observed.Known?)
        || (current.Known? && observed.Known? && observed.unit == current.unit
            && observed.observedAt >= current.observedAt && observed.amount >= current.amount)
        || (current.Unknown? && observed.Unknown?
            && (current.seenAt.None? || observed.seenAt.None? || observed.seenAt.value >= current.seenAt.value)))
  {}

  // ---- the token branch ----------------------------------------------------------------------

  /** What one refresh sees: the counters of one process generation. */
  datatype Sample = Sample(
    generation: Generation,
    telemetryTokens: Option<nat>,
    telemetryAt: Option<Time>,
    terminalTokens: Option<nat>,
    at: Time)

  /** Provider telemetry first, then the terminal's own counter. */
  function CounterOf(s: Sample): Option<nat> { if s.telemetryTokens.Some? then s.telemetryTokens else s.terminalTokens }

  function SeenAt(s: Sample): Time {
    if s.telemetryTokens.Some? && s.telemetryAt.Some? then s.telemetryAt.value else s.at
  }

  function Larger(a: nat, b: nat): nat { if a >= b then a else b }

  function BaselineFor(prior: Measurement, s: Sample): nat {
    if prior.Unknown? || prior.generation != Some(s.generation) then AmountOf(prior)
    else if prior.baseline.Some? then prior.baseline.value else 0
  }

  function Measured(prior: Measurement, s: Sample): Option<Measurement> {
    var baseline := BaselineFor(prior, s);
    match CounterOf(s)
    case Some(tokens) =>
      Some(Known(Tokens, Larger(AmountOf(prior), baseline + tokens), SeenAt(s), Some(s.generation), Some(baseline)))
    case None => None
  }

  /** One refresh of a token budget: measure against the record, then observe. */
  function Refresh(current: Measurement, s: Sample): Measurement {
    var measured := Measured(current, s);
    if measured.Some? then Monotonic(current, measured.value) else current
  }

  /** The observation is taken: it carries a counter and is not older than the record. */
  predicate Accepted(current: Measurement, s: Sample) {
    CounterOf(s).Some? && (current.Known? ==> current.observedAt <= SeenAt(s))
  }

  function Refreshed(current: Measurement, samples: seq<Sample>): Measurement {
    if samples == [] then current else Refresh(Refreshed(current, samples[..|samples| - 1]), samples[|samples| - 1])
  }

  /** The samples of a run that were taken, in order. */
  function Taken(current: Measurement, samples: seq<Sample>): seq<Sample> {
    if samples == [] then []
    else
      var n := |samples| - 1;
      var before := Taken(current, samples[..n]);
      if Accepted(Refreshed(current, samples[..n]), samples[n]) then before + [samples[n]] else before
  }

  predicate Counted(samples: seq<Sample>) { forall i :: 0 <= i < |samples| ==> CounterOf(samples[i]).Some? }

  /** The largest counter of every generation, independently of any record. */
  function Peaks(taken: seq<Sample>): map<Generation, nat>
    requires Counted(taken)
  {
    if taken == [] then map[]
    else
      var last := taken[|taken| - 1];
      var before := Peaks(taken[..|taken| - 1]);
      before[last.generation := Larger(PeakOf(before, last.generation), CounterOf(last).value)]
  }

  function PeakOf(peaks: map<Generation, nat>, g: Generation): nat { if g in peaks then peaks[g] else 0 }

  lemma {:induction false} PeaksAreLargest(taken: seq<Sample>, g: Generation)
    requires Counted(taken)
    ensures g in Peaks(taken) <==> exists i :: 0 <= i < |taken| && taken[i].generation == g
    ensures forall i :: 0 <= i < |taken| && taken[i].generation == g ==> CounterOf(taken[i]).value <= PeakOf(Peaks(taken), g)
    ensures g in Peaks(taken) && Peaks(taken)[g] > 0 ==>
      exists i :: 0 <= i < |taken| && taken[i].generation == g && CounterOf(taken[i]).value == Peaks(taken)[g]
    decreases |taken|
  {
    if taken != [] {
      var n := |taken| - 1;
      var front := taken[..n];
      assert forall i :: 0 <= i < n ==> front[i] == taken[i];
      PeaksAreLargest(front, g);
      assert forall i :: 0 <= i < |taken| ==> i == n || taken[i] == front[i];
      if g in Peaks(front) {
        var i :| 0 <= i < n && front[i].generation == g;
        assert taken[i].generation == g;
      }
      if taken[n].generation == g { assert taken[n].generation == g; }
    }
  }

  /** Once another generation was seen, a generation does not come back. */
  predicate NonRecurring(taken: seq<Sample>) {
    forall i, j, k :: 0 <= i < j < k < |taken| && taken[i].generation == taken[k].generation ==>
      taken[j].generation == taken[i].generation
  }

  /** Two positive counters of one generation never have another generation between them. */
  predicate Apart(taken: seq<Sample>)
    requires Counted(taken)
  {
    forall i, j, k :: 0 <= i < j < k < |taken| && taken[i].generation == taken[k].generation != taken[j].generation ==>
      CounterOf(taken[i]).value == 0 || CounterOf(taken[k]).value == 0
  }

  lemma NonRecurringIsApart(taken: seq<Sample>)
    requires Counted(taken) && NonRecurring(taken)
    ensures Apart(taken)
  {}

  /** Generation `g` spent something before another generation was seen. */
  predicate SpentBefore(taken: seq<Sample>, g: Generation)
    requires Counted(taken)
  {
    exists i, j :: 0 <= i < j < |taken| && taken[i].generation == g != taken[j].generation && CounterOf(taken[i]).value > 0
  }

  /** What the record knows after a run: the last generation, and the total up to where it began. */
  ghost predicate Tracks(m: Measurement, taken: seq<Sample>) {
    if taken == [] then m.Unknown?
    else
      var last := taken[|taken| - 1].generation;
      && Counted(taken) && m.Known? && m.unit == Tokens && m.generation == Some(last) && m.baseline.Some?
      && m.baseline.value <= m.amount
      && m.amount - m.baseline.value <= PeakOf(Peaks(taken), last)
      && (!SpentBefore(taken, last) ==> m.amount - m.baseline.value == PeakOf(Peaks(taken), last))
      && (SpentBefore(taken, last) && Apart(taken) ==> m.amount == m.baseline.value)
      && m.amount >= SumOf(Peaks(taken))
      && (m.amount == SumOf(Peaks(taken)) <==> Apart(taken))
  }

  lemma ApartRestricts(taken: seq<Sample>, s: Sample)
    requires Counted(taken + [s]) && Apart(taken + [s])
    ensures Counted(taken) && Apart(taken)
  {
    hide CounterOf;
    var all := taken + [s];
    assert forall i :: 0 <= i < |taken| ==> all[i] == taken[i];
  }

  lemma SpentClashes(taken: seq<Sample>, s: Sample)
    requires Counted(taken) && CounterOf(s).Some? && SpentBefore(taken, s.generation) && CounterOf(s).value > 0
    ensures Counted(taken + [s]) && !Apart(taken + [s])
  {
    hide CounterOf;
    var all := taken + [s];
    var i, j :| 0 <= i < j < |taken| && taken[i].generation == s.generation != taken[j].generation && CounterOf(taken[i]).value > 0;
    assert all[i] == taken[i] && all[j] == taken[j] && all[|taken|] == s;
  }

  lemma ApartExtends(taken: seq<Sample>, s: Sample)
    requires Counted(taken) && CounterOf(s).Some? && Apart(taken)
    requires CounterOf(s).value == 0 || !SpentBefore(taken, s.generation)
    ensures Counted(taken + [s]) && Apart(taken + [s])
  {
    hide CounterOf;
    var all := taken + [s];
    assert forall i :: 0 <= i < |taken| ==> all[i] == taken[i];
  }

  lemma ApartAppend(taken: seq<Sample>, s: Sample)
    requires Counted(taken) && CounterOf(s).Some?
    ensures Counted(taken + [s])
    ensures Apart(taken + [s]) <==> Apart(taken) && (CounterOf(s).value == 0 || !SpentBefore(taken, s.generation))
  {
    hide Apart, SpentBefore, CounterOf;
    if Apart(taken + [s]) { ApartRestricts(taken, s); }
    if SpentBefore(taken, s.generation) && CounterOf(s).value > 0 { SpentClashes(taken, s); }
    else if Apart(taken) { ApartExtends(taken, s); }
  }

  lemma SpentSame(taken: seq<Sample>, s: Sample)
    requires Counted(taken) && CounterOf(s).Some?
    ensures Counted(taken + [s]) && (SpentBefore(taken + [s], s.generation) <==> SpentBefore(taken, s.generation))
  {
    var all := taken + [s];
    assert forall i :: 0 <= i < |taken| ==> all[i] == taken[i];
    if SpentBefore(taken, s.generation) {
      var i, j :| 0 <= i < j < |taken| && taken[i].generation == s.generation != taken[j].generation && CounterOf(taken[i]).value > 0;
      assert all[i].generation == s.generation != all[j].generation;
    }
  }

  /** Spending before another generation shows in the peaks, and at a change of generation all spending is before. */
  lemma SpentIsPeak(taken: seq<Sample>, g: Generation)
    requires Counted(taken) && taken != []
    ensures SpentBefore(taken, g) ==> PeakOf(Peaks(taken), g) > 0
    ensures taken[|taken| - 1].generation != g && PeakOf(Peaks(taken), g) > 0 ==> SpentBefore(taken, g)
  {
    PeaksAreLargest(taken, g);
    var n := |taken| - 1;
    if taken[n].generation != g && PeakOf(Peaks(taken), g) > 0 {
      var i :| 0 <= i < |taken| && taken[i].generation == g && CounterOf(taken[i]).value == Peaks(taken)[g];
      assert taken[i].generation == g != taken[n].generation;
    }
  }

  lemma PeaksAppend(taken: seq<Sample>, s: Sample)
    requires Counted(taken) && CounterOf(s).Some?
    ensures Counted(taken + [s])
    ensures Peaks(taken + [s]) ==
      Peaks(taken)[s.generation := Larger(PeakOf(Peaks(taken), s.generation), CounterOf(s).value)]
    ensures SumOf(Peaks(taken + [s])) ==
      SumOf(Peaks(taken)) - PeakOf(Peaks(taken), s.generation) + Larger(PeakOf(Peaks(taken), s.generation), CounterOf(s).value)
  {
    var all := taken + [s];
    assert all[..|all| - 1] == taken;
    SumChange(Peaks(taken), s.generation, Larger(PeakOf(Peaks(taken), s.generation), CounterOf(s).value));
  }

  lemma NothingPeaks()
    ensures SumOf(Peaks([])) == 0
  {}

  /** A taken sample is recorded as measured: it is never below the record. */
  lemma AcceptedIsRecorded(current: Measurement, s: Sample)
    requires Accepted(current, s) && (current.Known? ==> current.unit == Tokens)
    ensures Measured(current, s).Some? && Refresh(current, s) == Measured(current, s).value
  {}

  /** One refresh in full: a sample that carries a counter, provider telemetry ahead of the terminal's own, and is not
      older than a record in tokens is recorded, on top of the record's amount when the generation is a new one and of
      the generation's baseline otherwise, and never below the amount; any other sample leaves the record. */
  lemma RefreshRecords(m: Measurement, s: Sample)
    requires m.Known? ==> m.unit == Tokens
    ensures var counter := if s.telemetryTokens.Some? then s.telemetryTokens else s.terminalTokens;
      var seen := if s.telemetryTokens.Some? && s.telemetryAt.Some? then s.telemetryAt.value else s.at;
      var amount := if m.Known? then m.amount else 0;
      var baseline := if m.Known? && m.generation == Some(s.generation)
                      then (if m.baseline.Some? then m.baseline.value else 0) else amount;
      if counter.None? || (m.Known? && seen < m.observedAt) then Refresh(m, s) == m
      else
        && Refresh(m, s).Known? && Refresh(m, s).unit == Tokens && Refresh(m, s).observedAt == seen
        && Refresh(m, s).generation == Some(s.generation) && Refresh(m, s).baseline == Some(baseline)
        && Refresh(m, s).amount >= amount && Refresh(m, s).amount >= baseline + counter.value
        && (Refresh(m, s).amount == amount || Refresh(m, s).amount == baseline + counter.value)
  {}

  lemma AcceptKeepsTrack(m: Measurement, taken: seq<Sample>, s: Sample)
    requires Tracks(m, taken) && Accepted(m, s)
    ensures Tracks(Refresh(m, s), taken + [s])
  {
    hide Peaks, SumOf, Apart, SpentBefore, Refresh;
    AcceptedIsRecorded(m, s);
    PeaksAppend(taken, s);
    ApartAppend(taken, s);
    SpentSame(taken, s);
    if taken == [] {
      NothingPeaks();
      EmptyPeaks();
      NothingSpent(s.generation);
    } else {
      SpentIsPeak(taken, s.generation);
    }
  }

  lemma NothingSpent(g: Generation)
    ensures Apart([]) && !SpentBefore([], g)
  {}

  lemma EmptyPeaks()
    ensures Peaks([]) == map[]
  {}

  lemma RejectChangesNothing(m: Measurement, taken: seq<Sample>, s: Sample)
    requires Tracks(m, taken) && !Accepted(m, s)
    ensures Refresh(m, s) == m
  {
    hide Peaks, SumOf;
  }

  lemma {:induction false} TracksRun(seenAt: Option<Time>, samples: seq<Sample>)
    ensures Tracks(Refreshed(Unknown(seenAt), samples), Taken(Unknown(seenAt), samples))
    decreases |samples|
  {
    hide Refresh, Accepted, Tracks;
    var start := Unknown(seenAt);
    if samples == [] {
      NothingTracked(seenAt);
    } else {
      var n := |samples| - 1;
      var front, s := samples[..n], samples[n];
      TracksRun(seenAt, front);
      var m, taken := Refreshed(start, front), Taken(start, front);
      if Accepted(m, s) { AcceptKeepsTrack(m, taken, s); } else { RejectChangesNothing(m, taken, s); }
    }
  }

  lemma NothingTracked(seenAt: Option<Time>)
    ensures Tracks(Unknown(seenAt), [])
  {}

  /** Token accounting across resumes: from no measurement, after any run of refreshes, the recorded amount is at
      least the sum over generations of the largest counter taken. It is exactly that sum if and only if no generation
      spends on both sides of another one, so in particular when generations do not recur. */
  lemma AmountIsSumOfPeaks(seenAt: Option<Time>, samples: seq<Sample>)
    ensures var taken := Taken(Unknown(seenAt), samples);
      var amount := AmountOf(Refreshed(Unknown(seenAt), samples));
      && Counted(taken) && amount >= SumOf(Peaks(taken))
      && (amount == SumOf(Peaks(taken)) <==> Apart(taken))
      && (NonRecurring(taken) ==> amount == SumOf(Peaks(taken)))
  {
    hide Refreshed, Taken, SumOf, NonRecurring, Peaks, SpentBefore;
    TracksRun(seenAt, samples);
    NothingPeaks();
    var taken := Taken(Unknown(seenAt), samples);
    if NonRecurring(taken) { NonRecurringIsApart(taken); }
  }

  const FIRST := Sample(1, None, None, Some(10), 0)
  const OTHER := Sample(2, None, None, Some(5), 1)
  const AGAIN := Sample(1, None, None, Some(10), 2)

  lemma RefreshAppend(current: Measurement, samples: seq<Sample>, s: Sample)
    ensures Refreshed(current, samples + [s]) == Refresh(Refreshed(current, samples), s)
    ensures Taken(current, samples + [s]) ==
      if Accepted(Refreshed(current, samples), s) then Taken(current, samples) + [s] else Taken(current, samples)
  {
    var all := samples + [s];
    assert all[..|all| - 1] == samples;
  }

  /** A generation that recurs is counted again: 10 and 5 and 10 make 25, where the peaks make 15. */
  lemma RecurrenceOvercounts()
    ensures var s := [FIRST, OTHER, AGAIN];
      && Taken(Unknown(None), s) == s && AmountOf(Refreshed(Unknown(None), s)) == 25
      && Counted(s) && SumOf(Peaks(s)) == 15
  {
    hide SumOf, Refreshed, Taken, Peaks;
    assert [] + [FIRST] == [FIRST] && [FIRST] + [OTHER] == [FIRST, OTHER] && [FIRST, OTHER] + [AGAIN] == [FIRST, OTHER, AGAIN];
    NothingRefreshed();
    RefreshAppend(Unknown(None), [], FIRST);
    RefreshAppend(Unknown(None), [FIRST], OTHER);
    RefreshAppend(Unknown(None), [FIRST, OTHER], AGAIN);
    NothingPeaks();
    EmptyPeaks();
    PeaksAppend([], FIRST);
    PeaksAppend([FIRST], OTHER);
    PeaksAppend([FIRST, OTHER], AGAIN);
  }

  lemma NothingRefreshed()
    ensures Refreshed(Unknown(None), []) == Unknown(None) && Taken(Unknown(None), []) == []
  {}
}
