/** src/broker/orchestrator-notification-wake-budget.ts: a rolling hourly ceiling on wakes. */
module WakeBudget {
  import opened Finite

  type Time = int
  type ControllerId = nat

  const HOUR_MS: int := 3_600_000

  datatype Window = Window(enqueuedAt: seq<Time>, zeroWindowStart: Option<Time>)

  /** A refusal names the window it fell in and when to come back. */
  datatype Allowance = Allowed | Refused(windowStart: Time, resumeAt: Time)

  const EMPTY_WINDOW := Window([], None)

  // ---- one window ----------------------------------------------------------------------------

  function Pruned(times: seq<Time>, now: Time): seq<Time>
    decreases |times|
  {
    if times == [] then []
    else if times[0] > now - HOUR_MS then [times[0]] + Pruned(times[1..], now)
    else Pruned(times[1..], now)
  }

  /** Only a ceiling of zero uses, and starts, the zero window. */
  function ZeroStart(w: Window, now: Time): Time {
    if w.zeroWindowStart.None? || now >= w.zeroWindowStart.value + HOUR_MS then now else w.zeroWindowStart.value
  }

  function Checked(w: Window, maximum: nat, now: Time): Window {
    Window(Pruned(w.enqueuedAt, now), if maximum == 0 then Some(ZeroStart(w, now)) else w.zeroWindowStart)
  }

  function AllowanceOf(w: Window, maximum: nat, now: Time): Allowance {
    var kept := Pruned(w.enqueuedAt, now);
    if maximum > 0 && |kept| < maximum then Allowed
    else
      var start := if maximum == 0 then ZeroStart(w, now) else kept[|kept| - maximum];
      Refused(start, start + HOUR_MS)
  }

  function Recorded(w: Window, now: Time): Window { w.(enqueuedAt := w.enqueuedAt + [now]) }

  ghost predicate Ascending(times: seq<Time>) { forall i, j :: 0 <= i < j < |times| ==> times[i] <= times[j] }

  /** In an ascending list, pruning cuts off a prefix. */
  lemma {:induction false} PrunedIsSuffix(times: seq<Time>, now: Time) returns (cut: nat)
    requires Ascending(times)
    ensures cut <= |times| && Pruned(times, now) == times[cut..]
    ensures forall i :: 0 <= i < cut ==> times[i] <= now - HOUR_MS
    ensures forall i :: cut <= i < |times| ==> times[i] > now - HOUR_MS
    decreases |times|
  {
    if times == [] {
      cut := 0;
    } else if times[0] > now - HOUR_MS {
      cut := 0;
      NothingPruned(times, now);
    } else {
      var rest := times[1..];
      assert forall i :: 0 <= i < |rest| ==> rest[i] == times[i + 1];
      var c := PrunedIsSuffix(rest, now);
      cut := c + 1;
      assert rest[c..] == times[cut..];
      forall i | 0 <= i < |times| ensures i < cut <==> times[i] <= now - HOUR_MS {
        if i > 0 { assert rest[i - 1] == times[i]; }
      }
    }
  }

  lemma {:induction false} NothingPruned(times: seq<Time>, now: Time)
    requires forall i :: 0 <= i < |times| ==> times[i] > now - HOUR_MS
    ensures Pruned(times, now) == times
    decreases |times|
  {
    if times != [] { NothingPruned(times[1..], now); }
  }

  /** `resumeAt` is exact: if nothing more is recorded, a later check is allowed from that instant on and not
      before. With a ceiling of zero no check is ever allowed. */
  lemma ResumeIsExact(w: Window, maximum: nat, now: Time, later: Time)
    requires Ascending(w.enqueuedAt) && now <= later && AllowanceOf(w, maximum, now).Refused?
    ensures maximum > 0 ==>
      (AllowanceOf(Checked(w, maximum, now), maximum, later).Allowed? <==> later >= AllowanceOf(w, maximum, now).resumeAt)
    ensures maximum == 0 ==> AllowanceOf(Checked(w, maximum, now), maximum, later).Refused?
    ensures AllowanceOf(w, maximum, now).resumeAt > now
  {
    var cut := PrunedIsSuffix(w.enqueuedAt, now);
    var kept := w.enqueuedAt[cut..];
    assert forall i, j :: 0 <= i < j < |kept| ==> kept[i] <= kept[j];
    assert forall i :: 0 <= i < |kept| ==> kept[i] > now - HOUR_MS;
    var gone := PrunedIsSuffix(kept, later);
    if maximum > 0 {
      var first := |kept| - maximum;
      assert kept[first] > now - HOUR_MS;
      assert gone <= first <==> kept[first] > later - HOUR_MS;
    }
  }

  // ---- whole runs ----------------------------------------------------------------------------

  /** One wake attempt: a check, and when it is allowed one record, `delay` later. */
  datatype Attempt = Attempt(elapsed: nat, delay: nat)

  /** The window, the clock, and every wake ever recorded. */
  datatype Wakes = Wakes(window: Window, clock: Time, recorded: seq<Time>)

  function Attempted(s: Wakes, maximum: nat, a: Attempt): Wakes {
    var now := s.clock + a.elapsed;
    var window := Checked(s.window, maximum, now);
    if AllowanceOf(s.window, maximum, now).Allowed?
    then Wakes(Recorded(window, now + a.delay), now + a.delay, s.recorded + [now + a.delay])
    else Wakes(window, now, s.recorded)
  }

  function AttemptAll(s: Wakes, maximum: nat, attempts: seq<Attempt>): Wakes
    decreases |attempts|
  {
    if attempts == [] then s else AttemptAll(Attempted(s, maximum, attempts[0]), maximum, attempts[1..])
  }

  /** The recorded wakes in the hour (from, from + 3 600 000 ms]. */
  function WithinHour(recorded: seq<Time>, from: Time): set<int> {
    set i | 0 <= i < |recorded| && from < recorded[i] <= from + 3_600_000
  }

  /** `window` lists everything recorded after the first `cut` wakes, and those are over an hour old. */
  ghost predicate IsTail(window: seq<Time>, recorded: seq<Time>, clock: Time, cut: nat) {
    cut <= |recorded| && window == recorded[cut..] && forall i :: 0 <= i < cut ==> recorded[i] <= clock - HOUR_MS
  }

  ghost predicate InOrder(recorded: seq<Time>, clock: Time) {
    Ascending(recorded) && forall i :: 0 <= i < |recorded| ==> recorded[i] <= clock
  }

  ghost predicate HoursBounded(recorded: seq<Time>, maximum: nat) {
    forall from :: |WithinHour(recorded, from)| <= maximum
  }

  /** The window is what is left of the history. */
  ghost predicate Tracks(s: Wakes) {
    InOrder(s.recorded, s.clock) && exists cut :: IsTail(s.window.enqueuedAt, s.recorded, s.clock, cut)
  }

  ghost predicate Bounded(s: Wakes, maximum: nat) { Tracks(s) && HoursBounded(s.recorded, maximum) }

  lemma {:induction false} HourIsShort(recorded: seq<Time>, from: Time, kept: nat)
    requires kept <= |recorded| && forall i :: 0 <= i < |recorded| - kept ==> recorded[i] <= from
    ensures |WithinHour(recorded, from)| <= kept
    decreases kept
  {
    if kept == 0 {
      assert WithinHour(recorded, from) == {};
    } else {
      var n := |recorded| - 1;
      var front := recorded[..n];
      assert forall i :: 0 <= i < n ==> front[i] == recorded[i];
      HourIsShort(front, from, kept - 1);
      assert WithinHour(recorded, from) <= WithinHour(front, from) + {n};
      SubsetSize(WithinHour(recorded, from), WithinHour(front, from) + {n});
    }
  }

  /** Recording after an allowed check keeps every hour within the ceiling. */
  lemma RecordKeepsHours(recorded: seq<Time>, maximum: nat, at: Time, now: Time, cut: nat, from: Time)
    requires cut <= |recorded| && |recorded| - cut < maximum && now <= at
    requires forall i :: 0 <= i < cut ==> recorded[i] <= now - HOUR_MS
    requires |WithinHour(recorded, from)| <= maximum
    ensures |WithinHour(recorded + [at], from)| <= maximum
  {
    var after := recorded + [at];
    if from < at <= from + HOUR_MS {
      HourIsShort(after, from, |after| - cut);
    } else {
      assert WithinHour(after, from) == WithinHour(recorded, from);
    }
  }

  lemma CheckKeepsTail(window: seq<Time>, recorded: seq<Time>, clock: Time, cut: nat, now: Time) returns (later: nat)
    requires Ascending(recorded) && IsTail(window, recorded, clock, cut) && clock <= now
    ensures IsTail(Pruned(window, now), recorded, now, later)
  {
    hide Pruned;
    assert Ascending(window) by { assert forall i :: 0 <= i < |window| ==> window[i] == recorded[cut + i]; }
    var gone := PrunedIsSuffix(window, now);
    later := cut + gone;
    assert window[gone..] == recorded[later..];
    forall i | 0 <= i < later ensures recorded[i] <= now - HOUR_MS {
      if i >= cut { assert recorded[i] == window[i - cut]; }
    }
  }

  lemma RecordKeepsTail(window: seq<Time>, recorded: seq<Time>, now: Time, cut: nat, at: Time)
    requires IsTail(window, recorded, now, cut) && now <= at && InOrder(recorded, now)
    ensures IsTail(window + [at], recorded + [at], at, cut) && InOrder(recorded + [at], at)
  {
    assert (recorded + [at])[cut..] == recorded[cut..] + [at];
  }

  lemma RecordKeepsAllHours(window: seq<Time>, recorded: seq<Time>, maximum: nat, now: Time, cut: nat, at: Time)
    requires IsTail(window, recorded, now, cut) && |window| < maximum && now <= at && HoursBounded(recorded, maximum)
    ensures HoursBounded(recorded + [at], maximum)
  {
    hide WithinHour;
    forall from ensures |WithinHour(recorded + [at], from)| <= maximum {
      RecordKeepsHours(recorded, maximum, at, now, cut, from);
    }
  }

  lemma ClockRuns(recorded: seq<Time>, clock: Time, now: Time)
    requires InOrder(recorded, clock) && clock <= now
    ensures Ascending(recorded) && InOrder(recorded, now)
  {}

  lemma AttemptKeepsBound(s: Wakes, maximum: nat, a: Attempt)
    requires maximum > 0 && Bounded(s, maximum)
    ensures Bounded(Attempted(s, maximum, a), maximum)
  {
    hide Pruned, WithinHour, IsTail, InOrder, HoursBounded, Ascending;
    assert Tracks(s);
    var now, recorded := s.clock + a.elapsed, s.recorded;
    ClockRuns(recorded, s.clock, now);
    var cut :| IsTail(s.window.enqueuedAt, recorded, s.clock, cut);
    var later := CheckKeepsTail(s.window.enqueuedAt, recorded, s.clock, cut, now);
    if AllowanceOf(s.window, maximum, now).Allowed? {
      var kept, at := Pruned(s.window.enqueuedAt, now), now + a.delay;
      RecordKeepsTail(kept, recorded, now, later, at);
      RecordKeepsAllHours(kept, recorded, maximum, now, later, at);
    }
  }

  lemma {:induction false} RecentAreTail(recorded: seq<Time>, floor: Time, cut: nat)
    requires cut <= |recorded| && (forall i :: 0 <= i < cut ==> recorded[i] <= floor) && forall i :: cut <= i < |recorded| ==> recorded[i] > floor
    ensures |RecentlyRecorded(recorded, floor)| == |recorded| - cut
    decreases |recorded|
  {
    var n := |recorded| - 1;
    if cut == |recorded| {
      assert RecentlyRecorded(recorded, floor) == {};
    } else {
      var front := recorded[..n];
      assert forall i :: 0 <= i < n ==> front[i] == recorded[i];
      RecentAreTail(front, floor, cut);
      assert RecentlyRecorded(recorded, floor) == RecentlyRecorded(front, floor) + {n};
    }
  }

  /** Which wakes were recorded after `floor`. */
  ghost function RecentlyRecorded(recorded: seq<Time>, floor: Time): set<int> { set i | 0 <= i < |recorded| && recorded[i] > floor }

  /** A check looks at the whole history though it keeps only a window: it is allowed if and only if fewer wakes than the ceiling were
      recorded in the hour before it, also when the ceiling has been lowered since. A refusal then points to the first wake that has to grow an hour old, and to when it does. */
  lemma AllowedExactly(s: Wakes, maximum: nat, now: Time)
    requires Tracks(s) && s.clock <= now
    ensures var recent := |RecentlyRecorded(s.recorded, now - 3_600_000)|;
      && (AllowanceOf(s.window, maximum, now).Allowed? <==> recent < maximum)
      && (maximum > 0 && recent >= maximum ==>
            && maximum <= |s.recorded|
            && AllowanceOf(s.window, maximum, now) ==
                 Refused(s.recorded[|s.recorded| - maximum], s.recorded[|s.recorded| - maximum] + 3_600_000))
  {
    hide Pruned, RecentlyRecorded, IsTail;
    var cut :| IsTail(s.window.enqueuedAt, s.recorded, s.clock, cut);
    var later := CheckKeepsTail(s.window.enqueuedAt, s.recorded, s.clock, cut, now);
    PrunedIsRecent(s.window.enqueuedAt, now);
    TailIsRecent(Pruned(s.window.enqueuedAt, now), s.recorded, now, later, maximum);
  }

  lemma TailIsRecent(kept: seq<Time>, recorded: seq<Time>, now: Time, cut: nat, maximum: nat)
    requires IsTail(kept, recorded, now, cut) && forall i :: 0 <= i < |kept| ==> kept[i] > now - 3_600_000
    ensures |RecentlyRecorded(recorded, now - 3_600_000)| == |kept| <= |recorded|
    ensures 0 < maximum <= |kept| ==> recorded[|recorded| - maximum] == kept[|kept| - maximum]
  {
    hide RecentlyRecorded;
    assert forall i :: 0 <= i < |kept| ==> kept[i] == recorded[cut + i];
    forall i | cut <= i < |recorded| ensures recorded[i] > now - 3_600_000 { assert recorded[i] == kept[i - cut]; }
    RecentAreTail(recorded, now - 3_600_000, cut);
  }

  lemma {:induction false} PrunedIsRecent(times: seq<Time>, now: Time)
    ensures forall i :: 0 <= i < |Pruned(times, now)| ==> Pruned(times, now)[i] > now - 3_600_000
    decreases |times|
  {
    if times != [] { PrunedIsRecent(times[1..], now); }
  }

  /** A ceiling of zero refuses always; what it reports rolls on in hours: a fresh hour once the last one is over, else the hour under way. */
  lemma ZeroWindowRolls(w: Window, now: Time)
    ensures AllowanceOf(w, 0, now).Refused? && AllowanceOf(w, 0, now).resumeAt == AllowanceOf(w, 0, now).windowStart + 3_600_000
    ensures Checked(w, 0, now).zeroWindowStart == Some(AllowanceOf(w, 0, now).windowStart)
    ensures AllowanceOf(w, 0, now).windowStart ==
      if w.zeroWindowStart != None && now < w.zeroWindowStart.value + 3_600_000 then w.zeroWindowStart.value else now
  {}

  /** Rolling wake bound: with a clock that does not run backwards, a fixed positive ceiling and one record per
      allowed check, every hour, wherever it begins, holds at most the ceiling. */
  lemma {:induction false} EveryHourIsBounded(s: Wakes, maximum: nat, attempts: seq<Attempt>, from: Time)
    requires maximum > 0 && Bounded(s, maximum)
    ensures Bounded(AttemptAll(s, maximum, attempts), maximum)
    ensures |WithinHour(AttemptAll(s, maximum, attempts).recorded, from)| <= maximum
    decreases |attempts|
  {
    hide Attempted, WithinHour;
    if attempts != [] {
      AttemptKeepsBound(s, maximum, attempts[0]);
      EveryHourIsBounded(Attempted(s, maximum, attempts[0]), maximum, attempts[1..], from);
    }
  }

  lemma FreshIsBounded(maximum: nat, clock: Time)
    ensures Bounded(Wakes(EMPTY_WINDOW, clock, []), maximum)
  {
    var none: seq<Time> := [];
    assert IsTail(none, none, clock, 0);
    forall from ensures |WithinHour(none, from)| <= maximum { assert WithinHour(none, from) == {}; }
  }

  /** From a fresh window, whenever it is opened. */
  lemma FreshHoursAreBounded(maximum: nat, clock: Time, attempts: seq<Attempt>, from: Time)
    requires maximum > 0
    ensures |WithinHour(AttemptAll(Wakes(EMPTY_WINDOW, clock, []), maximum, attempts).recorded, from)| <= maximum
  {
    FreshIsBounded(maximum, clock);
    EveryHourIsBounded(Wakes(EMPTY_WINDOW, clock, []), maximum, attempts, from);
  }

  // ---- the budget object ---------------------------------------------------------------------

  class OrchestratorNotificationWakeBudget {
    var windows: map<ControllerId, Window>

    ghost function WindowOf(c: ControllerId): Window
      reads this
    {
      if c in windows then windows[c] else EMPTY_WINDOW
    }

    constructor ()
      ensures windows == map[]
    {
      windows := map[];
    }

    method Check(controller: ControllerId, maximum: nat, now: Time) returns (allowance: Allowance)
      modifies this
      ensures allowance == AllowanceOf(old(WindowOf(controller)), maximum, now)
      ensures WindowOf(controller) == Checked(old(WindowOf(controller)), maximum, now)
      ensures forall c :: c != controller ==> WindowOf(c) == old(WindowOf(c))
    {
      var window := if controller in windows then windows[controller] else EMPTY_WINDOW;
      var kept := Keep(window.enqueuedAt, now);
      window := window.(enqueuedAt := kept);
      if maximum > 0 && |kept| < maximum {
        windows := windows[controller := window];
        return Allowed;
      }
      if maximum == 0 && (window.zeroWindowStart.None? || now >= window.zeroWindowStart.value + HOUR_MS) {
        window := window.(zeroWindowStart := Some(now));
      }
      windows := windows[controller := window];
      var start := if maximum == 0 then window.zeroWindowStart.value else kept[|kept| - maximum];
      allowance := Refused(start, start + HOUR_MS);
    }

    /** The filter of `check`. */
    method Keep(times: seq<Time>, now: Time) returns (kept: seq<Time>)
      ensures kept == Pruned(times, now)
    {
      kept := [];
      for i := 0 to |times|
        invariant kept + Pruned(times[i..], now) == Pruned(times, now)
      {
        var rest := times[i..];
        assert rest[0] == times[i] && rest[1..] == times[i + 1..];
        if times[i] > now - HOUR_MS {
          assert kept + ([times[i]] + Pruned(rest[1..], now)) == kept + [times[i]] + Pruned(rest[1..], now);
          kept := kept + [times[i]];
        }
      }
    }

    method Record(controller: ControllerId, now: Time)
      modifies this
      ensures WindowOf(controller) == Recorded(old(WindowOf(controller)), now)
      ensures forall c :: c != controller ==> WindowOf(c) == old(WindowOf(c))
    {
      var window := if controller in windows then windows[controller] else EMPTY_WINDOW;
      windows := windows[controller := Recorded(window, now)];
    }
  }
}
