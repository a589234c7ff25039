/** The attachment object of src/client/attach.ts and its input handlers. */
module Attachment {
  import opened Finite
  import opened TerminalInput

  // ---- the paste terminator ------------------------------------------------------------------

  /** The matcher run over `s`, carrying `k`: where it first completes, or the count it is left with. */
  datatype Scan = Found(end: nat) | Carried(matched: nat)

  function ScanFrom(s: Bytes, k: nat, from: nat): Scan
    requires from <= |s|
    decreases |s| - from
  {
    if from == |s| then Carried(k)
    else
      var k' := StepMatch(k, s[from]);
      if k' == |PASTE_END| then Found(from + 1) else ScanFrom(s, k', from + 1)
  }

  /** `pasteTerminatorEnd`. */
  method PasteTerminatorEnd(input: Bytes, matchedSoFar: nat) returns (matched: nat, endIndex: Option<nat>)
    requires matchedSoFar < |PASTE_END|
    ensures match ScanFrom(input, matchedSoFar, 0)
      case Found(end) => matched == 0 && endIndex == Some(end)
      case Carried(k) => matched == k && endIndex == None
  {
    matched := matchedSoFar;
    for index := 0 to |input|
      invariant matched < |PASTE_END|
      invariant ScanFrom(input, matchedSoFar, 0) == ScanFrom(input, matched, index)
    {
      var byte := input[index];
      if byte == PASTE_END[matched] { matched := matched + 1; }
      else { matched := if byte == PASTE_END[0] then 1 else 0; }
      if matched == |PASTE_END| { return 0, Some(index + 1); }
    }
    endIndex := None;
  }

  /** `completeEscapeSequenceLength`. */
  method CompleteEscapeSequenceLength(input: Bytes) returns (length: Option<nat>)
    ensures length == CompleteLength(input)
    ensures |input| < 2 ==> length == None
    ensures |input| >= 2 && input[1] == 0x4f ==> length == if |input| == 2 then None else Some(3)
    ensures |input| >= 2 && input[1] != 0x4f && input[1] != 0x5b ==> length == Some(2)
    ensures |input| >= 2 && input[1] == 0x5b && length == None ==> forall i :: 2 <= i < |input| ==> !(0x40 <= input[i] <= 0x7e)
    ensures |input| >= 2 && input[1] == 0x5b && length != None ==>
      && 3 <= length.value <= |input| && 0x40 <= input[length.value - 1] <= 0x7e
      && forall i :: 2 <= i < length.value - 1 ==> !(0x40 <= input[i] <= 0x7e)
  {
    if |input| < 2 { return None; }
    if input[1] == 0x5b {
      for index := 2 to |input|
        invariant FinalEnd(input, 2) == FinalEnd(input, index)
      {
        if IsFinal(input[index]) { return Some(index + 1); }
      }
      return None;
    }
    if input[1] == 0x4f { return if |input| >= 3 then Some(3) else None; }
    length := Some(2);
  }

  /** `Buffer.indexOf` of a pattern. */
  method IndexOf(s: Bytes, pattern: Bytes) returns (index: Option<nat>)
    requires pattern != []
    ensures index.Some? ==> OccursAt(s, pattern, index.value) && forall i :: 0 <= i < index.value ==> !OccursAt(s, pattern, i)
    ensures index.None? ==> forall i :: 0 <= i < |s| ==> !OccursAt(s, pattern, i)
  {
    for i := 0 to |s|
      invariant forall j :: 0 <= j < i ==> !OccursAt(s, pattern, j)
    {
      if OccursAt(s, pattern, i) { return Some(i); }
    }
    index := None;
  }

  method IndexOfByte(s: Bytes, b: Byte) returns (index: Option<nat>)
    ensures index.Some? ==> index.value < |s| && s[index.value] == b && b !in s[..index.value]
    ensures index.None? ==> b !in s
  {
    for i := 0 to |s|
      invariant b !in s[..i]
    {
      if s[i] == b { return Some(i); }
      assert s[..i + 1] == s[..i] + [s[i]];
    }
    assert s[..|s|] == s;
    index := None;
  }

  // ---- paste payloads in the reference automaton ---------------------------------------------

  lemma {:induction false} PasteRun(out: Bytes, s: Bytes, k: nat, from: nat)
    requires from <= |s| && k < |PASTE_END|
    ensures match ScanFrom(s, k, from)
      case Found(end) =>
        && from < end <= |s|
        && Feed(Attached(Paste(k), out), s[from..]) == Feed(Attached(Ground, out + s[from..end]), s[end..])
      case Carried(k') => k' < |PASTE_END| && Feed(Attached(Paste(k), out), s[from..]) == Attached(Paste(k'), out + s[from..])
    decreases |s| - from
  {
    if from == |s| {
      assert s[from..] == [] && out + s[from..] == out;
    } else {
      var k' := StepMatch(k, s[from]);
      assert s[from..][0] == s[from] && s[from..][1..] == s[from + 1..];
      if k' == |PASTE_END| {
        assert s[from..from + 1] == [s[from]];
      } else {
        PasteRun(out + [s[from]], s, k', from + 1);
        assert forall e :: from < e <= |s| ==> out + [s[from]] + s[from + 1..e] == out + s[from..e];
        assert out + [s[from]] + s[from + 1..] == out + s[from..];
      }
    }
  }

  // ---- the carried count against a naive search ----------------------------------------------

  ghost predicate EndsWith(s: Bytes, n: nat, k: nat) {
    k <= n <= |s| && k <= |PASTE_END| && s[n - k..n] == PASTE_END[..k]
  }

  /** `k` is the longest beginning of the terminator that the first `n` bytes end with. */
  ghost predicate Longest(s: Bytes, n: nat, k: nat) {
    EndsWith(s, n, k) && forall j: nat :: EndsWith(s, n, j) ==> j <= k
  }

  lemma EndsWithByte(s: Bytes, n: nat, k: nat)
    requires n < |s| && 0 < k
    ensures EndsWith(s, n + 1, k) <==> k <= |PASTE_END| && EndsWith(s, n, k - 1) && s[n] == PASTE_END[k - 1]
  {
    if k <= n + 1 && k <= |PASTE_END| {
      assert s[n + 1 - k..n + 1] == s[n - (k - 1)..n] + [s[n]];
      assert PASTE_END[..k] == PASTE_END[..k - 1] + [PASTE_END[k - 1]];
    }
  }

  /** Escape occurs in the terminator only at its head, so two of its beginnings never overlap. */
  lemma BeginningsDoNotOverlap(s: Bytes, n: nat, j: nat, k: nat)
    requires EndsWith(s, n, j) && EndsWith(s, n, k) && 0 < j <= k
    ensures j == k
  {
    var long := s[n - k..n];
    assert long[k - j] == s[n - j] == s[n - j..n][0];
  }

  lemma StepKeepsLongest(s: Bytes, n: nat, k: nat)
    requires n < |s| && Longest(s, n, k) && k < |PASTE_END|
    ensures Longest(s, n + 1, StepMatch(k, s[n]))
  {
    hide EndsWith;
    var k' := StepMatch(k, s[n]);
    if k' == 0 { EndsWithNothing(s, n + 1); } else {
      EndsWithNothing(s, n);
      EndsWithByte(s, n, k');
    }
    var n' := n + 1;
    forall j: nat | EndsWith(s, n', j) ensures j <= k' {
      if j > 0 {
        EndsWithByte(s, n, j);
        if j > 1 { BeginningsDoNotOverlap(s, n, j - 1, k); }
      }
    }
  }

  lemma EndsWithNothing(s: Bytes, n: nat)
    requires n <= |s|
    ensures EndsWith(s, n, 0)
  {}

  lemma {:induction false} ScanFindsFirst(s: Bytes, k: nat, from: nat)
    requires from <= |s| && k < |PASTE_END| && Longest(s, from, k)
    requires forall i :: 0 <= i && i + 6 <= from ==> !OccursAt(s, PASTE_END, i)
    ensures match ScanFrom(s, k, from)
      case Found(end) =>
        && 6 <= end <= |s| && OccursAt(s, PASTE_END, end - 6)
        && (forall i :: 0 <= i < end - 6 ==> !OccursAt(s, PASTE_END, i))
      case Carried(k') => Longest(s, |s|, k') && forall i :: 0 <= i < |s| ==> !OccursAt(s, PASTE_END, i)
    decreases |s| - from
  {
    hide Longest;
    if from < |s| {
      var k' := StepMatch(k, s[from]);
      StepKeepsLongest(s, from, k);
      LongestIsOccurrence(s, from + 1, k');
      if k' < 6 { ScanFindsFirst(s, k', from + 1); }
    }
  }

  lemma LongestIsOccurrence(s: Bytes, n: nat, k: nat)
    requires Longest(s, n, k)
    ensures k == 6 ==> n >= 6 && OccursAt(s, PASTE_END, n - 6)
    ensures k < 6 && n >= 6 ==> !OccursAt(s, PASTE_END, n - 6)
  {
    assert PASTE_END[..6] == PASTE_END;
    if n >= 6 {
      assert s[n - 6..n - 6 + 6] == s[n - 6..n];
      assert EndsWith(s, n, 6) <==> OccursAt(s, PASTE_END, n - 6);
    }
  }

  /** Over a whole payload the matcher stops exactly at the first terminator a naive search finds, and
      carries the longest beginning of one when there is none. */
  lemma TerminatorIsFirst(payload: Bytes)
    ensures match ScanFrom(payload, 0, 0)
      case Found(end) =>
        && 6 <= end <= |payload| && OccursAt(payload, PASTE_END, end - 6)
        && (forall i :: 0 <= i < end - 6 ==> !OccursAt(payload, PASTE_END, i))
      case Carried(k) => Longest(payload, |payload|, k) && forall i :: 0 <= i < |payload| ==> !OccursAt(payload, PASTE_END, i)
  {
    EndsWithNothing(payload, 0);
    assert forall j: nat :: EndsWith(payload, 0, j) ==> j <= 0;
    ScanFindsFirst(payload, 0, 0);
  }

  function Shifted(scan: Scan, n: nat): Scan {
    match scan
    case Found(end) => Found(n + end)
    case Carried(k) => Carried(k)
  }

  lemma {:induction false} ScanSuffix(a: Bytes, b: Bytes, k: nat, from: nat)
    requires from <= |b|
    ensures ScanFrom(a + b, k, |a| + from) == Shifted(ScanFrom(b, k, from), |a|)
    decreases |b| - from
  {
    if from < |b| {
      assert (a + b)[|a| + from] == b[from];
      ScanSuffix(a, b, StepMatch(k, b[from]), from + 1);
    }
  }

  /** Cutting the payload between two reads and carrying the count changes nothing. */
  lemma {:induction false} CarriedAcrossReads(a: Bytes, b: Bytes, k: nat, from: nat)
    requires from <= |a|
    ensures ScanFrom(a + b, k, from) == match ScanFrom(a, k, from)
      case Found(end) => Found(end)
      case Carried(k') => Shifted(ScanFrom(b, k', 0), |a|)
    decreases |a| - from
  {
    if from == |a| {
      ScanSuffix(a, b, k, 0);
    } else {
      assert (a + b)[from] == a[from];
      CarriedAcrossReads(a, b, StepMatch(k, a[from]), from + 1);
    }
  }

  class Attachment {
    const detachOnLeftArrow: bool
    var pendingInput: Bytes
    var insidePaste: bool
    var pasteEndMatched: nat
    var finished: bool
    /** Whether the coalescing timer is running. */
    var armed: bool
    /** The payload of every input frame sent so far, in order. */
    var forwarded: Bytes

    /** Between events: bytes are held only outside a paste, in worker mode, as one unfinished sequence,
        and exactly then the timer runs. */
    ghost predicate Valid()
      reads this
    {
      && pasteEndMatched < |PASTE_END| && (!insidePaste ==> pasteEndMatched == 0)
      && (armed <==> pendingInput != [])
      && (pendingInput != [] ==> detachOnLeftArrow && !insidePaste && !finished && IsHeld(pendingInput))
    }

    /** The state as the reference automaton sees it. */
    ghost function Parsed(): Machine
      reads this
    {
      if finished then Detached
      else
        Attached(if insidePaste then Paste(pasteEndMatched) else if pendingInput == [] then Ground else Held(pendingInput),
                 forwarded)
    }

    constructor (detachOnLeftArrow: bool)
      ensures Valid() && this.detachOnLeftArrow == detachOnLeftArrow
      ensures Parsed() == Attached(Ground, [])
    {
      this.detachOnLeftArrow := detachOnLeftArrow;
      pendingInput, insidePaste, pasteEndMatched, finished, armed, forwarded := [], false, 0, false, false, [];
    }

    method SendInput(chunk: Bytes)
      requires !finished
      modifies this`forwarded
      ensures forwarded == old(forwarded) + chunk
    {
      forwarded := forwarded + chunk;
    }

    /** The automaton inside the loop, where `pendingInput` is what is left to parse. */
    ghost function Mode(): Machine
      reads this
    {
      Attached(if insidePaste then Paste(pasteEndMatched) else Ground, forwarded)
    }

    ghost predicate Parsing()
      reads this
    {
      !finished && !armed && pasteEndMatched < |PASTE_END| && (!insidePaste ==> pasteEndMatched == 0)
    }

    /** One read from the terminal. In worker mode it does exactly what the reference automaton does with
        the same bytes; in either mode no byte is lost, reordered or sent twice, and what detached is the
        chord that follows the bytes sent. */
    method OnInput(value: Bytes)
      requires Valid()
      modifies this
      ensures Valid()
      ensures detachOnLeftArrow ==> Parsed() == Feed(old(Parsed()), value)
      ensures !detachOnLeftArrow && !old(finished) ==> Outcome() == OrchestratorRead(old(insidePaste), old(pasteEndMatched), value)
      ensures old(finished) ==> finished && forwarded == old(forwarded)
      ensures !finished ==> forwarded + pendingInput == old(forwarded) + old(pendingInput) + value
      ensures finished && !old(finished) ==> EndsAtChord(old(forwarded) + old(pendingInput) + value)
    {
      hide Feed, OrchestratorRead, CompleteLength, OccursAt, EndsAtChord;
      if finished {
        DetachedStays(value);
        return;
      }
      armed := false;
      HeldIsPending(forwarded, pendingInput, value);
      assert forwarded + pendingInput + value == forwarded + (pendingInput + value);
      pendingInput := pendingInput + value;
      ghost var stream := forwarded + pendingInput;
      ghost var goal := Feed(Mode(), pendingInput);
      ghost var read := OrchestratorRead(insidePaste, pasteEndMatched, pendingInput);

      while pendingInput != [] && !finished
        invariant Parsing() && forwarded + pendingInput == stream
        invariant detachOnLeftArrow ==> Feed(Mode(), pendingInput) == goal
        invariant !detachOnLeftArrow ==> OrchestratorRead(insidePaste, pasteEndMatched, pendingInput) == read
        decreases |pendingInput|
      {
        if insidePaste {
          TakePaste();
          continue;
        }
        if OccursAt(pendingInput, PASTE_START, 0) {
          OpenPaste();
          continue;
        }
        var chord := TakeChord();
        if chord { return; }
        if !detachOnLeftArrow {
          OrchestratorForwards(pendingInput);
          SendInput(pendingInput);
          pendingInput := [];
          return;
        }
        var held := TakeSequence();
        if held { return; }
      }
      NothingLeft(Mode(), insidePaste, pasteEndMatched);
    }

    /** The mode an orchestrator attachment is left in. */
    ghost function Outcome(): Orchestrator
      reads this
    {
      if finished then Closed else Open(insidePaste, pasteEndMatched)
    }

    /** What was sent stops right before a chord of this mode. */
    ghost predicate EndsAtChord(stream: Bytes)
      reads this
    {
      forwarded + [DETACH_BYTE] <= stream || (detachOnLeftArrow && forwarded + LEFT_ARROW <= stream)
    }

    /** Inside a paste: payload goes out at once, up to and including the terminator if it is there. */
    method TakePaste()
      requires Parsing() && insidePaste && pendingInput != []
      modifies this
      ensures Parsing() && |pendingInput| < old(|pendingInput|)
      ensures forwarded + pendingInput == old(forwarded + pendingInput)
      ensures Feed(Mode(), pendingInput) == old(Feed(Mode(), pendingInput))
      ensures OrchestratorRead(insidePaste, pasteEndMatched, pendingInput) == old(OrchestratorRead(insidePaste, pasteEndMatched, pendingInput))
    {
      hide FeedByte, OccursAt, ChordComesFirst;
      var matched, endIndex := PasteTerminatorEnd(pendingInput, pasteEndMatched);
      PasteRun(forwarded, pendingInput, pasteEndMatched, 0);
      assert pendingInput[0..] == pendingInput;
      if endIndex.None? {
        pasteEndMatched := matched;
        SendInput(pendingInput);
        pendingInput := [];
        return;
      }
      assert pendingInput == pendingInput[..endIndex.value] + pendingInput[endIndex.value..];
      SendInput(pendingInput[..endIndex.value]);
      pendingInput := pendingInput[endIndex.value..];
      insidePaste := false;
      pasteEndMatched := 0;
    }

    method OpenPaste()
      requires Parsing() && !insidePaste && OccursAt(pendingInput, PASTE_START, 0)
      modifies this
      ensures Parsing() && |pendingInput| < old(|pendingInput|)
      ensures forwarded + pendingInput == old(forwarded + pendingInput)
      ensures Feed(Mode(), pendingInput) == old(Feed(Mode(), pendingInput))
      ensures OrchestratorRead(insidePaste, pasteEndMatched, pendingInput) == old(OrchestratorRead(insidePaste, pasteEndMatched, pendingInput))
    {
      hide Feed, ScanFrom, ChordComesFirst;
      assert pendingInput[0..|PASTE_START|] == PASTE_START;
      assert pendingInput == PASTE_START + pendingInput[|PASTE_START|..];
      PasteStartOpens(forwarded, pendingInput[|PASTE_START|..]);
      SendInput(PASTE_START);
      pendingInput := pendingInput[|PASTE_START|..];
      insidePaste := true;
      pasteEndMatched := 0;
    }

    /** Ctrl-] ahead of any paste in this read detaches, after the bytes before it are sent. */
    method TakeChord() returns (chord: bool)
      requires Parsing() && !insidePaste && pendingInput != [] && !OccursAt(pendingInput, PASTE_START, 0)
      modifies this
      ensures chord == old(ChordComesFirst(pendingInput))
      ensures !chord ==> Parsing() && DetachIsData(pendingInput)
      ensures !chord ==> forwarded == old(forwarded) && pendingInput == old(pendingInput) && !insidePaste
      ensures chord ==> Valid() && finished && EndsAtChord(old(forwarded + pendingInput))
      ensures chord ==> old(Feed(Mode(), pendingInput)) == Detached
      ensures chord ==> old(OrchestratorRead(insidePaste, pasteEndMatched, pendingInput)) == Closed
    {
      hide Feed, ScanFrom, OccursAt, DetachIsData;
      var pasteIndex := IndexOf(pendingInput, PASTE_START);
      var detachIndex := IndexOfByte(pendingInput, DETACH_BYTE);
      if detachIndex.Some? && (pasteIndex.None? || detachIndex.value < pasteIndex.value) {
        var d := detachIndex.value;
        DetachByteDetaches(forwarded, pendingInput, d);
        assert pendingInput == pendingInput[..d] + [DETACH_BYTE] + pendingInput[d + 1..];
        assert forwarded + pendingInput == forwarded + pendingInput[..d] + [DETACH_BYTE] + pendingInput[d + 1..];
        SendInput(pendingInput[..d]);
        pendingInput := [];
        Finish();
        return true;
      }
      ChordIsData(pendingInput, pasteIndex, detachIndex);
      DataIsNoChord(pendingInput);
      chord := false;
    }

    /** Worker mode: forward up to the next escape, then detach on Left Arrow, hold an unfinished sequence, or
        forward a complete one. */
    method TakeSequence() returns (stop: bool)
      requires Parsing() && !insidePaste && pendingInput != [] && detachOnLeftArrow && DetachIsData(pendingInput)
      modifies this
      ensures !stop ==> Parsing() && |pendingInput| < old(|pendingInput|) && Feed(Mode(), pendingInput) == old(Feed(Mode(), pendingInput))
      ensures stop ==> Valid() && Parsed() == old(Feed(Mode(), pendingInput))
      ensures !finished ==> forwarded + pendingInput == old(forwarded + pendingInput)
      ensures finished ==> EndsAtChord(old(forwarded + pendingInput))
    {
      hide Feed, OccursAt, DetachIsData, CompleteLength, EndsAtChord, IsPlain, IsHeld;
      ghost var stream := forwarded + pendingInput;
      var escapeIndex := IndexOfByte(pendingInput, ESCAPE_BYTE);
      if escapeIndex.None? {
        NoEscapeNoPaste(pendingInput);
        PlainRun(forwarded, pendingInput);
        SendInput(pendingInput);
        pendingInput := [];
        return true;
      }
      SkipPlain(forwarded, pendingInput, escapeIndex.value);
      SkipKeepsData(pendingInput, escapeIndex.value);
      SendInput(pendingInput[..escapeIndex.value]);
      pendingInput := pendingInput[escapeIndex.value..];
      assert forwarded + pendingInput == stream;
      stop := TakeEscape();
    }

    method TakeEscape() returns (stop: bool)
      requires Parsing() && !insidePaste && pendingInput != [] && detachOnLeftArrow && DetachIsData(pendingInput)
      requires pendingInput[0] == ESCAPE_BYTE
      modifies this
      ensures !stop ==> Parsing() && |pendingInput| < old(|pendingInput|) && Feed(Mode(), pendingInput) == old(Feed(Mode(), pendingInput))
      ensures stop ==> Valid() && Parsed() == old(Feed(Mode(), pendingInput))
      ensures !finished ==> forwarded + pendingInput == old(forwarded + pendingInput)
      ensures finished ==> EndsAtChord(old(forwarded + pendingInput))
    {
      hide Feed, DetachIsData, CompleteLength;
      if |pendingInput| < |LEFT_ARROW| && LEFT_ARROW[..|pendingInput|] == pendingInput {
        HoldArrowPrefix(forwarded, pendingInput);
        armed := true;
        return true;
      }
      if OccursAt(pendingInput, LEFT_ARROW, 0) {
        assert pendingInput == LEFT_ARROW + pendingInput[3..];
        LeftArrowDetaches(forwarded, pendingInput[3..]);
        assert forwarded + pendingInput == forwarded + LEFT_ARROW + pendingInput[3..];
        pendingInput := [];
        Finish();
        return true;
      }
      var escapeLength := CompleteEscapeSequenceLength(pendingInput);
      LongEnough(pendingInput);
      SequenceHasNoDetach(pendingInput);
      if escapeLength.None? {
        HeldRun(forwarded, pendingInput);
        armed := true;
        return true;
      }
      SequenceIsComplete(pendingInput, escapeLength.value);
      SequenceIsNotArrow(pendingInput, escapeLength.value);
      var sequence := pendingInput[..escapeLength.value];
      assert pendingInput == sequence + pendingInput[escapeLength.value..];
      SequenceRun(forwarded, sequence, pendingInput[escapeLength.value..]);
      SendInput(sequence);
      pendingInput := pendingInput[escapeLength.value..];
      if sequence == PASTE_START {
        insidePaste := true;
        pasteEndMatched := 0;
      }
      stop := false;
    }

    /** `finish`: the terminal is released and nothing more is sent. */
    method Finish()
      modifies this`finished, this`armed, this`pendingInput
      ensures finished && !armed && pendingInput == []
    {
      finished, armed, pendingInput := true, false, [];
    }

    /** The coalescing window ran out: what was held goes to the provider as it is. */
    method OnTimer()
      requires Valid() && armed
      modifies this
      ensures Valid() && !finished && insidePaste == old(insidePaste) && pendingInput == []
      ensures forwarded == old(forwarded) + old(pendingInput)
    {
      armed := false;
      var pending := pendingInput;
      pendingInput := [];
      SendInput(pending);
    }
  }

  /** An unfinished escape sequence, waiting for its rest. */
  ghost predicate IsHeld(h: Bytes) {
    h != [] && h[0] == ESCAPE_BYTE && DETACH_BYTE !in h && CompleteLength(h).None?
  }

  lemma HeldIsPending(out: Bytes, h: Bytes, value: Bytes)
    requires h != [] ==> IsHeld(h)
    ensures h != [] ==> Feed(Attached(Held(h), out), value) == Feed(Attached(Ground, out), h + value)
    ensures h == [] ==> h + value == value
  {
    if h != [] {
      HeldRun(out, h);
      FeedSplit(Attached(Ground, out), h, value);
    }
  }

  lemma ChordIsData(s: Bytes, pasteIndex: Option<nat>, detachIndex: Option<nat>)
    requires pasteIndex.Some? ==> OccursAt(s, PASTE_START, pasteIndex.value)
    requires detachIndex.None? ==> DETACH_BYTE !in s
    requires detachIndex.Some? ==> detachIndex.value < |s| && DETACH_BYTE !in s[..detachIndex.value]
    requires !(detachIndex.Some? && (pasteIndex.None? || detachIndex.value < pasteIndex.value))
    ensures DetachIsData(s)
  {
    if detachIndex.Some? {
      var p := pasteIndex.value;
      PasteStartHasNoDetach(s, p);
      forall d | 0 <= d < p ensures s[d] != DETACH_BYTE { assert s[d] == s[..detachIndex.value][d]; }
    }
  }

  lemma DataIsNoChord(s: Bytes)
    requires DetachIsData(s)
    ensures !ChordComesFirst(s)
  {}

  lemma NoEscapeNoPaste(s: Bytes)
    requires ESCAPE_BYTE !in s && DetachIsData(s)
    ensures IsPlain(s)
  {
    PastesHaveEscapes(s);
  }

  lemma PastesHaveEscapes(s: Bytes)
    ensures forall i :: OccursAt(s, PASTE_START, i) ==> ESCAPE_BYTE in s
  {
    forall i | OccursAt(s, PASTE_START, i) ensures ESCAPE_BYTE in s { PasteHasEscape(s, i); }
  }

  lemma PasteHasEscape(s: Bytes, i: nat)
    requires OccursAt(s, PASTE_START, i)
    ensures s[i] == ESCAPE_BYTE && ESCAPE_BYTE in s
  {
    OccurrenceBytes(s, PASTE_START, i);
    assert s[i + 0] in s;
  }

  /** Every paste start of `s` lies at or after its first escape. */
  lemma PastesFollowEscape(s: Bytes, e: nat, d: nat) returns (i: nat)
    requires e < |s| && ESCAPE_BYTE !in s[..e] && DetachIsData(s) && d < |s| && s[d] == DETACH_BYTE
    ensures e <= i < d && OccursAt(s, PASTE_START, i)
  {
    i :| 0 <= i < d && OccursAt(s, PASTE_START, i);
    PasteHasEscape(s, i);
    forall j | 0 <= j < e ensures s[j] != ESCAPE_BYTE { assert s[j] == s[..e][j]; }
  }

  lemma SkipPlain(out: Bytes, s: Bytes, e: nat)
    requires e < |s| && s[e] == ESCAPE_BYTE && ESCAPE_BYTE !in s[..e] && DetachIsData(s)
    ensures Feed(Attached(Ground, out), s) == Feed(Attached(Ground, out + s[..e]), s[e..])
  {
    hide Feed;
    forall d | 0 <= d < e ensures s[..e][d] != DETACH_BYTE {
      if s[d] == DETACH_BYTE { var i := PastesFollowEscape(s, e, d); }
    }
    PlainRun(out, s[..e]);
    assert s == s[..e] + s[e..];
    FeedSplit(Attached(Ground, out), s[..e], s[e..]);
  }

  lemma SkipKeepsData(s: Bytes, e: nat)
    requires e < |s| && ESCAPE_BYTE !in s[..e] && DetachIsData(s)
    ensures DetachIsData(s[e..])
  {
    var rest := s[e..];
    forall d | 0 <= d < |rest| && rest[d] == DETACH_BYTE
      ensures exists i :: 0 <= i < d && OccursAt(rest, PASTE_START, i)
    {
      var i := PastesFollowEscape(s, e, e + d);
      assert rest[i - e..i - e + 6] == s[i..i + 6];
      assert OccursAt(rest, PASTE_START, i - e);
    }
  }

  /** Past the Left Arrow prefixes there is at least one byte after the escape. */
  lemma LongEnough(s: Bytes)
    requires s != [] && s[0] == ESCAPE_BYTE
    requires !(|s| < |LEFT_ARROW| && LEFT_ARROW[..|s|] == s)
    ensures |s| >= 2
  {
    assert LEFT_ARROW[..1] == [ESCAPE_BYTE];
    assert |s| == 1 ==> s == [ESCAPE_BYTE];
  }

  lemma NothingLeft(m: Machine, inside: bool, matched: nat)
    ensures Feed(m, []) == m && OrchestratorRead(inside, matched, []) == Open(inside, matched)
  {}

  lemma OrchestratorForwards(s: Bytes)
    requires s != [] && !OccursAt(s, PASTE_START, 0) && !ChordComesFirst(s)
    ensures OrchestratorRead(false, 0, s) == Open(false, 0)
  {}

  lemma HoldArrowPrefix(out: Bytes, s: Bytes)
    requires 0 < |s| < |LEFT_ARROW| && LEFT_ARROW[..|s|] == s
    ensures IsHeld(s) && Feed(Attached(Ground, out), s) == Attached(Held(s), out)
  {
    assert s[0] == LEFT_ARROW[..|s|][0];
    if |s| == 2 { assert s[1] == LEFT_ARROW[..|s|][1]; }
    HeldRun(out, s);
  }

  lemma SequenceRun(out: Bytes, sequence: Bytes, rest: Bytes)
    requires |sequence| >= 2 && sequence[0] == ESCAPE_BYTE && DETACH_BYTE !in sequence
    requires CompleteLength(sequence) == Some(|sequence|) && sequence != LEFT_ARROW
    ensures Feed(Attached(Ground, out), sequence + rest)
      == Feed(Attached(if sequence == PASTE_START then Paste(0) else Ground, out + sequence), rest)
  {
    hide Feed, CompleteLength, FeedByte;
    CompleteRun(out, sequence);
    FeedSplit(Attached(Ground, out), sequence, rest);
  }

  lemma SequenceIsNotArrow(s: Bytes, n: nat)
    requires n <= |s| && !OccursAt(s, LEFT_ARROW, 0)
    ensures s[..n] != LEFT_ARROW
  {
    if n == 3 { assert s[0..3] == s[..n]; }
  }

  lemma SequenceIsComplete(s: Bytes, n: nat)
    requires CompleteLength(s) == Some(n)
    ensures 2 <= n <= |s| && CompleteLength(s[..n]) == Some(n)
  {
    if s[1] == 0x5b {
      forall i | 2 <= i < n - 1 ensures !IsFinal(s[..n][i]) { assert s[..n][i] == s[i]; }
    }
  }

  // ---- orchestrator mode ---------------------------------------------------------------------

  /** What one read does to an orchestrator attachment, which holds no byte back and parses no sequence. */
  datatype Orchestrator = Closed | Open(inside: bool, matched: nat)

  predicate ChordComesFirst(s: Bytes) {
    exists d :: 0 <= d < |s| && s[d] == DETACH_BYTE && forall i :: 0 <= i < d ==> !OccursAt(s, PASTE_START, i)
  }

  function OrchestratorRead(inside: bool, matched: nat, s: Bytes): Orchestrator
    decreases |s|
  {
    if s == [] then Open(inside, matched)
    else if inside then
      match ScanFrom(s, matched, 0)
      case Carried(k) => Open(true, k)
      case Found(end) => if 0 < end <= |s| then OrchestratorRead(false, 0, s[end..]) else Open(true, 0)
    else if OccursAt(s, PASTE_START, 0) then OrchestratorRead(true, 0, s[|PASTE_START|..])
    else if ChordComesFirst(s) then Closed
    else Open(false, matched)
  }

  /** The orchestrator over a list of reads. */
  function OrchestratorReads(inside: bool, matched: nat, chunks: seq<Bytes>): Orchestrator
    decreases |chunks|
  {
    if chunks == [] then Open(inside, matched)
    else
      match OrchestratorRead(inside, matched, chunks[0])
      case Closed => Closed
      case Open(i, m) => OrchestratorReads(i, m, chunks[1..])
  }

  lemma CarriedPrefix(k: nat)
    requires k < |PASTE_END|
    ensures ScanFrom(PASTE_END[..k], 0, 0) == Carried(k)
  {
    var s := PASTE_END[..k];
    TerminatorIsFirst(s);
    assert s[|s| - k..|s|] == PASTE_END[..k];
    assert EndsWith(s, |s|, k);
  }

  /** The matcher that has `k` bytes behind it finds no terminator where there is none. */
  lemma NoTerminatorIsCarried(s: Bytes, k: nat)
    requires k < |PASTE_END| && forall i :: 0 <= i < k + |s| ==> !OccursAt(PASTE_END[..k] + s, PASTE_END, i)
    ensures ScanFrom(s, k, 0).Carried?
  {
    hide OccursAt, ScanFrom, Longest;
    var whole := PASTE_END[..k] + s;
    assert |whole| == k + |s|;
    TerminatorIsFirst(whole);
    CarriedPrefix(k);
    CarriedAcrossReads(PASTE_END[..k], s, 0, 0);
  }

  lemma {:induction false} InsideStaysInside(k: nat, chunks: seq<Bytes>)
    requires ScanFrom(Joined(chunks), k, 0).Carried?
    ensures OrchestratorReads(true, k, chunks).Open? && OrchestratorReads(true, k, chunks).inside
    decreases |chunks|
  {
    hide ScanFrom, ChordComesFirst, OccursAt;
    if chunks != [] {
      CarriedAcrossReads(chunks[0], Joined(chunks[1..]), k, 0);
      var scan := ScanFrom(chunks[0], k, 0);
      assert scan.Carried? && ScanFrom(Joined(chunks[1..]), scan.matched, 0).Carried?;
      ReadInside(chunks[0], k);
      InsideStaysInside(scan.matched, chunks[1..]);
    }
  }

  lemma ReadInside(s: Bytes, k: nat)
    requires ScanFrom(s, k, 0).Carried?
    ensures OrchestratorRead(true, k, s) == Open(true, ScanFrom(s, k, 0).matched)
  {}

  /** Once inside a paste an orchestrator stays inside: no list of reads without the terminator closes it, whatever
      chords the payload holds and wherever it is cut. */
  lemma InsideIsOpaque(k: nat, chunks: seq<Bytes>)
    requires k < |PASTE_END|
    requires forall i :: 0 <= i < k + |Joined(chunks)| ==> !OccursAt(PASTE_END[..k] + Joined(chunks), PASTE_END, i)
    ensures OrchestratorReads(true, k, chunks).Open? && OrchestratorReads(true, k, chunks).inside
  {
    hide OccursAt, ScanFrom, OrchestratorReads;
    NoTerminatorIsCarried(Joined(chunks), k);
    InsideStaysInside(k, chunks);
  }

  /** A paste start at the head of a read, its payload and the first terminator behind it are data, whatever chords they hold: the
      read goes on behind them as if they had not been there. */
  lemma OrchestratorPasteIsData(payload: Bytes, rest: Bytes)
    requires IsPayload(payload)
    ensures OrchestratorRead(false, 0, [0x1b, 0x5b, 0x32, 0x30, 0x30, 0x7e] + payload + [0x1b, 0x5b, 0x32, 0x30, 0x31, 0x7e] + rest)
      == OrchestratorRead(false, 0, rest)
  {
    hide ScanFrom, ChordComesFirst;
    var tail := payload + PASTE_END + rest;
    var s := PASTE_START + tail;
    assert s == PASTE_START + payload + PASTE_END + rest;
    assert s[..6] == PASTE_START && s[6..] == tail;
    PayloadScan(payload, rest);
    assert tail[|payload| + 6..] == rest;
    assert OrchestratorRead(true, 0, tail) == OrchestratorRead(false, 0, rest);
    assert OrchestratorRead(false, 0, s) == OrchestratorRead(true, 0, tail);
  }

  /** The same in worker mode, where all of it is sent. */
  lemma WorkerPasteIsData(out: Bytes, payload: Bytes, rest: Bytes)
    requires IsPayload(payload)
    ensures var paste: Bytes := [0x1b, 0x5b, 0x32, 0x30, 0x30, 0x7e] + payload + [0x1b, 0x5b, 0x32, 0x30, 0x31, 0x7e];
      Feed(Attached(Ground, out), paste + rest) == Feed(Attached(Ground, out + paste), rest)
  {
    hide Feed, ScanFrom;
    var tail := payload + PASTE_END + rest;
    var paste := PASTE_START + payload + PASTE_END;
    assert paste + rest == PASTE_START + tail;
    PasteStartOpens(out, tail);
    PayloadScan(payload, rest);
    PasteRun(out + PASTE_START, tail, 0, 0);
    assert tail[0..] == tail && tail[|payload| + 6..] == rest && tail[0..|payload| + 6] == payload + PASTE_END;
    assert out + PASTE_START + (payload + PASTE_END) == out + paste;
  }

  /** No terminator begins before the payload is over. */
  ghost predicate IsPayload(payload: Bytes) {
    forall i :: 0 <= i < |payload| ==> !OccursAt(payload + [0x1b, 0x5b, 0x32, 0x30, 0x31, 0x7e], [0x1b, 0x5b, 0x32, 0x30, 0x31, 0x7e], i)
  }

  lemma PayloadScan(payload: Bytes, rest: Bytes)
    requires IsPayload(payload)
    ensures ScanFrom(payload + PASTE_END + rest, 0, 0) == Found(|payload| + 6)
  {
    hide ScanFrom, Longest;
    var s := payload + PASTE_END;
    assert s[|payload|..|payload| + 6] == PASTE_END;
    assert OccursAt(s, PASTE_END, |payload|);
    TerminatorIsFirst(s);
    CarriedAcrossReads(s, rest, 0, 0);
  }

  /** A read outside a paste that does not begin with the paste start closes the attachment if and only if it holds a Ctrl-] with no
      paste start before it; otherwise all of it is sent and no paste is opened. */
  lemma OrchestratorReadCloses(s: Bytes)
    requires !OccursAt(s, [0x1b, 0x5b, 0x32, 0x30, 0x30, 0x7e], 0)
    ensures OrchestratorRead(false, 0, s) ==
      if exists d :: 0 <= d < |s| && s[d] == 0x1d && forall i :: 0 <= i < d ==> !OccursAt(s, [0x1b, 0x5b, 0x32, 0x30, 0x30, 0x7e], i)
      then Closed else Open(false, 0)
  {
    assert PASTE_START == [0x1b, 0x5b, 0x32, 0x30, 0x30, 0x7e];
  }

  predicate HasPasteStart(s: Bytes) { exists i :: 0 <= i < |s| && OccursAt(s, PASTE_START, i) }

  lemma QuietRead(s: Bytes)
    requires DETACH_BYTE !in s && !OccursAt(s, PASTE_START, 0)
    ensures OrchestratorRead(false, 0, s) == Open(false, 0)
  {}

  lemma ChordRead(s: Bytes)
    requires DETACH_BYTE in s && !HasPasteStart(s)
    ensures OrchestratorRead(false, 0, s) == Closed
  {
    var d := FirstIndex(s, DETACH_BYTE);
    assert OccursAt(s, PASTE_START, 0) ==> HasPasteStart(s);
    assert forall i :: 0 <= i < d ==> !OccursAt(s, PASTE_START, i);
    assert ChordComesFirst(s);
  }

  /** Outside a paste, reads without a paste start close at the first chord. */
  lemma {:induction false} OutsideCloses(chunks: seq<Bytes>)
    requires forall i :: 0 <= i < |chunks| ==> !HasPasteStart(chunks[i])
    requires exists i :: 0 <= i < |chunks| && DETACH_BYTE in chunks[i]
    ensures OrchestratorReads(false, 0, chunks) == Closed
    decreases |chunks|
  {
    hide OrchestratorRead, OccursAt;
    var first, rest := chunks[0], chunks[1..];
    if DETACH_BYTE in first {
      ChordRead(first);
    } else {
      assert OccursAt(first, PASTE_START, 0) ==> first != [] by { OccurrenceFits(first, PASTE_START, 0); }
      QuietRead(first);
      var i :| 0 <= i < |chunks| && DETACH_BYTE in chunks[i];
      assert rest[i - 1] == chunks[i];
      assert forall k :: 0 <= k < |rest| ==> rest[k] == chunks[k + 1];
      OutsideCloses(rest);
    }
  }

  lemma OccurrenceFits(s: Bytes, pattern: Bytes, i: nat)
    ensures OccursAt(s, pattern, i) ==> i + |pattern| <= |s|
  {}

  // ---- one paste over several reads ----------------------------------------------------------

  /** The reads carry `before`, one paste start and `payload`: no other paste start, and no Ctrl-] before it. */
  ghost predicate OnePaste(chunks: seq<Bytes>, before: Bytes, payload: Bytes) {
    && Joined(chunks) == before + PASTE_START + payload && DETACH_BYTE !in before
    && forall i :: 0 <= i < |Joined(chunks)| && i != |before| ==> !OccursAt(Joined(chunks), PASTE_START, i)
  }

  lemma OccursInSuffix(s: Bytes, n: nat, pattern: Bytes, i: nat)
    requires n <= |s|
    ensures OccursAt(s[n..], pattern, i) <==> OccursAt(s, pattern, n + i)
  {
    if i + |pattern| <= |s| - n { assert s[n..][i..i + |pattern|] == s[n + i..n + i + |pattern|]; }
  }

  /** An occurrence in one read is one in the joined bytes, at the read's offset. */
  lemma {:induction false} OccursInJoined(chunks: seq<Bytes>, k: nat, pattern: Bytes, i: nat)
    requires k < |chunks| && OccursAt(chunks[k], pattern, i)
    ensures |Joined(chunks[..k])| + i + |pattern| <= |Joined(chunks)|
    ensures OccursAt(Joined(chunks), pattern, |Joined(chunks[..k])| + i)
    decreases |chunks|
  {
    hide OccursAt;
    OccurrenceFits(chunks[k], pattern, i);
    var first, rest := chunks[0], chunks[1..];
    if k == 0 {
      assert chunks[..0] == [];
      assert Joined(chunks)[..|first|] == first;
      OccursInPrefix(Joined(chunks), |first|, pattern, i);
    } else {
      OccursInJoined(rest, k - 1, pattern, i);
      assert rest[..k - 1] == chunks[..k][1..];
      assert Joined(chunks)[|first|..] == Joined(rest);
      OccursInSuffix(Joined(chunks), |first|, pattern, |Joined(rest[..k - 1])| + i);
    }
  }

  /** No paste start in the joined bytes, none in any read. */
  lemma NoneInReads(chunks: seq<Bytes>)
    requires forall i :: 0 <= i < |Joined(chunks)| ==> !OccursAt(Joined(chunks), PASTE_START, i)
    ensures forall k :: 0 <= k < |chunks| ==> !HasPasteStart(chunks[k])
  {
    hide OccursAt;
    forall k | 0 <= k < |chunks| ensures !HasPasteStart(chunks[k]) {
      forall i | 0 <= i < |chunks[k]| ensures !OccursAt(chunks[k], PASTE_START, i) {
        if OccursAt(chunks[k], PASTE_START, i) { OccursInJoined(chunks, k, PASTE_START, i); }
      }
    }
  }

  ghost predicate SomeReadBegins(chunks: seq<Bytes>) { exists k :: 0 <= k < |chunks| && OccursAt(chunks[k], PASTE_START, 0) }

  /** A Ctrl-] arrives in a read that does not hold the whole paste start. */
  ghost predicate ChordArrivesApart(chunks: seq<Bytes>) {
    exists k :: 0 <= k < |chunks| && DETACH_BYTE in chunks[k] && !HasPasteStart(chunks[k])
  }

  lemma BeginsTail(chunks: seq<Bytes>)
    requires chunks != []
    ensures SomeReadBegins(chunks) <==> OccursAt(chunks[0], PASTE_START, 0) || SomeReadBegins(chunks[1..])
  {
    hide OccursAt;
    var rest := chunks[1..];
    assert forall k :: 0 <= k < |rest| ==> rest[k] == chunks[k + 1];
    if SomeReadBegins(chunks) {
      var k :| 0 <= k < |chunks| && OccursAt(chunks[k], PASTE_START, 0);
      assert k > 0 ==> rest[k - 1] == chunks[k];
    }
  }

  lemma ApartTail(chunks: seq<Bytes>)
    requires chunks != [] && ChordArrivesApart(chunks) && (DETACH_BYTE !in chunks[0] || HasPasteStart(chunks[0]))
    ensures ChordArrivesApart(chunks[1..])
  {
    hide HasPasteStart;
    var k :| 0 <= k < |chunks| && DETACH_BYTE in chunks[k] && !HasPasteStart(chunks[k]);
    assert chunks[1..][k - 1] == chunks[k];
  }

  /** Without a paste start in any read the chord closes, and no read begins with one. */
  lemma NoStartCloses(chunks: seq<Bytes>)
    requires ChordArrivesApart(chunks) && forall i :: 0 <= i < |Joined(chunks)| ==> !OccursAt(Joined(chunks), PASTE_START, i)
    ensures OrchestratorReads(false, 0, chunks) == Closed && !SomeReadBegins(chunks)
  {
    hide OccursAt, OrchestratorReads;
    NoneInReads(chunks);
    OutsideCloses(chunks);
    forall k | 0 <= k < |chunks| ensures !OccursAt(chunks[k], PASTE_START, 0) {
      OccurrenceFits(chunks[k], PASTE_START, 0);
      assert !HasPasteStart(chunks[k]);
    }
  }

  /** The first read carries the paste start from its first byte. */
  lemma StartAtReadStart(chunks: seq<Bytes>, payload: Bytes)
    requires chunks != [] && OccursAt(chunks[0], PASTE_START, 0) && Joined(chunks) == PASTE_START + payload
    requires forall i :: 0 <= i < |payload| ==> !OccursAt(payload, PASTE_END, i)
    ensures OrchestratorReads(false, 0, chunks).Open?
  {
    hide ScanFrom, ChordComesFirst, Longest;
    var first, rest := chunks[0], chunks[1..];
    assert first[0..6] == PASTE_START;
    var head := first[6..];
    assert Joined(chunks) == first + Joined(rest);
    assert payload == Joined(chunks)[6..] == head + Joined(rest);
    TerminatorIsFirst(payload);
    CarriedAcrossReads(head, Joined(rest), 0, 0);
    ReadInside(head, 0);
    assert OrchestratorRead(false, 0, first) == OrchestratorRead(true, 0, head);
    InsideStaysInside(ScanFrom(head, 0, 0).matched, rest);
  }

  /** The first read carries the paste start whole, but not from its first byte. */
  lemma StartMidRead(chunks: seq<Bytes>, before: Bytes, payload: Bytes)
    requires chunks != [] && OnePaste(chunks, before, payload) && ChordArrivesApart(chunks)
    requires before != [] && |chunks[0]| >= |before| + 6
    ensures OrchestratorReads(false, 0, chunks) == Closed && !SomeReadBegins(chunks)
  {
    hide OrchestratorRead, OccursAt;
    var first, rest := chunks[0], chunks[1..];
    var all := Joined(chunks);
    assert first == all[..|first|] && Joined(rest) == all[|first|..];
    MidReadIsQuiet(first, before, all);
    forall i | 0 <= i < |Joined(rest)| ensures !OccursAt(Joined(rest), PASTE_START, i) { OccursInSuffix(all, |first|, PASTE_START, i); }
    ApartTail(chunks);
    NoStartCloses(rest);
    BeginsTail(chunks);
  }

  lemma MidReadIsQuiet(first: Bytes, before: Bytes, all: Bytes)
    requires before != [] && DETACH_BYTE !in before && |before| + 6 <= |first| <= |all| && first == all[..|first|]
    requires before + PASTE_START <= all && forall i :: 0 <= i < |all| && i != |before| ==> !OccursAt(all, PASTE_START, i)
    ensures HasPasteStart(first) && !OccursAt(first, PASTE_START, 0) && OrchestratorRead(false, 0, first) == Open(false, 0)
  {
    assert first[|before|..|before| + 6] == PASTE_START;
    OccursInPrefix(all, |first|, PASTE_START, 0);
    assert before <= first;
    DetachesFollow(first, before);
    hide OccursAt, DetachIsData, ChordComesFirst, OrchestratorRead;
    DataIsNoChord(first);
    OrchestratorForwards(first);
  }

  lemma DetachesFollow(first: Bytes, before: Bytes)
    requires DETACH_BYTE !in before && before <= first && OccursAt(first, PASTE_START, |before|)
    ensures DetachIsData(first)
  {
    PasteStartHasNoDetach(first, |before|);
    hide OccursAt;
    forall k | 0 <= k < |before| ensures first[k] != DETACH_BYTE { assert first[k] == before[k]; }
    forall d | 0 <= d < |first| && first[d] == DETACH_BYTE ensures exists i :: 0 <= i < d && OccursAt(first, PASTE_START, i) {
      assert |before| < d;
    }
  }

  /** The first read ends before the paste start does. */
  lemma StartCut(chunks: seq<Bytes>, before: Bytes, payload: Bytes)
    requires chunks != [] && OnePaste(chunks, before, payload) && ChordArrivesApart(chunks)
    requires |before| < |chunks[0]| < |before| + 6
    ensures OrchestratorReads(false, 0, chunks) == Closed && !SomeReadBegins(chunks)
  {
    hide OrchestratorRead, OccursAt;
    var first, rest := chunks[0], chunks[1..];
    var all := Joined(chunks);
    assert first == all[..|first|] && Joined(rest) == all[|first|..];
    CutReadIsQuiet(first, before, all);
    forall i | 0 <= i < |Joined(rest)| ensures !OccursAt(Joined(rest), PASTE_START, i) { OccursInSuffix(all, |first|, PASTE_START, i); }
    ApartTail(chunks);
    NoStartCloses(rest);
    BeginsTail(chunks);
  }

  lemma CutReadIsQuiet(first: Bytes, before: Bytes, all: Bytes)
    requires DETACH_BYTE !in before && |first| <= |all| && |first| < |before| + 6 && first == all[..|first|]
    requires before + PASTE_START <= all && forall i :: 0 <= i < |all| && i != |before| ==> !OccursAt(all, PASTE_START, i)
    ensures DETACH_BYTE !in first && !OccursAt(first, PASTE_START, 0) && OrchestratorRead(false, 0, first) == Open(false, 0)
  {
    OccursInPrefix(all, |first|, PASTE_START, 0);
    forall d | 0 <= d < |first| ensures first[d] != DETACH_BYTE {
      assert first[d] == (before + PASTE_START)[d];
      if d < |before| { assert before[d] in before; } else { assert (before + PASTE_START)[d] == PASTE_START[d - |before|]; }
    }
    QuietRead(first);
  }

  /** When a paste is opaque to an orchestrator. Reads carry one paste start, no Ctrl-] before it, no terminator behind it,
      and a Ctrl-] in a read that does not hold the whole paste start: that Ctrl-], which lies in the paste, detaches if
      and only if no read begins with the paste start. */
  lemma {:induction false} PasteIsOpaqueIffReadStart(chunks: seq<Bytes>, before: Bytes, payload: Bytes)
    requires OnePaste(chunks, before, payload) && ChordArrivesApart(chunks)
    requires forall i :: 0 <= i < |payload| ==> !OccursAt(payload, PASTE_END, i)
    ensures OrchestratorReads(false, 0, chunks) == Closed <==> !SomeReadBegins(chunks)
    decreases |chunks|
  {
    hide OrchestratorRead, OccursAt;
    var first, rest := chunks[0], chunks[1..];
    var all := Joined(chunks);
    assert first == all[..|first|] && Joined(rest) == all[|first|..];
    BeginsTail(chunks);
    if |first| <= |before| {
      CutReadIsQuiet(first, before, all);
      ApartTail(chunks);
      PasteLater(chunks, before, payload);
      PasteIsOpaqueIffReadStart(rest, before[|first|..], payload);
    } else if |first| < |before| + 6 {
      StartCut(chunks, before, payload);
    } else if before != [] {
      StartMidRead(chunks, before, payload);
    } else {
      StartIsFirst(first, payload, all);
      assert before + PASTE_START + payload == PASTE_START + payload;
      StartAtReadStart(chunks, payload);
    }
  }

  lemma StartIsFirst(first: Bytes, payload: Bytes, all: Bytes)
    requires |first| >= 6 && first <= all && all == [] + PASTE_START + payload
    ensures OccursAt(first, PASTE_START, 0)
  {
    assert first[0..6] == all[..6] == PASTE_START;
  }

  lemma PasteLater(chunks: seq<Bytes>, before: Bytes, payload: Bytes)
    requires chunks != [] && OnePaste(chunks, before, payload) && |chunks[0]| <= |before|
    ensures OnePaste(chunks[1..], before[|chunks[0]|..], payload)
  {
    hide OccursAt;
    var n, all := |chunks[0]|, Joined(chunks);
    assert Joined(chunks[1..]) == all[n..];
    assert all[n..] == before[n..] + PASTE_START + payload;
    forall i | 0 <= i < |all[n..]| && i != |before[n..]| ensures !OccursAt(all[n..], PASTE_START, i) {
      OccursInSuffix(all, n, PASTE_START, i);
    }
    assert forall b :: b in before[n..] ==> b in before;
  }

  /** Streaming independence fails for an orchestrator: the same bytes detach when the paste start is cut. */
  lemma OrchestratorChunkingMatters()
    ensures var whole, cut := [PASTE_START + [DETACH_BYTE]], [PASTE_START[..3], PASTE_START[3..] + [DETACH_BYTE]];
      && Joined(whole) == Joined(cut)
      && OrchestratorReads(false, 0, whole) == Open(true, 0)
      && OrchestratorReads(false, 0, cut) == Closed
  {
    var head, tail := PASTE_START[..3], PASTE_START[3..] + [DETACH_BYTE];
    var whole, cut := [PASTE_START + [DETACH_BYTE]], [head, tail];
    var last := cut[1..];
    assert last == [tail] && last[1..] == [] && whole[1..] == [];
    assert Joined(last) == tail + Joined([]);
    assert Joined(whole) == PASTE_START + [DETACH_BYTE] + Joined([]);
    assert OrchestratorRead(false, 0, head) == Open(false, 0);
    assert tail[3] == DETACH_BYTE;
    assert OrchestratorRead(false, 0, tail) == Closed by {
      forall i | 0 <= i < 3 ensures !OccursAt(tail, PASTE_START, i) {}
      assert ChordComesFirst(tail);
    }
    assert OrchestratorReads(false, 0, cut) == OrchestratorReads(false, 0, cut[1..]);
    assert OrchestratorRead(false, 0, whole[0]) == Open(true, 0) by {
      assert whole[0][0..6] == PASTE_START && whole[0][6..] == [DETACH_BYTE];
      assert ScanFrom([DETACH_BYTE], 0, 0) == ScanFrom([DETACH_BYTE], 0, 1);
    }
    assert OrchestratorReads(false, 0, whole) == OrchestratorReads(true, 0, whole[1..]);
  }

  // ---- whole attachments ---------------------------------------------------------------------

  /** What reaches the attachment: a read, or the end of the coalescing window if it is running. */
  datatype Event = Read(bytes: Bytes) | Timeout

  function InputOf(events: seq<Event>): Bytes {
    if events == [] then []
    else
      var last := events[|events| - 1];
      InputOf(events[..|events| - 1]) + if last.Read? then last.bytes else []
  }

  predicate NoTimeout(events: seq<Event>) { forall i :: 0 <= i < |events| ==> events[i].Read? }

  /** A whole attachment. While it lasts, what was sent followed by what is held is the input, whatever the
      timer did; and in worker mode without a timeout it ends where the automaton ends on the joined input. */
  method Drive(detachOnLeftArrow: bool, events: seq<Event>) returns (a: Attachment)
    ensures fresh(a) && a.Valid() && a.detachOnLeftArrow == detachOnLeftArrow
    ensures !a.finished ==> a.forwarded + a.pendingInput == InputOf(events)
    ensures a.finished ==> a.forwarded < InputOf(events)
    ensures detachOnLeftArrow && NoTimeout(events) ==> a.Parsed() == Feed(Attached(Ground, []), InputOf(events))
  {
    hide Feed;
    a := new Attachment(detachOnLeftArrow);
    NothingLeft(Attached(Ground, []), false, 0);
    for i := 0 to |events|
      invariant fresh(a) && a.Valid() && a.detachOnLeftArrow == detachOnLeftArrow
      invariant !a.finished ==> a.forwarded + a.pendingInput == InputOf(events[..i])
      invariant a.finished ==> a.forwarded < InputOf(events[..i])
      invariant detachOnLeftArrow && NoTimeout(events[..i]) ==> a.Parsed() == Feed(Attached(Ground, []), InputOf(events[..i]))
    {
      assert events[..i + 1][..i] == events[..i];
      assert NoTimeout(events[..i + 1]) ==> NoTimeout(events[..i]) && events[..i + 1][i].Read?;
      match events[i]
      case Read(bytes) =>
        FeedSplit(Attached(Ground, []), InputOf(events[..i]), bytes);
        assert InputOf(events[..i + 1]) == InputOf(events[..i]) + bytes;
        a.OnInput(bytes);
      case Timeout =>
        if a.armed { a.OnTimer(); }
        assert !NoTimeout(events[..i + 1]);
    }
    assert events[..|events|] == events;
  }
}
