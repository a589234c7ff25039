/** src/client/attach.ts: the byte stream of an attached terminal, one byte at a time.
    `Feed` is the reference automaton; the attachment object is proved to follow it read by read. */
module TerminalInput {
  import opened Finite

  type Byte = b: int | 0 <= b < 256
  type Bytes = seq<Byte>

  const DETACH_BYTE: Byte := 0x1d
  const ESCAPE_BYTE: Byte := 0x1b
  const PASTE_START: Bytes := [0x1b, 0x5b, 0x32, 0x30, 0x30, 0x7e]
  const PASTE_END: Bytes := [0x1b, 0x5b, 0x32, 0x30, 0x31, 0x7e]
  const LEFT_ARROW: Bytes := [0x1b, 0x5b, 0x44]

  // ---- escape sequences ----------------------------------------------------------------------

  predicate IsFinal(b: Byte) { 0x40 <= b <= 0x7e }

  /** Index just past the first final byte at or after `from`. */
  function FinalEnd(s: Bytes, from: nat): (r: Option<nat>)
    requires from <= |s|
    ensures r.Some? ==> from < r.value <= |s| && IsFinal(s[r.value - 1]) && forall i :: from <= i < r.value - 1 ==> !IsFinal(s[i])
    ensures r.None? ==> forall i :: from <= i < |s| ==> !IsFinal(s[i])
    decreases |s| - from
  {
    if from == |s| then None else if IsFinal(s[from]) then Some(from + 1) else FinalEnd(s, from + 1)
  }

  /** Length of the escape sequence `s` begins with, once all of it has arrived. The CSI form is that of
      section 5.4 of ECMA-48; intermediate bytes are not distinguished from parameter bytes. */
  function CompleteLength(s: Bytes): Option<nat> {
    if |s| < 2 then None
    else if s[1] == 0x5b then FinalEnd(s, 2)
    else if s[1] == 0x4f then (if |s| >= 3 then Some(3) else None)
    else Some(2)
  }

  // ---- the reference automaton ---------------------------------------------------------------

  /** `Held` bytes await the rest of their sequence; `Paste` counts matched bytes of the terminator. */
  datatype Parse = Ground | Held(bytes: Bytes) | Paste(matched: nat)
  datatype Machine = Attached(parse: Parse, out: Bytes) | Detached

  function StepMatch(k: nat, b: Byte): nat {
    if k < |PASTE_END| && b == PASTE_END[k] then k + 1 else if b == PASTE_END[0] then 1 else 0
  }

  function FeedByte(m: Machine, b: Byte): Machine {
    match m
    case Detached => Detached
    case Attached(Paste(k), out) =>
      var k' := StepMatch(k, b);
      Attached(if k' == |PASTE_END| then Ground else Paste(k'), out + [b])
    case Attached(Ground, out) =>
      if b == DETACH_BYTE then Detached
      else if b == ESCAPE_BYTE then Attached(Held([b]), out)
      else Attached(Ground, out + [b])
    case Attached(Held(h), out) =>
      var s := h + [b];
      if b == DETACH_BYTE || s == LEFT_ARROW then Detached
      else if CompleteLength(s).None? then Attached(Held(s), out)
      else Attached(if s == PASTE_START then Paste(0) else Ground, out + s)
  }

  function Feed(m: Machine, s: Bytes): Machine
    decreases |s|
  {
    if s == [] then m else Feed(FeedByte(m, s[0]), s[1..])
  }

  lemma {:induction false} FeedSplit(m: Machine, a: Bytes, b: Bytes)
    ensures Feed(m, a + b) == Feed(Feed(m, a), b)
    decreases |a|
  {
    if a == [] {
      assert a + b == b;
    } else {
      assert (a + b)[0] == a[0] && (a + b)[1..] == a[1..] + b;
      FeedSplit(FeedByte(m, a[0]), a[1..], b);
    }
  }

  lemma FeedLast(m: Machine, s: Bytes)
    requires s != []
    ensures Feed(m, s) == FeedByte(Feed(m, s[..|s| - 1]), s[|s| - 1])
  {
    var front, last := s[..|s| - 1], s[|s| - 1..];
    assert s == front + last && last[0] == s[|s| - 1] && last[1..] == [];
    FeedSplit(m, front, last);
    assert Feed(Feed(m, front), last) == Feed(FeedByte(Feed(m, front), last[0]), last[1..]);
  }

  lemma {:induction false} DetachedStays(s: Bytes)
    ensures Feed(Detached, s) == Detached
    decreases |s|
  {
    if s != [] { DetachedStays(s[1..]); }
  }

  /** A list of reads delivered one after the other. */
  function FeedReads(m: Machine, chunks: seq<Bytes>): Machine
    decreases |chunks|
  {
    if chunks == [] then m else FeedReads(Feed(m, chunks[0]), chunks[1..])
  }

  function Joined(chunks: seq<Bytes>): Bytes
    decreases |chunks|
  {
    if chunks == [] then [] else chunks[0] + Joined(chunks[1..])
  }

  lemma {:induction false} ReadsAreTheirBytes(m: Machine, chunks: seq<Bytes>)
    ensures FeedReads(m, chunks) == Feed(m, Joined(chunks))
    decreases |chunks|
  {
    if chunks != [] {
      ReadsAreTheirBytes(Feed(m, chunks[0]), chunks[1..]);
      FeedSplit(m, chunks[0], Joined(chunks[1..]));
    }
  }

  /** Streaming independence: how the bytes were cut into reads decides nothing. */
  lemma ChunkingDecidesNothing(m: Machine, chunks: seq<Bytes>, chunks': seq<Bytes>)
    requires Joined(chunks) == Joined(chunks')
    ensures FeedReads(m, chunks) == FeedReads(m, chunks')
  {
    ReadsAreTheirBytes(m, chunks);
    ReadsAreTheirBytes(m, chunks');
  }

  // ---- runs of the automaton that the read loop takes in one step ----------------------------

  predicate IsPlain(s: Bytes) { ESCAPE_BYTE !in s && DETACH_BYTE !in s }

  lemma {:induction false} PlainRun(out: Bytes, s: Bytes)
    requires IsPlain(s)
    ensures Feed(Attached(Ground, out), s) == Attached(Ground, out + s)
    decreases |s|
  {
    if s == [] {
      assert out + s == out;
    } else {
      assert s[0] in s;
      assert forall b :: b in s[1..] ==> b in s;
      PlainRun(out + [s[0]], s[1..]);
      assert out + [s[0]] + s[1..] == out + s;
    }
  }

  /** An incomplete sequence has only incomplete beginnings. */
  lemma IncompletePrefix(s: Bytes, n: nat)
    requires n <= |s| && CompleteLength(s).None?
    ensures CompleteLength(s[..n]).None?
  {
    if n >= 2 && s[1] == 0x5b {
      forall i | 2 <= i < n ensures !IsFinal(s[..n][i]) { assert s[..n][i] == s[i]; }
    }
  }

  lemma LeftArrowIsComplete()
    ensures CompleteLength(LEFT_ARROW) == Some(3)
  {}

  lemma {:induction false} HeldRun(out: Bytes, s: Bytes)
    requires s != [] && s[0] == ESCAPE_BYTE && DETACH_BYTE !in s && CompleteLength(s).None?
    ensures Feed(Attached(Ground, out), s) == Attached(Held(s), out)
    decreases |s|
  {
    FeedLast(Attached(Ground, out), s);
    var front := s[..|s| - 1];
    if front == [] {
      assert s == [s[0]];
    } else {
      IncompletePrefix(s, |s| - 1);
      assert forall b :: b in front ==> b in s;
      HeldRun(out, front);
      assert front + [s[|s| - 1]] == s;
      assert s[|s| - 1] in s;
      LeftArrowIsComplete();
    }
  }

  lemma CompleteRun(out: Bytes, s: Bytes)
    requires |s| >= 2 && s[0] == ESCAPE_BYTE && DETACH_BYTE !in s && CompleteLength(s) == Some(|s|) && s != LEFT_ARROW
    ensures Feed(Attached(Ground, out), s) == Attached(if s == PASTE_START then Paste(0) else Ground, out + s)
  {
    hide CompleteLength, Feed;
    var front := s[..|s| - 1];
    FrontIncomplete(s);
    assert front[0] == ESCAPE_BYTE;
    assert forall b :: b in front ==> b in s;
    HeldRun(out, front);
    FeedLast(Attached(Ground, out), s);
    assert front + [s[|s| - 1]] == s;
    assert s[|s| - 1] in s;
  }

  lemma FrontIncomplete(s: Bytes)
    requires |s| >= 2 && CompleteLength(s) == Some(|s|)
    ensures CompleteLength(s[..|s| - 1]).None?
  {
    var front := s[..|s| - 1];
    if s[1] == 0x5b && |front| >= 2 {
      forall i | 2 <= i < |front| ensures !IsFinal(front[i]) { assert front[i] == s[i]; }
    }
  }

  /** Where an escape sequence ends: a CSI behind its first final byte, an SS3 behind three bytes, anything else behind two. */
  lemma SequenceEnds(s: Bytes)
    ensures |s| < 2 ==> CompleteLength(s) == None
    ensures |s| >= 2 && s[1] != 0x5b && s[1] != 0x4f ==> CompleteLength(s) == Some(2)
    ensures |s| >= 2 && s[1] == 0x4f ==> CompleteLength(s) == if |s| == 2 then None else Some(3)
    ensures |s| >= 2 && s[1] == 0x5b ==> forall n :: 3 <= n <= |s| ==>
      (CompleteLength(s) == Some(n) <==> 0x40 <= s[n - 1] <= 0x7e && forall i :: 2 <= i < n - 1 ==> !(0x40 <= s[i] <= 0x7e))
    ensures |s| >= 2 && s[1] == 0x5b ==>
      (CompleteLength(s) == None <==> forall i :: 2 <= i < |s| ==> !(0x40 <= s[i] <= 0x7e))
  {
    if |s| >= 2 && s[1] == 0x5b {
      var end := FinalEnd(s, 2);
      forall n | 3 <= n <= |s| ensures end == Some(n) <==> IsFinal(s[n - 1]) && forall i :: 2 <= i < n - 1 ==> !IsFinal(s[i]) {
        if IsFinal(s[n - 1]) && (forall i :: 2 <= i < n - 1 ==> !IsFinal(s[i])) { assert end.Some? && end.value - 1 == n - 1; }
      }
    }
  }

  /** SS3 and two-byte sequences, byte by byte: an escape is held; behind ESC O one more byte is awaited; behind ESC and any other
      byte but the CSI introducer the sequence is over and sent. */
  lemma ShortSequencesAreSent(out: Bytes, b: Byte)
    requires b != 0x1d
    ensures Feed(Attached(Ground, out), [0x1b]) == Attached(Held([0x1b]), out)
    ensures Feed(Attached(Ground, out), [0x1b, 0x4f]) == Attached(Held([0x1b, 0x4f]), out)
    ensures Feed(Attached(Ground, out), [0x1b, 0x4f, b]) == Attached(Ground, out + [0x1b, 0x4f, b])
    ensures b != 0x5b && b != 0x4f ==> Feed(Attached(Ground, out), [0x1b, b]) == Attached(Ground, out + [0x1b, b])
    ensures b != 0x1b ==> Feed(Attached(Ground, out), [b]) == Attached(Ground, out + [b])
  {
    HeldRun(out, [0x1b]);
    HeldRun(out, [0x1b, 0x4f]);
    CompleteRun(out, [0x1b, 0x4f, b]);
    if b != 0x5b && b != 0x4f { CompleteRun(out, [0x1b, b]); }
    if b != 0x1b { PlainRun(out, [b]); }
  }

  /** A CSI sequence: its parameters are held however long they are; its final byte detaches when it makes Left Arrow, opens a paste
      when it makes the paste start, and else the whole is sent. */
  lemma ControlSequencesAreSent(out: Bytes, params: Bytes, last: Byte)
    requires 0x1d !in params && (forall i :: 0 <= i < |params| ==> !(0x40 <= params[i] <= 0x7e)) && 0x40 <= last <= 0x7e
    ensures var held: Bytes := [0x1b, 0x5b] + params;
      && Feed(Attached(Ground, out), held) == Attached(Held(held), out)
      && Feed(Attached(Ground, out), held + [last]) ==
           if params == [] && last == 0x44 then Detached
           else if params == [0x32, 0x30, 0x30] && last == 0x7e then Attached(Paste(0), out + held + [last])
           else Attached(Ground, out + held + [last])
  {
    hide Feed;
    var held: Bytes := [0x1b, 0x5b] + params;
    var whole := held + [last];
    assert forall i :: 2 <= i < |held| ==> held[i] == params[i - 2];
    assert forall i :: 2 <= i < |held| ==> whole[i] == params[i - 2];
    HeldRun(out, held);
    if params == [] && last == 0x44 {
      assert whole == LEFT_ARROW && LEFT_ARROW + [] == LEFT_ARROW;
      LeftArrowDetaches(out, []);
    } else {
      assert whole[2..] == params + [last];
      assert LEFT_ARROW[2..] == [] + [0x44] && PASTE_START[2..] == [0x32, 0x30, 0x30] + [0x7e];
      TailsDiffer(params, last);
      SequenceEnds(whole);
      CompleteRun(out, whole);
      assert out + whole == out + held + [last];
    }
  }

  lemma TailsDiffer(params: Bytes, last: Byte)
    ensures [0x1b, 0x5b] + params + [last] == LEFT_ARROW <==> params == [] && last == 0x44
    ensures [0x1b, 0x5b] + params + [last] == PASTE_START <==> params == [0x32, 0x30, 0x30] && last == 0x7e
  {
    var whole: Bytes := [0x1b, 0x5b] + params + [last];
    assert |whole| == |params| + 3 && whole[|whole| - 1] == last;
    assert forall i :: 0 <= i < |params| ==> whole[i + 2] == params[i];
    if whole == PASTE_START { assert params == whole[2..5]; assert PASTE_START[2..5] == [0x32, 0x30, 0x30]; }
    if whole == LEFT_ARROW { assert params == whole[2..2]; }
  }

  lemma LeftArrowDetaches(out: Bytes, rest: Bytes)
    ensures Feed(Attached(Ground, out), LEFT_ARROW + rest) == Detached
  {
    var front := [0x1b, 0x5b];
    HeldRun(out, front);
    assert LEFT_ARROW[..2] == front;
    FeedLast(Attached(Ground, out), LEFT_ARROW);
    assert front + [0x44] == LEFT_ARROW;
    FeedSplit(Attached(Ground, out), LEFT_ARROW, rest);
    DetachedStays(rest);
  }

  lemma PasteStartOpens(out: Bytes, rest: Bytes)
    ensures Feed(Attached(Ground, out), PASTE_START + rest) == Feed(Attached(Paste(0), out + PASTE_START), rest)
  {
    assert FinalEnd(PASTE_START, 5) == Some(6);
    assert FinalEnd(PASTE_START, 4) == Some(6);
    assert FinalEnd(PASTE_START, 3) == Some(6);
    CompleteRun(out, PASTE_START);
    FeedSplit(Attached(Ground, out), PASTE_START, rest);
  }

  // ---- a detach byte outside any paste -------------------------------------------------------

  predicate OccursAt(s: Bytes, pattern: Bytes, i: nat) { i + |pattern| <= |s| && s[i..i + |pattern|] == pattern }

  lemma OccursInPrefix(s: Bytes, n: nat, pattern: Bytes, i: nat)
    requires n <= |s|
    ensures OccursAt(s[..n], pattern, i) <==> i + |pattern| <= n && OccursAt(s, pattern, i)
  {
    if i + |pattern| <= n { assert s[..n][i..i + |pattern|] == s[i..i + |pattern|]; }
  }

  lemma OccurrenceBytes(s: Bytes, pattern: Bytes, i: nat)
    requires OccursAt(s, pattern, i)
    ensures forall j :: 0 <= j < |pattern| ==> s[i + j] == pattern[j]
  {
    var part := s[i..i + |pattern|];
    assert forall j :: 0 <= j < |part| ==> part[j] == s[i + j];
  }

  lemma PasteStartHasNoDetach(s: Bytes, i: nat)
    requires OccursAt(s, PASTE_START, i)
    ensures forall d :: i <= d < i + 6 ==> s[d] != DETACH_BYTE
  {
    OccurrenceBytes(s, PASTE_START, i);
    forall d | i <= d < i + 6 ensures s[d] != DETACH_BYTE { assert s[i + (d - i)] == PASTE_START[d - i]; }
  }

  /** What parsing `s` from the ground can leave behind short of a paste: the held bytes end `s`. */
  predicate NoPasteOpen(m: Machine, s: Bytes) {
    || m == Detached
    || m.parse == Ground
    || (m.parse.Held? && |m.parse.bytes| <= |s| && s[|s| - |m.parse.bytes|..] == m.parse.bytes)
  }

  lemma NoPasteOpensByte(m: Machine, s: Bytes)
    requires s != [] && NoPasteOpen(m, s[..|s| - 1])
    requires |s| >= 6 ==> !OccursAt(s, PASTE_START, |s| - 6)
    ensures NoPasteOpen(FeedByte(m, s[|s| - 1]), s)
  {
    hide CompleteLength;
    if m.Attached? && m.parse.Held? {
      var h, b := m.parse.bytes, s[|s| - 1];
      assert s[|s| - (|h| + 1)..] == h + [b];
      assert |s| >= 6 ==> s[|s| - 6..|s| - 6 + 6] == s[|s| - 6..];
    }
  }

  /** Without a paste start among them, bytes never open a paste. */
  lemma {:induction false} NoPasteOpens(out: Bytes, s: Bytes)
    requires forall i :: 0 <= i < |s| ==> !OccursAt(s, PASTE_START, i)
    ensures NoPasteOpen(Feed(Attached(Ground, out), s), s)
    decreases |s|
  {
    if s != [] {
      hide Feed, FeedByte, NoPasteOpen, OccursAt;
      var n := |s| - 1;
      var front := s[..n];
      forall i | 0 <= i < n ensures !OccursAt(front, PASTE_START, i) { OccursInPrefix(s, n, PASTE_START, i); }
      NoPasteOpens(out, front);
      FeedLast(Attached(Ground, out), s);
      NoPasteOpensByte(Feed(Attached(Ground, out), front), s);
    }
  }

  /** The first detach byte, when no paste start begins before it, detaches. */
  lemma DetachByteDetaches(out: Bytes, s: Bytes, d: nat)
    requires d < |s| && s[d] == DETACH_BYTE
    requires forall i :: 0 <= i < d ==> !OccursAt(s, PASTE_START, i)
    ensures Feed(Attached(Ground, out), s) == Detached
  {
    hide CompleteLength;
    var front := s[..d];
    forall i | 0 <= i < |front| ensures !OccursAt(front, PASTE_START, i) { OccursInPrefix(s, d, PASTE_START, i); }
    NoPasteOpens(out, front);
    var upTo := s[..d + 1];
    assert upTo[..d] == front;
    FeedLast(Attached(Ground, out), upTo);
    assert s == upTo + s[d + 1..];
    FeedSplit(Attached(Ground, out), upTo, s[d + 1..]);
    DetachedStays(s[d + 1..]);
  }

  /** An escape sequence ends no later than any paste start inside or after it does. */
  lemma SequenceEndsFirst(s: Bytes, i: nat)
    requires |s| >= 2 && s[0] == ESCAPE_BYTE && OccursAt(s, PASTE_START, i)
    ensures CompleteLength(s).Some? && CompleteLength(s).value <= i + 6
  {
    assert s[i + 1] == s[i..i + 6][1] && s[i + 5] == s[i..i + 6][5];
    if s[1] == 0x5b {
      assert IsFinal(s[i + 1]) && IsFinal(s[i + 5]);
    }
  }

  /** No detach byte hides inside the sequence the loop forwards or holds. */
  lemma SequenceHasNoDetach(s: Bytes)
    requires |s| >= 2 && s[0] == ESCAPE_BYTE
    requires DetachIsData(s)
    ensures CompleteLength(s).Some? ==> DETACH_BYTE !in s[..CompleteLength(s).value]
    ensures CompleteLength(s).None? ==> DETACH_BYTE !in s
  {
    if DETACH_BYTE in s {
      var i, d := PasteBefore(s);
      SequenceEndsFirst(s, i);
      PasteStartHasNoDetach(s, i);
    }
  }

  /** Every detach byte in `s` lies behind a paste start: the loop's test for "not a chord". */
  predicate DetachIsData(s: Bytes) {
    forall d :: 0 <= d < |s| && s[d] == DETACH_BYTE ==> exists i :: 0 <= i < d && OccursAt(s, PASTE_START, i)
  }

  lemma PasteBefore(s: Bytes) returns (i: nat, d: nat)
    requires DETACH_BYTE in s && DetachIsData(s)
    ensures d < |s| && s[d] == DETACH_BYTE && DETACH_BYTE !in s[..d] && i < d && OccursAt(s, PASTE_START, i)
  {
    d := FirstIndex(s, DETACH_BYTE);
    i :| 0 <= i < d && OccursAt(s, PASTE_START, i);
  }

  function FirstIndex(s: Bytes, b: Byte): (i: nat)
    requires b in s
    ensures i < |s| && s[i] == b && b !in s[..i]
  {
    if s[0] == b then 0 else
      assert s == [s[0]] + s[1..];
      var i := FirstIndex(s[1..], b) + 1;
      assert s[..i] == [s[0]] + s[1..][..i - 1];
      i
  }
}
