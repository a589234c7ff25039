/** src/client/owner-sigil.ts: one distinct glyph for every controller that owns workers.
    Texts are sequences of UTF-16 code units; `localeCompare` on controller ids is taken as their code-unit
    order, and start times as numbers. */
module OwnerSigils {
  import opened Finite

  type Unit = u: int | 0 <= u < 0x1_0000
  type Text = seq<Unit>

  /** ◆ ◇ ▲ △ ■ □ ● ○ */
  const ALPHABET: seq<Text> := [[0x25c6], [0x25c7], [0x25b2], [0x25b3], [0x25a0], [0x25a1], [0x25cf], [0x25cb]]

  // ---- FNV-1a --------------------------------------------------------------------------------

  function Mix(accumulator: bv32, u: Unit): bv32 { (accumulator ^ (u as bv32)) * 0x01000193 }

  function HashFrom(accumulator: bv32, value: Text): bv32
    decreases |value|
  {
    if value == [] then accumulator else HashFrom(Mix(accumulator, value[0]), value[1..])
  }

  function Hash(value: Text): nat { HashFrom(0x811c9dc5, value) as nat }

  /** `hash`. */
  method HashOf(value: Text) returns (h: nat)
    ensures h == Hash(value)
  {
    var accumulator: bv32 := 0x811c9dc5;
    for index := 0 to |value|
      invariant HashFrom(0x811c9dc5, value) == HashFrom(accumulator, value[index..])
    {
      var rest := value[index..];
      assert rest[0] == value[index] && rest[1..] == value[index + 1..];
      accumulator := Mix(accumulator, value[index]);
    }
    h := accumulator as nat;
  }

  // ---- the lettered space --------------------------------------------------------------------

  function LetterSigil(index: nat): Text
    decreases index
  {
    (if index / 26 >= 1 then LetterSigil(index / 26 - 1) else []) + [97 + index % 26]
  }

  /** The number a lettered sigil stands for. */
  function LetterValue(sigil: Text): int {
    if sigil == [] then -1 else (LetterValue(sigil[..|sigil| - 1]) + 1) * 26 + sigil[|sigil| - 1] - 97
  }

  predicate IsLettered(sigil: Text) { sigil != [] && forall i :: 0 <= i < |sigil| ==> 97 <= sigil[i] <= 122 }

  function LastLetter(index: nat): Unit { 97 + index % 26 }

  /** The letters ahead of the last one. */
  function HighLetters(index: nat): Text { if index < 26 then [] else LetterSigil(index / 26 - 1) }

  lemma LetterUnfold(index: nat)
    ensures LetterSigil(index) == HighLetters(index) + [LastLetter(index)]
  {}

  lemma ValueAppend(high: Text, last: Unit)
    ensures LetterValue(high + [last]) == (LetterValue(high) + 1) * 26 + last - 97
  {
    assert (high + [last])[..|high|] == high;
  }

  lemma EmptyValue()
    ensures LetterValue([]) == -1
  {}

  /** Bijective base 26: reading a sigil back gives its number. */
  lemma {:induction false} LettersReadBack(index: nat)
    ensures IsLettered(LetterSigil(index)) && LetterValue(LetterSigil(index)) == index
    decreases index
  {
    hide LetterSigil, LetterValue;
    LetterUnfold(index);
    ValueAppend(HighLetters(index), LastLetter(index));
    if index >= 26 { LettersReadBack(index / 26 - 1); } else { EmptyValue(); }
  }

  /** And every lettered text is the sigil of the number it reads as. */
  lemma {:induction false} EveryTextIsASigil(s: Text)
    requires IsLettered(s)
    ensures LetterValue(s) >= 0 && LetterSigil(LetterValue(s)) == s
    decreases |s|
  {
    hide LetterSigil, LetterValue;
    var high, last := s[..|s| - 1], s[|s| - 1];
    assert s == high + [last];
    ValueAppend(high, last);
    if high == [] {
      EmptyValue();
      LetterUnfold(last - 97);
    } else {
      EveryTextIsASigil(high);
      var n := LetterValue(high);
      DivideBack(n + 1, last - 97);
      LetterUnfold((n + 1) * 26 + last - 97);
    }
  }

  lemma DivideBack(q: nat, r: nat)
    requires r < 26
    ensures (q * 26 + r) / 26 == q && (q * 26 + r) % 26 == r
  {}

  lemma LettersAreDistinct(i: nat, j: nat)
    requires LetterSigil(i) == LetterSigil(j)
    ensures i == j
  {
    LettersReadBack(i);
    LettersReadBack(j);
  }

  /** `letterSigil`. */
  method LetterSigilOf(index: nat) returns (sigil: Text)
    ensures sigil == LetterSigil(index)
  {
    hide LetterSigil;
    var remaining: int := index;
    sigil := [];
    while true
      invariant remaining >= 0
      invariant LetterSigil(remaining) + sigil == LetterSigil(index)
      decreases remaining
    {
      LetterUnfold(remaining);
      assert LetterSigil(remaining) + sigil == HighLetters(remaining) + ([LastLetter(remaining)] + sigil);
      sigil := [97 + remaining % 26] + sigil;
      remaining := remaining / 26 - 1;
      if remaining < 0 { return; }
    }
  }

  // ---- probing -------------------------------------------------------------------------------

  /** The numbers tried once the alphabet is spent. */
  function LetterIndex(start: nat, step: nat): nat { if step < 26 then (start + step) % 26 else step }

  lemma TriesAreDistinct(start: nat, i: nat, j: nat)
    requires LetterIndex(start, i) == LetterIndex(start, j)
    ensures i == j
  {}

  ghost function Tried(start: nat, step: nat): set<Text> { set i | 0 <= i < step :: LetterSigil(LetterIndex(start, i)) }

  lemma {:induction false} TriedCount(start: nat, step: nat)
    ensures |Tried(start, step)| == step
  {
    if step == 0 {
      assert Tried(start, 0) == {};
    } else {
      var last := LetterSigil(LetterIndex(start, step - 1));
      TriedCount(start, step - 1);
      forall i | 0 <= i < step - 1 ensures LetterSigil(LetterIndex(start, i)) != last {
        if LetterSigil(LetterIndex(start, i)) == last {
          LettersAreDistinct(LetterIndex(start, i), LetterIndex(start, step - 1));
          TriesAreDistinct(start, i, step - 1);
        }
      }
      assert Tried(start, step) == Tried(start, step - 1) + {last};
    }
  }

  /** The letter probe cannot run past the size of the taken set. */
  lemma ProbeStops(start: nat, taken: set<Text>, step: nat)
    requires Tried(start, step) <= taken
    ensures step <= |taken|
  {
    TriedCount(start, step);
    assert taken == Tried(start, step) + (taken - Tried(start, step));
  }

  lemma OneMoreTry(start: nat, taken: set<Text>, step: nat)
    requires Tried(start, step) <= taken && LetterSigil(LetterIndex(start, step)) in taken
    ensures Tried(start, step + 1) <= taken && step + 1 <= |taken|
  {
    forall s | s in Tried(start, step + 1) ensures s in taken {
      var i :| 0 <= i < step + 1 && s == LetterSigil(LetterIndex(start, i));
      if i < step { assert s in Tried(start, step); }
    }
    ProbeStops(start, taken, step + 1);
  }

  ghost function ProbeLetters(start: nat, taken: set<Text>, step: nat): (r: Text)
    requires Tried(start, step) <= taken
    ensures r !in taken
    decreases |taken| - step
  {
    var letters := LetterSigil(LetterIndex(start, step));
    if letters !in taken then letters
    else
      OneMoreTry(start, taken, step);
      ProbeLetters(start, taken, step + 1)
  }

  function ProbeGlyphs(start: nat, taken: set<Text>, step: nat): (r: Option<Text>)
    requires step <= 8
    ensures r.Some? ==> r.value !in taken
    decreases 8 - step
  {
    if step == 8 then None
    else if ALPHABET[(start + step) % 8] !in taken then Some(ALPHABET[(start + step) % 8])
    else ProbeGlyphs(start, taken, step + 1)
  }

  ghost function Probe(id: Text, taken: set<Text>): (r: Text)
    ensures r !in taken
  {
    var glyph := ProbeGlyphs(Hash(id), taken, 0);
    if glyph.Some? then glyph.value else ProbeLetters(Hash(id), taken, 0)
  }

  /** `probeSigil`: the unbounded letter loop ends. */
  method ProbeSigil(id: Text, taken: set<Text>) returns (sigil: Text)
    ensures sigil == Probe(id, taken)
  {
    hide Hash, LetterSigil, Tried;
    var start := HashOf(id);
    for step := 0 to 8
      invariant ProbeGlyphs(start, taken, 0) == ProbeGlyphs(start, taken, step)
    {
      var glyph := ALPHABET[(start + step) % 8];
      if glyph !in taken { return glyph; }
    }
    var step := 0;
    NothingTried(start);
    while true
      invariant Tried(start, step) <= taken && ProbeLetters(start, taken, 0) == ProbeLetters(start, taken, step)
      decreases |taken| - step
    {
      var letters := LetterSigilOf(if step < 26 then (start + step) % 26 else step);
      if letters !in taken { return letters; }
      OneMoreTry(start, taken, step);
      step := step + 1;
    }
  }

  // ---- what the probe finds ------------------------------------------------------------------

  predicate GlyphIsFree(start: nat, taken: set<Text>, k: nat) { ALPHABET[(start + k) % 8] !in taken }

  predicate LettersAreFree(start: nat, taken: set<Text>, k: nat) {
    LetterSigil(if k < 26 then (start + k) % 26 else k) !in taken
  }

  lemma {:induction false} GlyphsFindFirst(start: nat, taken: set<Text>, step: nat) returns (k: nat)
    requires step <= 8
    ensures step <= k <= 8 && forall j :: step <= j < k ==> !GlyphIsFree(start, taken, j)
    ensures if k == 8 then ProbeGlyphs(start, taken, step).None?
      else GlyphIsFree(start, taken, k) && ProbeGlyphs(start, taken, step) == Some(ALPHABET[(start + k) % 8])
    decreases 8 - step
  {
    k := step;
    if step < 8 && ALPHABET[(start + step) % 8] in taken { k := GlyphsFindFirst(start, taken, step + 1); }
  }

  lemma {:induction false} LettersFindFirst(start: nat, taken: set<Text>, step: nat) returns (k: nat)
    requires Tried(start, step) <= taken
    ensures step <= k && (forall j :: step <= j < k ==> !LettersAreFree(start, taken, j)) && LettersAreFree(start, taken, k)
    ensures ProbeLetters(start, taken, step) == LetterSigil(if k < 26 then (start + k) % 26 else k)
    decreases |taken| - step
  {
    hide LetterSigil, Tried;
    k := step;
    if LetterSigil(LetterIndex(start, step)) in taken {
      OneMoreTry(start, taken, step);
      k := LettersFindFirst(start, taken, step + 1);
    }
  }

  /** The probe goes once round the glyphs from where the id hashes to and takes the first free one. Only when all eight
      are worn does it go on to letters: once round a to z from the same start, then aa, ab and so on in order, to the
      first that is free. */
  lemma ProbeIsNearest(id: Text, taken: set<Text>) returns (k: nat)
    ensures var start := Hash(id);
      if exists g :: 0 <= g < 8 && GlyphIsFree(start, taken, g) then
        && k < 8 && Probe(id, taken) == ALPHABET[(start + k) % 8]
        && GlyphIsFree(start, taken, k) && forall j :: 0 <= j < k ==> !GlyphIsFree(start, taken, j)
      else
        && Probe(id, taken) == LetterSigil(if k < 26 then (start + k) % 26 else k)
        && LettersAreFree(start, taken, k) && forall j :: 0 <= j < k ==> !LettersAreFree(start, taken, j)
  {
    hide Hash, LetterSigil, GlyphIsFree, LettersAreFree;
    k := GlyphsFindFirst(Hash(id), taken, 0);
    if k == 8 {
      NothingTried(Hash(id));
      k := LettersFindFirst(Hash(id), taken, 0);
    }
  }

  lemma NothingTried(start: nat)
    ensures Tried(start, 0) == {}
  {}

  lemma {:induction false} GlyphsIgnore(start: nat, taken: set<Text>, x: Text, step: nat)
    requires step <= 8 && ProbeGlyphs(start, taken, step) != Some(x)
    ensures ProbeGlyphs(start, taken + {x}, step) == ProbeGlyphs(start, taken, step)
    decreases 8 - step
  {
    if step < 8 && ALPHABET[(start + step) % 8] in taken { GlyphsIgnore(start, taken, x, step + 1); }
  }

  lemma {:induction false} LettersIgnore(start: nat, taken: set<Text>, x: Text, step: nat)
    requires Tried(start, step) <= taken && ProbeLetters(start, taken, step) != x
    ensures Tried(start, step) <= taken + {x}
    ensures ProbeLetters(start, taken + {x}, step) == ProbeLetters(start, taken, step)
    decreases |taken| - step
  {
    hide LetterSigil, Tried;
    if LetterSigil(LetterIndex(start, step)) in taken {
      OneMoreTry(start, taken, step);
      LettersIgnore(start, taken, x, step + 1);
    }
  }

  /** Taking a sigil away that the probe would not have found changes nothing. */
  lemma ProbeIgnores(id: Text, taken: set<Text>, x: Text)
    requires Probe(id, taken) != x
    ensures Probe(id, taken + {x}) == Probe(id, taken)
  {
    hide Hash;
    GlyphsIgnore(Hash(id), taken, x, 0);
    if ProbeGlyphs(Hash(id), taken, 0).None? { LettersIgnore(Hash(id), taken, x, 0); }
  }
}
