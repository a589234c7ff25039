/** The loops of `assignOwnerSigils` (src/client/owner-sigil.ts), proved against the two passes, and a roster on
    which a newcomer does move an incumbent. */
module SigilRoster {
  import opened OwnerSigils
  import opened SigilAssignment

  /** `dedupe`. */
  method Dedupe(owners: seq<Owner>) returns (earliest: map<Text, Owner>)
    ensures forall id :: id in earliest ==> earliest[id].id == id && IsEarliest(owners, earliest[id])
    ensures forall o :: o in owners ==> o.id in earliest
  {
    earliest := map[];
    for i := 0 to |owners|
      invariant forall id :: id in earliest ==> earliest[id].id == id && IsEarliest(owners[..i], earliest[id])
      invariant forall o :: o in owners[..i] ==> o.id in earliest
    {
      var owner := owners[i];
      assert owners[..i + 1] == owners[..i] + [owner];
      if owner.id !in earliest || owner.since < earliest[owner.id].since {
        earliest := earliest[owner.id := owner];
      }
    }
    assert owners[..|owners|] == owners;
  }

  lemma PrecedesTransitive(a: Owner, b: Owner, c: Owner)
    requires Precedes(a, b) && Precedes(b, c)
    ensures Precedes(a, c)
  {
    if a.since == b.since && b.since == c.since { IdTransitive(a.id, b.id, c.id); }
  }

  lemma PrecedesTotal(a: Owner, b: Owner)
    ensures a == b || Precedes(a, b) || Precedes(b, a)
  {
    IdTotal(a.id, b.id);
  }

  method Insert(r: seq<Owner>, o: Owner) returns (joined: seq<Owner>)
    requires Sorted(r) && o !in r
    ensures Sorted(joined) && forall x :: x in joined <==> x in r || x == o
  {
    hide Precedes;
    var k := 0;
    while k < |r| && Precedes(r[k], o)
      invariant 0 <= k <= |r| && forall j :: 0 <= j < k ==> Precedes(r[j], o)
    {
      k := k + 1;
    }
    var low, high := r[..k], r[k..];
    joined := low + [o] + high;
    forall j | 0 <= j < |high| ensures Precedes(o, high[j]) {
      PrecedesTotal(r[k], o);
      if j > 0 { PrecedesTransitive(o, r[k], r[k + j]); }
    }
    assert r == low + high;
  }

  /** The sort, by seniority. */
  method Ordered(earliest: map<Text, Owner>) returns (r: seq<Owner>)
    ensures Sorted(r) && forall o :: o in r <==> o in earliest.Values
  {
    hide Precedes;
    r := [];
    var left := earliest.Values;
    while left != {}
      invariant left <= earliest.Values && Sorted(r) && forall o :: o in r <==> o in earliest.Values && o !in left
      decreases |left|
    {
      var o :| o in left;
      r := Insert(r, o);
      left := left - {o};
    }
  }

  lemma RosterOf(owners: seq<Owner>, earliest: map<Text, Owner>, r: seq<Owner>)
    requires forall id :: id in earliest ==> earliest[id].id == id && IsEarliest(owners, earliest[id])
    requires forall o :: o in owners ==> o.id in earliest
    requires Sorted(r) && forall o :: o in r <==> o in earliest.Values
    ensures IsRoster(owners, r)
  {
    forall o ensures o in r <==> IsEarliest(owners, o) {
      if IsEarliest(owners, o) {
        assert o == earliest[o.id];
      }
    }
  }

  /** `assignOwnerSigils`. */
  method AssignOwnerSigils(owners: seq<Owner>) returns (sigils: map<Text, Text>)
    ensures exists r :: IsRoster(owners, r) && sigils == Sigils(r)
  {
    hide Sorted, IsEarliest, Preferred, Probe, FirstPassSound;
    var earliest := Dedupe(owners);
    var ordered := Ordered(earliest);
    RosterOf(owners, earliest, ordered);
    RosterIsDistinct(owners, ordered);
    var contested: seq<Owner>, taken: set<Text>;
    sigils, taken, contested := FirstLoop(ordered);
    assert FirstPass(ordered) == Round(sigils, contested);
    SecondStarts(ordered);
    sigils := SecondLoop(sigils, taken, contested);
    assert sigils == Sigils(ordered);
  }

  lemma SecondStarts(r: seq<Owner>)
    requires DistinctIds(r)
    ensures var f := FirstPass(r); Injective(f.sigils) && DistinctIds(f.contested) && forall c :: c in f.contested ==> c.id !in f.sigils
  {
    hide FirstPass, Preferred;
    FirstPassWorks(r);
  }

  /** The first loop hands out preferences in order of seniority. */
  method FirstLoop(ordered: seq<Owner>) returns (sigils: map<Text, Text>, taken: set<Text>, contested: seq<Owner>)
    requires DistinctIds(ordered)
    ensures FirstPass(ordered) == Round(sigils, contested) && taken == sigils.Values
  {
    hide Preferred, FirstPass, FirstPassSound;
    sigils, taken, contested := map[], {}, [];
    NobodyYet();
    for i := 0 to |ordered|
      invariant FirstPass(ordered[..i]) == Round(sigils, contested) && taken == sigils.Values
    {
      var owner := ordered[i];
      assert ordered[..i + 1] == ordered[..i] + [owner];
      FirstPassAppend(ordered[..i], owner);
      var start := HashOf(owner.id);
      var preferred := ALPHABET[start % 8];
      PreferredIs(owner.id);
      if preferred in taken {
        contested := contested + [owner];
        continue;
      }
      NotYetWorn(ordered, i);
      WearOne(sigils, owner.id, preferred);
      taken := taken + {preferred};
      sigils := sigils[owner.id := preferred];
    }
    assert ordered[..|ordered|] == ordered;
  }

  lemma NobodyYet()
    ensures FirstPass([]) == Round(map[], [])
  {}

  lemma PreferredIs(id: Text)
    ensures Preferred(id) == ALPHABET[Hash(id) % 8]
  {}

  lemma NotYetWorn(r: seq<Owner>, i: nat)
    requires DistinctIds(r) && i < |r|
    ensures r[i].id !in FirstPass(r[..i]).sigils
  {
    hide Preferred, FirstPass;
    var front := r[..i];
    assert forall j :: 0 <= j < i ==> front[j] == r[j];
    FirstPassWorks(front);
  }

  /** The second loop probes for everyone whose preference was taken. */
  method SecondLoop(first: map<Text, Text>, claimed: set<Text>, contested: seq<Owner>) returns (sigils: map<Text, Text>)
    requires claimed == first.Values && Injective(first) && DistinctIds(contested) && forall c :: c in contested ==> c.id !in first
    ensures sigils == SecondPass(first, contested)
  {
    hide Probe, Injective;
    sigils := first;
    var taken := claimed;
    for i := 0 to |contested|
      invariant SecondPass(first, contested) == SecondPass(sigils, contested[i..])
      invariant taken == sigils.Values && DistinctIds(contested[i..]) && forall c :: c in contested[i..] ==> c.id !in sigils
    {
      var rest := contested[i..];
      assert rest[0] == contested[i] && rest[1..] == contested[i + 1..];
      var sigil := ProbeSigil(contested[i].id, taken);
      ContestedTail(sigils, rest, sigil);
      WearOne(sigils, contested[i].id, sigil);
      taken := taken + {sigil};
      sigils := sigils[contested[i].id := sigil];
    }
  }

  // ---- what the caller of the assignment gets ------------------------------------------------

  /** For any list of owners: distinct sigils, one per controller, and the same whatever the order of the list. */
  lemma AssignmentIsWellDefined(owners: seq<Owner>, owners': seq<Owner>, r: seq<Owner>, r': seq<Owner>)
    requires (forall o :: o in owners <==> o in owners') && IsRoster(owners, r) && IsRoster(owners', r')
    ensures Sigils(r) == Sigils(r') && Injective(Sigils(r))
    ensures forall o :: o in owners ==> o.id in Sigils(r)
  {
    hide Sigils, Sorted;
    RosterIgnoresOrder(owners, owners', r, r');
    RosterIsDistinct(owners, r);
    SigilsAreDistinct(r);
    forall o | o in owners ensures o.id in Ids(r) { EarliestExists(owners, o); }
  }

  lemma {:induction false} EarliestExists(owners: seq<Owner>, o: Owner)
    requires o in owners
    ensures exists e :: IsEarliest(owners, e) && e.id == o.id
    decreases |owners|
  {
    var n := |owners| - 1;
    var front, last := owners[..n], owners[n];
    assert owners == front + [last];
    if exists p :: p in front && p.id == o.id {
      var p :| p in front && p.id == o.id;
      EarliestExists(front, p);
      var e :| IsEarliest(front, e) && e.id == o.id;
      assert IsEarliest(owners, if last.id == o.id && last.since < e.since then last else e);
    } else {
      assert IsEarliest(owners, last);
    }
  }

  // ---- an incumbent that does move -----------------------------------------------------------

  const A := Owner([97], 1)   // "a" prefers ■
  const I := Owner([105], 2)  // "i" prefers ■ too and settles for □
  const B := Owner([98], 3)   // "b" prefers □

  lemma HashOfOne(u: Unit)
    ensures Hash([u]) == Mix(0x811c9dc5, u) as nat
  {
    var s := [u];
    assert s[0] == u && s[1..] == [];
    HashStep(0x811c9dc5, s);
  }

  lemma HashStep(accumulator: bv32, s: Text)
    requires |s| == 1
    ensures HashFrom(accumulator, s) == Mix(accumulator, s[0])
  {
    hide Mix;
    assert s[1..] == [];
  }

  lemma Mixes()
    ensures Mix(0x811c9dc5, 97) == 0xe40c292c && Mix(0x811c9dc5, 105) == 0xec0c35c4 && Mix(0x811c9dc5, 98) == 0xe70c2de5
  {
    assert (97 as bv32) == 97;
    assert (105 as bv32) == 105;
    assert (98 as bv32) == 98;
  }

  lemma Preferences()
    ensures Hash(A.id) % 8 == 4 && Hash(I.id) % 8 == 4 && Hash(B.id) % 8 == 5
    ensures Preferred(A.id) == ALPHABET[4] && Preferred(I.id) == ALPHABET[4] && Preferred(B.id) == ALPHABET[5]
  {
    hide Mix, HashFrom, Hash;
    Mixes();
    HashOfOne(97);
    HashOfOne(105);
    HashOfOne(98);
  }

  lemma FirstOfTwo()
    ensures FirstPass([A, I]) == Round(map[A.id := ALPHABET[4]], [I])
  {
    hide Hash, Preferred, FirstPass;
    Preferences();
    NobodyYet();
    assert [] + [A] == [A] && [A] + [I] == [A, I];
    FirstPassAppend([], A);
    var one := map[A.id := ALPHABET[4]];
    assert FirstPass([A]) == Round(one, []);
    assert one[A.id] in one.Values;
    FirstPassAppend([A], I);
    assert [] + [I] == [I];
  }

  lemma ProbeOfI(taken: set<Text>)
    requires ALPHABET[4] in taken && ALPHABET[5] !in taken
    ensures Probe(I.id, taken) == ALPHABET[5]
  {
    hide Hash, Preferred, ProbeLetters;
    Preferences();
    var start := Hash(I.id);
    assert (start + 1) % 8 == 5;
    assert ProbeGlyphs(start, taken, 0) == ProbeGlyphs(start, taken, 1);
  }

  lemma SigilOfI()
    ensures I.id in Sigils([A, I]) && Sigils([A, I])[I.id] == ALPHABET[5]
  {
    hide Hash, Preferred, FirstPass, Probe;
    FirstOfTwo();
    var one, last := map[A.id := ALPHABET[4]], [I];
    assert one[A.id] in one.Values;
    ProbeOfI(one.Values);
    assert last[1..] == [];
    assert SecondPass(one, last) == SecondPass(one[I.id := ALPHABET[5]], []);
  }

  /** Owner "i" wears □, which it does not prefer; when "b" joins, junior to both, "b" takes it. */
  lemma IncumbentLosesItsGlyph()
    ensures I.id in Sigils([A, I]) && Sigils([A, I])[I.id] == ALPHABET[5]
    ensures I.id in Sigils([A, I, B]) && Sigils([A, I, B])[I.id] != ALPHABET[5]
    ensures Sorted([A, I, B])
  {
    hide Hash, Preferred, Sigils;
    Preferences();
    SigilOfI();
    assert [A, I] + [B] == [A, I, B];
    SitterMoves([A, I], B, I.id);
    SigilsAreDistinct([A, I, B]);
    assert I in [A, I, B] && I.id in Ids([A, I, B]);
  }
}
