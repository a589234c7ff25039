/** `assignOwnerSigils` of src/client/owner-sigil.ts: the roster, the two passes, and what a newcomer can move. */
module SigilAssignment {
  import opened OwnerSigils

  datatype Owner = Owner(id: Text, since: int)

  // ---- the roster ----------------------------------------------------------------------------

  predicate IdLess(a: Text, b: Text)
    decreases |a|
  {
    if b == [] then false
    else if a == [] then true
    else a[0] < b[0] || (a[0] == b[0] && IdLess(a[1..], b[1..]))
  }

  lemma {:induction false} IdIrreflexive(a: Text)
    ensures !IdLess(a, a)
    decreases |a|
  {
    if a != [] { IdIrreflexive(a[1..]); }
  }

  lemma {:induction false} IdTotal(a: Text, b: Text)
    ensures a == b || IdLess(a, b) || IdLess(b, a)
    ensures !(IdLess(a, b) && IdLess(b, a))
    decreases |a| + |b|
  {
    if a != [] && b != [] {
      IdTotal(a[1..], b[1..]);
      assert a == [a[0]] + a[1..] && b == [b[0]] + b[1..];
    }
  }

  lemma {:induction false} IdTransitive(a: Text, b: Text, c: Text)
    requires IdLess(a, b) && IdLess(b, c)
    ensures IdLess(a, c)
    decreases |a|
  {
    if a != [] && a[0] == b[0] && b[0] == c[0] { IdTransitive(a[1..], b[1..], c[1..]); }
  }

  /** The order of ids is the one of a dictionary: a proper beginning comes first, else the first difference decides. */
  lemma {:induction false} IdOrderIsLexical(a: Text, b: Text)
    ensures IdLess(a, b) <==> exists k :: 0 <= k <= |a| && k < |b| && a[..k] == b[..k] && (k < |a| ==> a[k] < b[k])
    decreases |a|
  {
    if a != [] && b != [] && a[0] == b[0] {
      IdOrderIsLexical(a[1..], b[1..]);
      if IdLess(a, b) {
        var k :| 0 <= k <= |a[1..]| && k < |b[1..]| && a[1..][..k] == b[1..][..k] && (k < |a[1..]| ==> a[1..][k] < b[1..][k]);
        assert a[..k + 1] == [a[0]] + a[1..][..k] && b[..k + 1] == [b[0]] + b[1..][..k];
      }
      if k :| 0 <= k <= |a| && k < |b| && a[..k] == b[..k] && (k < |a| ==> a[k] < b[k]) {
        assert k > 0;
        assert a[1..][..k - 1] == a[..k][1..] && b[1..][..k - 1] == b[..k][1..];
        assert k < |a| ==> a[1..][k - 1] < b[1..][k - 1];
      }
    } else if a != [] && b != [] {
      assert a[..0] == b[..0];
      forall k | 0 < k <= |a| && k < |b| ensures a[..k] != b[..k] { assert a[..k][0] == a[0] && b[..k][0] == b[0]; }
    } else {
      assert a[..0] == b[..|b[..0]|];
    }
  }

  /** Seniority, with ties settled by id. */
  predicate Precedes(a: Owner, b: Owner) { if a.since == b.since then IdLess(a.id, b.id) else a.since < b.since }

  ghost predicate Sorted(r: seq<Owner>) { forall i, j :: 0 <= i < j < |r| ==> Precedes(r[i], r[j]) }

  ghost predicate IsEarliest(owners: seq<Owner>, o: Owner) {
    o in owners && forall p :: p in owners && p.id == o.id ==> o.since <= p.since
  }

  /** Every controller once, as of its earliest mention, the most senior first. */
  ghost predicate IsRoster(owners: seq<Owner>, r: seq<Owner>) {
    && Sorted(r)
    && (forall o :: o in r <==> IsEarliest(owners, o))
  }

  ghost predicate DistinctIds(r: seq<Owner>) { forall i, j :: 0 <= i < j < |r| ==> r[i].id != r[j].id }

  lemma RosterIsDistinct(owners: seq<Owner>, r: seq<Owner>)
    requires IsRoster(owners, r)
    ensures DistinctIds(r)
  {
    hide IdLess;
    forall i, j | 0 <= i < j < |r| ensures r[i].id != r[j].id {
      assert r[i] in r && r[j] in r && Precedes(r[i], r[j]);
      IdIrreflexive(r[i].id);
    }
  }

  lemma {:induction false} SortedIsUnique(r: seq<Owner>, q: seq<Owner>)
    requires Sorted(r) && Sorted(q) && forall o :: o in r <==> o in q
    ensures r == q
    decreases |r|
  {
    if r == [] || q == [] {
      HasMember(q);
      HasMember(r);
    } else {
      HeadsAgree(r, q);
      TailsAgree(r, q);
      TailsAgree(q, r);
      SortedIsUnique(r[1..], q[1..]);
      assert r == [r[0]] + r[1..] && q == [q[0]] + q[1..];
    }
  }

  lemma HasMember(r: seq<Owner>)
    ensures r == [] || r[0] in r
  {}

  lemma NotBoth(a: Owner, b: Owner)
    ensures !(Precedes(a, b) && Precedes(b, a)) && !Precedes(a, a)
  {
    IdTotal(a.id, b.id);
    IdIrreflexive(a.id);
  }

  lemma HeadsAgree(r: seq<Owner>, q: seq<Owner>)
    requires Sorted(r) && Sorted(q) && r != [] && q != [] && forall o :: o in r <==> o in q
    ensures r[0] == q[0]
  {
    assert r[0] in q && q[0] in r;
    var i :| 0 <= i < |q| && q[i] == r[0];
    var j :| 0 <= j < |r| && r[j] == q[0];
    NotBoth(r[0], q[0]);
  }

  lemma TailsAgree(r: seq<Owner>, q: seq<Owner>)
    requires Sorted(r) && r != [] && q != [] && r[0] == q[0] && forall o :: o in r ==> o in q
    ensures Sorted(r[1..]) && forall o :: o in r[1..] ==> o in q[1..]
  {
    forall o | o in r[1..] ensures o in q[1..] {
      var i :| 0 <= i < |r| - 1 && r[1..][i] == o;
      assert r[i + 1] == o && Precedes(r[0], r[i + 1]);
      NotBoth(r[0], o);
      assert o in r;
      assert q == [q[0]] + q[1..];
    }
  }

  /** The roster is a function of what was mentioned, not of the order or number of mentions. */
  lemma RosterIgnoresOrder(owners: seq<Owner>, owners': seq<Owner>, r: seq<Owner>, r': seq<Owner>)
    requires (forall o :: o in owners <==> o in owners') && IsRoster(owners, r) && IsRoster(owners', r')
    ensures r == r'
  {
    assert forall o :: IsEarliest(owners, o) <==> IsEarliest(owners', o);
    SortedIsUnique(r, r');
  }

  // ---- the two passes ------------------------------------------------------------------------

  function Preferred(id: Text): Text { ALPHABET[Hash(id) % 8] }

  /** After the first pass: who wears the glyph its id hashes to, and who found it taken. */
  datatype Round = Round(sigils: map<Text, Text>, contested: seq<Owner>)

  function FirstPass(r: seq<Owner>): Round {
    if r == [] then Round(map[], [])
    else
      var n := |r| - 1;
      var before := FirstPass(r[..n]);
      if Preferred(r[n].id) in before.sigils.Values then before.(contested := before.contested + [r[n]])
      else before.(sigils := before.sigils[r[n].id := Preferred(r[n].id)])
  }

  ghost function SecondPass(sigils: map<Text, Text>, contested: seq<Owner>): map<Text, Text>
    decreases |contested|
  {
    if contested == [] then sigils
    else SecondPass(sigils[contested[0].id := Probe(contested[0].id, sigils.Values)], contested[1..])
  }

  ghost function Sigils(r: seq<Owner>): map<Text, Text> {
    SecondPass(FirstPass(r).sigils, FirstPass(r).contested)
  }

  ghost predicate Injective(m: map<Text, Text>) { forall a, b :: a in m && b in m && m[a] == m[b] ==> a == b }

  function Ids(r: seq<Owner>): set<Text> { set o | o in r :: o.id }

  ghost predicate Wins(r: seq<Owner>, i: nat)
    requires i < |r|
  {
    forall j :: 0 <= j < i ==> Preferred(r[j].id) != Preferred(r[i].id)
  }

  ghost predicate WinsLast(r: seq<Owner>, id: Text) {
    forall j :: 0 <= j < |r| ==> Preferred(r[j].id) != Preferred(id)
  }

  /** The first pass: winners wear their preference, everyone else is contested, in order. */
  ghost predicate FirstPassSound(r: seq<Owner>, f: Round) {
    && WinnersWear(r, f) && LosersWait(r, f)
    && forall i :: 0 <= i < |r| ==> (r[i].id in f.sigils <==> Wins(r, i)) && (!Wins(r, i) ==> r[i] in f.contested)
  }

  ghost predicate WinnersWear(r: seq<Owner>, f: Round) {
    && Injective(f.sigils)
    && (forall id :: id in f.sigils ==> f.sigils[id] == Preferred(id) && id in Ids(r))
    && (forall i :: 0 <= i < |r| ==> Preferred(r[i].id) in f.sigils.Values)
  }

  ghost predicate LosersWait(r: seq<Owner>, f: Round) {
    && (forall c :: c in f.contested ==> c in r && c.id !in f.sigils && Preferred(c.id) in f.sigils.Values)
    && DistinctIds(f.contested)
  }

  lemma PrefixOfRoster(r: seq<Owner>)
    requires DistinctIds(r) && r != []
    ensures DistinctIds(r[..|r| - 1]) && forall o :: o in r[..|r| - 1] ==> o in r && o.id != r[|r| - 1].id
  {
    var front := r[..|r| - 1];
    assert forall i :: 0 <= i < |front| ==> front[i] == r[i];
  }

  lemma TakenIffLost(r: seq<Owner>, f: Round, id: Text)
    requires FirstPassSound(r, f)
    ensures Preferred(id) !in f.sigils.Values <==> WinsLast(r, id)
  {
    hide Preferred;
    if Preferred(id) in f.sigils.Values {
      var x :| x in f.sigils && f.sigils[x] == Preferred(id);
      var o :| o in r && o.id == x;
    }
  }

  lemma NoOneFirst()
    ensures FirstPassSound([], FirstPass([]))
  {}

  lemma FirstPassAppend(front: seq<Owner>, last: Owner)
    ensures var f := FirstPass(front);
      FirstPass(front + [last]) ==
        if Preferred(last.id) in f.sigils.Values then f.(contested := f.contested + [last])
        else f.(sigils := f.sigils[last.id := Preferred(last.id)])
  {
    hide Preferred;
    var r := front + [last];
    assert r[..|r| - 1] == front;
  }

  lemma {:induction false} FirstPassWorks(r: seq<Owner>)
    requires DistinctIds(r)
    ensures FirstPassSound(r, FirstPass(r))
    decreases |r|
  {
    hide Preferred, FirstPassSound, FirstPass, WinsLast;
    if r == [] {
      NoOneFirst();
    } else {
      var front, last := r[..|r| - 1], r[|r| - 1];
      PrefixOfRoster(r);
      FirstPassWorks(front);
      TakenIffLost(front, FirstPass(front), last.id);
      assert r == front + [last];
      FirstPassAppend(front, last);
      if Preferred(last.id) in FirstPass(front).sigils.Values {
        ContestOne(front, FirstPass(front), last);
      } else {
        WinOne(front, FirstPass(front), last);
      }
    }
  }

  /** What appending an owner does to the earlier ones' standing: nothing. */
  lemma AppendKeepsWins(front: seq<Owner>, last: Owner)
    ensures var r := front + [last];
      && (forall i :: 0 <= i < |front| ==> r[i] == front[i] && (Wins(r, i) <==> Wins(front, i)))
      && r[|front|] == last && (Wins(r, |front|) <==> WinsLast(front, last.id))
      && Ids(r) == Ids(front) + {last.id}
  {
    hide Preferred;
    var r := front + [last];
    forall i | 0 <= i < |front| ensures r[i] == front[i] && (Wins(r, i) <==> Wins(front, i)) {
      assert forall j :: 0 <= j < i ==> r[j] == front[j];
    }
    assert forall j :: 0 <= j < |front| ==> r[j] == front[j];
    assert forall o :: o in r <==> o in front || o == last;
  }

  lemma ContestOne(front: seq<Owner>, f: Round, last: Owner)
    requires FirstPassSound(front, f) && last.id !in Ids(front)
    requires Preferred(last.id) in f.sigils.Values && !WinsLast(front, last.id)
    ensures FirstPassSound(front + [last], f.(contested := f.contested + [last]))
  {
    hide Preferred, Wins, WinsLast;
    AppendKeepsWins(front, last);
    assert forall c :: c in f.contested ==> c.id in Ids(front);
  }

  lemma WinOne(front: seq<Owner>, f: Round, last: Owner)
    requires FirstPassSound(front, f) && last.id !in Ids(front)
    requires Preferred(last.id) !in f.sigils.Values && WinsLast(front, last.id)
    ensures FirstPassSound(front + [last], f.(sigils := f.sigils[last.id := Preferred(last.id)]))
  {
    hide Preferred, Wins, WinsLast, WinnersWear, LosersWait;
    AppendKeepsWins(front, last);
    assert forall i :: 0 <= i < |front| ==> front[i] in front && front[i].id in Ids(front);
    WinnerWears(front, f, last);
    WinnerLeavesLosers(front, f, last);
  }

  lemma WinnerWears(front: seq<Owner>, f: Round, last: Owner)
    requires WinnersWear(front, f) && last.id !in Ids(front) && Preferred(last.id) !in f.sigils.Values
    ensures WinnersWear(front + [last], f.(sigils := f.sigils[last.id := Preferred(last.id)]))
  {
    hide Preferred, Injective;
    AppendKeepsWins(front, last);
    WearOne(f.sigils, last.id, Preferred(last.id));
  }

  lemma WinnerLeavesLosers(front: seq<Owner>, f: Round, last: Owner)
    requires WinnersWear(front, f) && LosersWait(front, f) && last.id !in Ids(front) && Preferred(last.id) !in f.sigils.Values
    ensures LosersWait(front + [last], f.(sigils := f.sigils[last.id := Preferred(last.id)]))
  {
    hide Preferred, Injective, DistinctIds;
    WearOne(f.sigils, last.id, Preferred(last.id));
    assert forall c :: c in f.contested ==> c.id in Ids(front);
  }

  // ---- the second pass -----------------------------------------------------------------------

  lemma WearOne(sigils: map<Text, Text>, id: Text, sigil: Text)
    requires id !in sigils && sigil !in sigils.Values
    ensures sigils[id := sigil].Values == sigils.Values + {sigil}
    ensures Injective(sigils) ==> Injective(sigils[id := sigil])
  {
    var after := sigils[id := sigil];
    assert forall x :: x in sigils ==> after[x] == sigils[x] && sigils[x] in sigils.Values;
    assert after[id] == sigil;
    assert after.Values == sigils.Values + {sigil} by {
      forall v | v in sigils.Values ensures v in after.Values {
        var x :| x in sigils && sigils[x] == v;
        assert after[x] == v;
      }
    }
  }

  lemma ContestedTail(sigils: map<Text, Text>, contested: seq<Owner>, sigil: Text)
    requires contested != [] && DistinctIds(contested) && forall c :: c in contested ==> c.id !in sigils
    ensures DistinctIds(contested[1..]) && forall c :: c in contested[1..] ==> c in contested && c.id !in sigils[contested[0].id := sigil]
    ensures contested[0] in contested && forall c :: c in contested <==> c == contested[0] || c in contested[1..]
  {
    assert contested == [contested[0]] + contested[1..];
    forall c | c in contested[1..] ensures c.id != contested[0].id {
      var i :| 0 <= i < |contested| - 1 && contested[1..][i] == c;
      assert contested[i + 1] == c;
    }
  }

  /** The second pass keeps what was worn, gives everyone a sigil, and never the same one twice. */
  lemma {:induction false} SecondPassWorks(sigils: map<Text, Text>, contested: seq<Owner>)
    requires Injective(sigils) && DistinctIds(contested) && forall c :: c in contested ==> c.id !in sigils
    ensures var m := SecondPass(sigils, contested);
      && Injective(m)
      && (forall id :: id in m <==> id in sigils || exists c :: c in contested && c.id == id)
      && (forall id :: id in sigils ==> m[id] == sigils[id])
    decreases |contested|
  {
    hide Injective, Probe;
    if contested != [] {
      var c := contested[0];
      var sigil := Probe(c.id, sigils.Values);
      ContestedTail(sigils, contested, sigil);
      WearOne(sigils, c.id, sigil);
      SecondPassWorks(sigils[c.id := sigil], contested[1..]);
    }
  }

  lemma ContestedCovers(r: seq<Owner>)
    requires DistinctIds(r)
    ensures var f := FirstPass(r);
      forall id :: id in Ids(r) <==> id in f.sigils || exists c :: c in f.contested && c.id == id
  {
    hide Preferred, FirstPass;
    FirstPassWorks(r);
    var f := FirstPass(r);
    forall id | id in Ids(r) ensures id in f.sigils || exists c :: c in f.contested && c.id == id {
      var o :| o in r && o.id == id;
      var i :| 0 <= i < |r| && r[i] == o;
    }
  }

  /** Distinct controllers wear distinct sigils, and every one of them wears one. */
  lemma SigilsAreDistinct(r: seq<Owner>)
    requires DistinctIds(r)
    ensures Injective(Sigils(r)) && Sigils(r).Keys == Ids(r)
  {
    hide FirstPass, SecondPass, Preferred;
    FirstPassWorks(r);
    ContestedCovers(r);
    SecondPassWorks(FirstPass(r).sigils, FirstPass(r).contested);
  }

  /** An owner wears the glyph its id hashes to exactly when no one ahead of it in the roster, so started before it or
      at the same time under a smaller id, hashes to the same. */
  lemma SeniorWearsItsGlyph(r: seq<Owner>, i: nat)
    requires DistinctIds(r) && Sorted(r) && i < |r|
    ensures r[i].id in Sigils(r)
    ensures Sigils(r)[r[i].id] == ALPHABET[Hash(r[i].id) % 8] <==>
      !exists o :: o in r && Hash(o.id) % 8 == Hash(r[i].id) % 8
        && (o.since < r[i].since || (o.since == r[i].since && IdLess(o.id, r[i].id)))
  {
    hide Sigils, Hash, DistinctIds;
    PreferenceIffSenior(r, i);
    var me := r[i];
    GlyphsDiffer();
    if j :| 0 <= j < i && Preferred(r[j].id) == Preferred(me.id) {
      assert r[j] in r && Precedes(r[j], me);
    }
    if o :| o in r && Preferred(o.id) == Preferred(me.id) && Precedes(o, me) {
      var j :| 0 <= j < |r| && r[j] == o;
      NotBoth(o, me);
      assert j < i;
    }
  }

  lemma GlyphsDiffer()
    ensures forall i, j :: 0 <= i < j < 8 ==> ALPHABET[i] != ALPHABET[j]
  {
    assert forall i :: 0 <= i < 8 ==> ALPHABET[i][0] == [0x25c6, 0x25c7, 0x25b2, 0x25b3, 0x25a0, 0x25a1, 0x25cf, 0x25cb][i];
  }

  /** An owner wears its preferred glyph exactly when no one senior to it prefers the same. */
  lemma PreferenceIffSenior(r: seq<Owner>, i: nat)
    requires DistinctIds(r) && i < |r|
    ensures r[i].id in Sigils(r) && (Sigils(r)[r[i].id] == Preferred(r[i].id) <==> Wins(r, i))
  {
    hide FirstPass, SecondPass, Preferred;
    var f := FirstPass(r);
    FirstPassWorks(r);
    SigilsAreDistinct(r);
    SecondPassWorks(f.sigils, f.contested);
    assert r[i] in r && r[i].id in Ids(r);
    if !Wins(r, i) {
      var x :| x in f.sigils && f.sigils[x] == Preferred(r[i].id);
      assert Sigils(r)[x] == Preferred(r[i].id) && x != r[i].id;
    }
  }

  // ---- a newcomer ----------------------------------------------------------------------------

  /** A newcomer takes the glyph of a preferred-glyph holder exactly when it is senior to the holder and prefers
      the same glyph. */
  lemma HolderKeeps(r: seq<Owner>, k: nat, c: Owner, i: nat)
    requires k <= |r| && DistinctIds(r) && DistinctIds(r[..k] + [c] + r[k..]) && i < |r|
    requires r[i].id in Sigils(r) && Sigils(r)[r[i].id] == Preferred(r[i].id)
    ensures var joined := r[..k] + [c] + r[k..];
      && r[i].id in Sigils(joined)
      && (Sigils(joined)[r[i].id] == Preferred(r[i].id) <==> i < k || Preferred(c.id) != Preferred(r[i].id))
  {
    hide FirstPass, Sigils, Preferred, DistinctIds;
    var joined := r[..k] + [c] + r[k..];
    PreferenceIffSenior(r, i);
    var at := if i < k then i else i + 1;
    assert joined[at] == r[i];
    PreferenceIffSenior(joined, at);
    assert forall j :: 0 <= j < k ==> joined[j] == r[j];
    assert joined[k] == c;
    if i < k {
      assert Wins(joined, at);
    } else {
      forall j | 0 <= j < at && j != k ensures Preferred(joined[j].id) != Preferred(r[i].id) {
        assert joined[j] == if j < k then r[j] else r[j - 1];
      }
    }
  }

  lemma {:induction false} SecondPassSplit(sigils: map<Text, Text>, contested: seq<Owner>, c: Owner)
    ensures SecondPass(sigils, contested + [c]) ==
      var m := SecondPass(sigils, contested);
      m[c.id := Probe(c.id, m.Values)]
    decreases |contested|
  {
    hide Probe;
    if contested == [] {
      assert (contested + [c])[1..] == [];
    } else {
      assert (contested + [c])[1..] == contested[1..] + [c];
      SecondPassSplit(sigils[contested[0].id := Probe(contested[0].id, sigils.Values)], contested[1..], c);
    }
  }

  /** What is worn before the second pass, and what its first owner finds, is worn after it. */
  lemma WornStays(sigils: map<Text, Text>, contested: seq<Owner>)
    requires Injective(sigils) && contested != [] && DistinctIds(contested) && forall c :: c in contested ==> c.id !in sigils
    ensures forall v :: v in sigils.Values ==> v in SecondPass(sigils, contested).Values
    ensures Probe(contested[0].id, sigils.Values) in SecondPass(sigils, contested).Values
  {
    hide Injective, Probe;
    var c := contested[0];
    var found := Probe(c.id, sigils.Values);
    var next := sigils[c.id := found];
    ContestedTail(sigils, contested, found);
    WearOne(sigils, c.id, found);
    SecondPassWorks(next, contested[1..]);
    SecondPassWorks(sigils, contested);
    assert next[c.id] == found;
    assert SecondPass(sigils, contested)[c.id] == found;
    forall v | v in sigils.Values ensures v in SecondPass(sigils, contested).Values {
      var x :| x in sigils && sigils[x] == v;
      assert SecondPass(sigils, contested)[x] == v;
    }
  }

  /** Reserving a glyph that no one in the second pass would find leaves the second pass as it was. */
  lemma {:induction false} SecondPassIgnores(sigils: map<Text, Text>, contested: seq<Owner>, id: Text, sigil: Text)
    requires Injective(sigils) && DistinctIds(contested) && forall c :: c in contested ==> c.id !in sigils && c.id != id
    requires id !in sigils && sigil !in SecondPass(sigils, contested).Values
    ensures SecondPass(sigils[id := sigil], contested) == SecondPass(sigils, contested)[id := sigil]
    decreases |contested|
  {
    hide Injective, Probe;
    if contested != [] {
      var c := contested[0];
      var found := Probe(c.id, sigils.Values);
      var next := sigils[c.id := found];
      ContestedTail(sigils, contested, found);
      WearOne(sigils, c.id, found);
      WornStays(sigils, contested);
      WearOne(sigils, id, sigil);
      ProbeIgnores(c.id, sigils.Values, sigil);
      assert next[id := sigil] == sigils[id := sigil][c.id := found];
      SecondPassIgnores(next, contested[1..], id, sigil);
    }
  }

  /** `id` wears the newcomer's preferred glyph without preferring it. */
  ghost predicate SitsOn(r: seq<Owner>, id: Text, glyph: Text) {
    id in Sigils(r) && Sigils(r)[id] == glyph && Preferred(id) != glyph
  }

  /** What the claim "joining the roster cannot take a glyph off an incumbent" comes to for a newcomer junior
      to everyone: it holds exactly when no incumbent sits on a glyph the newcomer prefers and the incumbent does not. */
  lemma NewcomerMovesNoOneIff(r: seq<Owner>, c: Owner)
    requires DistinctIds(r + [c])
    ensures (forall id :: id in Sigils(r) ==> id in Sigils(r + [c]) && Sigils(r + [c])[id] == Sigils(r)[id])
      <==> (forall id :: !SitsOn(r, id, Preferred(c.id)))
  {
    hide FirstPass, SecondPass, Sigils, Preferred;
    JoinFacts(r, c);
    if forall id :: !SitsOn(r, id, Preferred(c.id)) {
      UnseatedStays(r, c);
    } else {
      var id :| SitsOn(r, id, Preferred(c.id));
      SitterMoves(r, c, id);
    }
  }

  lemma JoinFacts(r: seq<Owner>, c: Owner)
    requires DistinctIds(r + [c])
    ensures DistinctIds(r) && c.id !in Ids(r) && (r + [c])[..|r|] == r
  {
    var joined := r + [c];
    assert joined[..|joined| - 1] == r && joined[|r|] == c;
    PrefixOfRoster(joined);
  }

  lemma SitterMoves(r: seq<Owner>, c: Owner, id: Text)
    requires DistinctIds(r + [c]) && SitsOn(r, id, Preferred(c.id))
    ensures !(id in Sigils(r + [c]) && Sigils(r + [c])[id] == Sigils(r)[id])
  {
    hide FirstPass, SecondPass, Sigils, Preferred;
    JoinFacts(r, c);
    var joined := r + [c];
    SigilsAreDistinct(r);
    SigilsAreDistinct(joined);
    assert joined[|r|] == c;
    PreferenceIffSenior(joined, |r|);
    forall j | 0 <= j < |r| ensures Preferred(joined[j].id) != Preferred(c.id) {
      assert joined[j] == r[j];
      if Preferred(r[j].id) == Preferred(c.id) { GlyphIsHeld(r, j, id); }
    }
    assert Wins(joined, |r|);
  }

  /** A glyph someone prefers is worn by someone who prefers it. */
  lemma GlyphIsHeld(r: seq<Owner>, j: nat, id: Text)
    requires DistinctIds(r) && j < |r| && id in Sigils(r) && Sigils(r)[id] == Preferred(r[j].id)
    ensures Preferred(id) == Preferred(r[j].id)
  {
    hide FirstPass, SecondPass, Preferred;
    var f := FirstPass(r);
    FirstPassWorks(r);
    SigilsAreDistinct(r);
    SecondPassWorks(f.sigils, f.contested);
    var x :| x in f.sigils && f.sigils[x] == Preferred(r[j].id);
    assert Sigils(r)[x] == Sigils(r)[id];
  }

  lemma UnseatedStays(r: seq<Owner>, c: Owner)
    requires DistinctIds(r + [c]) && forall id :: !SitsOn(r, id, Preferred(c.id))
    ensures forall id :: id in Sigils(r) ==> id in Sigils(r + [c]) && Sigils(r + [c])[id] == Sigils(r)[id]
  {
    hide SecondPass, Preferred;
    JoinFacts(r, c);
    var joined, f := r + [c], FirstPass(r);
    assert joined[|r|] == c && joined[..|joined| - 1] == r;
    FirstPassWorks(r);
    SigilsAreDistinct(r);
    assert c.id !in Sigils(r);
    if Preferred(c.id) in f.sigils.Values {
      assert FirstPass(joined) == Round(f.sigils, f.contested + [c]);
      SecondPassSplit(f.sigils, f.contested, c);
    } else {
      assert FirstPass(joined) == Round(f.sigils[c.id := Preferred(c.id)], f.contested);
      GlyphIsFree(r, c.id);
      assert forall o :: o in f.contested ==> o.id in Ids(r);
      SecondPassIgnores(f.sigils, f.contested, c.id, Preferred(c.id));
    }
  }

  lemma GlyphIsFree(r: seq<Owner>, id: Text)
    requires DistinctIds(r) && Preferred(id) !in FirstPass(r).sigils.Values && forall x :: !SitsOn(r, x, Preferred(id))
    ensures Preferred(id) !in Sigils(r).Values
  {
    hide FirstPass, SecondPass, Preferred;
    FirstPassWorks(r);
    SigilsAreDistinct(r);
    forall x | x in Sigils(r) ensures Sigils(r)[x] != Preferred(id) {
      assert !SitsOn(r, x, Preferred(id));
      var o :| o in r && o.id == x;
      assert Preferred(o.id) in FirstPass(r).sigils.Values by { var i :| 0 <= i < |r| && r[i] == o; }
    }
  }

  // ---- a newcomer anywhere in the order ------------------------------------------------------

  function Joined(r: seq<Owner>, k: nat, c: Owner): seq<Owner>
    requires k <= |r|
  {
    r[..k] + [c] + r[k..]
  }

  /** The sigil a newcomer at rank `k` comes to wear, from the roster as it is: its preference if nobody senior prefers the
      same, else what it finds once those senior to it have probed. */
  ghost function TurnSigil(r: seq<Owner>, k: nat, c: Owner): Text
    requires k <= |r|
  {
    if WinsLast(r[..k], c.id) then Preferred(c.id)
    else Probe(c.id, SecondPass(FirstPass(r).sigils, FirstPass(r[..k]).contested).Values)
  }

  lemma {:induction false} SecondPassConcat(sigils: map<Text, Text>, a: seq<Owner>, b: seq<Owner>)
    ensures SecondPass(sigils, a + b) == SecondPass(SecondPass(sigils, a), b)
    decreases |a|
  {
    hide Probe;
    if a == [] {
      assert a + b == b;
    } else {
      assert (a + b)[0] == a[0] && (a + b)[1..] == a[1..] + b;
      SecondPassConcat(sigils[a[0].id := Probe(a[0].id, sigils.Values)], a[1..], b);
    }
  }

  /** A contested newcomer leaves everyone's first pass as it was and probes between its seniors and its juniors. */
  lemma {:induction false} ContestedJoin(a: seq<Owner>, c: Owner, b: seq<Owner>)
    requires Preferred(c.id) in FirstPass(a).sigils.Values
    ensures FirstPass(a + [c] + b).sigils == FirstPass(a + b).sigils
    ensures FirstPass(a).contested <= FirstPass(a + b).contested
    ensures FirstPass(a + [c] + b).contested ==
      FirstPass(a).contested + [c] + FirstPass(a + b).contested[|FirstPass(a).contested|..]
    decreases |b|
  {
    hide Preferred, FirstPass;
    if b == [] {
      assert a + b == a && a + [c] + b == a + [c];
      FirstPassAppend(a, c);
    } else {
      var front, last := b[..|b| - 1], b[|b| - 1];
      assert a + b == a + front + [last] && a + [c] + b == a + [c] + front + [last];
      ContestedJoin(a, c, front);
      FirstPassAppend(a + front, last);
      FirstPassAppend(a + [c] + front, last);
    }
  }

  /** A newcomer that wins a glyph nobody else prefers only adds to the first pass. */
  lemma {:induction false} WinningJoin(a: seq<Owner>, c: Owner, b: seq<Owner>)
    requires Preferred(c.id) !in FirstPass(a).sigils.Values && DistinctIds(a + [c] + b)
    requires forall o :: o in b ==> Preferred(o.id) != Preferred(c.id)
    ensures FirstPass(a + [c] + b).sigils == FirstPass(a + b).sigils[c.id := Preferred(c.id)]
    ensures FirstPass(a + [c] + b).contested == FirstPass(a + b).contested
    ensures Preferred(c.id) !in FirstPass(a + b).sigils.Values && c.id !in FirstPass(a + b).sigils
    decreases |b|
  {
    hide Preferred, FirstPass;
    if b == [] {
      assert a + b == a && a + [c] + b == a + [c];
      FirstPassAppend(a, c);
      JoinFacts(a, c);
      WornIdsInside(a);
    } else {
      var front, last := b[..|b| - 1], b[|b| - 1];
      assert a + b == a + front + [last] && a + [c] + b == a + [c] + front + [last];
      JoinFacts(a + [c] + front, last);
      assert last in b && c.id != last.id by { assert (a + [c] + front)[|a|] == c; }
      WinningJoin(a, c, front);
      var before := FirstPass(a + front).sigils;
      WearOne(before, c.id, Preferred(c.id));
      FirstPassAppend(a + front, last);
      FirstPassAppend(a + [c] + front, last);
      JoinedWithoutIsDistinct(a, c, front, last);
      WornIdsInside(a + front);
      if Preferred(last.id) !in before.Values {
        WearOne(before, last.id, Preferred(last.id));
        assert before[c.id := Preferred(c.id)][last.id := Preferred(last.id)] == before[last.id := Preferred(last.id)][c.id := Preferred(c.id)];
      }
    }
  }

  lemma WornIdsInside(r: seq<Owner>)
    requires DistinctIds(r)
    ensures forall id :: id in FirstPass(r).sigils ==> id in Ids(r)
  {
    hide FirstPass, Preferred;
    FirstPassWorks(r);
  }

  lemma JoinedWithoutIsDistinct(a: seq<Owner>, c: Owner, front: seq<Owner>, last: Owner)
    requires DistinctIds(a + [c] + front + [last])
    ensures DistinctIds(a + front) && last.id !in Ids(a + front)
  {
    var all, some := a + [c] + front + [last], a + front;
    assert forall i :: 0 <= i < |some| ==> some[i] == all[if i < |a| then i else i + 1];
    assert all[|all| - 1] == last;
  }

  lemma JoinedParts(r: seq<Owner>, k: nat, c: Owner)
    requires k <= |r| && DistinctIds(Joined(r, k, c))
    ensures DistinctIds(r) && DistinctIds(r[..k]) && c.id !in Ids(r) && r[..k] + r[k..] == r
    ensures Joined(r, k, c)[k] == c && Ids(Joined(r, k, c)) == Ids(r) + {c.id}
  {
    var all := Joined(r, k, c);
    assert all[k] == c;
    assert forall i :: 0 <= i < |r| ==> r[i] == all[if i < k then i else i + 1];
    assert r[..k] + r[k..] == r;
    assert forall i :: 0 <= i < k ==> r[..k][i] == r[i];
    assert forall o :: o in all <==> o in r || o == c;
  }

  /** A glyph that some owner prefers is worn. */
  lemma PreferredIsWorn(r: seq<Owner>, o: Owner)
    requires DistinctIds(r) && o in r
    ensures Preferred(o.id) in Sigils(r).Values
  {
    hide FirstPass, SecondPass, Preferred;
    var f := FirstPass(r);
    FirstPassWorks(r);
    SecondPassWorks(f.sigils, f.contested);
    var i :| 0 <= i < |r| && r[i] == o;
    var x :| x in f.sigils && f.sigils[x] == Preferred(o.id);
    assert Sigils(r)[x] == Preferred(o.id);
  }

  /** The newcomer comes to wear its turn sigil. */
  lemma NewcomerWearsTurnSigil(r: seq<Owner>, k: nat, c: Owner)
    requires k <= |r| && DistinctIds(Joined(r, k, c))
    ensures c.id in Sigils(Joined(r, k, c)) && Sigils(Joined(r, k, c))[c.id] == TurnSigil(r, k, c)
  {
    hide FirstPass, SecondPass, Preferred, Probe;
    var all, a := Joined(r, k, c), r[..k];
    JoinedParts(r, k, c);
    FirstPassWorks(a);
    TakenIffLost(a, FirstPass(a), c.id);
    if WinsLast(a, c.id) {
      assert Wins(all, k) by { assert forall j :: 0 <= j < k ==> all[j] == a[j]; }
      PreferenceIffSenior(all, k);
    } else {
      ContestedWearsProbe(r, k, c);
    }
  }

  lemma ContestedWearsProbe(r: seq<Owner>, k: nat, c: Owner)
    requires k <= |r| && DistinctIds(Joined(r, k, c)) && Preferred(c.id) in FirstPass(r[..k]).sigils.Values
    ensures var seniors := SecondPass(FirstPass(r).sigils, FirstPass(r[..k]).contested);
      && FirstPass(r[..k]).contested <= FirstPass(r).contested
      && Sigils(Joined(r, k, c)) == SecondPass(seniors[c.id := Probe(c.id, seniors.Values)],
                                               FirstPass(r).contested[|FirstPass(r[..k]).contested|..])
      && Sigils(r) == SecondPass(seniors, FirstPass(r).contested[|FirstPass(r[..k]).contested|..])
      && c.id in Sigils(Joined(r, k, c)) && Sigils(Joined(r, k, c))[c.id] == Probe(c.id, seniors.Values)
  {
    hide FirstPass, SecondPass, Preferred, Probe;
    var a, b := r[..k], r[k..];
    JoinedParts(r, k, c);
    ContestedJoin(a, c, b);
    var f, fa := FirstPass(r), FirstPass(a);
    var tail := f.contested[|fa.contested|..];
    assert f.contested == fa.contested + tail;
    SecondPassConcat(f.sigils, fa.contested, tail);
    SecondPassConcat(f.sigils, fa.contested + [c], tail);
    SecondPassSplit(f.sigils, fa.contested, c);
    var seniors := SecondPass(f.sigils, fa.contested);
    SeniorsReady(r, fa.contested, tail, c);
    WearOne(seniors, c.id, Probe(c.id, seniors.Values));
    SecondPassWorks(seniors[c.id := Probe(c.id, seniors.Values)], tail);
  }

  /** After the contested owners `first` have probed, the ones left are ready to. */
  lemma SeniorsReady(r: seq<Owner>, first: seq<Owner>, tail: seq<Owner>, c: Owner)
    requires DistinctIds(r) && FirstPass(r).contested == first + tail && c.id !in Ids(r)
    ensures var seniors := SecondPass(FirstPass(r).sigils, first);
      && Injective(seniors) && DistinctIds(tail) && c.id !in seniors && forall o :: o in tail ==> o.id !in seniors && o.id != c.id
  {
    hide FirstPass, SecondPass, Preferred;
    var f := FirstPass(r);
    FirstPassWorks(r);
    DistinctParts(first, tail);
    assert forall o :: o in first || o in tail ==> o in f.contested;
    SecondPassWorks(f.sigils, first);
  }

  lemma DistinctParts(a: seq<Owner>, b: seq<Owner>)
    requires DistinctIds(a + b)
    ensures DistinctIds(a) && DistinctIds(b) && forall o, p :: o in a && p in b ==> o.id != p.id
  {
    var all := a + b;
    assert forall i :: 0 <= i < |a| ==> a[i] == all[i];
    assert forall i :: 0 <= i < |b| ==> b[i] == all[|a| + i];
    forall o, p | o in a && p in b ensures o.id != p.id {
      var i :| 0 <= i < |a| && a[i] == o;
      var j :| 0 <= j < |b| && b[j] == p;
      assert all[i].id != all[|a| + j].id;
    }
  }

  ghost predicate NoOneMoves(r: seq<Owner>, joined: seq<Owner>) {
    forall id :: id in Sigils(r) ==> id in Sigils(joined) && Sigils(joined)[id] == Sigils(r)[id]
  }

  lemma UnwornMovesNoOne(r: seq<Owner>, k: nat, c: Owner)
    requires k <= |r| && DistinctIds(Joined(r, k, c)) && TurnSigil(r, k, c) !in Sigils(r).Values
    ensures NoOneMoves(r, Joined(r, k, c))
  {
    hide FirstPass, SecondPass, Preferred, Probe, FirstPassSound, DistinctIds, Injective, WinsLast;
    var a, b := r[..k], r[k..];
    JoinedParts(r, k, c);
    FirstPassWorks(a);
    TakenIffLost(a, FirstPass(a), c.id);
    SigilsAreDistinct(r);
    if WinsLast(a, c.id) {
      forall o | o in b ensures Preferred(o.id) != Preferred(c.id) { assert o in r; PreferredIsWorn(r, o); }
      WinningJoin(a, c, b);
      var f := FirstPass(r);
      SecondStartsReady(r, c);
      SecondPassIgnores(f.sigils, f.contested, c.id, Preferred(c.id));
    } else {
      ContestedWearsProbe(r, k, c);
      var f, fa := FirstPass(r), FirstPass(a);
      var tail := f.contested[|fa.contested|..];
      assert f.contested == fa.contested + tail;
      SeniorsReady(r, fa.contested, tail, c);
      var seniors := SecondPass(f.sigils, fa.contested);
      SecondPassIgnores(seniors, tail, c.id, Probe(c.id, seniors.Values));
    }
  }

  lemma SecondStartsReady(r: seq<Owner>, c: Owner)
    requires DistinctIds(r) && c.id !in Ids(r)
    ensures var f := FirstPass(r);
      Injective(f.sigils) && DistinctIds(f.contested) && forall o :: o in f.contested ==> o.id !in f.sigils && o.id != c.id
  {
    hide FirstPass, Preferred;
    FirstPassWorks(r);
  }

  /** What the claim "joining the roster cannot take a glyph off an incumbent" comes to for a newcomer of any rank: no one
      moves if and only if nobody wears the sigil that falls to the newcomer when its turn comes. */
  lemma JoiningMovesNoOneIff(r: seq<Owner>, k: nat, c: Owner)
    requires k <= |r| && DistinctIds(Joined(r, k, c))
    ensures NoOneMoves(r, Joined(r, k, c)) <==> TurnSigil(r, k, c) !in Sigils(r).Values
  {
    hide Sigils, TurnSigil, DistinctIds;
    JoinedParts(r, k, c);
    if TurnSigil(r, k, c) !in Sigils(r).Values {
      UnwornMovesNoOne(r, k, c);
    } else {
      NewcomerWearsTurnSigil(r, k, c);
      SigilsAreDistinct(r);
      SigilsAreDistinct(Joined(r, k, c));
      var x :| x in Sigils(r) && Sigils(r)[x] == TurnSigil(r, k, c);
      assert x != c.id;
    }
  }
}
