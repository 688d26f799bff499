/** How many zones a resolver context may have, and which ones it keeps. */
module ZoneLimit {
  import opened Text
  import opened Sorting

  type UID = string

  const MAX_ZONES := 256

  /**
   * An association that passes every other check: its place in the list, the
   * zone and apex it attaches, and `since` when its status already says accepted.
   */
  datatype Candidate = Candidate(index: nat, zone: UID, apex: string, managed: bool, since: Option<int>, created: int, name: string)

  /** A zone's claim to a place. */
  datatype Rank = Rank(uid: UID, managed: bool, since: Option<int>, created: int, name: string)

  function Earlier(a: Option<int>, b: Option<int>): Option<int> {
    if a.None? then b else if b.None? || a.value < b.value then a else b
  }

  function RankStep(ranks: map<UID, Rank>, c: Candidate): map<UID, Rank> {
    if c.zone !in ranks then ranks[c.zone := Rank(c.zone, c.managed, c.since, c.created, c.name)]
    else
      var r := ranks[c.zone];
      ranks[c.zone := Rank(c.zone, r.managed || c.managed, Earlier(r.since, c.since),
                           if c.created < r.created then c.created else r.created,
                           if Leq(r.name, c.name) then r.name else c.name)]
  }

  function Ranks(candidates: seq<Candidate>): map<UID, Rank> {
    if candidates == [] then map[] else RankStep(Ranks(candidates[..|candidates| - 1]), candidates[|candidates| - 1])
  }

  /** Managed first, then accepted by how long, then by age, name and UID. */
  predicate RankLeq(a: Rank, b: Rank) {
    if a.managed != b.managed then a.managed
    else if a.since.Some? != b.since.Some? then a.since.Some?
    else if a.since.Some? && a.since != b.since then a.since.value < b.since.value
    else if a.created != b.created then a.created < b.created
    else if a.name != b.name then Leq(a.name, b.name)
    else Leq(a.uid, b.uid)
  }

  lemma RankTransitive(a: Rank, b: Rank, c: Rank)
    requires RankLeq(a, b) && RankLeq(b, c)
    ensures RankLeq(a, c)
  {
    if Leq(a.name, b.name) && Leq(b.name, c.name) {
      LeqTransitive(a.name, b.name, c.name);
      if a.name == c.name { LeqAntisymmetric(a.name, b.name); }
    }
    if Leq(a.uid, b.uid) && Leq(b.uid, c.uid) { LeqTransitive(a.uid, b.uid, c.uid); }
  }

  lemma RankLinear()
    ensures Linear(RankLeq)
  {
    forall a: Rank, b: Rank ensures RankLeq(a, b) || RankLeq(b, a) { LeqTotal(a.name, b.name); LeqTotal(a.uid, b.uid); }
    forall a: Rank, b: Rank, c: Rank | RankLeq(a, b) && RankLeq(b, c) ensures RankLeq(a, c) { RankTransitive(a, b, c); }
    forall a: Rank, b: Rank | RankLeq(a, b) && RankLeq(b, a) ensures a == b {
      if a.name != b.name { LeqAntisymmetric(a.name, b.name); }
      if a.uid != b.uid && Leq(a.uid, b.uid) && Leq(b.uid, a.uid) { LeqAntisymmetric(a.uid, b.uid); }
    }
  }

  ghost function Ordered(ranks: set<Rank>): (r: seq<Rank>)
    ensures |r| == |ranks| && forall x :: x in r <==> x in ranks
  {
    RankLinear();
    SortedSet(RankLeq, ranks)
  }

  function Members(s: seq<Rank>): set<Rank> {
    set r | r in s
  }

  function Fitting(n: nat): nat {
    if n < MAX_ZONES then n else MAX_ZONES
  }

  /** The ranks that fit within the limit. */
  ghost function KeptRanks(ranks: set<Rank>): set<Rank> {
    Members(Ordered(ranks)[..Fitting(|ranks|)])
  }

  function UidsOf(ranks: set<Rank>): set<UID> {
    set r | r in ranks :: r.uid
  }

  /** The zones of the context that keep or get a place. */
  ghost function KeptZones(candidates: seq<Candidate>): set<UID> {
    UidsOf(KeptRanks(Ranks(candidates).Values))
  }

  // ----- the limit ----------------------------------------------------------

  lemma {:induction false} RanksKeyed(candidates: seq<Candidate>)
    ensures forall z :: z in Ranks(candidates) ==> Ranks(candidates)[z].uid == z
    ensures forall z :: z in Ranks(candidates) <==> exists c :: c in candidates && c.zone == z
  {
    if candidates != [] {
      var before, last := candidates[..|candidates| - 1], candidates[|candidates| - 1];
      RanksKeyed(before);
      assert candidates == before + [last];
    }
  }

  lemma {:induction false} RankFacts(candidates: seq<Candidate>, z: UID)
    requires z in Ranks(candidates)
    ensures Ranks(candidates)[z].managed <==> exists c :: c in candidates && c.zone == z && c.managed
    ensures Ranks(candidates)[z].since.Some? <==> exists c :: c in candidates && c.zone == z && c.since.Some?
  {
    var before, last := candidates[..|candidates| - 1], candidates[|candidates| - 1];
    assert candidates == before + [last];
    if z in Ranks(before) {
      RankFacts(before, z);
    } else {
      RanksKeyed(before);
    }
  }

  lemma {:induction false} RankNameEarliest(candidates: seq<Candidate>, z: UID)
    requires z in Ranks(candidates)
    ensures forall c :: c in candidates && c.zone == z ==> Leq(Ranks(candidates)[z].name, c.name)
  {
    var before, last := candidates[..|candidates| - 1], candidates[|candidates| - 1];
    assert candidates == before + [last];
    LeqReflexive(last.name);
    if z in Ranks(before) {
      RankNameEarliest(before, z);
      if last.zone == z { EarlierName(before, z, Ranks(before)[z].name, last.name); }
    } else {
      RanksKeyed(before);
    }
  }

  /** A zone ranks by the earliest of its associations: acceptance, age and name. */
  lemma {:induction false} RankIsEarliest(candidates: seq<Candidate>, z: UID)
    requires z in Ranks(candidates)
    ensures var r := Ranks(candidates)[z];
            && (forall c :: c in candidates && c.zone == z ==> r.created <= c.created && Leq(r.name, c.name))
            && (forall c :: c in candidates && c.zone == z && c.since.Some? ==> r.since.Some? && r.since.value <= c.since.value)
            && (exists c :: c in candidates && c.zone == z && c.created == r.created)
            && (r.since.Some? ==> exists c :: c in candidates && c.zone == z && c.since == r.since)
  {
    RankNameEarliest(candidates, z);
    var before, last := candidates[..|candidates| - 1], candidates[|candidates| - 1];
    assert candidates == before + [last];
    if z in Ranks(before) {
      RankIsEarliest(before, z);
    } else {
      RanksKeyed(before);
    }
  }

  lemma EarlierName(candidates: seq<Candidate>, z: UID, name: string, other: string)
    requires forall c :: c in candidates && c.zone == z ==> Leq(name, c.name)
    ensures var least := if Leq(name, other) then name else other;
            Leq(least, other) && forall c :: c in candidates && c.zone == z ==> Leq(least, c.name)
  {
    LeqTotal(name, other);
    LeqReflexive(other);
    forall c | c in candidates && c.zone == z ensures Leq(if Leq(name, other) then name else other, c.name) {
      if !Leq(name, other) { LeqTransitive(other, name, c.name); }
    }
  }

  lemma TakenSize(s: seq<Rank>, n: nat)
    requires n <= |s| && forall i, j :: 0 <= i < j < |s| ==> s[i] != s[j]
    ensures |Members(s[..n])| == n
  {
    if n > 0 {
      TakenSize(s, n - 1);
      assert s[..n] == s[..n - 1] + [s[n - 1]];
      assert Members(s[..n]) == Members(s[..n - 1]) + {s[n - 1]};
    }
  }

  lemma KeptSize(ranks: set<Rank>)
    ensures KeptRanks(ranks) <= ranks && |KeptRanks(ranks)| == Fitting(|ranks|)
  {
    RankLinear();
    TakenSize(Ordered(ranks), Fitting(|ranks|));
  }

  lemma UidsSize(ranks: set<Rank>)
    ensures |UidsOf(ranks)| <= |ranks|
  {
    if ranks != {} {
      var r :| r in ranks;
      UidsSize(ranks - {r});
      assert UidsOf(ranks) == UidsOf(ranks - {r}) + {r.uid};
    }
  }

  /** A context never has more zones than a binding can list. */
  lemma WithinLimit(candidates: seq<Candidate>)
    ensures |KeptZones(candidates)| <= MAX_ZONES
    ensures |Ranks(candidates)| <= MAX_ZONES ==> KeptZones(candidates) == Ranks(candidates).Keys
  {
    var ranks := Ranks(candidates).Values;
    KeptSize(ranks);
    UidsSize(KeptRanks(ranks));
    ValuesSize(Ranks(candidates));
    RanksKeyed(candidates);
    if |ranks| <= MAX_ZONES {
      AllKept(ranks);
      assert UidsOf(ranks) == Ranks(candidates).Keys;
    }
  }

  lemma AllKept(ranks: set<Rank>)
    requires |ranks| <= MAX_ZONES
    ensures KeptRanks(ranks) == ranks
  {
    assert Ordered(ranks)[..Fitting(|ranks|)] == Ordered(ranks);
  }

  lemma ValuesSize(m: map<UID, Rank>)
    ensures |m.Values| <= |m|
  {
    if m != map[] {
      var k :| k in m;
      var rest := m - {k};
      ValuesSize(rest);
      assert m.Values == rest.Values + {m[k]};
      assert m.Keys == rest.Keys + {k};
    }
  }

  // ----- who keeps a place --------------------------------------------------

  lemma MembersOfPrefix(a: seq<Rank>, b: seq<Rank>, n: nat)
    requires |a| <= n <= |a + b|
    ensures Members(a) <= Members((a + b)[..n])
    ensures n == |a| ==> Members((a + b)[..n]) == Members(a)
  {
    assert (a + b)[..n] == a + (a + b)[|a|..n];
  }

  /** Ranks that come before all others are kept first. */
  lemma FirstRanksKept(first: set<Rank>, rest: set<Rank>)
    requires first !! rest && forall x, y :: x in first && y in rest ==> RankLeq(x, y)
    ensures |first| <= MAX_ZONES ==> first <= KeptRanks(first + rest)
    ensures |first| == MAX_ZONES ==> KeptRanks(first + rest) == first
  {
    RankLinear();
    SortedSetSplit(RankLeq, first, rest);
    var a, b := SortedSet(RankLeq, first), SortedSet(RankLeq, rest);
    assert Members(a) == first;
    assert |first + rest| == |first| + |rest|;
    if |first| <= MAX_ZONES {
      MembersOfPrefix(a, b, Fitting(|first + rest|));
    }
  }

  predicate Settled(r: Rank) {
    r.managed || r.since.Some?
  }

  ghost function SettledRanks(ranks: set<Rank>): set<Rank> {
    set r | r in ranks && Settled(r)
  }

  /** When the managed and the already accepted zones fit, none of them loses its place. */
  lemma AcceptedZonesKept(candidates: seq<Candidate>, c: Candidate)
    requires |SettledRanks(Ranks(candidates).Values)| <= MAX_ZONES
    requires c in candidates && (c.managed || c.since.Some?)
    ensures c.zone in KeptZones(candidates)
  {
    var ranks := Ranks(candidates);
    var first := SettledRanks(ranks.Values);
    FirstRanksKept(first, ranks.Values - first);
    assert first + (ranks.Values - first) == ranks.Values;
    RanksKeyed(candidates);
    RankFacts(candidates, c.zone);
    assert ranks[c.zone] in first && ranks[c.zone].uid == c.zone;
  }

  // ----- running again ------------------------------------------------------

  /** The status written for a candidate: accepted with its zone, keeping the time it already had. */
  function Rewritten(kept: set<UID>, c: Candidate, now: int): Candidate {
    c.(since := if c.zone !in kept then None else if c.since.Some? then c.since else Some(now))
  }

  function RewrittenAll(kept: set<UID>, candidates: seq<Candidate>, now: int): (r: seq<Candidate>) {
    seq(|candidates|, i requires 0 <= i < |candidates| => Rewritten(kept, candidates[i], now))
  }

  lemma RewrittenRank(candidates: seq<Candidate>, kept: set<UID>, now: int, z: UID)
    requires z in Ranks(candidates)
    ensures var again := RewrittenAll(kept, candidates, now);
            && z in Ranks(again)
            && Ranks(again)[z].managed == Ranks(candidates)[z].managed
            && (Ranks(again)[z].since.Some? <==> z in kept)
  {
    var again := RewrittenAll(kept, candidates, now);
    RanksKeyed(candidates);
    RanksKeyed(again);
    var c :| c in candidates && c.zone == z;
    RewrittenIn(candidates, kept, now, c);
    RankFacts(candidates, z);
    RankFacts(again, z);
    forall d | d in again ensures exists e :: e in candidates && d == Rewritten(kept, e, now) {
      var i :| 0 <= i < |again| && again[i] == d;
      assert candidates[i] in candidates;
    }
    if Ranks(candidates)[z].managed {
      var e :| e in candidates && e.zone == z && e.managed;
      RewrittenIn(candidates, kept, now, e);
    }
  }

  lemma RewrittenIn(candidates: seq<Candidate>, kept: set<UID>, now: int, c: Candidate)
    requires c in candidates
    ensures Rewritten(kept, c, now) in RewrittenAll(kept, candidates, now)
  {
    var i :| 0 <= i < |candidates| && candidates[i] == c;
    assert RewrittenAll(kept, candidates, now)[i] == Rewritten(kept, c, now);
  }

  lemma RewrittenZones(candidates: seq<Candidate>, kept: set<UID>, now: int)
    ensures Ranks(RewrittenAll(kept, candidates, now)).Keys == Ranks(candidates).Keys
  {
    var again := RewrittenAll(kept, candidates, now);
    RanksKeyed(candidates);
    RanksKeyed(again);
    forall z ensures z in Ranks(again) <==> z in Ranks(candidates) {
      if z in Ranks(candidates) { RewrittenRank(candidates, kept, now, z); }
      if z in Ranks(again) {
        var d :| d in again && d.zone == z;
        var i :| 0 <= i < |again| && again[i] == d;
        assert candidates[i] in candidates && candidates[i].zone == z;
      }
    }
  }

  lemma KeptBeforeRefused(ranks: set<Rank>, a: Rank, b: Rank)
    requires a in KeptRanks(ranks) && b in ranks && b !in KeptRanks(ranks)
    ensures RankLeq(a, b)
  {
    RankLinear();
    var s, n := Ordered(ranks), Fitting(|ranks|);
    var i :| 0 <= i < n && s[i] == a;
    var j :| 0 <= j < |s| && s[j] == b;
    assert forall m :: 0 <= m < n ==> s[..n][m] == s[m] && s[m] in Members(s[..n]);
  }

  /** The ranks of the zones in `zones`. */
  function RanksIn(ranks: map<UID, Rank>, zones: set<UID>): set<Rank> {
    set z | z in ranks && z in zones :: ranks[z]
  }

  lemma RanksInSize(ranks: map<UID, Rank>, zones: set<UID>)
    requires zones <= ranks.Keys && forall z :: z in ranks ==> ranks[z].uid == z
    ensures |RanksIn(ranks, zones)| == |zones|
  {
    if zones != {} {
      var z :| z in zones;
      RanksInSize(ranks, zones - {z});
      assert RanksIn(ranks, zones) == RanksIn(ranks, zones - {z}) + {ranks[z]};
    } else {
      assert RanksIn(ranks, zones) == {};
    }
  }

  lemma KeptZonesSize(candidates: seq<Candidate>)
    requires |Ranks(candidates)| > MAX_ZONES
    ensures KeptZones(candidates) <= Ranks(candidates).Keys && |KeptZones(candidates)| == MAX_ZONES
    ensures KeptRanks(Ranks(candidates).Values) == RanksIn(Ranks(candidates), KeptZones(candidates))
  {
    var ranks := Ranks(candidates);
    RanksKeyed(candidates);
    KeptSize(ranks.Values);
    assert RanksIn(ranks, ranks.Keys) == ranks.Values;
    RanksInSize(ranks, ranks.Keys);
    assert KeptRanks(ranks.Values) == RanksIn(ranks, KeptZones(candidates));
    RanksInSize(ranks, KeptZones(candidates));
  }

  lemma KeptZoneRank(candidates: seq<Candidate>, z: UID)
    requires z in Ranks(candidates)
    ensures z in KeptZones(candidates) <==> Ranks(candidates)[z] in KeptRanks(Ranks(candidates).Values)
  {
    var ranks := Ranks(candidates);
    RanksKeyed(candidates);
    KeptSize(ranks.Values);
    if z in KeptZones(candidates) {
      var r :| r in KeptRanks(ranks.Values) && r.uid == z;
      assert r in ranks.Values;
    }
  }

  /**
   * Places go to managed zones, then to accepted ones by how long they have
   * been accepted, then to the others oldest first.
   */
  lemma PlacesInOrder(candidates: seq<Candidate>, x: UID, y: UID)
    requires x in Ranks(candidates) && y in Ranks(candidates) && x in KeptZones(candidates) && y !in KeptZones(candidates)
    ensures var a, b := Ranks(candidates)[x], Ranks(candidates)[y];
            && (b.managed ==> a.managed)
            && (a.managed == b.managed && b.since.Some? ==> a.since.Some? && a.since.value <= b.since.value)
            && (a.managed == b.managed && a.since.None? && b.since.None? ==> a.created <= b.created)
  {
    KeptZoneRank(candidates, x);
    KeptZoneRank(candidates, y);
    KeptBeforeRefused(Ranks(candidates).Values, Ranks(candidates)[x], Ranks(candidates)[y]);
  }

  lemma AheadAgain(candidates: seq<Candidate>, now: int, x: UID, y: UID)
    requires x in Ranks(candidates) && y in Ranks(candidates)
    requires x in KeptZones(candidates) && y !in KeptZones(candidates)
    ensures var again := Ranks(RewrittenAll(KeptZones(candidates), candidates, now));
            x in again && y in again && RankLeq(again[x], again[y])
  {
    var kept, ranks := KeptZones(candidates), Ranks(candidates);
    KeptZoneRank(candidates, x);
    KeptZoneRank(candidates, y);
    RewrittenRank(candidates, kept, now, x);
    RewrittenRank(candidates, kept, now, y);
    KeptBeforeRefused(ranks.Values, ranks[x], ranks[y]);
  }

  lemma RanksSplit(ranks: map<UID, Rank>, kept: set<UID>)
    requires (forall z :: z in ranks ==> ranks[z].uid == z) && kept <= ranks.Keys
    ensures RanksIn(ranks, kept) !! RanksIn(ranks, ranks.Keys - kept)
    ensures RanksIn(ranks, kept) + RanksIn(ranks, ranks.Keys - kept) == ranks.Values
    ensures UidsOf(RanksIn(ranks, kept)) == kept
  {
  }

  lemma AgainOverLimit(candidates: seq<Candidate>, now: int)
    requires |Ranks(candidates)| > MAX_ZONES
    ensures KeptZones(RewrittenAll(KeptZones(candidates), candidates, now)) == KeptZones(candidates)
  {
    var kept := KeptZones(candidates);
    var list := RewrittenAll(kept, candidates, now);
    KeptZonesSize(candidates);
    RewrittenZones(candidates, kept, now);
    RanksKeyed(list);
    RanksSplit(Ranks(list), kept);
    AllAheadAgain(candidates, now);
    RanksInSize(Ranks(list), kept);
    FirstRanksKept(RanksIn(Ranks(list), kept), RanksIn(Ranks(list), Ranks(list).Keys - kept));
  }

  lemma AllAheadAgain(candidates: seq<Candidate>, now: int)
    ensures var kept := KeptZones(candidates);
            var again := Ranks(RewrittenAll(kept, candidates, now));
            forall a, b :: a in RanksIn(again, kept) && b in RanksIn(again, again.Keys - kept) ==> RankLeq(a, b)
  {
    var kept := KeptZones(candidates);
    var again := Ranks(RewrittenAll(kept, candidates, now));
    RewrittenZones(candidates, kept, now);
    forall a, b | a in RanksIn(again, kept) && b in RanksIn(again, again.Keys - kept) ensures RankLeq(a, b) {
      var x :| x in again && x in kept && again[x] == a;
      var y :| y in again && y !in kept && again[y] == b;
      AheadAgain(candidates, now, x, y);
    }
  }

  /** Running again on the statuses just written refuses exactly the same zones. */
  lemma RunningAgain(candidates: seq<Candidate>, now: int)
    ensures KeptZones(RewrittenAll(KeptZones(candidates), candidates, now)) == KeptZones(candidates)
  {
    if |Ranks(candidates)| > MAX_ZONES {
      AgainOverLimit(candidates, now);
    } else {
      var list := RewrittenAll(KeptZones(candidates), candidates, now);
      RewrittenZones(candidates, KeptZones(candidates), now);
      SameKeysSize(Ranks(list), Ranks(candidates));
      WithinLimit(candidates);
      WithinLimit(list);
    }
  }

  lemma SameKeysSize(a: map<UID, Rank>, b: map<UID, Rank>)
    requires a.Keys == b.Keys
    ensures |a| == |b|
  {
    assert |a| == |a.Keys| && |b| == |b.Keys|;
  }

  // ----- the loops ----------------------------------------------------------

  /** The places in the list of the associations that attach a zone. */
  function IndexesOf(candidates: seq<Candidate>, z: UID): (r: seq<nat>)
    ensures forall i :: i in r <==> exists c :: c in candidates && c.zone == z && c.index == i
  {
    if candidates == [] then []
    else
      var before, last := candidates[..|candidates| - 1], candidates[|candidates| - 1];
      assert candidates == before + [last];
      IndexesOf(before, z) + if last.zone == z then [last.index] else []
  }

  method RankZones(candidates: seq<Candidate>) returns (ranks: map<UID, Rank>, byZone: map<UID, seq<nat>>)
    ensures ranks == Ranks(candidates)
    ensures forall z :: z in ranks ==> z in byZone && byZone[z] == IndexesOf(candidates, z)
  {
    ranks, byZone := map[], map[];
    for n := 0 to |candidates|
      invariant ranks == Ranks(candidates[..n]) && byZone.Keys == ranks.Keys
      invariant forall z :: z in ranks ==> byZone[z] == IndexesOf(candidates[..n], z)
    {
      var c := candidates[n];
      assert candidates[..n + 1][..n] == candidates[..n];
      RanksKeyed(candidates[..n]);
      NoIndexes(candidates[..n], c.zone);
      byZone := byZone[c.zone := (if c.zone in byZone then byZone[c.zone] else []) + [c.index]];
      ranks := RankStep(ranks, c);
    }
    assert candidates[..|candidates|] == candidates;
  }

  lemma {:induction false} NoIndexes(candidates: seq<Candidate>, z: UID)
    ensures z !in Ranks(candidates) ==> IndexesOf(candidates, z) == []
  {
    if candidates != [] {
      NoIndexes(candidates[..|candidates| - 1], z);
    }
  }

  /** The ranks of a map as a list, in any order. */
  method ListRanks(ranks: map<UID, Rank>) returns (list: seq<Rank>)
    requires forall z :: z in ranks ==> ranks[z].uid == z
    ensures forall r :: r in list <==> r in ranks.Values
    ensures forall i, j :: 0 <= i < j < |list| ==> list[i] != list[j]
  {
    list := [];
    var rest := ranks.Keys;
    while rest != {}
      invariant rest <= ranks.Keys
      invariant forall r :: r in list <==> r.uid in ranks && r.uid !in rest && ranks[r.uid] == r
      invariant forall i, j :: 0 <= i < j < |list| ==> list[i] != list[j]
    {
      var z :| z in rest;
      rest := rest - {z};
      assert ranks[z] !in list;
      list := list + [ranks[z]];
    }
  }

  predicate IntLeq(a: nat, b: nat) {
    a <= b
  }

  method OrderRanks(ranks: map<UID, Rank>) returns (ordered: seq<Rank>)
    requires forall z :: z in ranks ==> ranks[z].uid == z
    ensures ordered == Ordered(ranks.Values) && |ordered| == |ranks|
  {
    var list := ListRanks(ranks);
    RankLinear();
    SortOfOnce(RankLeq, list, ranks.Values);
    ordered := Sort(RankLeq, list);
    RanksInSize(ranks, ranks.Keys);
    assert RanksIn(ranks, ranks.Keys) == ranks.Values;
  }

  method CollectIndexes(ghost candidates: seq<Candidate>, byZone: map<UID, seq<nat>>, tail: seq<Rank>) returns (indexes: seq<nat>)
    requires forall r :: r in tail ==> r.uid in byZone && byZone[r.uid] == IndexesOf(candidates, r.uid)
    ensures forall i :: i in indexes <==> exists m :: 0 <= m < |tail| && i in IndexesOf(candidates, tail[m].uid)
  {
    indexes := [];
    for n := 0 to |tail|
      invariant forall i :: i in indexes <==> exists m :: 0 <= m < n && i in IndexesOf(candidates, tail[m].uid)
    {
      assert tail[n] in tail;
      indexes := indexes + byZone[tail[n].uid];
    }
  }

  /** An association at this place attaches a zone that does not fit. */
  ghost predicate DoesNotFit(candidates: seq<Candidate>, i: nat) {
    exists c :: c in candidates && c.index == i && c.zone !in KeptZones(candidates)
  }

  lemma EverybodyFits(candidates: seq<Candidate>, i: nat)
    requires |Ranks(candidates)| <= MAX_ZONES
    ensures !DoesNotFit(candidates, i)
  {
    WithinLimit(candidates);
    RanksKeyed(candidates);
  }

  method RefusedIndexes(candidates: seq<Candidate>, ranks: map<UID, Rank>, byZone: map<UID, seq<nat>>) returns (indexes: seq<nat>)
    requires ranks == Ranks(candidates) && |ranks| > MAX_ZONES
    requires forall z :: z in ranks ==> z in byZone && byZone[z] == IndexesOf(candidates, z)
    ensures forall i :: i in indexes <==> DoesNotFit(candidates, i)
  {
    RanksKeyed(candidates);
    var ordered := OrderRanks(ranks);
    TailRefused(candidates, ordered);
    var tail := ordered[MAX_ZONES..];
    assert forall r :: r in tail ==> r in ordered;
    indexes := CollectIndexes(candidates, byZone, tail);
    TailIndexes(candidates, tail, indexes);
  }

  /** The refused associations of one context, in list order. */
  method OverZoneLimit(candidates: seq<Candidate>) returns (refused: seq<nat>)
    ensures Sorted(IntLeq, refused)
    ensures forall i :: i in refused <==> DoesNotFit(candidates, i)
  {
    var ranks, byZone := RankZones(candidates);
    if |ranks| <= MAX_ZONES {
      forall i ensures !DoesNotFit(candidates, i) { EverybodyFits(candidates, i); }
      return [];
    }
    var indexes := RefusedIndexes(candidates, ranks, byZone);
    refused := Sort(IntLeq, indexes);
    SortSorted(IntLeq, indexes);
    SameMembers(refused, indexes);
  }

  lemma TailRefused(candidates: seq<Candidate>, ordered: seq<Rank>)
    requires |Ranks(candidates)| > MAX_ZONES && ordered == Ordered(Ranks(candidates).Values) && |ordered| > MAX_ZONES
    ensures forall z :: z in Ranks(candidates) ==>
              (z !in KeptZones(candidates) <==> Ranks(candidates)[z] in ordered[MAX_ZONES..])
    ensures forall r :: r in ordered ==> r.uid in Ranks(candidates) && Ranks(candidates)[r.uid] == r
  {
    var ranks := Ranks(candidates);
    RanksKeyed(candidates);
    RankLinear();
    assert ordered == ordered[..MAX_ZONES] + ordered[MAX_ZONES..];
    forall z | z in ranks ensures z !in KeptZones(candidates) <==> ranks[z] in ordered[MAX_ZONES..] {
      KeptZoneRank(candidates, z);
      SplitOnce(ordered, MAX_ZONES, ranks[z]);
    }
  }

  lemma SplitOnce(s: seq<Rank>, n: nat, r: Rank)
    requires n <= |s| && r in s && forall i, j :: 0 <= i < j < |s| ==> s[i] != s[j]
    ensures r in Members(s[..n]) <==> r !in s[n..]
  {
    assert s == s[..n] + s[n..];
    if r in s[n..] {
      var j :| 0 <= j < |s[n..]| && s[n..][j] == r;
      assert forall i :: 0 <= i < n ==> s[..n][i] == s[i] != s[n + j];
    }
  }

  lemma TailIndexes(candidates: seq<Candidate>, tail: seq<Rank>, indexes: seq<nat>)
    requires forall i :: i in indexes <==> exists m :: 0 <= m < |tail| && i in IndexesOf(candidates, tail[m].uid)
    requires forall z :: z in Ranks(candidates) ==> (z !in KeptZones(candidates) <==> Ranks(candidates)[z] in tail)
    requires forall r :: r in tail ==> r.uid in Ranks(candidates) && Ranks(candidates)[r.uid] == r
    ensures forall i :: i in indexes <==> DoesNotFit(candidates, i)
  {
    RanksKeyed(candidates);
    forall i ensures i in indexes <==> DoesNotFit(candidates, i) {
      if i in indexes {
        var m :| 0 <= m < |tail| && i in IndexesOf(candidates, tail[m].uid);
        assert tail[m] in tail;
      }
      if c :| c in candidates && c.index == i && c.zone !in KeptZones(candidates) {
        assert Ranks(candidates)[c.zone] in tail;
        var m :| 0 <= m < |tail| && tail[m] == Ranks(candidates)[c.zone];
        assert i in IndexesOf(candidates, tail[m].uid);
      }
    }
  }
}
