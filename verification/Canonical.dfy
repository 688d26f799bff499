/** The compiled plan depends on which sources there are, not on the order they are listed in. */
module Canonical {
  import opened Text
  import opened Names
  import opened Sorting
  import opened Sources
  import opened ClaimTable
  import opened FenceTable
  import opened Aggregation
  import opened Compiler
  import opened CompilerProofs
  import opened SrvProofs
  import opened GreatestClosed
  import opened Elders

  /** The same sources listed in another order. */
  ghost predicate Reordered(a: Input, b: Input) {
    && multiset(a.registrations) == multiset(b.registrations)
    && multiset(a.contributions) == multiset(b.contributions)
    && multiset(a.statics) == multiset(b.statics)
    && b == a.(registrations := b.registrations, contributions := b.contributions, statics := b.statics)
  }

  lemma SameSources(a: Input, b: Input)
    requires Reordered(a, b)
    ensures forall r :: r in a.registrations <==> r in b.registrations
    ensures forall c :: c in a.contributions <==> c in b.contributions
    ensures forall s :: s in a.statics <==> s in b.statics
  {
    SameMembers(a.registrations, b.registrations);
    SameMembers(a.contributions, b.contributions);
    SameMembers(a.statics, b.statics);
  }

  lemma SameUids(a: Input, b: Input)
    requires Reordered(a, b)
    ensures RegistrationUids(a) == RegistrationUids(b) && ContributionUids(a) == ContributionUids(b) && StaticUids(a) == StaticUids(b)
  {
    SameSources(a, b);
  }

  lemma ReorderedWellFormed(a: Input, b: Input)
    requires WellFormed(a) && Reordered(a, b)
    ensures WellFormed(b)
    ensures RegistrationUids(a) == RegistrationUids(b) && ContributionUids(a) == ContributionUids(b) && StaticUids(a) == StaticUids(b)
  {
    SameUids(a, b);
    DistinctPermutation(a.registrations, b.registrations, (r: Registration) => r.uid);
    DistinctPermutation(a.contributions, b.contributions, (c: Contribution) => c.uid);
    DistinctPermutation(a.statics, b.statics, (s: StaticSet) => s.uid);
  }

  // ----- claims -------------------------------------------------------------

  lemma SameScopes(a: Input, b: Input)
    requires Reordered(a, b)
    ensures forall owner :: InReservedScope(a, owner) == InReservedScope(b, owner)
  {
    forall owner ensures InReservedScope(a, owner) == InReservedScope(b, owner) {
      ScopeFollows(a, b, owner);
      ScopeFollows(b, a, owner);
    }
  }

  lemma ScopeFollows(a: Input, b: Input, owner: string)
    requires Reordered(a, b)
    ensures InReservedScope(a, owner) ==> InReservedScope(b, owner)
  {
    SameSources(a, b);
    if InReservedScope(a, owner) {
      var r :| r in a.registrations && exists scope | scope in r.reserved ::
        Reserves(a, r, scope) && Within(RelativeOwner(owner, a.zone.domain), RelativeOwner(scope, a.zone.domain));
      var scope :| scope in r.reserved && Reserves(a, r, scope) && Within(RelativeOwner(owner, a.zone.domain), RelativeOwner(scope, a.zone.domain));
      assert r in b.registrations && Reserves(b, r, scope);
    }
  }

  lemma OwnsFollows(a: Input, b: Input, reg: Registration, apex: string)
    requires Reordered(a, b)
    ensures OwnsScopes(a, reg, apex) ==> OwnsScopes(b, reg, apex)
  {
    SameSources(a, b);
    if OwnsScopes(a, reg, apex) && b.zone.managed {
      forall r | r in b.registrations && r.uid != reg.uid
        ensures forall scope | scope in r.reserved && Reserves(b, r, scope) ::
          var s := RelativeOwner(scope, b.zone.domain);
          && !Within(RelativeOwner(reg.owner, apex), s)
          && forall d | d in reg.reserved ::
               !Within(RelativeOwner(d, apex), s) && !Within(s, RelativeOwner(d, apex))
      {
        assert r in a.registrations;
        assert forall scope :: Reserves(b, r, scope) == Reserves(a, r, scope);
      }
    }
  }

  lemma SameStaticAsk(a: Input, b: Input, rs: StaticSet)
    requires Reordered(a, b) && forall owner :: InReservedScope(a, owner) == InReservedScope(b, owner)
    ensures StaticAskOf(a, rs) == StaticAskOf(b, rs)
  {
    forall i | 0 <= i < |rs.records| ensures ItemOf(a, rs, rs.records[i]) == ItemOf(b, rs, rs.records[i]) {}
  }

  lemma SameRegistrationAsk(a: Input, b: Input, reg: Registration)
    requires Reordered(a, b) && OwnsScopes(a, reg, Apex(a)) == OwnsScopes(b, reg, Apex(a))
    ensures RegistrationAskOf(a, reg) == RegistrationAskOf(b, reg)
  {
  }

  lemma SameStaticAsks(a: Input, b: Input)
    requires WellFormed(a) && Reordered(a, b)
    ensures SortedStatics(a) == SortedStatics(b)
  {
    SameScopes(a, b);
    StaticOrder(a.statics);
    SortPermutation(OlderStatic, a.statics, b.statics);
    var sets := Sort(OlderStatic, a.statics);
    forall i | 0 <= i < |sets| ensures StaticAskOf(a, sets[i]) == StaticAskOf(b, sets[i]) { SameStaticAsk(a, b, sets[i]); }
  }

  lemma SameRegistrationAsks(a: Input, b: Input)
    requires WellFormed(a) && Reordered(a, b)
    ensures SortedRegistrations(a) == SortedRegistrations(b)
  {
    RegistrationOrder(a.registrations);
    SortPermutation(OlderRegistration, a.registrations, b.registrations);
    var regs := Sort(OlderRegistration, a.registrations);
    forall i | 0 <= i < |regs| ensures RegistrationAskOf(a, regs[i]) == RegistrationAskOf(b, regs[i]) {
      OwnsFollows(a, b, regs[i], Apex(a));
      OwnsFollows(b, a, regs[i], Apex(a));
      SameRegistrationAsk(a, b, regs[i]);
    }
  }

  lemma SameClaims(a: Input, b: Input, rejected: map<UID, string>)
    requires WellFormed(a) && Reordered(a, b)
    ensures AllClaims(a, rejected) == AllClaims(b, rejected)
  {
    SameStaticAsks(a, b);
    SameRegistrationAsks(a, b);
  }

  // ----- contributions ------------------------------------------------------

  lemma FindIs(regs: seq<Registration>, r: Registration)
    requires DistinctRegistrations(regs) && r in regs
    ensures FindRegistration(regs, r.uid) == Some(r)
  {
    var i :| 0 <= i < |regs| && regs[i] == r;
    if i < |regs| - 1 {
      assert r in regs[..|regs| - 1] by { assert regs[..|regs| - 1][i] == r; }
      FindIs(regs[..|regs| - 1], r);
    }
  }

  lemma SameFind(a: seq<Registration>, b: seq<Registration>, uid: UID)
    requires DistinctRegistrations(a) && DistinctRegistrations(b) && forall r :: r in a <==> r in b
    ensures FindRegistration(a, uid) == FindRegistration(b, uid)
  {
    FindByUid(a, uid);
    FindByUid(b, uid);
    if FindRegistration(a, uid).Some? { FindIs(b, FindRegistration(a, uid).value); }
  }

  lemma SameContribution(a: Input, b: Input, st: Claims, rejected: map<UID, string>, c: Contribution)
    requires WellFormed(a) && WellFormed(b) && Reordered(a, b)
    ensures RegistrationOf(a, st, c) == RegistrationOf(b, st, c)
    ensures ContributionReason(a, st, rejected, c) == ContributionReason(b, st, rejected, c)
  {
    SameSources(a, b);
    SameFind(a.registrations, b.registrations, c.registration.uid);
  }

  lemma SameEntriesOf(a: Input, b: Input, st: Claims, rejected: map<UID, string>, c: Contribution)
    requires WellFormed(a) && WellFormed(b) && Reordered(a, b)
    ensures EntriesOf(a, st, rejected)(c) == EntriesOf(b, st, rejected)(c)
  {
    SameContribution(a, b, st, rejected, c);
  }

  /** The records published are the same, in another order. */
  lemma EntriesReordered(a: Input, b: Input, st: Claims, rejected: map<UID, string>)
    requires WellFormed(a) && WellFormed(b) && Reordered(a, b)
    ensures multiset(Entries(a, st, rejected)) == multiset(Entries(b, st, rejected))
  {
    forall c | c in b.contributions ensures EntriesOf(a, st, rejected)(c) == EntriesOf(b, st, rejected)(c) { SameEntriesOf(a, b, st, rejected, c); }
    forall rs | rs in b.statics ensures StaticEntriesOf(a, st)(rs) == StaticEntriesOf(b, st)(rs) {}
    FlatMapPermutation(EntriesOf(a, st, rejected), a.contributions, b.contributions);
    FlatMapSame(EntriesOf(a, st, rejected), EntriesOf(b, st, rejected), b.contributions);
    FlatMapPermutation(StaticEntriesOf(a, st), a.statics, b.statics);
    FlatMapSame(StaticEntriesOf(a, st), StaticEntriesOf(b, st), b.statics);
  }

  lemma SameFences(a: Input, b: Input, st: Claims)
    requires WellFormed(a) && WellFormed(b) && Reordered(a, b)
    ensures FinalFences(a, st) == FinalFences(b, st)
  {
    ReorderedWellFormed(a, b);
    var x, y := Observations(a, st, a.contributions), Observations(b, st, b.contributions);
    forall o ensures o in x <==> o in y {
      ObservationsFollow(a, b, st, o);
      ObservationsFollow(b, a, st, o);
    }
    FencesPermutation(PreviousFences(a), ContributionUids(a), x, y);
  }

  lemma ObservationsFollow(a: Input, b: Input, st: Claims, o: Observation)
    requires WellFormed(a) && WellFormed(b) && Reordered(a, b)
    ensures o in Observations(a, st, a.contributions) ==> o in Observations(b, st, b.contributions)
  {
    var x := Observations(a, st, a.contributions);
    if o in x {
      var i :| 0 <= i < |x| && x[i] == o;
      var c := a.contributions[i];
      SameSources(a, b);
      assert c in b.contributions;
      var j :| 0 <= j < |b.contributions| && b.contributions[j] == c;
      SameContribution(a, b, st, map[], c);
      assert Observations(b, st, b.contributions)[j] == o;
    }
  }

  lemma SameAccepted(a: Input, b: Input, st: Claims, rejected: map<UID, string>)
    requires WellFormed(a) && WellFormed(b) && Reordered(a, b)
    ensures AcceptedContributions(a, st, rejected, a.contributions) == AcceptedContributions(b, st, rejected, b.contributions)
  {
    SameSources(a, b);
    forall c ensures ContributionReason(a, st, rejected, c) == ContributionReason(b, st, rejected, c) {
      SameContribution(a, b, st, rejected, c);
    }
  }

  // ----- reasons ------------------------------------------------------------

  /** The entry of `u` in a reason map `m` over `base`, when its own reason is `reason`. */
  predicate EntryIs(m: map<UID, string>, base: map<UID, string>, u: UID, reason: string) {
    if reason != "" then u in m && m[u] == reason else (u in m <==> u in base) && (u in m ==> m[u] == base[u])
  }

  lemma {:induction false} ReasonAt(inp: Input, st: Claims, rejected: map<UID, string>, cs: seq<Contribution>, n: nat)
    requires DistinctContributions(cs) && n < |cs|
    ensures EntryIs(ContributionReasons(inp, st, rejected, cs), st.reasons, cs[n].uid, ContributionReason(inp, st, rejected, cs[n]))
  {
    var before, last := cs[..|cs| - 1], cs[|cs| - 1];
    if n < |cs| - 1 {
      assert before[n] == cs[n];
      ReasonAt(inp, st, rejected, before, n);
      assert last.uid != cs[n].uid;
      EntryKept(ContributionReasons(inp, st, rejected, before), st.reasons, cs[n].uid, ContributionReason(inp, st, rejected, cs[n]),
                last.uid, ContributionReason(inp, st, rejected, last));
    } else {
      OtherReasons(inp, st, rejected, before, cs[n].uid);
    }
  }

  lemma EntryKept(m: map<UID, string>, base: map<UID, string>, u: UID, reason: string, other: UID, more: string)
    requires EntryIs(m, base, u, reason) && other != u
    ensures EntryIs(if more == "" then m else m[other := more], base, u, reason)
  {
  }

  lemma SameReasonAt(a: Input, b: Input, st: Claims, rejected: map<UID, string>, u: UID)
    requires WellFormed(a) && WellFormed(b) && Reordered(a, b)
    ensures var x, y := ContributionReasons(a, st, rejected, a.contributions), ContributionReasons(b, st, rejected, b.contributions);
            (u in x <==> u in y) && (u in x ==> x[u] == y[u])
  {
    SameSources(a, b);
    if i :| 0 <= i < |a.contributions| && a.contributions[i].uid == u {
      var c := a.contributions[i];
      assert c in b.contributions;
      var j :| 0 <= j < |b.contributions| && b.contributions[j] == c;
      ReasonAt(a, st, rejected, a.contributions, i);
      ReasonAt(b, st, rejected, b.contributions, j);
      SameContribution(a, b, st, rejected, c);
    } else {
      OtherReasons(a, st, rejected, a.contributions, u);
      forall j | 0 <= j < |b.contributions| ensures b.contributions[j].uid != u {
        assert b.contributions[j] in a.contributions;
      }
      OtherReasons(b, st, rejected, b.contributions, u);
    }
  }

  lemma SameReasons(a: Input, b: Input, st: Claims, rejected: map<UID, string>)
    requires WellFormed(a) && WellFormed(b) && Reordered(a, b)
    ensures ContributionReasons(a, st, rejected, a.contributions) == ContributionReasons(b, st, rejected, b.contributions)
  {
    forall u ensures var x, y := ContributionReasons(a, st, rejected, a.contributions), ContributionReasons(b, st, rejected, b.contributions);
                     (u in x <==> u in y) && (u in x ==> x[u] == y[u])
    {
      SameReasonAt(a, b, st, rejected, u);
    }
  }

  // ----- TTLs ---------------------------------------------------------------

  predicate InDescendants(reg: Registration, name: string, apex: string) {
    exists scope | scope in reg.reserved :: NameInScope(name, scope, apex)
  }

  /** No name lies in reserved subtrees of two accepted registrations. */
  ghost predicate DescendantsApart(inp: Input, st: Claims) {
    forall a, b, name | a in inp.registrations && b in inp.registrations && a.uid != b.uid ::
      a.uid in st.registrations && b.uid in st.registrations && InDescendants(a, name, Apex(inp)) ==>
        !InDescendants(b, name, Apex(inp))
  }

  /** What an accepted registration claims is in nobody else's way only if it is its own. */
  lemma OwnNameContested(inp: Input, rejected: map<UID, string>, reg: Registration, key: Key, other: UID)
    requires WellFormed(inp) && reg in inp.registrations && reg.uid in AllClaims(inp, rejected).registrations && other != reg.uid
    requires key.name == ZoneOwner(reg.owner, Apex(inp)) && key.rtype in reg.types
    ensures Contested(AllClaims(inp, rejected).held, key, other)
  {
    ClaimsHold(inp, rejected);
    AskOfRegistration(inp, reg);
    var ask := RegistrationAskOf(inp, reg);
    assert key in ask.keys;
    assert ask.uid in AllClaims(inp, rejected).registrations;
  }

  lemma OneRegistrationPerKey(inp: Input, rejected: map<UID, string>, x: Entry, y: Entry,
                              c: Contribution, reg: Registration, part: ContributionSet, record: RecordEntry,
                              d: Contribution, other: Registration, opart: ContributionSet, orecord: RecordEntry)
    requires WellFormed(inp) && DescendantsApart(inp, AllClaims(inp, rejected)) && x.key == y.key
    requires Contributes(inp, AllClaims(inp, rejected), rejected, x, c, reg, part, record)
    requires Contributes(inp, AllClaims(inp, rejected), rejected, y, d, other, opart, orecord)
    ensures reg.uid == other.uid
  {
    ContributedKeyFree(inp, rejected, x, c, reg, part, record);
    ContributedKeyFree(inp, rejected, y, d, other, opart, orecord);
    if reg.uid != other.uid {
      if x.key.name == ZoneOwner(reg.owner, Apex(inp)) {
        OwnNameContested(inp, rejected, reg, x.key, other.uid);
      } else if x.key.name == ZoneOwner(other.owner, Apex(inp)) {
        OwnNameContested(inp, rejected, other, x.key, reg.uid);
      } else {
        assert InDescendants(reg, x.key.name, Apex(inp)) && InDescendants(other, x.key.name, Apex(inp));
      }
    }
  }

  lemma SameUidSameRegistration(inp: Input, a: Registration, b: Registration)
    requires WellFormed(inp) && a in inp.registrations && b in inp.registrations && a.uid == b.uid
    ensures a == b
  {
    var i, j :| 0 <= i < |inp.registrations| && 0 <= j < |inp.registrations| && inp.registrations[i] == a && inp.registrations[j] == b;
  }

  lemma ContributedTtls(inp: Input, rejected: map<UID, string>, x: Entry, y: Entry)
    requires WellFormed(inp) && DescendantsApart(inp, AllClaims(inp, rejected)) && x.key == y.key
    requires x in FlatMap(EntriesOf(inp, AllClaims(inp, rejected), rejected), inp.contributions)
    requires y in FlatMap(EntriesOf(inp, AllClaims(inp, rejected), rejected), inp.contributions)
    ensures x.ttl == y.ttl
  {
    var st := AllClaims(inp, rejected);
    var c, reg, part, record := ContributedEntry(inp, st, rejected, x);
    var d, other, opart, orecord := ContributedEntry(inp, st, rejected, y);
    OneRegistrationPerKey(inp, rejected, x, y, c, reg, part, record, d, other, opart, orecord);
    ContributedKeyFree(inp, rejected, x, c, reg, part, record);
    ContributedKeyFree(inp, rejected, y, d, other, opart, orecord);
    SameUidSameRegistration(inp, reg, other);
  }

  lemma EntrySide(inp: Input, st: Claims, rejected: map<UID, string>, e: Entry)
    requires e in Entries(inp, st, rejected)
    ensures if e.uid.Some? then e in FlatMap(EntriesOf(inp, st, rejected), inp.contributions)
            else e in FlatMap(StaticEntriesOf(inp, st), inp.statics) && e.ttl == StaticTtl(st, e.key)
  {
    if e in FlatMap(EntriesOf(inp, st, rejected), inp.contributions) {
      var c, reg, part, record := ContributedEntry(inp, st, rejected, e);
    } else {
      var rs, record := StaticEntry(inp, st, e);
    }
  }

  lemma TtlsAgree(inp: Input, rejected: map<UID, string>)
    requires WellFormed(inp) && DescendantsApart(inp, AllClaims(inp, rejected))
    ensures AgreedTtls(Entries(inp, AllClaims(inp, rejected), rejected))
  {
    var st := AllClaims(inp, rejected);
    var entries := Entries(inp, st, rejected);
    forall x, y | x in entries && y in entries && x.key == y.key ensures x.ttl == y.ttl {
      EntryKinds(inp, rejected, x);
      EntryKinds(inp, rejected, y);
      EntrySide(inp, st, rejected, x);
      EntrySide(inp, st, rejected, y);
      if x.uid.Some? { ContributedTtls(inp, rejected, x, y); }
    }
  }

  // ----- blame --------------------------------------------------------------

  /** An SRV record whose target is not served. */
  predicate DanglingEntry(inp: Input, entries: seq<Entry>, e: Entry) {
    && e.key.rtype == SRV && e.record.srv.Some?
    && SrvTargetOwner(e.record.srv.value, Apex(inp)) !in Addresses(inp, entries)
  }

  /** `u` is at fault for entry `e`. */
  ghost predicate AtFault(owners: seq<Owner>, e: Entry, u: UID) {
    if e.uid.Some? then e.uid.value == u else exists o :: o in owners && o.name == e.key.name && o.staticSet == u && u != ""
  }

  ghost predicate FaultyEntry(inp: Input, owners: seq<Owner>, entries: seq<Entry>, u: UID) {
    exists e :: e in entries && DanglingEntry(inp, entries, e) && AtFault(owners, e, u)
  }

  lemma BlameToEntry(inp: Input, rejected: map<UID, string>, u: UID)
    requires WellFormed(inp) && u in InvalidSrvSources(CompileInputs(inp, rejected).plan)
    ensures FaultyEntry(inp, PlanOwners(AllClaims(inp, rejected)), Entries(inp, AllClaims(inp, rejected), rejected), u)
  {
    var entries := Entries(inp, AllClaims(inp, rejected), rejected);
    var plan := CompileInputs(inp, rejected).plan;
    var s, i := WhoIsBlamed(plan, u);
    PlanAddresses(inp, rejected);
    EntriesUnmixed(inp, rejected);
    RRSetRecords(inp.marshal, entries, s, i);
    var e :| e in entries && e.key == Key(s.name, s.rtype) && e.record == s.records[i]
             && e.uid == if i < |s.uids| then Some(s.uids[i]) else None;
    FaultOf(inp, rejected, s, i, e, u);
  }

  lemma FaultOf(inp: Input, rejected: map<UID, string>, s: RRSet, i: nat, e: Entry, u: UID)
    requires e.key == Key(s.name, s.rtype) && e.uid == if i < |s.uids| then Some(s.uids[i]) else None
    ensures u in Blamed(CompileInputs(inp, rejected).plan, s, i) <==> AtFault(PlanOwners(AllClaims(inp, rejected)), e, u)
  {
    var owners := PlanOwners(AllClaims(inp, rejected));
    assert CompileInputs(inp, rejected).plan.owners == owners;
    BlamedOf(CompileInputs(inp, rejected).plan, s, i, e, u);
  }

  lemma BlamedOf(plan: Plan, s: RRSet, i: nat, e: Entry, u: UID)
    requires e.key == Key(s.name, s.rtype) && e.uid == if i < |s.uids| then Some(s.uids[i]) else None
    ensures u in Blamed(plan, s, i) <==> AtFault(plan.owners, e, u)
  {
  }

  lemma EntryToBlame(inp: Input, rejected: map<UID, string>, e: Entry, u: UID)
    requires WellFormed(inp) && e in Entries(inp, AllClaims(inp, rejected), rejected)
    requires DanglingEntry(inp, Entries(inp, AllClaims(inp, rejected), rejected), e) && AtFault(PlanOwners(AllClaims(inp, rejected)), e, u)
    ensures u in InvalidSrvSources(CompileInputs(inp, rejected).plan)
  {
    var entries := Entries(inp, AllClaims(inp, rejected), rejected);
    var plan := CompileInputs(inp, rejected).plan;
    PlanAddresses(inp, rejected);
    EntryPublished(inp.marshal, entries, e);
    var s :| s in RRSets(inp.marshal, Aggregates(entries)) && s.name == e.key.name && s.rtype == e.key.rtype;
    EntriesUnmixed(inp, rejected);
    var i := EntryRecord(inp.marshal, entries, e, s);
    FaultOf(inp, rejected, s, i, e, u);
    assert s in plan.rrsets && Dangling(AddressNames(plan), plan.apex, s, i);
  }

  lemma SameFaults(a: Input, b: Input, owners: seq<Owner>, x: seq<Entry>, y: seq<Entry>, u: UID)
    requires Apex(a) == Apex(b) && forall e :: e in x <==> e in y
    ensures FaultyEntry(a, owners, x, u) ==> FaultyEntry(b, owners, y, u)
  {
    assert Addresses(a, x) == Addresses(b, y);
    if FaultyEntry(a, owners, x, u) {
      var e :| e in x && DanglingEntry(a, x, e) && AtFault(owners, e, u);
      assert DanglingEntry(b, y, e);
    }
  }

  lemma BlameFollows(a: Input, b: Input, r: set<UID>, u: UID)
    requires WellFormed(a) && WellFormed(b) && Reordered(a, b) && u in BlameAfter(a, r)
    ensures u in BlameAfter(b, r)
  {
    var rejected := Rejecting(r);
    SameClaims(a, b, rejected);
    EntriesReordered(a, b, AllClaims(a, rejected), rejected);
    var x, y := Entries(a, AllClaims(a, rejected), rejected), Entries(b, AllClaims(b, rejected), rejected);
    SameMembers(x, y);
    BlameToEntry(a, rejected, u);
    var owners := PlanOwners(AllClaims(a, rejected));
    SameFaults(a, b, owners, x, y, u);
    var e :| e in y && DanglingEntry(b, y, e) && AtFault(owners, e, u);
    EntryToBlame(b, rejected, e, u);
  }

  lemma SameBlame(a: Input, b: Input, r: set<UID>)
    requires WellFormed(a) && WellFormed(b) && Reordered(a, b)
    ensures BlameAfter(a, r) == BlameAfter(b, r)
  {
    forall u ensures u in BlameAfter(a, r) <==> u in BlameAfter(b, r) {
      if u in BlameAfter(a, r) { BlameFollows(a, b, r, u); }
      if u in BlameAfter(b, r) { BlameFollows(b, a, r, u); }
    }
  }

  lemma {:induction false} SameFinalFrom(a: Input, b: Input, r: set<UID>)
    requires WellFormed(a) && WellFormed(b) && Reordered(a, b) && r <= Rejectable(a) == Rejectable(b)
    ensures FinalFrom(a, r) == FinalFrom(b, r)
    decreases |Rejectable(a) - r|
  {
    var bad := SameRound(a, b, r);
    if bad != {} {
      SameFinalFrom(a, b, r + bad);
    }
  }

  lemma SameRound(a: Input, b: Input, r: set<UID>) returns (bad: set<UID>)
    requires WellFormed(a) && WellFormed(b) && Reordered(a, b) && r <= Rejectable(a) == Rejectable(b)
    ensures r + bad <= Rejectable(a) && (bad != {} ==> |Rejectable(a) - (r + bad)| < |Rejectable(a) - r|)
    ensures FinalFrom(a, r) == if bad == {} then r else FinalFrom(a, r + bad)
    ensures FinalFrom(b, r) == if bad == {} then r else FinalFrom(b, r + bad)
  {
    SameBlame(a, b, r);
    RoundProgress(a, r);
    bad := BlameAfter(a, r);
    FinalFromStep(a, r, bad);
    FinalFromStep(b, r, bad);
  }

  lemma SameFinalRejected(a: Input, b: Input)
    requires WellFormed(a) && WellFormed(b) && Reordered(a, b)
    ensures FinalRejected(a) == FinalRejected(b)
  {
    SameUids(a, b);
    SameFinalFrom(a, b, {});
  }

  // ----- the plan -----------------------------------------------------------

  lemma SameRRSetsOf(a: Input, b: Input, rejected: map<UID, string>)
    requires WellFormed(a) && WellFormed(b) && Reordered(a, b) && Lawful(a.marshal)
    requires AgreedTtls(Entries(a, AllClaims(a, rejected), rejected))
    ensures RRSets(a.marshal, Aggregates(Entries(a, AllClaims(a, rejected), rejected)))
            == RRSets(b.marshal, Aggregates(Entries(b, AllClaims(b, rejected), rejected)))
  {
    SameClaims(a, b, rejected);
    EntriesReordered(a, b, AllClaims(a, rejected), rejected);
    EntriesUnmixed(a, rejected);
    RRSetsPermutation(a.marshal, Entries(a, AllClaims(a, rejected), rejected), Entries(b, AllClaims(b, rejected), rejected));
  }

  lemma SamePlanRegistrations(a: Input, b: Input, accepted: set<UID>)
    requires WellFormed(a) && WellFormed(b) && Reordered(a, b)
    ensures PlanRegistrations(a.registrations, accepted) == PlanRegistrations(b.registrations, accepted)
  {
    SameSources(a, b);
    forall u ensures RegistrationFenceOf(a.registrations, u) == RegistrationFenceOf(b.registrations, u) {
      SameFind(a.registrations, b.registrations, u);
    }
  }

  lemma SamePlanFor(a: Input, b: Input, st: Claims, rejected: map<UID, string>)
    requires WellFormed(a) && WellFormed(b) && Reordered(a, b)
    requires RRSets(a.marshal, Aggregates(Entries(a, st, rejected))) == RRSets(b.marshal, Aggregates(Entries(b, st, rejected)))
    ensures PlanFor(a, st, rejected) == PlanFor(b, st, rejected)
  {
    SameFences(a, b, st);
    SamePlanRegistrations(a, b, st.registrations);
  }

  lemma SameCompilation(a: Input, b: Input, rejected: map<UID, string>)
    requires WellFormed(a) && WellFormed(b) && Reordered(a, b) && Lawful(a.marshal)
    requires AgreedTtls(Entries(a, AllClaims(a, rejected), rejected))
    ensures CompileInputs(a, rejected) == CompileInputs(b, rejected)
  {
    SameClaims(a, b, rejected);
    SameRRSetsOf(a, b, rejected);
    var st := AllClaims(a, rejected);
    SamePlanFor(a, b, st, rejected);
    SameAccepted(a, b, st, rejected);
    SameReasons(a, b, st, rejected);
  }

  /**
   * Canonical plan: listing the registrations, contributions and static sets
   * in another order changes neither the plan nor the accepted set nor the
   * reasons, provided the reserved subtrees of the accepted registrations do
   * not overlap.
   */
  lemma PlanIsCanonical(a: Input, b: Input)
    requires WellFormed(a) && Reordered(a, b) && Lawful(a.marshal)
    requires DescendantsApart(a, AllClaims(a, Rejecting(FinalRejected(a))))
    ensures WellFormed(b) && Compile(a) == Compile(b)
  {
    ReorderedWellFormed(a, b);
    SameFinalRejected(a, b);
    TtlsAgree(a, Rejecting(FinalRejected(a)));
    SameCompilation(a, b, Rejecting(FinalRejected(a)));
  }
}
