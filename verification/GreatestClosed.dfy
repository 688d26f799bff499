/**
 * When no static set is rejected for SRV targets, the contributions that
 * Compile accepts are the largest closed set of acceptable ones.
 */
module GreatestClosed {
  import opened Text
  import opened Names
  import opened Sorting
  import opened Sources
  import opened ClaimTable
  import opened Aggregation
  import opened Compiler
  import opened CompilerProofs
  import opened SrvProofs

  // ----- claims do not depend on rejected contributions ---------------------

  /** The claims when nothing is rejected. */
  function BaseClaims(inp: Input): Claims {
    AllClaims(inp, map[])
  }

  lemma ClaimsUnmoved(inp: Input, r: set<UID>)
    requires WellFormed(inp) && r <= ContributionUids(inp)
    ensures SameGrants(AllClaims(inp, Rejecting(r)), BaseClaims(inp))
  {
    var uids := StaticUids(inp) + RegistrationUids(inp);
    assert AgreeOn(Rejecting(r), map[], uids) by {
      forall u | u in uids ensures Reason(Rejecting(r), u) == Reason(map[], u) { RejectingReason(r, u); }
    }
    StaticAsksDistinct(inp, Sort(OlderStatic, inp.statics));
    RegistrationAsksDistinct(inp, Sort(OlderRegistration, inp.registrations));
    StaticClaimsAlike(Rejecting(r), map[], SortedStatics(inp), uids);
    RegistrationClaimsAlike(StaticClaims(Rejecting(r), SortedStatics(inp)), StaticClaims(map[], SortedStatics(inp)), SortedRegistrations(inp), uids);
  }

  lemma SameContributionReason(inp: Input, a: Claims, b: Claims, rejected: map<UID, string>, c: Contribution)
    requires SameGrants(a, b)
    ensures RegistrationOf(inp, a, c) == RegistrationOf(inp, b, c)
    ensures ContributionReason(inp, a, rejected, c) == ContributionReason(inp, b, rejected, c)
  {
  }

  lemma SameEntries(inp: Input, a: Claims, b: Claims, rejected: map<UID, string>)
    requires SameGrants(a, b)
    ensures Entries(inp, a, rejected) == Entries(inp, b, rejected)
  {
    forall c | c in inp.contributions ensures EntriesOf(inp, a, rejected)(c) == EntriesOf(inp, b, rejected)(c) {
      SameContributionReason(inp, a, b, rejected, c);
    }
    FlatMapSame(EntriesOf(inp, a, rejected), EntriesOf(inp, b, rejected), inp.contributions);
    forall rs | rs in inp.statics ensures StaticEntriesOf(inp, a)(rs) == StaticEntriesOf(inp, b)(rs) {
      forall record | record in rs.records
        ensures StaticRecordEntries(a, rs, Apex(inp))(record) == StaticRecordEntries(b, rs, Apex(inp))(record) {}
      FlatMapSame(StaticRecordEntries(a, rs, Apex(inp)), StaticRecordEntries(b, rs, Apex(inp)), rs.records);
    }
    FlatMapSame(StaticEntriesOf(inp, a), StaticEntriesOf(inp, b), inp.statics);
  }

  // ----- closed sets of contributions ---------------------------------------

  /** The records published when exactly the contributions in `s` are let through. */
  function Offered(inp: Input, s: set<UID>): seq<Entry> {
    Entries(inp, BaseClaims(inp), Rejecting(ContributionUids(inp) - s))
  }

  function Addresses(inp: Input, entries: seq<Entry>): set<string> {
    set e | e in entries && IsAddress(e.key.rtype) :: AbsoluteOwner(e.key.name, Apex(inp))
  }

  /** A contributed SRV record. */
  predicate IsSrv(e: Entry) {
    e.uid.Some? && e.key.rtype == SRV && e.record.srv.Some?
  }

  /** Every SRV record the contributions in `s` publish has its target served with them. */
  ghost predicate Closed(inp: Input, s: set<UID>) {
    forall e :: e in Offered(inp, s) && IsSrv(e) ==>
      SrvTargetOwner(e.record.srv.value, Apex(inp)) in Addresses(inp, Offered(inp, s))
  }

  /** The contributions that nothing but SRV targets could refuse. */
  function Acceptable(inp: Input): set<UID> {
    set c | c in inp.contributions && ContributionRefusal(inp, BaseClaims(inp), c) == "" :: c.uid
  }

  /** Letting more contributions through publishes no fewer records. */
  lemma OfferedMore(inp: Input, s: set<UID>, t: set<UID>, e: Entry)
    requires s <= t && e in Offered(inp, s)
    ensures e in Offered(inp, t)
  {
    var st, rs, rt := BaseClaims(inp), Rejecting(ContributionUids(inp) - s), Rejecting(ContributionUids(inp) - t);
    if e in FlatMap(EntriesOf(inp, st, rs), inp.contributions) {
      var c, reg, part, record := ContributedEntry(inp, st, rs, e);
      PublishedImplies(inp, st, rs, c);
      RejectingReason(ContributionUids(inp) - s, c.uid);
      RejectingReason(ContributionUids(inp) - t, c.uid);
      EntryOfContribution(inp, st, rt, c, reg, part, record);
    }
  }

  /** A record of a contribution in `s` that is published at all is published with `s`. */
  lemma OfferedOwn(inp: Input, s: set<UID>, t: set<UID>, e: Entry)
    requires e in Offered(inp, t) && e.uid.Some? && e.uid.value in s
    ensures e in Offered(inp, s)
  {
    var st, rs, rt := BaseClaims(inp), Rejecting(ContributionUids(inp) - s), Rejecting(ContributionUids(inp) - t);
    if e in FlatMap(EntriesOf(inp, st, rt), inp.contributions) {
      var c, reg, part, record := ContributedEntry(inp, st, rt, e);
      PublishedImplies(inp, st, rt, c);
      RejectingReason(ContributionUids(inp) - s, c.uid);
      EntryOfContribution(inp, st, rs, c, reg, part, record);
    } else {
      var x, record := StaticEntry(inp, st, e);
      assert false;
    }
  }

  lemma AddressesMore(inp: Input, s: set<UID>, t: set<UID>)
    requires s <= t
    ensures Addresses(inp, Offered(inp, s)) <= Addresses(inp, Offered(inp, t))
  {
    forall e | e in Offered(inp, s) ensures e in Offered(inp, t) { OfferedMore(inp, s, t, e); }
  }

  // ----- the plan of a round ------------------------------------------------

  lemma RoundEntries(inp: Input, r: set<UID>)
    requires WellFormed(inp) && r <= ContributionUids(inp)
    ensures Entries(inp, AllClaims(inp, Rejecting(r)), Rejecting(r)) == Offered(inp, ContributionUids(inp) - r)
  {
    ClaimsUnmoved(inp, r);
    SameEntries(inp, AllClaims(inp, Rejecting(r)), BaseClaims(inp), Rejecting(r));
    assert ContributionUids(inp) - (ContributionUids(inp) - r) == r;
  }

  lemma PlanAddresses(inp: Input, rejected: map<UID, string>)
    ensures AddressNames(CompileInputs(inp, rejected).plan)
            == Addresses(inp, Entries(inp, AllClaims(inp, rejected), rejected))
  {
    var entries := Entries(inp, AllClaims(inp, rejected), rejected);
    var plan := CompileInputs(inp, rejected).plan;
    assert plan.rrsets == RRSets(inp.marshal, Aggregates(entries)) && plan.apex == Apex(inp);
    SameAddresses(inp, entries, plan);
  }

  lemma SameAddresses(inp: Input, entries: seq<Entry>, plan: Plan)
    requires plan.rrsets == RRSets(inp.marshal, Aggregates(entries)) && plan.apex == Apex(inp)
    ensures AddressNames(plan) == Addresses(inp, entries)
  {
    forall name ensures name in AddressNames(plan) <==> name in Addresses(inp, entries) {
      if name in AddressNames(plan) {
        var s :| s in plan.rrsets && IsAddress(s.rtype) && AbsoluteOwner(s.name, plan.apex) == name;
        RRSetAt(inp.marshal, entries, s);
        AggregateAt(entries, Key(s.name, s.rtype));
        var at := At(entries, Key(s.name, s.rtype));
        assert at[0] in at && at[0] in entries && at[0].key == Key(s.name, s.rtype);
      }
      if name in Addresses(inp, entries) {
        var e :| e in entries && IsAddress(e.key.rtype) && AbsoluteOwner(e.key.name, Apex(inp)) == name;
        EntryPublished(inp.marshal, entries, e);
      }
    }
  }

  // ----- the largest closed set ---------------------------------------------

  /** In a round, the source blamed for a contributed record dangles on what the round publishes. */
  lemma BlamedDangles(inp: Input, r: set<UID>, u: UID) returns (e: Entry)
    requires WellFormed(inp) && r <= ContributionUids(inp) && u in BlameAfter(inp, r) && u in ContributionUids(inp)
    ensures var offered := Offered(inp, ContributionUids(inp) - r);
            && e in offered && IsSrv(e) && e.uid == Some(u)
            && SrvTargetOwner(e.record.srv.value, Apex(inp)) !in Addresses(inp, offered)
  {
    var rejected := Rejecting(r);
    var plan := CompileInputs(inp, rejected).plan;
    var s, i := WhoIsBlamed(plan, u);
    NotStatic(inp, rejected, s, i, u);
    e := BlamedEntry(inp, rejected, s, i);
    RoundEntries(inp, r);
    PlanAddresses(inp, rejected);
  }

  lemma StaticOwnerUid(inp: Input, rejected: map<UID, string>, o: Owner)
    requires WellFormed(inp) && o in CompileInputs(inp, rejected).plan.owners && o.staticSet != ""
    ensures o.staticSet !in ContributionUids(inp)
  {
    OwnerBlamed(inp, rejected, o);
  }

  lemma NotStatic(inp: Input, rejected: map<UID, string>, s: RRSet, i: nat, u: UID)
    requires WellFormed(inp) && u in ContributionUids(inp) && u in Blamed(CompileInputs(inp, rejected).plan, s, i)
    ensures i < |s.uids| && s.uids[i] == u
  {
    var plan := CompileInputs(inp, rejected).plan;
    forall o | o in plan.owners && o.staticSet != "" ensures o.staticSet !in ContributionUids(inp) {
      StaticOwnerUid(inp, rejected, o);
    }
    BlamedDirectly(plan, s, i, u, ContributionUids(inp));
  }

  lemma BlamedDirectly(plan: Plan, s: RRSet, i: nat, u: UID, uids: set<UID>)
    requires u in uids && u in Blamed(plan, s, i) && forall o :: o in plan.owners && o.staticSet != "" ==> o.staticSet !in uids
    ensures i < |s.uids| && s.uids[i] == u
  {
  }

  lemma BlamedEntry(inp: Input, rejected: map<UID, string>, s: RRSet, i: nat) returns (e: Entry)
    requires WellFormed(inp) && s in RRSets(inp.marshal, Aggregates(Entries(inp, AllClaims(inp, rejected), rejected)))
    requires i < |s.records| && i < |s.uids|
    ensures e in Entries(inp, AllClaims(inp, rejected), rejected)
    ensures e.key == Key(s.name, s.rtype) && e.record == s.records[i] && e.uid == Some(s.uids[i])
  {
    EntriesUnmixed(inp, rejected);
    RRSetRecords(inp.marshal, Entries(inp, AllClaims(inp, rejected), rejected), s, i);
    e :| e in Entries(inp, AllClaims(inp, rejected), rejected) && e.key == Key(s.name, s.rtype)
         && e.record == s.records[i] && e.uid == Some(s.uids[i]);
  }

  /** A closed set is not blamed in any round that still publishes all of it. */
  lemma ClosedSpared(inp: Input, s: set<UID>, r: set<UID>)
    requires WellFormed(inp) && Closed(inp, s) && s <= ContributionUids(inp) && r <= ContributionUids(inp) && s !! r
    ensures s !! BlameAfter(inp, r)
  {
    var rest := ContributionUids(inp) - r;
    AddressesMore(inp, s, rest);
    forall u | u in s && u in BlameAfter(inp, r) ensures false {
      var e := BlamedDangles(inp, r, u);
      OfferedOwn(inp, s, rest, e);
    }
  }

  /** Every closed set of contributions survives the rejection loop. */
  lemma {:induction false} ClosedSurvivesFrom(inp: Input, s: set<UID>, r: set<UID>)
    requires WellFormed(inp) && r <= Rejectable(inp) && FinalFrom(inp, r) <= ContributionUids(inp)
    requires Closed(inp, s) && s <= ContributionUids(inp) && s !! r
    ensures s !! FinalFrom(inp, r)
    decreases |Rejectable(inp) - r|
  {
    ClosedSpared(inp, s, r);
    if BlameAfter(inp, r) != {} {
      RoundProgress(inp, r);
      ClosedSurvivesFrom(inp, s, r + BlameAfter(inp, r));
    }
  }

  lemma ClosedSurvives(inp: Input, s: set<UID>)
    requires WellFormed(inp) && FinalRejected(inp) !! StaticUids(inp)
    requires Closed(inp, s) && s <= ContributionUids(inp)
    ensures s !! FinalRejected(inp)
  {
    NobodyBlamed(inp);
    ClosedSurvivesFrom(inp, s, {});
  }

  lemma EntryDangles(inp: Input, rejected: map<UID, string>, e: Entry)
    requires WellFormed(inp) && e in Entries(inp, AllClaims(inp, rejected), rejected) && IsSrv(e)
    requires InvalidSrvSources(CompileInputs(inp, rejected).plan) == {}
    ensures SrvTargetOwner(e.record.srv.value, Apex(inp)) in AddressNames(CompileInputs(inp, rejected).plan)
  {
    var entries := Entries(inp, AllClaims(inp, rejected), rejected);
    var plan := CompileInputs(inp, rejected).plan;
    assert plan.rrsets == RRSets(inp.marshal, Aggregates(entries)) && plan.apex == Apex(inp);
    EntryPublished(inp.marshal, entries, e);
    var s :| s in plan.rrsets && s.name == e.key.name && s.rtype == e.key.rtype;
    EntriesUnmixed(inp, rejected);
    var i := EntryRecord(inp.marshal, entries, e, s);
    DanglingBlamed(inp, rejected, s, i);
  }

  /** What is left in the end is closed. */
  lemma RestClosed(inp: Input)
    requires WellFormed(inp) && FinalRejected(inp) !! StaticUids(inp)
    ensures Closed(inp, ContributionUids(inp) - FinalRejected(inp))
  {
    var r := FinalRejected(inp);
    NobodyBlamed(inp);
    assert r <= ContributionUids(inp);
    RoundEntries(inp, r);
    PlanAddresses(inp, Rejecting(r));
    forall e | e in Offered(inp, ContributionUids(inp) - r) && IsSrv(e)
      ensures SrvTargetOwner(e.record.srv.value, Apex(inp)) in Addresses(inp, Offered(inp, ContributionUids(inp) - r))
    {
      EntryDangles(inp, Rejecting(r), e);
    }
  }

  /** The contributions accepted in the end. */
  ghost function AcceptedIn(inp: Input): set<UID>
    requires WellFormed(inp) && Compile(inp).Some?
  {
    Compile(inp).value.accepted * ContributionUids(inp)
  }

  lemma AcceptedAre(inp: Input)
    requires WellFormed(inp) && Compile(inp).Some? && FinalRejected(inp) !! StaticUids(inp)
    ensures AcceptedIn(inp) == Acceptable(inp) - FinalRejected(inp)
  {
    var r := FinalRejected(inp);
    var rejected := Rejecting(r);
    NobodyBlamed(inp);
    assert r <= ContributionUids(inp);
    ClaimsUnmoved(inp, r);
    ClaimsHold(inp, rejected);
    forall c | c in inp.contributions
      ensures ContributionReason(inp, AllClaims(inp, rejected), rejected, c) == ""
              <==> ContributionRefusal(inp, BaseClaims(inp), c) == "" && c.uid !in r
    {
      SameContributionReason(inp, AllClaims(inp, rejected), BaseClaims(inp), rejected, c);
      RejectingReason(r, c.uid);
      ReasonSplits(inp, BaseClaims(inp), rejected, c);
    }
    AcceptedMembers(inp, AllClaims(inp, rejected), rejected, r);
    AcceptedSplit(inp, rejected, r);
  }

  lemma ReasonSplits(inp: Input, st: Claims, rejected: map<UID, string>, c: Contribution)
    ensures ContributionReason(inp, st, rejected, c) == ""
            <==> ContributionRefusal(inp, st, c) == "" && Reason(rejected, c.uid) == ""
  {
  }

  lemma AcceptedMembers(inp: Input, st: Claims, rejected: map<UID, string>, r: set<UID>)
    requires forall c :: c in inp.contributions ==>
               (ContributionReason(inp, st, rejected, c) == "" <==> ContributionRefusal(inp, BaseClaims(inp), c) == "" && c.uid !in r)
    ensures AcceptedContributions(inp, st, rejected, inp.contributions) == Acceptable(inp) - r
  {
    forall u ensures u in AcceptedContributions(inp, st, rejected, inp.contributions) <==> u in Acceptable(inp) && u !in r {
      if u in AcceptedContributions(inp, st, rejected, inp.contributions) {
        var c :| c in inp.contributions && ContributionReason(inp, st, rejected, c) == "" && c.uid == u;
        AcceptableUid(inp, c);
      }
      if u in Acceptable(inp) && u !in r {
        var c :| c in inp.contributions && ContributionRefusal(inp, BaseClaims(inp), c) == "" && c.uid == u;
      }
    }
  }

  lemma AcceptableUid(inp: Input, c: Contribution)
    requires c in inp.contributions && ContributionRefusal(inp, BaseClaims(inp), c) == ""
    ensures c.uid in Acceptable(inp) && c.uid in ContributionUids(inp)
  {
  }

  lemma AcceptedSplit(inp: Input, rejected: map<UID, string>, r: set<UID>)
    requires WellFormed(inp)
    requires AllClaims(inp, rejected).staticSets <= StaticUids(inp) && AllClaims(inp, rejected).registrations <= RegistrationUids(inp)
    requires AcceptedContributions(inp, AllClaims(inp, rejected), rejected, inp.contributions) == Acceptable(inp) - r
    ensures CompileInputs(inp, rejected).accepted * ContributionUids(inp) == Acceptable(inp) - r
  {
    AcceptableListed(inp);
  }

  lemma AcceptableListed(inp: Input)
    ensures Acceptable(inp) <= ContributionUids(inp)
  {
  }

  lemma OnlyAcceptableMatter(inp: Input, s: set<UID>, t: set<UID>)
    requires s * Acceptable(inp) == t * Acceptable(inp) && Closed(inp, s)
    ensures Closed(inp, t)
  {
    forall e ensures e in Offered(inp, s) <==> e in Offered(inp, t) {
      OfferedSame(inp, s, t, e);
      OfferedSame(inp, t, s, e);
    }
  }

  lemma OfferedSame(inp: Input, s: set<UID>, t: set<UID>, e: Entry)
    requires s * Acceptable(inp) == t * Acceptable(inp)
    ensures e in Offered(inp, s) ==> e in Offered(inp, t)
  {
    var st, rs, rt := BaseClaims(inp), Rejecting(ContributionUids(inp) - s), Rejecting(ContributionUids(inp) - t);
    if e in FlatMap(EntriesOf(inp, st, rs), inp.contributions) {
      var c, reg, part, record := ContributedEntry(inp, st, rs, e);
      LetThrough(inp, s, t, c);
      EntryOfContribution(inp, st, rt, c, reg, part, record);
    }
  }

  lemma LetThrough(inp: Input, s: set<UID>, t: set<UID>, c: Contribution)
    requires s * Acceptable(inp) == t * Acceptable(inp) && c in inp.contributions
    requires ContributionReason(inp, BaseClaims(inp), Rejecting(ContributionUids(inp) - s), c) == ""
    ensures ContributionReason(inp, BaseClaims(inp), Rejecting(ContributionUids(inp) - t), c) == ""
  {
    ReasonSplits(inp, BaseClaims(inp), Rejecting(ContributionUids(inp) - s), c);
    ReasonSplits(inp, BaseClaims(inp), Rejecting(ContributionUids(inp) - t), c);
    RejectingReason(ContributionUids(inp) - s, c.uid);
    RejectingReason(ContributionUids(inp) - t, c.uid);
    AcceptableUid(inp, c);
    SharedMember(s, t, Acceptable(inp), c.uid);
  }

  lemma SharedMember(s: set<UID>, t: set<UID>, a: set<UID>, u: UID)
    requires s * a == t * a && u in a
    ensures u in s <==> u in t
  {
    assert u in s * a <==> u in s;
    assert u in t * a <==> u in t;
  }

  /**
   * When no static set is rejected for its SRV targets, the accepted
   * contributions are closed, and every closed set of acceptable
   * contributions is among them.
   */
  lemma LargestClosedSet(inp: Input, s: set<UID>)
    requires WellFormed(inp) && Compile(inp).Some? && FinalRejected(inp) !! StaticUids(inp)
    ensures AcceptedIn(inp) <= Acceptable(inp) && Closed(inp, AcceptedIn(inp))
    ensures s <= Acceptable(inp) && Closed(inp, s) ==> s <= AcceptedIn(inp)
  {
    AcceptedAre(inp);
    AcceptedClosed(inp);
    if s <= Acceptable(inp) && Closed(inp, s) {
      AcceptableListed(inp);
      ClosedSurvives(inp, s);
    }
  }

  lemma AcceptedClosed(inp: Input)
    requires WellFormed(inp) && FinalRejected(inp) !! StaticUids(inp)
    ensures Closed(inp, Acceptable(inp) - FinalRejected(inp))
  {
    RestClosed(inp);
    AcceptableListed(inp);
    SameShare(ContributionUids(inp), FinalRejected(inp), Acceptable(inp));
    OnlyAcceptableMatter(inp, ContributionUids(inp) - FinalRejected(inp), Acceptable(inp) - FinalRejected(inp));
  }

  lemma SameShare(all: set<UID>, r: set<UID>, a: set<UID>)
    requires a <= all
    ensures (all - r) * a == (a - r) * a
  {
  }
}
