/** The rejection loop: every SRV record of the final plan has an address for its target. */
module SrvProofs {
  import opened Text
  import opened Names
  import opened Sorting
  import opened Sources
  import opened ClaimTable
  import opened Aggregation
  import opened Compiler
  import opened CompilerProofs
  import opened Rounds

  // ----- termination --------------------------------------------------------

  function Rejecting(bad: set<UID>): map<UID, string> {
    map u | u in bad :: MISSING_SRV_TARGET
  }

  /** The sources that may be rejected for SRV. */
  ghost function Rejectable(inp: Input): set<UID> {
    ContributionUids(inp) + StaticUids(inp)
  }

  lemma EntryBlamed(inp: Input, rejected: map<UID, string>, e: Entry)
    requires WellFormed(inp) && e in Entries(inp, AllClaims(inp, rejected), rejected) && e.uid.Some?
    ensures e.uid.value in ContributionUids(inp) && Reason(rejected, e.uid.value) == ""
  {
    var st := AllClaims(inp, rejected);
    if e in FlatMap(EntriesOf(inp, st, rejected), inp.contributions) {
      var c, reg, part, record := ContributedEntry(inp, st, rejected, e);
      PublishedImplies(inp, st, rejected, c);
    } else {
      var rs, record := StaticEntry(inp, st, e);
    }
  }

  lemma OwnerBlamed(inp: Input, rejected: map<UID, string>, o: Owner)
    requires WellFormed(inp) && o in PlanOwners(AllClaims(inp, rejected)) && o.staticSet != ""
    ensures o.staticSet in StaticUids(inp) && Reason(rejected, o.staticSet) == ""
  {
    var key := OwnedKey(AllClaims(inp, rejected), o);
    ClaimsHold(inp, rejected);
    RejectedStaticsOut(inp, rejected, o.staticSet);
  }

  /** Every listed owner stands for a claimed key, and every claimed key is listed. */
  lemma OwnedKey(st: Claims, o: Owner) returns (key: Key)
    requires o in PlanOwners(st)
    ensures key in st.held && o == OwnerOf(st, key)
  {
    KeyLinear();
    var keys := SortedSet(KeyLeq, st.held.Keys);
    var i :| 0 <= i < |keys| && PlanOwners(st)[i] == o;
    key := keys[i];
    assert key in keys;
  }

  lemma OwnerListed(st: Claims, key: Key)
    requires key in st.held
    ensures OwnerOf(st, key) in PlanOwners(st)
  {
    KeyLinear();
    var keys := SortedSet(KeyLeq, st.held.Keys);
    var i :| 0 <= i < |keys| && keys[i] == key;
    assert PlanOwners(st)[i] == OwnerOf(st, key);
  }

  lemma WhoIsBlamed(plan: Plan, u: UID) returns (s: RRSet, i: nat)
    requires u in InvalidSrvSources(plan)
    ensures s in plan.rrsets && i < |s.records| && u in Blamed(plan, s, i)
    ensures Dangling(AddressNames(plan), plan.apex, s, i)
  {
    s, i :| s in plan.rrsets && 0 <= i < |s.records| && Dangling(AddressNames(plan), plan.apex, s, i) && u in Blamed(plan, s, i);
  }

  lemma RecordBlamed(inp: Input, rejected: map<UID, string>, s: RRSet, i: nat)
    requires WellFormed(inp) && s in RRSets(inp.marshal, Aggregates(Entries(inp, AllClaims(inp, rejected), rejected)))
    requires i < |s.records| && i < |s.uids|
    ensures s.uids[i] in ContributionUids(inp) && Reason(rejected, s.uids[i]) == ""
  {
    EntriesUnmixed(inp, rejected);
    RRSetRecords(inp.marshal, Entries(inp, AllClaims(inp, rejected), rejected), s, i);
    var e :| e in Entries(inp, AllClaims(inp, rejected), rejected) && e.uid == Some(s.uids[i]);
    EntryBlamed(inp, rejected, e);
  }

  /** A source found at fault in a round had not been rejected before it. */
  lemma BlamedFresh(inp: Input, rejected: map<UID, string>, u: UID)
    requires WellFormed(inp) && u in InvalidSrvSources(CompileInputs(inp, rejected).plan)
    ensures u in Rejectable(inp) && Reason(rejected, u) == ""
  {
    var plan := CompileInputs(inp, rejected).plan;
    var s, i := WhoIsBlamed(plan, u);
    if i < |s.uids| {
      RecordBlamed(inp, rejected, s, i);
    } else {
      var o :| o in plan.owners && o.staticSet == u && u != "";
      OwnerBlamed(inp, rejected, o);
    }
  }

  /** The sources at fault once `rejected` have been rejected. */
  ghost function BlameAfter(inp: Input, rejected: set<UID>): set<UID> {
    InvalidSrvSources(CompileInputs(inp, Rejecting(rejected)).plan)
  }

  lemma RejectingReason(r: set<UID>, u: UID)
    ensures Reason(Rejecting(r), u) == "" <==> u !in r
  {
  }

  lemma BlamedOnce(inp: Input, r: set<UID>)
    requires WellFormed(inp)
    ensures BlameAfter(inp, r) <= Rejectable(inp) && BlameAfter(inp, r) !! r
  {
    forall u | u in BlameAfter(inp, r) ensures u in Rejectable(inp) && u !in r {
      BlamedFresh(inp, Rejecting(r), u);
      RejectingReason(r, u);
    }
  }

  /** Each round rejects only sources not rejected before, so fewer are left. */
  lemma RoundProgress(inp: Input, r: set<UID>)
    requires WellFormed(inp) && r <= Rejectable(inp)
    ensures r + BlameAfter(inp, r) <= Rejectable(inp)
    ensures BlameAfter(inp, r) != {} ==> |Rejectable(inp) - (r + BlameAfter(inp, r))| < |Rejectable(inp) - r|
  {
    BlamedOnce(inp, r);
    if BlameAfter(inp, r) != {} {
      RoundShrinks(Rejectable(inp), r, BlameAfter(inp, r));
    }
  }

  /** What the loop ends up rejecting once `r` have been rejected. */
  ghost function FinalFrom(inp: Input, r: set<UID>): (f: set<UID>)
    requires WellFormed(inp) && r <= Rejectable(inp)
    ensures r <= f <= Rejectable(inp)
    decreases |Rejectable(inp) - r|
  {
    RoundProgress(inp, r);
    var bad := BlameAfter(inp, r);
    if bad == {} then r else FinalFrom(inp, r + bad)
  }

  lemma FinalFromStep(inp: Input, r: set<UID>, bad: set<UID>)
    requires WellFormed(inp) && r <= Rejectable(inp) && r + bad <= Rejectable(inp)
    requires bad == BlameAfter(inp, r)
    ensures FinalFrom(inp, r) == if bad == {} then r else FinalFrom(inp, r + bad)
  {
  }

  /** The sources Compile ends up rejecting for SRV targets; only well-formed inputs have any. */
  ghost function FinalRejected(inp: Input): set<UID> {
    if WellFormed(inp) then FinalFrom(inp, {}) else {}
  }

  /** When the loop stops, nobody is to blame. */
  lemma {:induction false} FinalBlamesNobody(inp: Input, r: set<UID>)
    requires WellFormed(inp) && r <= Rejectable(inp)
    ensures BlameAfter(inp, FinalFrom(inp, r)) == {}
    decreases |Rejectable(inp) - r|
  {
    if BlameAfter(inp, r) != {} {
      RoundProgress(inp, r);
      FinalBlamesNobody(inp, r + BlameAfter(inp, r));
    }
  }

  lemma NobodyBlamed(inp: Input)
    requires WellFormed(inp)
    ensures BlameAfter(inp, FinalRejected(inp)) == {} && FinalRejected(inp) <= Rejectable(inp)
  {
    FinalBlamesNobody(inp, {});
  }

  /** The compiled zone; None when the zone has no UID or is not private. */
  ghost function Compile(inp: Input): Option<Compiled> {
    if inp.zone.uid == "" || !inp.zone.isPrivate then None
    else Some(CompileInputs(inp, Rejecting(FinalRejected(inp))))
  }

  // ----- every SRV target has an address ------------------------------------

  lemma StaticOwnerListed(inp: Input, rejected: map<UID, string>, key: Key)
    requires WellFormed(inp) && key in AllClaims(inp, rejected).statics
    ensures exists o :: o in CompileInputs(inp, rejected).plan.owners && o.name == key.name && o.staticSet != ""
  {
    var st := AllClaims(inp, rejected);
    ClaimsHold(inp, rejected);
    assert st.statics[key] in StaticUids(inp);
    OwnerListed(st, key);
    assert OwnerOf(st, key) in CompileInputs(inp, rejected).plan.owners;
  }

  lemma StaticRecordListed(inp: Input, rejected: map<UID, string>, s: RRSet, i: nat)
    requires WellFormed(inp) && s in RRSets(inp.marshal, Aggregates(Entries(inp, AllClaims(inp, rejected), rejected)))
    requires |s.uids| <= i < |s.records|
    ensures exists o :: o in CompileInputs(inp, rejected).plan.owners && o.name == s.name && o.staticSet != ""
  {
    EntriesUnmixed(inp, rejected);
    RRSetRecords(inp.marshal, Entries(inp, AllClaims(inp, rejected), rejected), s, i);
    var e :| e in Entries(inp, AllClaims(inp, rejected), rejected) && e.uid == None && e.key == Key(s.name, s.rtype);
    EntryKinds(inp, rejected, e);
    StaticOwnerListed(inp, rejected, e.key);
  }

  /** A dangling record is always somebody's fault. */
  lemma DanglingBlamed(inp: Input, rejected: map<UID, string>, s: RRSet, i: nat)
    requires WellFormed(inp) && s in CompileInputs(inp, rejected).plan.rrsets && i < |s.records|
    ensures var plan := CompileInputs(inp, rejected).plan;
            Dangling(AddressNames(plan), plan.apex, s, i) ==> InvalidSrvSources(plan) != {}
  {
    var plan := CompileInputs(inp, rejected).plan;
    var u: UID;
    if i < |s.uids| {
      u := s.uids[i];
    } else {
      StaticRecordListed(inp, rejected, s, i);
      var o :| o in plan.owners && o.name == s.name && o.staticSet != "";
      u := o.staticSet;
    }
    assert u in Blamed(plan, s, i);
    assert Dangling(AddressNames(plan), plan.apex, s, i) ==> u in InvalidSrvSources(plan);
  }

  /**
   * In a compiled plan every SRV record targets a name that has an A or AAAA
   * RRset in the same plan.
   */
  lemma SrvTargetsResolve(inp: Input, s: RRSet, i: nat)
    requires WellFormed(inp) && Compile(inp).Some?
    requires s in Compile(inp).value.plan.rrsets && s.rtype == SRV && i < |s.records| && s.records[i].srv.Some?
    ensures var plan := Compile(inp).value.plan;
            exists a :: a in plan.rrsets && IsAddress(a.rtype)
                        && AbsoluteOwner(a.name, plan.apex) == SrvTargetOwner(s.records[i].srv.value, plan.apex)
  {
    var rejected := FinalRejected(inp);
    NobodyBlamed(inp);
    DanglingBlamed(inp, Rejecting(rejected), s, i);
  }
}
