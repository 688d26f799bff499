/** What acceptance means: which sources are accepted, and that everybody else is told why not. */
module Verdicts {
  import opened Text
  import opened Sorting
  import opened Sources
  import opened ClaimTable
  import opened Aggregation
  import opened Compiler
  import opened CompilerProofs
  import opened SrvProofs
  import opened Elders
  import opened Canonical

  lemma RegistrationUnmentioned(inp: Input, r: set<UID>, u: UID)
    requires WellFormed(inp) && u in RegistrationUids(inp) && r <= Rejectable(inp)
    ensures var st := StaticClaims(Rejecting(r), SortedStatics(inp)); Reason(st.reasons, u) == "" && u !in st.registrations
  {
    StaticAsksDistinct(inp, Sort(OlderStatic, inp.statics));
    StaticClaimsHold(Rejecting(r), SortedStatics(inp));
    StaticReasons(Rejecting(r), SortedStatics(inp), u);
    RejectingReason(r, u);
  }

  /** The registrations that ask before the `n`-th. */
  function Older(inp: Input, n: nat): seq<Registration>
    requires n <= |inp.registrations|
  {
    Sort(OlderRegistration, inp.registrations)[..n]
  }

  /**
   * The `n`-th oldest registration is accepted exactly when its own checks
   * accept it and none of its keys is in the way of a static set or an older
   * registration.
   */
  lemma RegistrationAcceptedIff(inp: Input, r: set<UID>, n: nat)
    requires WellFormed(inp) && r <= Rejectable(inp) && n < |inp.registrations|
    ensures var reg := Sort(OlderRegistration, inp.registrations)[n];
            reg.uid in AllClaims(inp, Rejecting(r)).registrations
            <==> RegistrationVerdict(inp, reg) == Accept
                 && !AnyContested(FrontClaims(inp, Rejecting(r), Older(inp, n)).held, RegistrationAskOf(inp, reg))
  {
    TurnOf(inp, Rejecting(r), n);
    AskAcceptedIff(inp, r, n);
  }

  lemma TurnOf(inp: Input, rejected: map<UID, string>, n: nat)
    requires n < |inp.registrations|
    ensures SortedRegistrations(inp)[n] == RegistrationAskOf(inp, Sort(OlderRegistration, inp.registrations)[n])
    ensures FrontClaims(inp, rejected, Older(inp, n)) == RegistrationClaims(StaticClaims(rejected, SortedStatics(inp)), SortedRegistrations(inp)[..n])
  {
    assert SortedRegistrations(inp)[..n] == RegistrationAsks(inp, Older(inp, n));
  }

  lemma AskAcceptedIff(inp: Input, r: set<UID>, n: nat)
    requires WellFormed(inp) && r <= Rejectable(inp) && n < |SortedRegistrations(inp)|
    ensures var st, asks := StaticClaims(Rejecting(r), SortedStatics(inp)), SortedRegistrations(inp);
            asks[n].uid in AllClaims(inp, Rejecting(r)).registrations
            <==> asks[n].verdict == Accept && !AnyContested(RegistrationClaims(st, asks[..n]).held, asks[n])
  {
    var asks := SortedRegistrations(inp);
    RegistrationAsksDistinct(inp, Sort(OlderRegistration, inp.registrations));
    assert asks[n] in asks && asks[n].uid in RegistrationAskUids(asks);
    RegistrationUnmentioned(inp, r, asks[n].uid);
    AcceptedAtTurn(StaticClaims(Rejecting(r), SortedStatics(inp)), asks, n);
  }

  lemma AcceptedVerdict(inp: Input, r: set<UID>, reg: Registration)
    requires WellFormed(inp) && r <= Rejectable(inp) && reg in inp.registrations && reg.uid in AllClaims(inp, Rejecting(r)).registrations
    ensures RegistrationVerdict(inp, reg) == Accept
  {
    var n := PlaceOf(inp.registrations, reg);
    RegistrationAcceptedIff(inp, r, n);
  }

  lemma PlaceOf(regs: seq<Registration>, reg: Registration) returns (n: nat)
    requires reg in regs
    ensures n < |regs| && Sort(OlderRegistration, regs)[n] == reg
  {
    var sorted := Sort(OlderRegistration, regs);
    SameMembers(sorted, regs);
    n :| 0 <= n < |sorted| && sorted[n] == reg;
  }

  // ----- TTLs ---------------------------------------------------------------

  lemma ContributedTtl(inp: Input, r: set<UID>, e: Entry)
    requires WellFormed(inp) && r <= Rejectable(inp) && e in Entries(inp, AllClaims(inp, Rejecting(r)), Rejecting(r)) && e.uid.Some?
    ensures 1 <= e.ttl <= MAX_TTL_SECONDS
  {
    var st := AllClaims(inp, Rejecting(r));
    EntrySide(inp, st, Rejecting(r), e);
    var c, reg, part, record := ContributedEntry(inp, st, Rejecting(r), e);
    ContributedKeyFree(inp, Rejecting(r), e, c, reg, part, record);
    AcceptedVerdict(inp, r, reg);
  }

  /** No RRset of contributed records lives longer in a cache than the registration limit. */
  lemma ContributedTtlBounded(inp: Input, s: RRSet)
    requires WellFormed(inp) && Compile(inp).Some? && s in Compile(inp).value.plan.rrsets && s.uids != []
    ensures 1 <= s.ttl <= MAX_TTL_SECONDS
  {
    var r := FinalRejected(inp);
    NobodyBlamed(inp);
    RoundTtlBounded(inp, r, s);
  }

  lemma RoundTtlBounded(inp: Input, r: set<UID>, s: RRSet)
    requires WellFormed(inp) && r <= Rejectable(inp) && s.uids != []
    requires s in RRSets(inp.marshal, Aggregates(Entries(inp, AllClaims(inp, Rejecting(r)), Rejecting(r))))
    ensures 1 <= s.ttl <= MAX_TTL_SECONDS
  {
    var entries := Entries(inp, AllClaims(inp, Rejecting(r)), Rejecting(r));
    var e := RRSetTtlIs(inp.marshal, entries, s);
    EntriesUnmixed(inp, Rejecting(r));
    OneKind(inp.marshal, entries, s, e);
    ContributedTtl(inp, r, e);
  }

  lemma OneKind(marshal: RecordEntry -> string, entries: seq<Entry>, s: RRSet, e: Entry)
    requires Unmixed(entries) && s in RRSets(marshal, Aggregates(entries)) && s.uids != []
    requires e in entries && e.key == Key(s.name, s.rtype)
    ensures e.uid.Some?
  {
    var i := EntryRecord(marshal, entries, e, s);
  }

  // ----- accepted or told why -----------------------------------------------

  lemma ContributionUnmentioned(inp: Input, r: set<UID>, u: UID)
    requires WellFormed(inp) && u in ContributionUids(inp)
    ensures Reason(AllClaims(inp, Rejecting(r)).reasons, u) == Reason(Rejecting(r), u)
  {
    StaticAsksDistinct(inp, Sort(OlderStatic, inp.statics));
    RegistrationAsksDistinct(inp, Sort(OlderRegistration, inp.registrations));
    StaticReasons(Rejecting(r), SortedStatics(inp), u);
    RegistrationReasons(StaticClaims(Rejecting(r), SortedStatics(inp)), SortedRegistrations(inp), u);
  }

  lemma AcceptedContribution(inp: Input, r: set<UID>, c: Contribution)
    requires WellFormed(inp) && c in inp.contributions
    ensures c.uid in CompileInputs(inp, Rejecting(r)).accepted <==> ContributionReason(inp, AllClaims(inp, Rejecting(r)), Rejecting(r), c) == ""
  {
    var st := AllClaims(inp, Rejecting(r));
    ClaimsHold(inp, Rejecting(r));
    assert c.uid in ContributionUids(inp);
    assert c.uid !in st.staticSets && c.uid !in st.registrations;
    OneContribution(inp, st, Rejecting(r), c);
  }

  lemma OneContribution(inp: Input, st: Claims, rejected: map<UID, string>, c: Contribution)
    requires WellFormed(inp) && c in inp.contributions
    ensures c.uid in AcceptedContributions(inp, st, rejected, inp.contributions) <==> ContributionReason(inp, st, rejected, c) == ""
  {
    if c.uid in AcceptedContributions(inp, st, rejected, inp.contributions) {
      var d :| d in inp.contributions && ContributionReason(inp, st, rejected, d) == "" && d.uid == c.uid;
      var i, j :| 0 <= i < |inp.contributions| && 0 <= j < |inp.contributions| && inp.contributions[i] == c && inp.contributions[j] == d;
    }
  }

  /** Every contribution is accepted or given a reason, and never both. */
  lemma AcceptedOrToldWhy(inp: Input, r: set<UID>, c: Contribution)
    requires WellFormed(inp) && c in inp.contributions
    ensures c.uid in CompileInputs(inp, Rejecting(r)).accepted <==> Reason(CompileInputs(inp, Rejecting(r)).reasons, c.uid) == ""
  {
    var st := AllClaims(inp, Rejecting(r));
    AcceptedContribution(inp, r, c);
    var n :| 0 <= n < |inp.contributions| && inp.contributions[n] == c;
    ReasonAt(inp, st, Rejecting(r), inp.contributions, n);
    assert c.uid in ContributionUids(inp);
    ContributionUnmentioned(inp, r, c.uid);
    if ContributionReason(inp, st, Rejecting(r), c) == "" {
      PublishedImplies(inp, st, Rejecting(r), c);
    }
  }
}
