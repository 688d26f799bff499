/** What one round of compilation guarantees, for every input. */
module CompilerProofs {
  import opened Text
  import opened Sorting
  import opened Sources
  import opened ClaimTable
  import opened FenceTable
  import opened Aggregation
  import opened Compiler

  // ----- sorted sources are still distinct ----------------------------------

  lemma StaticAsksDistinct(inp: Input, sets: seq<StaticSet>)
    requires multiset(sets) == multiset(inp.statics) && DistinctStatics(inp.statics)
    ensures DistinctStaticAsks(StaticAsks(inp, sets))
    ensures StaticAskUids(StaticAsks(inp, sets)) == StaticUids(inp)
  {
    DistinctPermutation(inp.statics, sets, (s: StaticSet) => s.uid);
    var asks := StaticAsks(inp, sets);
    forall u ensures u in StaticAskUids(asks) <==> u in StaticUids(inp) {
      if s :| s in sets && s.uid == u {
        var i :| 0 <= i < |sets| && sets[i] == s;
        assert asks[i] in asks && asks[i].uid == u;
      }
    }
  }

  lemma RegistrationAsksDistinct(inp: Input, regs: seq<Registration>)
    requires multiset(regs) == multiset(inp.registrations) && DistinctRegistrations(inp.registrations)
    ensures DistinctRegistrationAsks(RegistrationAsks(inp, regs))
    ensures RegistrationAskUids(RegistrationAsks(inp, regs)) == RegistrationUids(inp)
  {
    DistinctPermutation(inp.registrations, regs, (r: Registration) => r.uid);
    var asks := RegistrationAsks(inp, regs);
    forall u ensures u in RegistrationAskUids(asks) <==> u in RegistrationUids(inp) {
      if r :| r in regs && r.uid == u {
        var i :| 0 <= i < |regs| && regs[i] == r;
        assert asks[i] in asks && asks[i].uid == u;
      }
    }
  }

  // ----- claims -------------------------------------------------------------

  /** The claim table of every round is sound. */
  lemma ClaimsHold(inp: Input, rejected: map<UID, string>)
    requires WellFormed(inp)
    ensures Table(SortedStatics(inp), SortedRegistrations(inp), AllClaims(inp, rejected))
    ensures AllClaims(inp, rejected).staticSets <= StaticUids(inp)
    ensures AllClaims(inp, rejected).registrations <= RegistrationUids(inp)
    ensures AllClaims(inp, rejected).staticSets == StaticClaims(rejected, SortedStatics(inp)).staticSets
  {
    StaticAsksDistinct(inp, Sort(OlderStatic, inp.statics));
    RegistrationAsksDistinct(inp, Sort(OlderRegistration, inp.registrations));
    StaticClaimsHold(rejected, SortedStatics(inp));
    RegistrationClaimsHold(SortedStatics(inp), StaticClaims(rejected, SortedStatics(inp)), SortedRegistrations(inp));
  }

  lemma RejectedStaticsOut(inp: Input, rejected: map<UID, string>, u: UID)
    requires WellFormed(inp) && u in AllClaims(inp, rejected).staticSets
    ensures Reason(rejected, u) == "" && u in StaticUids(inp)
  {
    ClaimsHold(inp, rejected);
    StaticReasons(rejected, SortedStatics(inp), u);
  }

  lemma AskOfRegistration(inp: Input, reg: Registration)
    requires reg in inp.registrations
    ensures RegistrationAskOf(inp, reg) in SortedRegistrations(inp)
  {
    var regs := Sort(OlderRegistration, inp.registrations);
    SameMembers(regs, inp.registrations);
    var i :| 0 <= i < |regs| && regs[i] == reg;
    assert SortedRegistrations(inp)[i] == RegistrationAskOf(inp, reg);
  }

  lemma AskOfStatic(inp: Input, rs: StaticSet)
    requires rs in inp.statics
    ensures StaticAskOf(inp, rs) in SortedStatics(inp)
  {
    var sets := Sort(OlderStatic, inp.statics);
    SameMembers(sets, inp.statics);
    var i :| 0 <= i < |sets| && sets[i] == rs;
    assert SortedStatics(inp)[i] == StaticAskOf(inp, rs);
  }

  /** A published static record stands on its own set's claim. */
  lemma StaticKeyClaimed(inp: Input, rejected: map<UID, string>, rs: StaticSet, record: RecordEntry)
    requires WellFormed(inp) && rs in inp.statics && record in rs.records
    requires rs.uid in AllClaims(inp, rejected).staticSets
    ensures var st, key := AllClaims(inp, rejected), StaticKey(rs, record, Apex(inp));
            key in st.statics && st.statics[key] == rs.uid
  {
    ClaimsHold(inp, rejected);
    AskOfStatic(inp, rs);
    var ask := StaticAskOf(inp, rs);
    var i :| 0 <= i < |rs.records| && rs.records[i] == record;
    assert ask.items[i] in ask.items;
  }

  lemma {:induction false} FindByUid(regs: seq<Registration>, uid: UID)
    ensures FindRegistration(regs, uid).Some? ==>
              FindRegistration(regs, uid).value in regs && FindRegistration(regs, uid).value.uid == uid
    ensures FindRegistration(regs, uid).None? <==> forall r :: r in regs ==> r.uid != uid
  {
    if regs != [] {
      FindByUid(regs[..|regs| - 1], uid);
      assert regs == regs[..|regs| - 1] + [regs[|regs| - 1]];
    }
  }

  lemma {:induction false} OtherReasons(inp: Input, st: Claims, rejected: map<UID, string>, cs: seq<Contribution>, u: UID)
    requires forall c :: c in cs ==> c.uid != u
    ensures var m := ContributionReasons(inp, st, rejected, cs); (u in m <==> u in st.reasons) && Reason(m, u) == Reason(st.reasons, u)
  {
    if cs != [] {
      OtherReasons(inp, st, rejected, cs[..|cs| - 1], u);
    }
  }

  /**
   * Exclusive claims: the keys of two accepted registrations are disjoint, so
   * are those of a registration and of the static sets, and a CNAME excludes
   * every other source from its name.
   */
  lemma ExclusiveClaims(inp: Input, rejected: map<UID, string>, a: Registration, b: Registration)
    requires WellFormed(inp) && a in inp.registrations && b in inp.registrations && a.uid != b.uid
    requires a.uid in AllClaims(inp, rejected).registrations && b.uid in AllClaims(inp, rejected).registrations
    ensures ClaimedKeys(a, Apex(inp)) !! ClaimedKeys(b, Apex(inp))
    ensures ClaimedKeys(a, Apex(inp)) !! AllClaims(inp, rejected).statics.Keys
    ensures forall k, other :: k in ClaimedKeys(a, Apex(inp)) && other in AllClaims(inp, rejected).held
                               && k.name == other.name && AllClaims(inp, rejected).held[other] != a.uid ==>
              k.rtype != CNAME && other.rtype != CNAME
  {
    ClaimsHold(inp, rejected);
    AskOfRegistration(inp, a);
    AskOfRegistration(inp, b);
    assert RegistrationAskOf(inp, a).keys == ClaimedKeys(a, Apex(inp));
    assert RegistrationAskOf(inp, b).keys == ClaimedKeys(b, Apex(inp));
  }

  // ----- where published records come from ----------------------------------

  /** Entry `e` is record `record` of contribution `c`, published under `reg`. */
  ghost predicate Contributes(inp: Input, st: Claims, rejected: map<UID, string>, e: Entry,
                              c: Contribution, reg: Registration, part: ContributionSet, record: RecordEntry) {
    && c in inp.contributions && RegistrationOf(inp, st, c) == Some(reg)
    && ContributionReason(inp, st, rejected, c) == ""
    && part in c.sets && record in part.records
    && e.key == ContributionKey(part, record, Apex(inp)) && e.record == Named(e.key, record)
    && e.uid == Some(c.uid) && e.ttl == reg.ttl
  }

  lemma ContributedEntry(inp: Input, st: Claims, rejected: map<UID, string>, e: Entry)
      returns (c: Contribution, reg: Registration, part: ContributionSet, record: RecordEntry)
    requires e in FlatMap(EntriesOf(inp, st, rejected), inp.contributions)
    ensures Contributes(inp, st, rejected, e, c, reg, part, record)
  {
    FlatMapMembers(EntriesOf(inp, st, rejected), inp.contributions, e);
    c :| c in inp.contributions && e in EntriesOf(inp, st, rejected)(c);
    reg := RegistrationOf(inp, st, c).value;
    part, record := EntryPlace(reg, c, Apex(inp), e);
  }

  lemma EntryPlace(reg: Registration, c: Contribution, apex: string, e: Entry) returns (part: ContributionSet, record: RecordEntry)
    requires e in FlatMap(PartEntries(reg, c, apex), c.sets)
    ensures part in c.sets && record in part.records && e.key == ContributionKey(part, record, apex)
    ensures e.record == Named(e.key, record) && e.uid == Some(c.uid) && e.ttl == reg.ttl
  {
    FlatMapMembers(PartEntries(reg, c, apex), c.sets, e);
    part :| part in c.sets && e in PartEntries(reg, c, apex)(part);
    FlatMapMembers(RecordEntries(reg, c, apex, part), part.records, e);
    record :| record in part.records && e in RecordEntries(reg, c, apex, part)(record);
  }

  lemma EntryOfContribution(inp: Input, st: Claims, rejected: map<UID, string>,
                            c: Contribution, reg: Registration, part: ContributionSet, record: RecordEntry)
    requires c in inp.contributions && RegistrationOf(inp, st, c) == Some(reg)
    requires ContributionReason(inp, st, rejected, c) == "" && part in c.sets && record in part.records
    ensures var key := ContributionKey(part, record, Apex(inp));
            Entry(key, Named(key, record), Some(c.uid), reg.ttl) in Entries(inp, st, rejected)
  {
    var key := ContributionKey(part, record, Apex(inp));
    var e := Entry(key, Named(key, record), Some(c.uid), reg.ttl);
    assert e in RecordEntries(reg, c, Apex(inp), part)(record);
    FlatMapMembers(RecordEntries(reg, c, Apex(inp), part), part.records, e);
    FlatMapMembers(PartEntries(reg, c, Apex(inp)), c.sets, e);
    assert e in EntriesOf(inp, st, rejected)(c);
    FlatMapMembers(EntriesOf(inp, st, rejected), inp.contributions, e);
  }

  lemma StaticEntry(inp: Input, st: Claims, e: Entry) returns (rs: StaticSet, record: RecordEntry)
    requires e in FlatMap(StaticEntriesOf(inp, st), inp.statics)
    ensures rs in inp.statics && rs.uid in st.staticSets && rs.zone == inp.zone.name && record in rs.records
    ensures e.key == StaticKey(rs, record, Apex(inp)) && e.record == Named(e.key, record)
    ensures e.uid == None && e.ttl == StaticTtl(st, e.key)
  {
    FlatMapMembers(StaticEntriesOf(inp, st), inp.statics, e);
    rs :| rs in inp.statics && e in StaticEntriesOf(inp, st)(rs);
    FlatMapMembers(StaticRecordEntries(st, rs, Apex(inp)), rs.records, e);
    record :| record in rs.records && e in StaticRecordEntries(st, rs, Apex(inp))(record);
  }

  lemma PublishedImplies(inp: Input, st: Claims, rejected: map<UID, string>, c: Contribution)
    requires ContributionReason(inp, st, rejected, c) == ""
    ensures Reason(rejected, c.uid) == "" && !c.deleting && RegistrationOf(inp, st, c).Some?
    ensures ContributionRefusal(inp, st, c) == ""
    ensures Refusal(ObservationOf(RegistrationOf(inp, st, c), c), FenceOf(PreviousFences(inp), c.uid)) == ""
    ensures BundleValid(st.held, RegistrationOf(inp, st, c).value, Apex(inp), c)
  {
  }

  /** No contributed record lands on another source's claim. */
  lemma ContributedKeyFree(inp: Input, rejected: map<UID, string>, e: Entry,
                           c: Contribution, reg: Registration, part: ContributionSet, record: RecordEntry)
    requires WellFormed(inp) && Contributes(inp, AllClaims(inp, rejected), rejected, e, c, reg, part, record)
    ensures !Contested(AllClaims(inp, rejected).held, e.key, reg.uid) && e.key !in AllClaims(inp, rejected).statics
    ensures InRegistration(reg, e.key.name, Apex(inp)) && e.key.rtype in reg.types
    ensures reg in inp.registrations && reg.uid in AllClaims(inp, rejected).registrations
  {
    var st := AllClaims(inp, rejected);
    ClaimsHold(inp, rejected);
    FindByUid(inp.registrations, c.registration.uid);
    assert reg.uid in RegistrationUids(inp);
    assert forall k :: k in st.statics ==> Contested(st.held, k, reg.uid);
    PublishedImplies(inp, st, rejected, c);
    assert PartValid(st.held, reg, Apex(inp), part);
    assert RecordValid(st.held, reg, Apex(inp), part, record);
  }

  lemma EntryKinds(inp: Input, rejected: map<UID, string>, e: Entry)
    requires WellFormed(inp) && e in Entries(inp, AllClaims(inp, rejected), rejected)
    ensures e.uid.Some? <==> e.key !in AllClaims(inp, rejected).statics
  {
    var st := AllClaims(inp, rejected);
    if e in FlatMap(EntriesOf(inp, st, rejected), inp.contributions) {
      var c, reg, part, record := ContributedEntry(inp, st, rejected, e);
      ContributedKeyFree(inp, rejected, e, c, reg, part, record);
    } else {
      var rs, record := StaticEntry(inp, st, e);
      StaticKeyClaimed(inp, rejected, rs, record);
    }
  }

  lemma EntriesUnmixed(inp: Input, rejected: map<UID, string>)
    requires WellFormed(inp)
    ensures Unmixed(Entries(inp, AllClaims(inp, rejected), rejected))
  {
    forall e | e in Entries(inp, AllClaims(inp, rejected), rejected)
      ensures e.uid.Some? <==> e.key !in AllClaims(inp, rejected).statics
    {
      EntryKinds(inp, rejected, e);
    }
  }

  // ----- fences -------------------------------------------------------------

  lemma {:induction false} FenceMapAt(fences: seq<Fence>, i: nat)
    requires i < |fences| && DistinctFences(fences)
    ensures fences[i].uid in FenceMap(fences) && FenceMap(fences)[fences[i].uid] == fences[i]
  {
    if i < |fences| - 1 {
      FenceMapAt(fences[..|fences| - 1], i);
    }
  }

  lemma {:induction false} FenceMapKeyed(fences: seq<Fence>)
    ensures Keyed(FenceMap(fences))
    ensures forall u :: u in FenceMap(fences) ==> FenceMap(fences)[u] in fences
  {
    if fences != [] {
      FenceMapKeyed(fences[..|fences| - 1]);
      assert fences == fences[..|fences| - 1] + [fences[|fences| - 1]];
    }
  }

  lemma PlanFenceAt(fences: map<UID, Fence>, i: nat)
    requires Keyed(fences) && i < |PlanFences(fences)|
    ensures Linear(Leq) && |PlanFences(fences)| == |SortedSet(Leq, fences.Keys)|
    ensures var u := SortedSet(Leq, fences.Keys)[i]; u in fences && PlanFences(fences)[i] == fences[u] && fences[u].uid == u
  {
    UidLinear();
    var uids := SortedSet(Leq, fences.Keys);
    assert uids[i] in uids;
  }

  lemma PlanFenceListed(fences: map<UID, Fence>, u: UID)
    requires u in fences
    ensures fences[u] in PlanFences(fences)
  {
    UidLinear();
    var uids := SortedSet(Leq, fences.Keys);
    var i :| 0 <= i < |uids| && uids[i] == u;
    assert PlanFences(fences)[i] == fences[u];
  }

  lemma PlanFencesDistinct(fences: map<UID, Fence>)
    requires Keyed(fences) && "" !in fences
    ensures DistinctFences(PlanFences(fences))
    ensures forall u :: u in fences ==> fences[u] in PlanFences(fences)
    ensures forall f :: f in PlanFences(fences) ==> f.uid in fences && fences[f.uid] == f
  {
    var marks := PlanFences(fences);
    forall i | 0 <= i < |marks| ensures marks[i].uid in fences && fences[marks[i].uid] == marks[i] {
      PlanFenceAt(fences, i);
    }
    forall i, j | 0 <= i < j < |marks| ensures marks[i].uid != marks[j].uid {
      PlanFenceAt(fences, i);
      PlanFenceAt(fences, j);
    }
    forall u | u in fences ensures fences[u] in marks { PlanFenceListed(fences, u); }
  }

  lemma {:induction false} FencesNonEmpty(previous: map<UID, Fence>, present: set<UID>, observations: seq<Observation>)
    requires "" !in previous && forall i :: 0 <= i < |observations| ==> observations[i].uid != ""
    ensures "" !in Fences(previous, present, observations)
  {
    if observations != [] {
      FencesNonEmpty(previous, present, observations[..|observations| - 1]);
    }
  }

  lemma FinalFencesKeyed(inp: Input, st: Claims)
    requires WellFormed(inp)
    ensures Keyed(PreviousFences(inp)) && Keyed(FinalFences(inp, st)) && "" !in FinalFences(inp, st)
  {
    if inp.previous.Some? {
      FenceMapKeyed(inp.previous.value.contributions);
    }
    var os := Observations(inp, st, inp.contributions);
    forall i | 0 <= i < |os| ensures os[i].uid != "" {
      assert inp.contributions[i].uid in ContributionUids(inp);
    }
    FencesNonEmpty(PreviousFences(inp), ContributionUids(inp), os);
    FencesAdvance(PreviousFences(inp), ContributionUids(inp), os);
  }

  /**
   * Compiling from a published plan keeps every fence of that plan: none is
   * lost, no generation drops and no retired contribution returns.
   */
  lemma PlanKeepsFences(inp: Input, rejected: map<UID, string>, f: Fence)
    requires WellFormed(inp) && inp.previous.Some? && f in inp.previous.value.contributions
    ensures DistinctFences(CompileInputs(inp, rejected).plan.contributions)
    ensures exists g :: g in CompileInputs(inp, rejected).plan.contributions && Advances(f, g)
  {
    var st := AllClaims(inp, rejected);
    FinalFencesKeyed(inp, st);
    PlanFencesDistinct(FinalFences(inp, st));
    var i :| 0 <= i < |inp.previous.value.contributions| && inp.previous.value.contributions[i] == f;
    FenceMapAt(inp.previous.value.contributions, i);
    FencesAdvance(PreviousFences(inp), ContributionUids(inp), Observations(inp, st, inp.contributions));
    assert Advances(f, FinalFences(inp, st)[f.uid]);
  }

  lemma LiveFence(inp: Input, st: Claims, n: nat)
    requires WellFormed(inp) && n < |inp.contributions| && !inp.contributions[n].deleting
    requires var c := inp.contributions[n];
             Refusal(ObservationOf(RegistrationOf(inp, st, c), c), FenceOf(PreviousFences(inp), c.uid)) == ""
    ensures var c, fences := inp.contributions[n], FinalFences(inp, st);
            c.uid in fences && fences[c.uid].generation == c.generation && !fences[c.uid].retired
  {
    var os := Observations(inp, st, inp.contributions);
    assert os[n] == ObservationOf(RegistrationOf(inp, st, inp.contributions[n]), inp.contributions[n]);
    assert inp.contributions[n].uid in ContributionUids(inp);
    FenceOfCurrent(PreviousFences(inp), ContributionUids(inp), os, n);
  }

  /** A published contribution stands at or above its previous fence, which is live. */
  lemma PublishedAbovePrevious(inp: Input, st: Claims, rejected: map<UID, string>, c: Contribution)
    requires ContributionReason(inp, st, rejected, c) == "" && c.uid in PreviousFences(inp)
    ensures !PreviousFences(inp)[c.uid].retired && PreviousFences(inp)[c.uid].generation <= c.generation
  {
    PublishedImplies(inp, st, rejected, c);
  }

  /** A published contribution has a live fence at exactly its own generation. */
  lemma PublishedAtFence(inp: Input, rejected: map<UID, string>, c: Contribution) returns (g: Fence)
    requires WellFormed(inp) && c in inp.contributions
    requires ContributionReason(inp, AllClaims(inp, rejected), rejected, c) == ""
    ensures g in CompileInputs(inp, rejected).plan.contributions
    ensures g.uid == c.uid && g.generation == c.generation && !g.retired
  {
    var st := AllClaims(inp, rejected);
    PublishedImplies(inp, st, rejected, c);
    var n :| 0 <= n < |inp.contributions| && inp.contributions[n] == c;
    LiveFence(inp, st, n);
    FinalFencesKeyed(inp, st);
    PlanFencesDistinct(FinalFences(inp, st));
    g := FinalFences(inp, st)[c.uid];
  }
}
