/** The compiler as it runs: loops over sorted sources that fill the claim, fence and record maps. */
module CompilerLoops {
  import opened Text
  import opened Sorting
  import opened Sources
  import opened ClaimTable
  import opened FenceTable
  import opened Aggregation
  import opened Compiler
  import opened CompilerProofs
  import opened SrvProofs

  // ----- claims -------------------------------------------------------------

  /** A holder that stands in the way of `key`; for a CNAME any one at the name, in map order. */
  method ConflictingClaim(held: map<Key, UID>, key: Key) returns (holder: Option<UID>)
    ensures holder.Some? ==> Reports(held, key, holder.value)
    ensures holder.None? ==> forall u :: !Reports(held, key, u)
  {
    if key in held {
      return Some(held[key]);
    }
    if key.rtype == CNAME {
      var rest := held.Keys;
      while rest != {}
        invariant rest <= held.Keys
        invariant forall k :: k in held && k.name == key.name ==> k in rest
      {
        var k :| k in rest;
        if k.name == key.name {
          return Some(held[k]);
        }
        rest := rest - {k};
      }
      return None;
    }
    if Key(key.name, CNAME) in held {
      return Some(held[Key(key.name, CNAME)]);
    }
    return None;
  }

  lemma StrangerContested(held: map<Key, UID>, key: Key, self: UID, holder: Option<UID>)
    requires forall k :: k in held ==> held[k] != self
    requires holder.Some? ==> Reports(held, key, holder.value)
    requires holder.None? ==> forall u :: !Reports(held, key, u)
    ensures holder.Some? && holder.value != self <==> Contested(held, key, self)
  {
    if holder.None? { NobodyContests(held, key, self); }
  }

  lemma {:induction false} ScanStops(held: map<Key, UID>, uid: UID, items: seq<Item>, n: nat)
    requires n <= |items| && ScanItems(held, uid, items[..n]).Refused?
    ensures ScanItems(held, uid, items) == ScanItems(held, uid, items[..n])
  {
    if n == |items| {
      assert items[..n] == items;
    } else {
      assert items[..|items| - 1][..n] == items[..n];
      ScanStops(held, uid, items[..|items| - 1], n);
    }
  }

  /** The records of one static set, up to the first refused one. */
  method ScanSet(inp: Input, held: map<Key, UID>, rs: StaticSet) returns (scan: Scan)
    requires forall k :: k in held ==> held[k] != rs.uid
    ensures scan == ScanItems(held, rs.uid, StaticAskOf(inp, rs).items)
  {
    ghost var items := StaticAskOf(inp, rs).items;
    var pending: map<Key, int> := map[];
    for i := 0 to |rs.records|
      invariant ScanItems(held, rs.uid, items[..i]) == Pending(pending)
    {
      var item := ItemOf(inp, rs, rs.records[i]);
      assert items[..i + 1][..i] == items[..i] && items[..i + 1][i] == item;
      var holder := ConflictingClaim(held, item.key);
      StrangerContested(held, item.key, rs.uid, holder);
      var reason := if item.refusal != "" then item.refusal
                    else if item.key in pending && pending[item.key] != item.ttl then "ConflictingTTL"
                    else if holder.Some? && holder.value != rs.uid then "NameConflict"
                    else "";
      if reason != "" {
        ScanStops(held, rs.uid, items, i + 1);
        return Refused(reason);
      }
      pending := pending[item.key := item.ttl];
    }
    assert items[..|items|] == items;
    return Pending(pending);
  }

  lemma StaticHolders(rejected: map<UID, string>, asks: seq<StaticAsk>, n: nat)
    requires DistinctStaticAsks(asks) && n < |asks|
    ensures forall k :: k in StaticClaims(rejected, asks[..n]).held ==> StaticClaims(rejected, asks[..n]).held[k] != asks[n].uid
  {
    StaticClaimsHold(rejected, asks[..n]);
    var st := StaticClaims(rejected, asks[..n]);
    forall k | k in st.held ensures st.held[k] != asks[n].uid {
      assert st.held[k] in StaticAskUids(asks[..n]);
    }
  }

  /** One static set is granted whole, refused with a reason or set aside. */
  method ClaimStatic(inp: Input, st: Claims, rs: StaticSet) returns (next: Claims)
    requires forall k :: k in st.held ==> st.held[k] != rs.uid
    ensures next == StaticStep(st, StaticAskOf(inp, rs))
  {
    if rs.zone != inp.zone.name || rs.deleting || Reason(st.reasons, rs.uid) != "" {
      return st;
    }
    var scan := ScanSet(inp, st.held, rs);
    match scan
    case Refused(reason) => return st.(reasons := st.reasons[rs.uid := reason]);
    case Pending(pending) => return GrantStatic(st, rs.uid, pending);
  }

  method CollectStaticClaims(inp: Input, rejected: map<UID, string>) returns (st: Claims)
    requires WellFormed(inp)
    ensures st == StaticClaims(rejected, SortedStatics(inp))
  {
    var sets := Sort(OlderStatic, inp.statics);
    ghost var asks := SortedStatics(inp);
    StaticAsksDistinct(inp, sets);
    st := Claims(map[], map[], map[], {}, {}, rejected);
    for i := 0 to |sets|
      invariant st == StaticClaims(rejected, asks[..i])
    {
      var rs := sets[i];
      StaticHolders(rejected, asks, i);
      StaticNext(rejected, asks, i);
      st := ClaimStatic(inp, st, rs);
    }
    assert asks[..|asks|] == asks;
  }

  method AnyConflict(held: map<Key, UID>, keys: set<Key>, uid: UID) returns (conflict: bool)
    requires forall k :: k in held ==> held[k] != uid
    ensures conflict == exists k :: k in keys && Contested(held, k, uid)
  {
    var rest := keys;
    while rest != {}
      invariant rest <= keys && forall k :: k in keys && Contested(held, k, uid) ==> k in rest
    {
      var k :| k in rest;
      var holder := ConflictingClaim(held, k);
      StrangerContested(held, k, uid, holder);
      if holder.Some? && holder.value != uid {
        return true;
      }
      rest := rest - {k};
    }
    return false;
  }

  lemma RegistrationHolders(statics: seq<StaticAsk>, st: Claims, asks: seq<RegistrationAsk>, n: nat)
    requires StaticPhase(statics, st) && DistinctRegistrationAsks(asks) && n < |asks|
    requires RegistrationAskUids(asks) !! StaticAskUids(statics)
    ensures forall k :: k in RegistrationClaims(st, asks[..n]).held ==> RegistrationClaims(st, asks[..n]).held[k] != asks[n].uid
  {
    assert RegistrationAskUids(asks[..n]) <= RegistrationAskUids(asks);
    RegistrationClaimsHold(statics, st, asks[..n]);
    var after := RegistrationClaims(st, asks[..n]);
    assert asks[n].uid in RegistrationAskUids(asks);
    forall k | k in after.held ensures after.held[k] != asks[n].uid {
      assert after.held[k] in StaticAskUids(statics) || after.held[k] in RegistrationAskUids(asks[..n]);
    }
  }

  lemma ReadyToClaim(inp: Input, rejected: map<UID, string>)
    requires WellFormed(inp)
    ensures StaticPhase(SortedStatics(inp), StaticClaims(rejected, SortedStatics(inp)))
    ensures DistinctRegistrationAsks(SortedRegistrations(inp))
    ensures RegistrationAskUids(SortedRegistrations(inp)) !! StaticAskUids(SortedStatics(inp))
  {
    StaticAsksDistinct(inp, Sort(OlderStatic, inp.statics));
    RegistrationAsksDistinct(inp, Sort(OlderRegistration, inp.registrations));
    StaticClaimsHold(rejected, SortedStatics(inp));
  }

  method ClaimRegistration(st: Claims, ask: RegistrationAsk) returns (next: Claims)
    requires forall k :: k in st.held ==> st.held[k] != ask.uid
    ensures next == RegistrationStep(st, ask)
  {
    var conflict := AnyConflict(st.held, ask.keys, ask.uid);
    var verdict := if ask.verdict == Accept && conflict then Refuse("NameConflict") else ask.verdict;
    match verdict
    case Ignore => return st;
    case Refuse(reason) => return st.(reasons := st.reasons[ask.uid := reason]);
    case Accept => return if Reason(st.reasons, ask.uid) != "" then st else GrantRegistration(st, ask);
  }

  lemma StaticNext(rejected: map<UID, string>, asks: seq<StaticAsk>, n: nat)
    requires n < |asks|
    ensures StaticClaims(rejected, asks[..n + 1]) == StaticStep(StaticClaims(rejected, asks[..n]), asks[n])
  {
    assert asks[..n + 1][..n] == asks[..n];
  }

  method ClaimRegistrations(inp: Input, rejected: map<UID, string>) returns (st: Claims)
    requires WellFormed(inp)
    ensures st == AllClaims(inp, rejected)
  {
    st := CollectStaticClaims(inp, rejected);
    ghost var before := st;
    var regs := Sort(OlderRegistration, inp.registrations);
    ghost var asks := SortedRegistrations(inp);
    ReadyToClaim(inp, rejected);
    for i := 0 to |regs|
      invariant st == RegistrationClaims(before, asks[..i])
    {
      var reg := regs[i];
      var ask := RegistrationAskOf(inp, reg);
      RegistrationHolders(SortedStatics(inp), before, asks, i);
      TurnTaken(before, asks, i);
      st := ClaimRegistration(st, ask);
    }
    assert asks[..|asks|] == asks;
  }

  // ----- one contribution ---------------------------------------------------

  /** Whichever holder the search reports, it decides as a search of every holder would. */
  ghost predicate Decisive(held: map<Key, UID>, reg: Registration) {
    forall key: Key, u :: key.rtype in reg.types && Reports(held, key, u) ==> (u != reg.uid <==> Contested(held, key, reg.uid))
  }

  lemma MapOrderHarmless(inp: Input, rejected: map<UID, string>, reg: Registration)
    requires WellFormed(inp) && reg in inp.registrations && reg.uid in AllClaims(inp, rejected).registrations
    ensures Decisive(AllClaims(inp, rejected).held, reg)
  {
    var st := AllClaims(inp, rejected);
    ClaimsHold(inp, rejected);
    AskOfRegistration(inp, reg);
    var ask := RegistrationAskOf(inp, reg);
    forall key: Key, u | key.rtype in reg.types && Reports(st.held, key, u) ensures u != reg.uid <==> Contested(st.held, key, reg.uid) {
      assert (exists k :: k in ask.keys && k.name == key.name) ==> key in ask.keys;
      VerdictIgnoresMapOrder(SortedStatics(inp), SortedRegistrations(inp), st, ask, key, u);
    }
  }

  method RecordIsValid(held: map<Key, UID>, reg: Registration, apex: string, part: ContributionSet, record: RecordEntry) returns (ok: bool)
    requires Decisive(held, reg) && part.rtype in reg.types
    ensures ok == RecordValid(held, reg, apex, part, record)
  {
    var key := ContributionKey(part, record, apex);
    var holder := ConflictingClaim(held, key);
    if holder.None? { NobodyContests(held, key, reg.uid); }
    ok := OwnerPermitted(key.name, apex, key.rtype) && !(holder.Some? && holder.value != reg.uid)
          && InRegistration(reg, key.name, apex) && record.content != "";
  }

  lemma NobodyContests(held: map<Key, UID>, key: Key, self: UID)
    requires forall u :: !Reports(held, key, u)
    ensures !Contested(held, key, self)
  {
    if Contested(held, key, self) {
      if key in held {
        assert Reports(held, key, held[key]);
      } else if key.rtype == CNAME {
        var k :| k in held && k.name == key.name && held[k] != self;
        assert Reports(held, key, held[k]);
      } else {
        assert Reports(held, key, held[Key(key.name, CNAME)]);
      }
    }
  }

  /** The first `n` elements all pass. */
  ghost predicate AllPass<T>(ok: T -> bool, s: seq<T>, n: nat)
    requires n <= |s|
  {
    n == 0 || (AllPass(ok, s, n - 1) && ok(s[n - 1]))
  }

  lemma {:induction false} AllPassMembers<T>(ok: T -> bool, s: seq<T>, n: nat)
    requires n <= |s| && AllPass(ok, s, n)
    ensures forall x :: x in s[..n] ==> ok(x)
  {
    if n > 0 {
      AllPassMembers(ok, s, n - 1);
      assert s[..n] == s[..n - 1] + [s[n - 1]];
    }
  }

  function RecordCheck(held: map<Key, UID>, reg: Registration, apex: string, part: ContributionSet): RecordEntry -> bool {
    (record: RecordEntry) => RecordValid(held, reg, apex, part, record)
  }

  function PartCheck(held: map<Key, UID>, reg: Registration, apex: string): ContributionSet -> bool {
    (part: ContributionSet) => PartValid(held, reg, apex, part)
  }

  lemma PartPasses(held: map<Key, UID>, reg: Registration, apex: string, part: ContributionSet)
    requires part.records != [] && part.rtype in reg.types
    requires AllPass(RecordCheck(held, reg, apex, part), part.records, |part.records|)
    ensures PartValid(held, reg, apex, part)
  {
    AllPassMembers(RecordCheck(held, reg, apex, part), part.records, |part.records|);
    assert part.records[..|part.records|] == part.records;
    forall record | record in part.records ensures RecordValid(held, reg, apex, part, record) {
      assert RecordCheck(held, reg, apex, part)(record);
    }
  }

  lemma PartFails(held: map<Key, UID>, reg: Registration, apex: string, part: ContributionSet, i: nat)
    requires i < |part.records| && !RecordValid(held, reg, apex, part, part.records[i])
    ensures !PartValid(held, reg, apex, part)
  {
    assert part.records[i] in part.records;
  }

  lemma BundlePasses(held: map<Key, UID>, reg: Registration, apex: string, c: Contribution)
    requires AllPass(PartCheck(held, reg, apex), c.sets, |c.sets|)
    ensures BundleValid(held, reg, apex, c)
  {
    AllPassMembers(PartCheck(held, reg, apex), c.sets, |c.sets|);
    assert c.sets[..|c.sets|] == c.sets;
    forall part | part in c.sets ensures PartValid(held, reg, apex, part) {
      assert PartCheck(held, reg, apex)(part);
    }
  }

  method FirstInvalid(held: map<Key, UID>, reg: Registration, apex: string, part: ContributionSet) returns (bad: Option<nat>)
    requires Decisive(held, reg) && part.rtype in reg.types
    ensures bad.Some? ==> bad.value < |part.records| && !RecordValid(held, reg, apex, part, part.records[bad.value])
    ensures bad.None? ==> AllPass(RecordCheck(held, reg, apex, part), part.records, |part.records|)
  {
    for i := 0 to |part.records|
      invariant AllPass(RecordCheck(held, reg, apex, part), part.records, i)
    {
      var valid := RecordIsValid(held, reg, apex, part, part.records[i]);
      if !valid {
        return Some(i);
      }
    }
    return None;
  }

  method PartIsValid(held: map<Key, UID>, reg: Registration, apex: string, part: ContributionSet) returns (ok: bool)
    requires Decisive(held, reg)
    ensures ok == PartValid(held, reg, apex, part)
  {
    if part.records == [] || part.rtype !in reg.types {
      return false;
    }
    var bad := FirstInvalid(held, reg, apex, part);
    if bad.Some? {
      PartFails(held, reg, apex, part, bad.value);
      return false;
    }
    PartPasses(held, reg, apex, part);
    return true;
  }

  method BundleIsValid(held: map<Key, UID>, reg: Registration, apex: string, c: Contribution) returns (ok: bool)
    requires Decisive(held, reg)
    ensures ok == BundleValid(held, reg, apex, c)
  {
    for i := 0 to |c.sets|
      invariant AllPass(PartCheck(held, reg, apex), c.sets, i)
    {
      var valid := PartIsValid(held, reg, apex, c.sets[i]);
      if !valid {
        return false;
      }
    }
    BundlePasses(held, reg, apex, c);
    return true;
  }

  // ----- gathering records --------------------------------------------------

  lemma AggregatesSnoc(entries: seq<Entry>, e: Entry)
    ensures Aggregates(entries + [e]) == AggregateStep(Aggregates(entries), e)
  {
    assert (entries + [e])[..|entries|] == entries;
  }

  lemma FlatMapNext<T, U>(before: seq<U>, g: T -> seq<U>, s: seq<T>, n: nat)
    requires n < |s|
    ensures before + FlatMap(g, s[..n + 1]) == before + FlatMap(g, s[..n]) + g(s[n])
  {
    assert s[..n + 1][..n] == s[..n];
  }

  method GatherPart(before: map<Key, Aggregate>, ghost entries: seq<Entry>, apex: string, reg: Registration, c: Contribution, part: ContributionSet)
    returns (aggregates: map<Key, Aggregate>)
    requires before == Aggregates(entries)
    ensures aggregates == Aggregates(entries + FlatMap(RecordEntries(reg, c, apex, part), part.records))
  {
    aggregates := before;
    ghost var g := RecordEntries(reg, c, apex, part);
    ghost var so := entries;
    for i := 0 to |part.records|
      invariant so == entries + FlatMap(g, part.records[..i]) && aggregates == Aggregates(so)
    {
      var key := ContributionKey(part, part.records[i], apex);
      var e := Entry(key, Named(key, part.records[i]), Some(c.uid), reg.ttl);
      FlatMapNext(entries, g, part.records, i);
      AggregatesSnoc(so, e);
      aggregates := AggregateStep(aggregates, e);
      so := so + [e];
    }
    assert part.records[..|part.records|] == part.records;
  }

  method Gather(before: map<Key, Aggregate>, ghost entries: seq<Entry>, apex: string, reg: Registration, c: Contribution)
    returns (aggregates: map<Key, Aggregate>)
    requires before == Aggregates(entries)
    ensures aggregates == Aggregates(entries + FlatMap(PartEntries(reg, c, apex), c.sets))
  {
    aggregates := before;
    ghost var g := PartEntries(reg, c, apex);
    ghost var so := entries;
    for i := 0 to |c.sets|
      invariant so == entries + FlatMap(g, c.sets[..i]) && aggregates == Aggregates(so)
    {
      aggregates := GatherPart(aggregates, so, apex, reg, c, c.sets[i]);
      FlatMapNext(entries, g, c.sets, i);
      so := so + g(c.sets[i]);
    }
    assert c.sets[..|c.sets|] == c.sets;
  }

  method GatherStatic(before: map<Key, Aggregate>, ghost entries: seq<Entry>, apex: string, st: Claims, rs: StaticSet)
    returns (aggregates: map<Key, Aggregate>)
    requires before == Aggregates(entries)
    ensures aggregates == Aggregates(entries + FlatMap(StaticRecordEntries(st, rs, apex), rs.records))
  {
    aggregates := before;
    ghost var g := StaticRecordEntries(st, rs, apex);
    ghost var so := entries;
    for i := 0 to |rs.records|
      invariant so == entries + FlatMap(g, rs.records[..i]) && aggregates == Aggregates(so)
    {
      var key := StaticKey(rs, rs.records[i], apex);
      var e := Entry(key, Named(key, rs.records[i]), None, StaticTtl(st, key));
      FlatMapNext(entries, g, rs.records, i);
      AggregatesSnoc(so, e);
      aggregates := AggregateStep(aggregates, e);
      so := so + [e];
    }
    assert rs.records[..|rs.records|] == rs.records;
  }

  // ----- the contributions in turn ------------------------------------------

  lemma FencesNext(inp: Input, st: Claims, previous: map<UID, Fence>, present: set<UID>, cs: seq<Contribution>, n: nat)
    requires n < |cs|
    ensures Fences(previous, present, Observations(inp, st, cs[..n + 1]))
            == FenceStep(previous, Fences(previous, present, Observations(inp, st, cs[..n])), ObservationOf(RegistrationOf(inp, st, cs[n]), cs[n]))
  {
    var os := Observations(inp, st, cs[..n + 1]);
    assert os[..n] == Observations(inp, st, cs[..n]);
  }

  lemma ReasonsNext(inp: Input, st: Claims, rejected: map<UID, string>, cs: seq<Contribution>, n: nat)
    requires n < |cs|
    ensures var before, reason := ContributionReasons(inp, st, rejected, cs[..n]), ContributionReason(inp, st, rejected, cs[n]);
            ContributionReasons(inp, st, rejected, cs[..n + 1]) == if reason == "" then before else before[cs[n].uid := reason]
  {
    assert cs[..n + 1][..n] == cs[..n];
  }

  lemma AcceptedNext(inp: Input, st: Claims, rejected: map<UID, string>, cs: seq<Contribution>, n: nat)
    requires n < |cs|
    ensures AcceptedContributions(inp, st, rejected, cs[..n + 1])
            == AcceptedContributions(inp, st, rejected, cs[..n]) + if ContributionReason(inp, st, rejected, cs[n]) == "" then {cs[n].uid} else {}
  {
    assert cs[..n + 1] == cs[..n] + [cs[n]];
  }

  lemma StandingRegistration(inp: Input, rejected: map<UID, string>, c: Contribution)
    requires WellFormed(inp)
    ensures var st := AllClaims(inp, rejected);
            RegistrationOf(inp, st, c).Some? ==> Decisive(st.held, RegistrationOf(inp, st, c).value)
  {
    var st := AllClaims(inp, rejected);
    if RegistrationOf(inp, st, c).Some? {
      ClaimsHold(inp, rejected);
      FindByUid(inp.registrations, c.registration.uid);
      MapOrderHarmless(inp, rejected, RegistrationOf(inp, st, c).value);
    }
  }

  /** Why one contribution is not published; `previous` is its fence so far. */
  method JudgeContribution(inp: Input, st: Claims, rejected: map<UID, string>, reg: Option<Registration>, c: Contribution) returns (reason: string)
    requires reg == RegistrationOf(inp, st, c) && (reg.Some? ==> Decisive(st.held, reg.value))
    ensures reason == ContributionReason(inp, st, rejected, c)
  {
    reason := Refusal(ObservationOf(reg, c), FenceOf(PreviousFences(inp), c.uid));
    if reason != "" || reg.None? {
      return;
    }
    if Reason(rejected, c.uid) != "" {
      return Reason(rejected, c.uid);
    }
    if c.deleting {
      return "Terminating";
    }
    if !c.eligible {
      return "Ineligible";
    }
    var valid := BundleIsValid(st.held, reg.value, Apex(inp), c);
    return if valid then "" else "NameOrTypeOutsideRegistration";
  }

  /** The records of one contribution are gathered if it is published. */
  method GatherPublished(inp: Input, st: Claims, ghost rejected: map<UID, string>, reg: Option<Registration>, c: Contribution, reason: string,
                         ghost entries: seq<Entry>, before: map<Key, Aggregate>) returns (aggregates: map<Key, Aggregate>)
    requires reg == RegistrationOf(inp, st, c) && reason == ContributionReason(inp, st, rejected, c) && before == Aggregates(entries)
    ensures aggregates == Aggregates(entries + EntriesOf(inp, st, rejected)(c))
  {
    aggregates := before;
    if reason == "" && reg.Some? {
      aggregates := Gather(before, entries, Apex(inp), reg.value, c);
    } else {
      assert entries + [] == entries;
    }
  }

  /** What is known after the first `n` contributions. */
  ghost predicate Progress(inp: Input, st: Claims, rejected: map<UID, string>, n: nat, fences: map<UID, Fence>, reasons: map<UID, string>,
                           accepted: set<UID>, entries: seq<Entry>)
    requires n <= |inp.contributions|
  {
    && fences == Fences(PreviousFences(inp), ContributionUids(inp), Observations(inp, st, inp.contributions[..n]))
    && reasons == ContributionReasons(inp, st, rejected, inp.contributions[..n])
    && accepted == AcceptedContributions(inp, st, rejected, inp.contributions[..n])
    && entries == FlatMap(EntriesOf(inp, st, rejected), inp.contributions[..n])
  }

  lemma ProgressNext(inp: Input, st: Claims, rejected: map<UID, string>, n: nat, fences: map<UID, Fence>, reasons: map<UID, string>,
                     accepted: set<UID>, entries: seq<Entry>)
    requires n < |inp.contributions| && Progress(inp, st, rejected, n, fences, reasons, accepted, entries)
    ensures var c := inp.contributions[n];
            var reason := ContributionReason(inp, st, rejected, c);
            Progress(inp, st, rejected, n + 1, FenceStep(PreviousFences(inp), fences, ObservationOf(RegistrationOf(inp, st, c), c)),
                     if reason == "" then reasons else reasons[c.uid := reason],
                     accepted + (if reason == "" then {c.uid} else {}), entries + EntriesOf(inp, st, rejected)(c))
  {
    FencesNext(inp, st, PreviousFences(inp), ContributionUids(inp), inp.contributions, n);
    ReasonsNext(inp, st, rejected, inp.contributions, n);
    AcceptedNext(inp, st, rejected, inp.contributions, n);
    EntriesNext(EntriesOf(inp, st, rejected), inp.contributions, n);
  }

  lemma EntriesNext(g: Contribution -> seq<Entry>, cs: seq<Contribution>, n: nat)
    requires n < |cs|
    ensures FlatMap(g, cs[..n + 1]) == FlatMap(g, cs[..n]) + g(cs[n])
  {
    assert cs[..n + 1][..n] == cs[..n];
  }

  lemma ProgressDone(inp: Input, st: Claims, rejected: map<UID, string>, fences: map<UID, Fence>, reasons: map<UID, string>,
                     accepted: set<UID>, entries: seq<Entry>)
    requires Progress(inp, st, rejected, |inp.contributions|, fences, reasons, accepted, entries)
    ensures fences == FinalFences(inp, st) && reasons == ContributionReasons(inp, st, rejected, inp.contributions)
    ensures accepted == AcceptedContributions(inp, st, rejected, inp.contributions)
    ensures entries == FlatMap(EntriesOf(inp, st, rejected), inp.contributions)
  {
    assert inp.contributions[..|inp.contributions|] == inp.contributions;
  }

  lemma ProgressStart(inp: Input, st: Claims, rejected: map<UID, string>)
    ensures Progress(inp, st, rejected, 0, Carried(PreviousFences(inp), ContributionUids(inp)), st.reasons, {}, [])
  {
  }

  method CompileContributions(inp: Input, st: Claims, rejected: map<UID, string>)
    returns (fences: map<UID, Fence>, reasons: map<UID, string>, accepted: set<UID>, aggregates: map<Key, Aggregate>)
    requires WellFormed(inp) && st == AllClaims(inp, rejected)
    ensures fences == FinalFences(inp, st)
    ensures reasons == ContributionReasons(inp, st, rejected, inp.contributions)
    ensures accepted == AcceptedContributions(inp, st, rejected, inp.contributions)
    ensures aggregates == Aggregates(FlatMap(EntriesOf(inp, st, rejected), inp.contributions))
  {
    ghost var entries: seq<Entry> := [];
    fences, reasons, accepted, aggregates := Carried(PreviousFences(inp), ContributionUids(inp)), st.reasons, {}, map[];
    ProgressStart(inp, st, rejected);
    for i := 0 to |inp.contributions|
      invariant Progress(inp, st, rejected, i, fences, reasons, accepted, entries) && aggregates == Aggregates(entries)
    {
      var c := inp.contributions[i];
      var reg := RegistrationOf(inp, st, c);
      StandingRegistration(inp, rejected, c);
      ProgressNext(inp, st, rejected, i, fences, reasons, accepted, entries);
      var reason := JudgeContribution(inp, st, rejected, reg, c);
      fences := FenceStep(PreviousFences(inp), fences, ObservationOf(reg, c));
      reasons := if reason == "" then reasons else reasons[c.uid := reason];
      accepted := accepted + if reason == "" then {c.uid} else {};
      aggregates := GatherPublished(inp, st, rejected, reg, c, reason, entries, aggregates);
      entries := entries + EntriesOf(inp, st, rejected)(c);
    }
    ProgressDone(inp, st, rejected, fences, reasons, accepted, entries);
  }

  method GatherOneStatic(inp: Input, st: Claims, rs: StaticSet, ghost entries: seq<Entry>, before: map<Key, Aggregate>) returns (aggregates: map<Key, Aggregate>)
    requires before == Aggregates(entries)
    ensures aggregates == Aggregates(entries + StaticEntriesOf(inp, st)(rs))
  {
    aggregates := before;
    if rs.zone == inp.zone.name && rs.uid in st.staticSets {
      aggregates := GatherStatic(before, entries, Apex(inp), st, rs);
    } else {
      assert entries + [] == entries;
    }
  }

  method GatherStatics(inp: Input, st: Claims, ghost entries: seq<Entry>, before: map<Key, Aggregate>) returns (aggregates: map<Key, Aggregate>)
    requires before == Aggregates(entries)
    ensures aggregates == Aggregates(entries + FlatMap(StaticEntriesOf(inp, st), inp.statics))
  {
    aggregates := before;
    ghost var g := StaticEntriesOf(inp, st);
    ghost var so := entries;
    for i := 0 to |inp.statics|
      invariant so == entries + FlatMap(g, inp.statics[..i]) && aggregates == Aggregates(so)
    {
      FlatMapNext(entries, g, inp.statics, i);
      aggregates := GatherOneStatic(inp, st, inp.statics[i], so, aggregates);
      so := so + g(inp.statics[i]);
    }
    assert inp.statics[..|inp.statics|] == inp.statics;
  }

  // ----- the plan -----------------------------------------------------------

  /** The members of a set, in any order. */
  method Listed<T(==)>(s: set<T>) returns (list: seq<T>)
    ensures (forall x :: x in list <==> x in s) && forall i, j :: 0 <= i < j < |list| ==> list[i] != list[j]
  {
    list := [];
    var rest := s;
    while rest != {}
      invariant rest <= s && (forall x :: x in list <==> x in s && x !in rest)
      invariant forall i, j :: 0 <= i < j < |list| ==> list[i] != list[j]
    {
      var x :| x in rest;
      rest := rest - {x};
      assert x !in list;
      list := list + [x];
    }
  }

  method KeysInOrder(keys: set<Key>) returns (sorted: seq<Key>)
    ensures Linear(KeyLeq) && sorted == SortedSet(KeyLeq, keys)
  {
    var list := Listed(keys);
    KeyLinear();
    SortOfOnce(KeyLeq, list, keys);
    sorted := Sort(KeyLeq, list);
  }

  method UidsInOrder(uids: set<UID>) returns (sorted: seq<UID>)
    ensures Linear(Leq) && sorted == SortedSet(Leq, uids)
  {
    var list := Listed(uids);
    UidLinear();
    SortOfOnce(Leq, list, uids);
    sorted := Sort(Leq, list);
  }

  method ListOwners(st: Claims) returns (owners: seq<Owner>)
    ensures owners == PlanOwners(st)
  {
    var keys := KeysInOrder(st.held.Keys);
    assert forall i :: 0 <= i < |keys| ==> keys[i] in keys;
    owners := seq(|keys|, i requires 0 <= i < |keys| => OwnerOf(st, keys[i]));
  }

  method ListRRSets(marshal: RecordEntry -> string, aggregates: map<Key, Aggregate>) returns (rrsets: seq<RRSet>)
    ensures rrsets == RRSets(marshal, aggregates)
  {
    var keys := KeysInOrder(aggregates.Keys);
    assert forall i :: 0 <= i < |keys| ==> keys[i] in keys;
    rrsets := seq(|keys|, i requires 0 <= i < |keys| => RRSetOf(marshal, keys[i], aggregates[keys[i]]));
  }

  method ListFences(fences: map<UID, Fence>) returns (marks: seq<Fence>)
    ensures marks == PlanFences(fences)
  {
    var uids := UidsInOrder(fences.Keys);
    assert forall i :: 0 <= i < |uids| ==> uids[i] in uids;
    marks := seq(|uids|, i requires 0 <= i < |uids| => fences[uids[i]]);
  }

  method ListRegistrations(regs: seq<Registration>, accepted: set<UID>) returns (marks: seq<RegistrationFence>)
    ensures marks == PlanRegistrations(regs, accepted)
  {
    var uids := UidsInOrder(accepted);
    marks := seq(|uids|, i requires 0 <= i < |uids| => RegistrationFenceOf(regs, uids[i]));
  }

  method CompileRound(inp: Input, rejected: map<UID, string>) returns (result: Compiled)
    requires WellFormed(inp)
    ensures result == CompileInputs(inp, rejected)
  {
    var st := ClaimRegistrations(inp, rejected);
    var fences, reasons, accepted, aggregates := CompileContributions(inp, st, rejected);
    aggregates := GatherStatics(inp, st, FlatMap(EntriesOf(inp, st, rejected), inp.contributions), aggregates);
    var owners := ListOwners(st);
    var rrsets := ListRRSets(inp.marshal, aggregates);
    var marks := ListFences(fences);
    var registrations := ListRegistrations(inp.registrations, st.registrations);
    result := Compiled(Plan(inp.zone.uid, Apex(inp), inp.contexts, owners, rrsets, marks, registrations), st.staticSets + st.registrations + accepted, reasons);
  }

  // ----- the rejection loop -------------------------------------------------

  lemma RejectingMore(r: set<UID>, bad: set<UID>)
    ensures Rejecting(r + bad) == Rejecting(r) + Rejecting(bad)
  {
  }

  lemma RejectingNobody()
    ensures Rejecting({}) == map[]
  {
  }

  method Round(inp: Input, ghost r: set<UID>, rejected: map<UID, string>) returns (round: Compiled, invalid: set<UID>)
    requires WellFormed(inp) && rejected == Rejecting(r)
    ensures round == CompileInputs(inp, Rejecting(r)) && invalid == BlameAfter(inp, r)
  {
    round := CompileRound(inp, rejected);
    invalid := InvalidSrvSources(round.plan);
  }

  /** Compile: rounds until no SRV record dangles. */
  method CompileZone(inp: Input) returns (result: Option<Compiled>)
    requires WellFormed(inp)
    ensures result == Compile(inp)
  {
    if inp.zone.uid == "" || !inp.zone.isPrivate {
      return None;
    }
    var rejected: map<UID, string> := map[];
    ghost var r: set<UID> := {};
    RejectingNobody();
    while true
      invariant rejected == Rejecting(r) && r <= Rejectable(inp) && FinalFrom(inp, r) == FinalFrom(inp, {})
      decreases |Rejectable(inp) - r|
    {
      var round, invalid := Round(inp, r, rejected);
      RoundProgress(inp, r);
      if invalid == {} {
        return Some(round);
      }
      RejectingMore(r, invalid);
      rejected := rejected + Rejecting(invalid);
      r := r + invalid;
    }
  }
}
