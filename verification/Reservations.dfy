/**
 * Age decides between registrations: a younger one never changes the verdict on
 * an older one, except that in a managed zone its reserved subtrees refuse
 * what lies in them whatever its age.
 */
module Reservations {
  import opened Names
  import opened Sorting
  import opened Sources
  import opened ClaimTable
  import opened Compiler
  import opened CompilerProofs
  import opened SrvProofs
  import opened Elders
  import opened Verdicts

  const RESERVED := "ReservedScope"

  // ----- static sets --------------------------------------------------------

  /** The ask with the items in `hits` refused for a reserved subtree. */
  function Barred(ask: StaticAsk, hits: set<nat>): StaticAsk {
    ask.(items := BarredItems(ask.items, hits))
  }

  function BarredItems(items: seq<Item>, hits: set<nat>): (barred: seq<Item>)
    ensures |barred| == |items|
  {
    seq(|items|, i requires 0 <= i < |items| => if i in hits then items[i].(refusal := RESERVED) else items[i])
  }

  /** The scan comes to an item in `hits` before anything refuses the set. */
  ghost predicate Reaches(held: map<Key, UID>, uid: UID, items: seq<Item>, hits: set<nat>) {
    exists i :: 0 <= i < |items| && i in hits && ScanItems(held, uid, items[..i]).Pending?
  }

  lemma ReachesNext(held: map<Key, UID>, uid: UID, items: seq<Item>, hits: set<nat>)
    requires items != []
    ensures var before := items[..|items| - 1];
            Reaches(held, uid, items, hits) <==>
              Reaches(held, uid, before, hits) || (|before| in hits && ScanItems(held, uid, before).Pending?)
  {
    var before := items[..|items| - 1];
    assert forall i :: 0 <= i < |before| ==> before[..i] == items[..i];
  }

  lemma {:induction false} ScanBarred(held: map<Key, UID>, uid: UID, items: seq<Item>, hits: set<nat>)
    ensures ScanItems(held, uid, BarredItems(items, hits)) ==
            if Reaches(held, uid, items, hits) then Refused(RESERVED) else ScanItems(held, uid, items)
  {
    if items != [] {
      var before, barred := items[..|items| - 1], BarredItems(items, hits);
      ScanBarred(held, uid, before, hits);
      assert barred[..|barred| - 1] == BarredItems(before, hits);
      ReachesNext(held, uid, items, hits);
    }
  }

  /** The set is scanned, the scan comes to an item in `hits`, and the set is not refused for a reserved subtree already. */
  ghost predicate Strikes(st: Claims, ask: StaticAsk, hits: set<nat>) {
    && !ask.aside && Reason(st.reasons, ask.uid) == ""
    && Reaches(st.held, ask.uid, ask.items, hits) && ScanItems(st.held, ask.uid, ask.items) != Refused(RESERVED)
  }

  lemma StepBarred(st: Claims, ask: StaticAsk, hits: set<nat>)
    ensures !Strikes(st, ask, hits) ==> StaticStep(st, Barred(ask, hits)) == StaticStep(st, ask)
    ensures Strikes(st, ask, hits) ==>
              Reason(StaticStep(st, Barred(ask, hits)).reasons, ask.uid) == RESERVED != Reason(StaticStep(st, ask).reasons, ask.uid)
  {
    ScanBarred(st.held, ask.uid, ask.items, hits);
  }

  function BarredAll(asks: seq<StaticAsk>, hits: seq<set<nat>>): (barred: seq<StaticAsk>)
    requires |hits| == |asks|
    ensures |barred| == |asks|
  {
    seq(|asks|, i requires 0 <= i < |asks| => Barred(asks[i], hits[i]))
  }

  ghost predicate StrikesAt(rejected: map<UID, string>, asks: seq<StaticAsk>, hits: seq<set<nat>>, n: nat)
    requires n < |asks| == |hits|
  {
    Strikes(StaticClaims(rejected, asks[..n]), asks[n], hits[n])
  }

  lemma {:induction false} NoStrike(rejected: map<UID, string>, asks: seq<StaticAsk>, hits: seq<set<nat>>)
    requires |hits| == |asks| && forall n :: 0 <= n < |asks| ==> !StrikesAt(rejected, asks, hits, n)
    ensures StaticClaims(rejected, BarredAll(asks, hits)) == StaticClaims(rejected, asks)
  {
    if asks != [] {
      var last := |asks| - 1;
      forall n | 0 <= n < last ensures !StrikesAt(rejected, asks[..last], hits[..last], n) {
        assert asks[..last][..n] == asks[..n];
        assert !StrikesAt(rejected, asks, hits, n);
      }
      NoStrike(rejected, asks[..last], hits[..last]);
      assert BarredAll(asks, hits)[..last] == BarredAll(asks[..last], hits[..last]);
      assert !StrikesAt(rejected, asks, hits, last);
      StepBarred(StaticClaims(rejected, asks[..last]), asks[last], hits[last]);
    }
  }

  /** A set's reason is settled at its turn. */
  lemma {:induction false} SettledAtTurn(rejected: map<UID, string>, asks: seq<StaticAsk>, n: nat)
    requires DistinctStaticAsks(asks) && n < |asks|
    ensures Reason(StaticClaims(rejected, asks).reasons, asks[n].uid)
            == Reason(StaticStep(StaticClaims(rejected, asks[..n]), asks[n]).reasons, asks[n].uid)
  {
    if n < |asks| - 1 {
      SettledAtTurn(rejected, asks[..|asks| - 1], n);
      assert asks[..|asks| - 1][..n] == asks[..n];
      assert asks[|asks| - 1].uid != asks[n].uid;
    }
  }

  lemma FirstStrike(rejected: map<UID, string>, asks: seq<StaticAsk>, hits: seq<set<nat>>, n: nat) returns (m: nat)
    requires n < |asks| == |hits| && StrikesAt(rejected, asks, hits, n)
    ensures m < |asks| && StrikesAt(rejected, asks, hits, m) && forall k :: 0 <= k < m ==> !StrikesAt(rejected, asks, hits, k)
    decreases n
  {
    if k :| 0 <= k < n && StrikesAt(rejected, asks, hits, k) {
      m := FirstStrike(rejected, asks, hits, k);
    } else {
      m := n;
    }
  }

  /** The first set struck is refused for the reserved subtree, which it was not before. */
  lemma StruckDiffers(rejected: map<UID, string>, asks: seq<StaticAsk>, hits: seq<set<nat>>, m: nat)
    requires DistinctStaticAsks(asks) && m < |asks| == |hits| && StrikesAt(rejected, asks, hits, m)
    requires forall k :: 0 <= k < m ==> !StrikesAt(rejected, asks, hits, k)
    ensures Reason(StaticClaims(rejected, BarredAll(asks, hits)).reasons, asks[m].uid) == RESERVED
            != Reason(StaticClaims(rejected, asks).reasons, asks[m].uid)
  {
    var barred := BarredAll(asks, hits);
    forall k | 0 <= k < m ensures !StrikesAt(rejected, asks[..m], hits[..m], k) {
      assert asks[..m][..k] == asks[..k];
      assert !StrikesAt(rejected, asks, hits, k);
    }
    NoStrike(rejected, asks[..m], hits[..m]);
    assert barred[..m] == BarredAll(asks[..m], hits[..m]);
    SettledAtTurn(rejected, asks, m);
    SettledAtTurn(rejected, barred, m);
    StepBarred(StaticClaims(rejected, asks[..m]), asks[m], hits[m]);
  }

  // ----- which records a new registration covers ----------------------------

  /** A valid reserved subtree of `r` holds the name. */
  predicate Covers(inp: Input, r: Registration, owner: string) {
    exists scope | scope in r.reserved :: Reserves(inp, r, scope)
      && Within(RelativeOwner(owner, inp.zone.domain), RelativeOwner(scope, inp.zone.domain))
  }

  /** The record is permitted, in no reserved subtree so far, and in one of `r`. */
  predicate NewlyCovered(inp: Input, r: Registration, rtype: RRType, record: RecordEntry) {
    && inp.zone.managed && OwnerPermitted(ZoneOwner(record.name, Apex(inp)), Apex(inp), rtype)
    && !InReservedScope(inp, record.name) && Covers(inp, r, record.name)
  }

  function Hits(inp: Input, r: Registration, rs: StaticSet): set<nat> {
    set i | 0 <= i < |rs.records| && NewlyCovered(inp, r, rs.rtype, rs.records[i])
  }

  function AllHits(inp: Input, r: Registration, sets: seq<StaticSet>): (hits: seq<set<nat>>)
    ensures |hits| == |sets|
  {
    seq(|sets|, i requires 0 <= i < |sets| => Hits(inp, r, sets[i]))
  }

  lemma ScopePlus(inp: Input, r: Registration, owner: string)
    ensures InReservedScope(Plus(inp, r), owner) <==> InReservedScope(inp, owner) || (inp.zone.managed && Covers(inp, r, owner))
  {
    var plus := Plus(inp, r);
    assert r in plus.registrations && forall y :: y in plus.registrations <==> y in inp.registrations || y == r;
    if inp.zone.managed && Covers(inp, r, owner) {
      var scope :| scope in r.reserved && Reserves(inp, r, scope)
                   && Within(RelativeOwner(owner, inp.zone.domain), RelativeOwner(scope, inp.zone.domain));
      assert Reserves(plus, r, scope);
    }
  }

  lemma ItemPlus(inp: Input, r: Registration, rs: StaticSet, record: RecordEntry)
    ensures ItemOf(Plus(inp, r), rs, record) ==
            if NewlyCovered(inp, r, rs.rtype, record) then ItemOf(inp, rs, record).(refusal := RESERVED) else ItemOf(inp, rs, record)
  {
    ScopePlus(inp, r, record.name);
  }

  lemma StaticsPlus(inp: Input, r: Registration)
    ensures SortedStatics(Plus(inp, r)) == BarredAll(SortedStatics(inp), AllHits(inp, r, Sort(OlderStatic, inp.statics)))
  {
    var sets := Sort(OlderStatic, inp.statics);
    forall i | 0 <= i < |sets| ensures StaticAskOf(Plus(inp, r), sets[i]) == Barred(StaticAskOf(inp, sets[i]), Hits(inp, r, sets[i])) {
      forall j | 0 <= j < |sets[i].records| { ItemPlus(inp, r, sets[i], sets[i].records[j]); }
    }
  }

  // ----- which registrations it refuses -------------------------------------

  /** `r` reserves a subtree that holds the name of `x` or overlaps a subtree `x` reserves. */
  predicate Overlaps(inp: Input, r: Registration, x: Registration) {
    exists scope | scope in r.reserved && Reserves(inp, r, scope) ::
      var s := RelativeOwner(scope, inp.zone.domain);
      || Within(RelativeOwner(x.owner, Apex(inp)), s)
      || exists d | d in x.reserved :: Within(RelativeOwner(d, Apex(inp)), s) || Within(s, RelativeOwner(d, Apex(inp)))
  }

  /** The checks made before the reserved subtrees of others pass. */
  predicate PassesFirst(inp: Input, x: Registration) {
    && !x.deleting && 1 <= x.ttl <= MAX_TTL_SECONDS && x.zone == inp.zone.name && x.uid != ""
    && RefMatches(if x.uid in inp.references then inp.references[x.uid] else NO_REF, inp.zone.name, inp.zone.uid, inp.zone.generation)
  }

  lemma ScopesPlus(inp: Input, r: Registration, x: Registration)
    requires inp.zone.managed && r.uid != x.uid
    ensures OwnsScopes(Plus(inp, r), x, Apex(inp)) <==> OwnsScopes(inp, x, Apex(inp)) && !Overlaps(inp, r, x)
  {
    assert r in Plus(inp, r).registrations;
    assert forall y :: y in Plus(inp, r).registrations <==> y in inp.registrations || y == r;
  }

  /** `x` passes every check up to the reserved subtrees of others, and `r` is the first whose subtree is in its way. */
  predicate Refuses(inp: Input, r: Registration, x: Registration) {
    inp.zone.managed && PassesFirst(inp, x) && OwnsScopes(inp, x, Apex(inp)) && Overlaps(inp, r, x)
  }

  lemma VerdictPlus(inp: Input, r: Registration, x: Registration)
    requires r.uid != x.uid
    ensures RegistrationVerdict(Plus(inp, r), x) == if Refuses(inp, r, x) then Refuse(RESERVED) else RegistrationVerdict(inp, x)
    ensures Refuses(inp, r, x) ==> RegistrationVerdict(inp, x) == LastChecks(inp, x)
  {
    if inp.zone.managed { ScopesPlus(inp, r, x); }
    VerdictShape(inp, x);
    VerdictShape(Plus(inp, r), x);
  }

  /** After the first checks, the verdict depends on the other registrations only through their subtrees. */
  lemma VerdictShape(inp: Input, x: Registration)
    ensures PassesFirst(inp, x) && !OwnsScopes(inp, x, Apex(inp)) ==> RegistrationVerdict(inp, x) == Refuse(RESERVED)
    ensures PassesFirst(inp, x) && OwnsScopes(inp, x, Apex(inp)) ==> RegistrationVerdict(inp, x) == LastChecks(inp, x)
    ensures !PassesFirst(inp, x) ==> RegistrationVerdict(inp, x) == FirstChecks(inp, x)
  {
  }

  function FirstChecks(inp: Input, x: Registration): Verdict {
    if x.deleting then Refuse("Terminating")
    else if x.ttl < 1 || x.ttl > MAX_TTL_SECONDS then Refuse("InvalidTTL")
    else if x.zone != inp.zone.name then Ignore
    else if x.uid == "" then Refuse("MissingUID")
    else Refuse("InvalidReference")
  }

  function LastChecks(inp: Input, x: Registration): (v: Verdict)
    ensures v != Refuse(RESERVED)
  {
    var apex := Apex(inp);
    if !ReservationValid(inp, x, apex) then
      assert "InvalidReservation"[0] != RESERVED[0];
      Refuse("InvalidReservation")
    else if exists t | t in x.types :: !OwnerPermitted(ZoneOwner(x.owner, apex), apex, t) then
      assert "UnsupportedPrivateRecord"[0] != RESERVED[0];
      Refuse("UnsupportedPrivateRecord")
    else Accept
  }

  // ----- both ---------------------------------------------------------------

  /** The verdict on `u` and its reason are the same with and without `r`. */
  ghost predicate SameVerdict(inp: Input, r: Registration, rejected: map<UID, string>, u: UID) {
    var before, after := CompileInputs(inp, rejected), CompileInputs(Plus(inp, r), rejected);
    (u in after.accepted <==> u in before.accepted) && Reason(after.reasons, u) == Reason(before.reasons, u)
  }

  /** A static set, or a registration older than `r`. */
  ghost predicate Elder(inp: Input, r: Registration, u: UID) {
    u in StaticUids(inp) || exists x :: x in inp.registrations && x.uid == u && OlderRegistration(x, r)
  }

  /** The reserved subtrees of `r` strike the `n`-th oldest static set. */
  ghost predicate StrikesStatic(inp: Input, r: Registration, rejected: map<UID, string>, n: nat)
    requires n < |inp.statics|
  {
    StrikesAt(rejected, SortedStatics(inp), AllHits(inp, r, Sort(OlderStatic, inp.statics)), n)
  }

  /** The reserved subtrees of `r` strike no static set and no older registration. */
  ghost predicate Harmless(inp: Input, r: Registration, rejected: map<UID, string>) {
    && (forall n :: 0 <= n < |inp.statics| ==> !StrikesStatic(inp, r, rejected, n))
    && (forall x :: x in inp.registrations && OlderRegistration(x, r) ==> !Refuses(inp, r, x))
  }

  lemma HarmlessClaims(inp: Input, r: Registration, rejected: map<UID, string>)
    requires Harmless(inp, r, rejected)
    ensures StaticClaims(rejected, SortedStatics(Plus(inp, r))) == StaticClaims(rejected, SortedStatics(inp))
  {
    StaticsPlus(inp, r);
    var hits := AllHits(inp, r, Sort(OlderStatic, inp.statics));
    forall n | 0 <= n < |inp.statics| ensures !StrikesAt(rejected, SortedStatics(inp), hits, n) {
      assert !StrikesStatic(inp, r, rejected, n);
    }
    NoStrike(rejected, SortedStatics(inp), hits);
  }

  lemma StaticVerdict(inp: Input, rejected: map<UID, string>, u: UID)
    requires WellFormed(inp) && u in StaticUids(inp)
    ensures var st := StaticClaims(rejected, SortedStatics(inp));
            && (u in CompileInputs(inp, rejected).accepted <==> u in st.staticSets)
            && Reason(CompileInputs(inp, rejected).reasons, u) == Reason(st.reasons, u)
  {
    VerdictIs(inp, rejected, u);
    ClaimsHold(inp, rejected);
    RegistrationAsksDistinct(inp, Sort(OlderRegistration, inp.registrations));
    RegistrationReasons(StaticClaims(rejected, SortedStatics(inp)), SortedRegistrations(inp), u);
  }

  lemma FrontAsks(inp: Input, r: Registration, front: seq<Registration>)
    requires forall x :: x in front ==> x.uid != r.uid && !Refuses(inp, r, x)
    ensures RegistrationAsks(Plus(inp, r), front) == RegistrationAsks(inp, front)
  {
    forall i | 0 <= i < |front| ensures RegistrationAskOf(Plus(inp, r), front[i]) == RegistrationAskOf(inp, front[i]) {
      assert front[i] in front;
      VerdictPlus(inp, r, front[i]);
    }
  }

  lemma HarmlessElder(inp: Input, r: Registration, rejected: map<UID, string>, x: Registration)
    requires WellFormed(inp) && WellFormed(Plus(inp, r)) && Harmless(inp, r, rejected)
    requires x in inp.registrations && OlderRegistration(x, r)
    ensures SameVerdict(inp, r, rejected, x.uid)
  {
    RegistrationVerdictIs(inp, rejected, x);
    RegistrationVerdictIs(Plus(inp, r), rejected, x);
    var front, back := SortedPlus(inp.registrations, r);
    forall y | y in front ensures y.uid != r.uid { NotTwice(inp.registrations, r, y); }
    FrontAsks(inp, r, front);
    HarmlessClaims(inp, r, rejected);
    BehindDiffer(inp.registrations, r, x, back);
    ClaimVerdict(inp, rejected, front, back, x.uid);
    ClaimVerdict(Plus(inp, r), rejected, front, [r] + back, x.uid);
  }

  lemma HarmlessStatic(inp: Input, r: Registration, rejected: map<UID, string>, u: UID)
    requires WellFormed(inp) && WellFormed(Plus(inp, r)) && Harmless(inp, r, rejected) && u in StaticUids(inp)
    ensures SameVerdict(inp, r, rejected, u)
  {
    StaticVerdict(inp, rejected, u);
    StaticVerdict(Plus(inp, r), rejected, u);
    HarmlessClaims(inp, r, rejected);
  }

  /** A struck static set somewhere means that one is refused for a reserved subtree, which it was not before. */
  lemma StruckStatic(inp: Input, r: Registration, rejected: map<UID, string>, n: nat) returns (u: UID)
    requires WellFormed(inp) && WellFormed(Plus(inp, r)) && n < |inp.statics| && StrikesStatic(inp, r, rejected, n)
    ensures u in StaticUids(inp) && !SameVerdict(inp, r, rejected, u)
  {
    var asks, hits := SortedStatics(inp), AllHits(inp, r, Sort(OlderStatic, inp.statics));
    StaticAsksDistinct(inp, Sort(OlderStatic, inp.statics));
    var m := FirstStrike(rejected, asks, hits, n);
    StruckDiffers(rejected, asks, hits, m);
    StaticsPlus(inp, r);
    u := asks[m].uid;
    assert asks[m] in asks && u in StaticAskUids(asks);
    StaticVerdict(inp, rejected, u);
    StaticVerdict(Plus(inp, r), rejected, u);
  }

  /** The reason of a registration is its refusal, or what it meets at its turn. */
  ghost predicate Explains(verdict: Verdict, reason: string) {
    match verdict
    case Refuse(refusal) => reason == refusal
    case Ignore => reason == ""
    case Accept => reason == "" || reason == "NameConflict"
  }

  lemma TurnExplains(st: Claims, asks: seq<RegistrationAsk>, n: nat)
    requires DistinctRegistrationAsks(asks) && n < |asks| && asks[n].uid !in st.registrations && Reason(st.reasons, asks[n].uid) == ""
    ensures Explains(asks[n].verdict, Reason(RegistrationClaims(st, asks).reasons, asks[n].uid))
  {
    AcceptedAtTurn(st, asks, n);
  }

  lemma ClaimExplains(inp: Input, bad: set<UID>, x: Registration)
    requires WellFormed(inp) && bad <= Rejectable(inp) && x in inp.registrations
    ensures Explains(RegistrationVerdict(inp, x), Reason(AllClaims(inp, Rejecting(bad)).reasons, x.uid))
  {
    var n := PlaceOf(inp.registrations, x);
    assert SortedRegistrations(inp)[n] == RegistrationAskOf(inp, x);
    assert x.uid in RegistrationUids(inp);
    RegistrationAsksDistinct(inp, Sort(OlderRegistration, inp.registrations));
    RegistrationUnmentioned(inp, bad, x.uid);
    TurnExplains(StaticClaims(Rejecting(bad), SortedStatics(inp)), SortedRegistrations(inp), n);
  }

  lemma ReasonExplains(inp: Input, bad: set<UID>, x: Registration)
    requires WellFormed(inp) && bad <= Rejectable(inp) && x in inp.registrations
    ensures Explains(RegistrationVerdict(inp, x), Reason(CompileInputs(inp, Rejecting(bad)).reasons, x.uid))
  {
    ClaimExplains(inp, bad, x);
    RegistrationVerdictIs(inp, Rejecting(bad), x);
  }

  lemma RefusedElder(inp: Input, r: Registration, bad: set<UID>, x: Registration)
    requires WellFormed(inp) && WellFormed(Plus(inp, r)) && bad <= Rejectable(inp)
    requires x in inp.registrations && Refuses(inp, r, x)
    ensures Reason(CompileInputs(Plus(inp, r), Rejecting(bad)).reasons, x.uid) == RESERVED
            != Reason(CompileInputs(inp, Rejecting(bad)).reasons, x.uid)
  {
    NotTwice(inp.registrations, r, x);
    VerdictPlus(inp, r, x);
    assert "NameConflict"[0] != RESERVED[0];
    ReasonExplains(inp, bad, x);
    ReasonExplains(Plus(inp, r), bad, x);
  }

  /**
   * Adding a registration to a zone changes neither acceptance nor reason of
   * any older registration or static set, if and only if the zone is not
   * managed or its valid reserved subtrees neither overlap an older
   * registration that passed its checks up to there, nor cover a permitted
   * record that the scan of a static set comes to, unless that set is refused
   * for a reserved subtree anyway.
   */
  lemma EldersUnchangedIff(inp: Input, r: Registration, bad: set<UID>)
    requires WellFormed(inp) && WellFormed(Plus(inp, r)) && bad <= Rejectable(inp)
    ensures (forall u :: Elder(inp, r, u) ==> SameVerdict(inp, r, Rejecting(bad), u)) <==> Harmless(inp, r, Rejecting(bad))
  {
    if Harmless(inp, r, Rejecting(bad)) {
      forall u | Elder(inp, r, u) ensures SameVerdict(inp, r, Rejecting(bad), u) { HarmlessElders(inp, r, Rejecting(bad), u); }
    } else {
      var u := SomebodyChanged(inp, r, bad);
    }
  }

  lemma HarmlessElders(inp: Input, r: Registration, rejected: map<UID, string>, u: UID)
    requires WellFormed(inp) && WellFormed(Plus(inp, r)) && Harmless(inp, r, rejected) && Elder(inp, r, u)
    ensures SameVerdict(inp, r, rejected, u)
  {
    if u in StaticUids(inp) {
      HarmlessStatic(inp, r, rejected, u);
    } else {
      var x :| x in inp.registrations && x.uid == u && OlderRegistration(x, r);
      HarmlessElder(inp, r, rejected, x);
    }
  }

  lemma SomebodyChanged(inp: Input, r: Registration, bad: set<UID>) returns (u: UID)
    requires WellFormed(inp) && WellFormed(Plus(inp, r)) && bad <= Rejectable(inp) && !Harmless(inp, r, Rejecting(bad))
    ensures Elder(inp, r, u) && !SameVerdict(inp, r, Rejecting(bad), u)
  {
    if n :| 0 <= n < |inp.statics| && StrikesStatic(inp, r, Rejecting(bad), n) {
      u := StruckStatic(inp, r, Rejecting(bad), n);
    } else {
      var x :| x in inp.registrations && OlderRegistration(x, r) && Refuses(inp, r, x);
      RefusedElder(inp, r, bad, x);
      u := x.uid;
    }
  }

  /** In an unmanaged zone a registration never changes the verdict on anybody older, whatever has been rejected. */
  lemma ElderVerdict(inp: Input, r: Registration, rejected: map<UID, string>, u: UID)
    requires WellFormed(inp) && WellFormed(Plus(inp, r)) && !inp.zone.managed && Elder(inp, r, u)
    ensures SameVerdict(inp, r, rejected, u)
  {
    NoHits(inp, r, rejected);
    HarmlessElders(inp, r, rejected, u);
  }

  lemma NoHits(inp: Input, r: Registration, rejected: map<UID, string>)
    requires !inp.zone.managed
    ensures Harmless(inp, r, rejected)
  {
    forall rs: StaticSet ensures Hits(inp, r, rs) == {} {}
  }
}
