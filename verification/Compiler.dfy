/**
 * The zone compiler: ownership claims, fences and aggregated RRsets.
 *
 * Every loop of the compiler is a function on the prefix it has processed, so
 * the methods in CompilerLoops can name it in their invariants and the lemmas
 * can follow it by induction.
 */
module Compiler {
  import opened Text
  import opened Names
  import opened Sorting
  import opened Sources
  import opened ClaimTable
  import opened FenceTable
  import opened Aggregation

  const MISSING_SRV_TARGET := "MissingSRVTargetAddress"

  // ----- private zone rules -------------------------------------------------

  function AbsoluteName(s: string): string {
    var n := ToLower(TrimSpace(s));
    if n == "" then DOT else if HasSuffix(n, DOT) then n else n + DOT
  }

  /** model.ValidatePrivateRecordOwner reports no error. */
  predicate OwnerPermitted(name: string, apex: string, rtype: RRType) {
    var t, owner := ToLower(rtype), TrimSpace(name);
    && t != "type65280" && t != "alias" && t != "soa"
    && !(t == "cname" && (owner == "" || owner == APEX || AbsoluteName(owner) == AbsoluteName(apex)))
  }

  function RelativeOwner(owner: string, apex: string): string {
    var n, a := CanonicalName(owner), CanonicalName(apex);
    if n == "" || n == APEX || n == a then APEX else TrimSuffix(n, DOT + a)
  }

  predicate Within(name: string, subtree: string) {
    var n, s := CanonicalName(name), CanonicalName(subtree);
    n == s || HasSuffix(n, DOT + s)
  }

  /** `scope` is a subtree that registration `r` reserves in the zone. */
  predicate Reserves(inp: Input, r: Registration, scope: string) {
    && r.zone == inp.zone.name && r.uid != ""
    && scope in r.reserved && inp.subdomain(RelativeOwner(scope, inp.zone.domain))
  }

  predicate InReservedScope(inp: Input, owner: string) {
    inp.zone.managed && exists r | r in inp.registrations :: exists scope | scope in r.reserved ::
      Reserves(inp, r, scope)
      && Within(RelativeOwner(owner, inp.zone.domain), RelativeOwner(scope, inp.zone.domain))
  }

  /** No other registration reserves a subtree that overlaps what `reg` asks for. */
  predicate OwnsScopes(inp: Input, reg: Registration, apex: string) {
    inp.zone.managed ==>
      forall r | r in inp.registrations && r.uid != reg.uid ::
        forall scope | scope in r.reserved && Reserves(inp, r, scope) ::
          var s := RelativeOwner(scope, inp.zone.domain);
          && !Within(RelativeOwner(reg.owner, apex), s)
          && forall d | d in reg.reserved ::
               !Within(RelativeOwner(d, apex), s) && !Within(s, RelativeOwner(d, apex))
  }

  predicate ReservationValid(inp: Input, reg: Registration, apex: string) {
    inp.zone.managed ==> forall d | d in reg.reserved :: inp.subdomain(RelativeOwner(d, apex))
  }

  predicate RefMatches(ref: ObjectRef, name: string, uid: UID, generation: int) {
    ref.name == name && ref.uid != "" && ref.uid == uid && (ref.generation == 0 || ref.generation == generation)
  }

  function Apex(inp: Input): string {
    CanonicalName(inp.zone.domain)
  }

  // ----- claims -------------------------------------------------------------

  function StaticKey(rs: StaticSet, record: RecordEntry, apex: string): Key {
    Key(ZoneOwner(record.name, apex), rs.rtype)
  }

  function RecordTtl(record: RecordEntry): int {
    if record.ttl.Some? then record.ttl.value else DEFAULT_TTL
  }

  /** What refuses a static record whatever else is claimed; empty when nothing does. */
  function StaticRefusal(inp: Input, rs: StaticSet, record: RecordEntry): string {
    var apex := Apex(inp);
    if !OwnerPermitted(ZoneOwner(record.name, apex), apex, rs.rtype) then "UnsupportedPrivateRecord"
    else if InReservedScope(inp, record.name) then "ReservedScope"
    else if record.content == "" then "InvalidRecord"
    else if RecordTtl(record) < 0 || RecordTtl(record) > MAX_INT32 then "InvalidTTL"
    else ""
  }

  function ItemOf(inp: Input, rs: StaticSet, record: RecordEntry): Item {
    Item(StaticKey(rs, record, Apex(inp)), RecordTtl(record), StaticRefusal(inp, rs, record))
  }

  function StaticAskOf(inp: Input, rs: StaticSet): StaticAsk {
    StaticAsk(rs.uid, rs.zone != inp.zone.name || rs.deleting,
              seq(|rs.records|, i requires 0 <= i < |rs.records| => ItemOf(inp, rs, rs.records[i])))
  }

  function ClaimedKeys(reg: Registration, apex: string): set<Key> {
    set t | t in reg.types :: Key(ZoneOwner(reg.owner, apex), t)
  }

  /** The verdict on a registration before it meets anybody else's claims. */
  function RegistrationVerdict(inp: Input, reg: Registration): Verdict {
    var apex := Apex(inp);
    var name := ZoneOwner(reg.owner, apex);
    var ref := if reg.uid in inp.references then inp.references[reg.uid] else NO_REF;
    if reg.deleting then Refuse("Terminating")
    else if reg.ttl < 1 || reg.ttl > MAX_TTL_SECONDS then Refuse("InvalidTTL")
    else if reg.zone != inp.zone.name then Ignore
    else if reg.uid == "" then Refuse("MissingUID")
    else if !RefMatches(ref, inp.zone.name, inp.zone.uid, inp.zone.generation) then Refuse("InvalidReference")
    else if !OwnsScopes(inp, reg, apex) then Refuse("ReservedScope")
    else if !ReservationValid(inp, reg, apex) then Refuse("InvalidReservation")
    else if exists t | t in reg.types :: !OwnerPermitted(name, apex, t) then Refuse("UnsupportedPrivateRecord")
    else Accept
  }

  function RegistrationAskOf(inp: Input, reg: Registration): RegistrationAsk {
    RegistrationAsk(reg.uid, RegistrationVerdict(inp, reg), ClaimedKeys(reg, Apex(inp)))
  }

  function StaticAsks(inp: Input, sets: seq<StaticSet>): (asks: seq<StaticAsk>) {
    seq(|sets|, i requires 0 <= i < |sets| => StaticAskOf(inp, sets[i]))
  }

  function RegistrationAsks(inp: Input, regs: seq<Registration>): (asks: seq<RegistrationAsk>) {
    seq(|regs|, i requires 0 <= i < |regs| => RegistrationAskOf(inp, regs[i]))
  }

  function SortedStatics(inp: Input): seq<StaticAsk> {
    StaticAsks(inp, Sort(OlderStatic, inp.statics))
  }

  function SortedRegistrations(inp: Input): seq<RegistrationAsk> {
    RegistrationAsks(inp, Sort(OlderRegistration, inp.registrations))
  }

  /** Static sets claim first, then registrations, each oldest first. */
  function AllClaims(inp: Input, rejected: map<UID, string>): Claims {
    RegistrationClaims(StaticClaims(rejected, SortedStatics(inp)), SortedRegistrations(inp))
  }

  // ----- contributions ------------------------------------------------------

  function FenceMap(fences: seq<Fence>): map<UID, Fence> {
    if fences == [] then map[]
    else FenceMap(fences[..|fences| - 1])[fences[|fences| - 1].uid := fences[|fences| - 1]]
  }

  function PreviousFences(inp: Input): map<UID, Fence> {
    if inp.previous.Some? then FenceMap(inp.previous.value.contributions) else map[]
  }

  function FindRegistration(regs: seq<Registration>, uid: UID): Option<Registration> {
    if regs == [] then None
    else if regs[|regs| - 1].uid == uid then Some(regs[|regs| - 1])
    else FindRegistration(regs[..|regs| - 1], uid)
  }

  /** The accepted registration a contribution names by UID. */
  function RegistrationOf(inp: Input, st: Claims, c: Contribution): Option<Registration> {
    if c.registration.uid in st.registrations then FindRegistration(inp.registrations, c.registration.uid) else None
  }

  function ObservationOf(reg: Option<Registration>, c: Contribution): Observation {
    Observation(c.uid,
                reg.None? || c.registration.name != reg.value.name || c.registration.generation != reg.value.generation,
                c.generation, c.deleting, c.name)
  }

  predicate NameInScope(name: string, scope: string, apex: string) {
    var s := ZoneOwner(scope, apex);
    name == s || HasSuffix(name, DOT + s)
  }

  predicate InRegistration(reg: Registration, name: string, apex: string) {
    name == ZoneOwner(reg.owner, apex) || exists scope | scope in reg.reserved :: NameInScope(name, scope, apex)
  }

  predicate RegistrationOwns(reg: Registration, key: Key, apex: string, held: map<Key, UID>) {
    !Contested(held, key, reg.uid) && InRegistration(reg, key.name, apex)
  }

  predicate RecordAllowed(reg: Registration, key: Key, apex: string) {
    key.rtype in reg.types && InRegistration(reg, key.name, apex)
  }

  function ContributionKey(part: ContributionSet, record: RecordEntry, apex: string): Key {
    Key(ZoneOwner(record.name, apex), part.rtype)
  }

  predicate RecordValid(held: map<Key, UID>, reg: Registration, apex: string, part: ContributionSet, record: RecordEntry) {
    var key := ContributionKey(part, record, apex);
    && OwnerPermitted(key.name, apex, key.rtype)
    && RegistrationOwns(reg, key, apex, held)
    && RecordAllowed(reg, key, apex)
    && record.content != ""
  }

  predicate PartValid(held: map<Key, UID>, reg: Registration, apex: string, part: ContributionSet) {
    && part.records != []
    && part.rtype in reg.types
    && forall record | record in part.records :: RecordValid(held, reg, apex, part, record)
  }

  predicate BundleValid(held: map<Key, UID>, reg: Registration, apex: string, c: Contribution) {
    forall part | part in c.sets :: PartValid(held, reg, apex, part)
  }

  /** The reason a contribution is not published, apart from SRV targets; empty when there is none. */
  function ContributionRefusal(inp: Input, st: Claims, c: Contribution): string {
    var reg := RegistrationOf(inp, st, c);
    var stale := Refusal(ObservationOf(reg, c), FenceOf(PreviousFences(inp), c.uid));
    if stale != "" then stale
    else if c.deleting then "Terminating"
    else if !c.eligible then "Ineligible"
    else if reg.None? || !BundleValid(st.held, reg.value, Apex(inp), c) then "NameOrTypeOutsideRegistration"
    else ""
  }

  /** A source rejected in an earlier round keeps that reason unless it is stale. */
  function ContributionReason(inp: Input, st: Claims, rejected: map<UID, string>, c: Contribution): string {
    var stale := Refusal(ObservationOf(RegistrationOf(inp, st, c), c), FenceOf(PreviousFences(inp), c.uid));
    if stale == "" && Reason(rejected, c.uid) != "" then Reason(rejected, c.uid)
    else ContributionRefusal(inp, st, c)
  }

  function Observations(inp: Input, st: Claims, cs: seq<Contribution>): (os: seq<Observation>) {
    seq(|cs|, i requires 0 <= i < |cs| => ObservationOf(RegistrationOf(inp, st, cs[i]), cs[i]))
  }

  function FinalFences(inp: Input, st: Claims): map<UID, Fence> {
    Fences(PreviousFences(inp), ContributionUids(inp), Observations(inp, st, inp.contributions))
  }

  // ----- published records --------------------------------------------------

  function Named(key: Key, record: RecordEntry): RecordEntry {
    record.(name := key.name)
  }

  function RecordEntries(reg: Registration, c: Contribution, apex: string, part: ContributionSet): RecordEntry -> seq<Entry> {
    (record: RecordEntry) =>
      var key := ContributionKey(part, record, apex);
      [Entry(key, Named(key, record), Some(c.uid), reg.ttl)]
  }

  function PartEntries(reg: Registration, c: Contribution, apex: string): ContributionSet -> seq<Entry> {
    (part: ContributionSet) => FlatMap(RecordEntries(reg, c, apex, part), part.records)
  }

  /** The records of a contribution, if it is published. */
  function EntriesOf(inp: Input, st: Claims, rejected: map<UID, string>): Contribution -> seq<Entry> {
    (c: Contribution) =>
      var reg := RegistrationOf(inp, st, c);
      if reg.Some? && ContributionReason(inp, st, rejected, c) == ""
      then FlatMap(PartEntries(reg.value, c, Apex(inp)), c.sets)
      else []
  }

  function StaticTtl(st: Claims, key: Key): int {
    if key in st.ttls then st.ttls[key] else 0
  }

  function StaticRecordEntries(st: Claims, rs: StaticSet, apex: string): RecordEntry -> seq<Entry> {
    (record: RecordEntry) =>
      var key := StaticKey(rs, record, apex);
      [Entry(key, Named(key, record), None, StaticTtl(st, key))]
  }

  function StaticEntriesOf(inp: Input, st: Claims): StaticSet -> seq<Entry> {
    (rs: StaticSet) =>
      if rs.zone == inp.zone.name && rs.uid in st.staticSets
      then FlatMap(StaticRecordEntries(st, rs, Apex(inp)), rs.records)
      else []
  }

  function Entries(inp: Input, st: Claims, rejected: map<UID, string>): seq<Entry> {
    FlatMap(EntriesOf(inp, st, rejected), inp.contributions) + FlatMap(StaticEntriesOf(inp, st), inp.statics)
  }

  // ----- the plan -----------------------------------------------------------

  function OwnerOf(st: Claims, key: Key): Owner
    requires key in st.held
  {
    if key in st.statics then Owner(key.name, key.rtype, "", st.statics[key])
    else Owner(key.name, key.rtype, st.held[key], "")
  }

  ghost function PlanOwners(st: Claims): (owners: seq<Owner>) {
    KeyLinear();
    var keys := SortedSet(KeyLeq, st.held.Keys);
    seq(|keys|, i requires 0 <= i < |keys| => OwnerOf(st, keys[i]))
  }

  function RegistrationFenceOf(regs: seq<Registration>, uid: UID): RegistrationFence {
    var reg := FindRegistration(regs, uid);
    RegistrationFence(uid, if reg.Some? then reg.value.generation else 0)
  }

  ghost function PlanRegistrations(regs: seq<Registration>, accepted: set<UID>): seq<RegistrationFence> {
    UidLinear();
    var uids := SortedSet(Leq, accepted);
    seq(|uids|, i requires 0 <= i < |uids| => RegistrationFenceOf(regs, uids[i]))
  }

  ghost function PlanFences(fences: map<UID, Fence>): seq<Fence> {
    UidLinear();
    var uids := SortedSet(Leq, fences.Keys);
    seq(|uids|, i requires 0 <= i < |uids| => fences[uids[i]])
  }

  datatype Compiled = Compiled(plan: Plan, accepted: set<UID>, reasons: map<UID, string>)

  ghost function PlanFor(inp: Input, st: Claims, rejected: map<UID, string>): Plan {
    Plan(inp.zone.uid, Apex(inp), inp.contexts, PlanOwners(st),
         RRSets(inp.marshal, Aggregates(Entries(inp, st, rejected))),
         PlanFences(FinalFences(inp, st)), PlanRegistrations(inp.registrations, st.registrations))
  }

  function ContributionReasons(inp: Input, st: Claims, rejected: map<UID, string>, cs: seq<Contribution>): map<UID, string> {
    if cs == [] then st.reasons
    else
      var c := cs[|cs| - 1];
      var before := ContributionReasons(inp, st, rejected, cs[..|cs| - 1]);
      var reason := ContributionReason(inp, st, rejected, c);
      if reason == "" then before else before[c.uid := reason]
  }

  function AcceptedContributions(inp: Input, st: Claims, rejected: map<UID, string>, cs: seq<Contribution>): set<UID> {
    set c | c in cs && ContributionReason(inp, st, rejected, c) == "" :: c.uid
  }

  /** One round of compilation with a set of already rejected sources. */
  ghost function CompileInputs(inp: Input, rejected: map<UID, string>): Compiled {
    var st := AllClaims(inp, rejected);
    Compiled(PlanFor(inp, st, rejected),
             st.staticSets + st.registrations + AcceptedContributions(inp, st, rejected, inp.contributions),
             ContributionReasons(inp, st, rejected, inp.contributions))
  }

  // ----- SRV targets --------------------------------------------------------

  predicate IsAddress(rtype: RRType) {
    rtype == "A" || rtype == "AAAA"
  }

  function AddressNames(plan: Plan): set<string> {
    set s | s in plan.rrsets && IsAddress(s.rtype) :: AbsoluteOwner(s.name, plan.apex)
  }

  /** Record `i` of `s` is an SRV record whose target has no address. */
  predicate Dangling(addresses: set<string>, apex: string, s: RRSet, i: nat)
    requires i < |s.records|
  {
    s.rtype == SRV && s.records[i].srv.Some? && SrvTargetOwner(s.records[i].srv.value, apex) !in addresses
  }

  /** The sources blamed for one dangling record. */
  function Blamed(plan: Plan, s: RRSet, i: nat): set<UID> {
    if i < |s.uids| then {s.uids[i]}
    else set o | o in plan.owners && o.name == s.name && o.staticSet != "" :: o.staticSet
  }

  function InvalidSrvSources(plan: Plan): set<UID> {
    var addresses := AddressNames(plan);
    set s, i, u |
      s in plan.rrsets && 0 <= i < |s.records| && Dangling(addresses, plan.apex, s, i) && u in Blamed(plan, s, i) :: u
  }
}
