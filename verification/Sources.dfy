/** The objects a private zone is compiled from, and the plan it compiles to. */
module Sources {
  import opened Text

  type UID = string
  type RRType = string

  const CNAME := "CNAME"
  const SRV := "SRV"
  const MAX_TTL_SECONDS := 30
  const DEFAULT_TTL := 300
  const MAX_INT32 := 2147483647

  datatype ObjectRef = ObjectRef(name: string, uid: UID, generation: int)

  const NO_REF := ObjectRef("", "", 0)

  /**
   * `content` is the rendered value of the entry under the type it is listed
   * for, empty when the entry carries no value of that type. `srv` is the
   * target of an SRV value.
   */
  datatype RecordEntry = RecordEntry(name: string, ttl: Option<int>, content: string, srv: Option<string>)

  datatype Zone = Zone(name: string, uid: UID, generation: int, domain: string, isPrivate: bool, managed: bool)

  datatype Registration = Registration(
    name: string, uid: UID, generation: int, created: int, deleting: bool,
    zone: string, owner: string, types: seq<RRType>, ttl: int, reserved: seq<string>)

  datatype ContributionSet = ContributionSet(rtype: RRType, records: seq<RecordEntry>)

  datatype Contribution = Contribution(
    name: string, uid: UID, generation: int, deleting: bool,
    registration: ObjectRef, eligible: bool, sets: seq<ContributionSet>)

  datatype StaticSet = StaticSet(
    uid: UID, created: int, deleting: bool, zone: string, rtype: RRType, records: seq<RecordEntry>)

  /** The lifetime high-water mark of one contribution. */
  datatype Fence = Fence(uid: UID, generation: int, sequence: int, retired: bool, source: string)

  datatype RegistrationFence = RegistrationFence(uid: UID, generation: int)

  datatype Key = Key(name: string, rtype: RRType)

  datatype Owner = Owner(name: string, rtype: RRType, registration: UID, staticSet: UID)

  datatype RRSet = RRSet(name: string, rtype: RRType, ttl: int, records: seq<RecordEntry>, uids: seq<UID>)

  datatype Plan = Plan(
    zone: UID, apex: string, contexts: seq<UID>, owners: seq<Owner>, rrsets: seq<RRSet>,
    contributions: seq<Fence>, registrations: seq<RegistrationFence>)

  /**
   * `references` holds the pinned zone reference of each registration,
   * `marshal` the JSON text records are ordered by and `subdomain` the
   * DNS-1123 check on reserved subtrees.
   */
  datatype Input = Input(
    zone: Zone, contexts: seq<UID>, references: map<UID, ObjectRef>,
    registrations: seq<Registration>, contributions: seq<Contribution>, statics: seq<StaticSet>,
    previous: Option<Plan>, marshal: RecordEntry -> string, subdomain: string -> bool)

  ghost predicate DistinctFences(fences: seq<Fence>) {
    && (forall f :: f in fences ==> f.uid != "")
    && (forall i, j :: 0 <= i < j < |fences| ==> fences[i].uid != fences[j].uid)
  }

  function RegistrationUids(inp: Input): set<UID> {
    set r | r in inp.registrations :: r.uid
  }

  function ContributionUids(inp: Input): set<UID> {
    set c | c in inp.contributions :: c.uid
  }

  function StaticUids(inp: Input): set<UID> {
    set s | s in inp.statics :: s.uid
  }

  ghost predicate DistinctRegistrations(regs: seq<Registration>) {
    forall i, j :: 0 <= i < j < |regs| ==> regs[i].uid != regs[j].uid
  }

  ghost predicate DistinctContributions(cs: seq<Contribution>) {
    forall i, j :: 0 <= i < j < |cs| ==> cs[i].uid != cs[j].uid
  }

  ghost predicate DistinctStatics(sets: seq<StaticSet>) {
    forall i, j :: 0 <= i < j < |sets| ==> sets[i].uid != sets[j].uid
  }

  /** API-assigned UIDs are non-empty and name one object each. */
  ghost predicate WellFormed(inp: Input) {
    && "" !in RegistrationUids(inp) + ContributionUids(inp) + StaticUids(inp)
    && DistinctRegistrations(inp.registrations)
    && DistinctContributions(inp.contributions)
    && DistinctStatics(inp.statics)
    && RegistrationUids(inp) !! ContributionUids(inp) !! StaticUids(inp)
    && (inp.previous.Some? ==> DistinctFences(inp.previous.value.contributions))
  }

  predicate KeyLeq(a: Key, b: Key) {
    if a.name == b.name then Leq(a.rtype, b.rtype) else Leq(a.name, b.name)
  }

  predicate OlderRegistration(a: Registration, b: Registration) {
    a.created < b.created || (a.created == b.created && Leq(a.uid, b.uid))
  }

  predicate OlderStatic(a: StaticSet, b: StaticSet) {
    a.created < b.created || (a.created == b.created && Leq(a.uid, b.uid))
  }
}
