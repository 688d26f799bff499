/** The regional wire plan: the compiler's plan with each record carrying its fence. */
module Wire {
  import opened Text
  import opened Names
  import opened Sorting
  import opened Sources
  import opened Aggregation

  datatype WireRecord = WireRecord(content: string, uid: UID, generation: int, sequence: int)

  datatype WireRRSet = WireRRSet(name: string, rtype: RRType, ttl: int, records: seq<WireRecord>)

  datatype WirePlan = WirePlan(
    zone: UID, apex: string, registrations: seq<RegistrationFence>, fences: seq<Fence>,
    owners: seq<string>, rrsets: seq<WireRRSet>)

  predicate FenceLeq(a: Fence, b: Fence) {
    Leq(a.uid, b.uid)
  }

  /** The first fence of a contribution. */
  function FenceFor(fences: seq<Fence>, uid: UID): Option<Fence> {
    if fences == [] then None
    else if fences[0].uid == uid then Some(fences[0])
    else FenceFor(fences[1..], uid)
  }

  function WireRecordOf(fences: seq<Fence>, s: RRSet, i: nat): WireRecord
    requires i < |s.records|
  {
    if i >= |s.uids| then WireRecord(s.records[i].content, "", 0, 0)
    else
      match FenceFor(fences, s.uids[i])
      case None => WireRecord(s.records[i].content, s.uids[i], 0, 0)
      case Some(f) => WireRecord(s.records[i].content, s.uids[i], f.generation, f.sequence)
  }

  /** The first `n` records of an RRset. */
  function WireRecords(fences: seq<Fence>, s: RRSet, n: nat): (records: seq<WireRecord>)
    requires n <= |s.records|
  {
    seq(n, i requires 0 <= i < n => WireRecordOf(fences, s, i))
  }

  function WireRRSetOf(plan: Plan, s: RRSet): WireRRSet {
    WireRRSet(AbsoluteOwner(s.name, plan.apex), s.rtype, s.ttl, WireRecords(plan.contributions, s, |s.records|))
  }

  function WireRRSets(plan: Plan, n: nat): (sets: seq<WireRRSet>)
    requires n <= |plan.rrsets|
  {
    seq(n, i requires 0 <= i < n => WireRRSetOf(plan, plan.rrsets[i]))
  }

  /** Every RRset has a TTL and every record a value. */
  ghost predicate Convertible(s: RRSet) {
    s.ttl >= 0 && forall i :: 0 <= i < |s.records| ==> s.records[i].content != ""
  }

  function OwnerNames(plan: Plan, n: nat): set<string>
    requires n <= |plan.owners|
  {
    set i | 0 <= i < n :: AbsoluteOwner(plan.owners[i].name, plan.apex)
  }

  /** None when some RRset cannot be converted. */
  ghost function ToWire(plan: Plan): Option<WirePlan> {
    UidLinear();
    if exists i :: 0 <= i < |plan.rrsets| && !Convertible(plan.rrsets[i]) then None
    else Some(WirePlan(plan.zone, plan.apex, plan.registrations, Sort(FenceLeq, plan.contributions),
                       SortedSet(Leq, OwnerNames(plan, |plan.owners|)), WireRRSets(plan, |plan.rrsets|)))
  }

  // ----- the conversion loops -----------------------------------------------

  lemma FenceForFirst(fences: seq<Fence>, uid: UID, k: nat)
    requires k <= |fences| && forall j :: 0 <= j < k ==> fences[j].uid != uid
    ensures FenceFor(fences, uid) == FenceFor(fences[k..], uid)
  {
    if k > 0 {
      FenceForFirst(fences[1..], uid, k - 1);
      assert fences[1..][k - 1..] == fences[k..];
    }
  }

  method FindFence(fences: seq<Fence>, uid: UID) returns (f: Option<Fence>)
    ensures f == FenceFor(fences, uid)
  {
    f := None;
    for k := 0 to |fences|
      invariant forall j :: 0 <= j < k ==> fences[j].uid != uid
    {
      if fences[k].uid == uid {
        FenceForFirst(fences, uid, k);
        f := Some(fences[k]);
        return;
      }
    }
    FenceForFirst(fences, uid, |fences|);
  }

  method ConvertSet(plan: Plan, s: RRSet) returns (r: Option<WireRRSet>)
    ensures r == if Convertible(s) then Some(WireRRSetOf(plan, s)) else None
  {
    if s.ttl < 0 {
      return None;
    }
    var records := [];
    for i := 0 to |s.records|
      invariant forall j :: 0 <= j < i ==> s.records[j].content != ""
      invariant records == WireRecords(plan.contributions, s, i)
    {
      var record := WireRecord(s.records[i].content, "", 0, 0);
      if record.content == "" {
        return None;
      }
      if i < |s.uids| {
        record := record.(uid := s.uids[i]);
        var f := FindFence(plan.contributions, s.uids[i]);
        if f.Some? {
          record := record.(generation := f.value.generation, sequence := f.value.sequence);
        }
      }
      records := records + [record];
    }
    r := Some(WireRRSet(AbsoluteOwner(s.name, plan.apex), s.rtype, s.ttl, records));
  }

  /** The absolute owner names, each once, in the order they are first met. */
  method DistinctOwners(plan: Plan) returns (owners: seq<string>)
    ensures forall x :: x in owners <==> x in OwnerNames(plan, |plan.owners|)
    ensures forall i, j :: 0 <= i < j < |owners| ==> owners[i] != owners[j]
  {
    owners := [];
    var seen: set<string> := {};
    for k := 0 to |plan.owners|
      invariant forall x :: x in owners <==> x in OwnerNames(plan, k)
      invariant forall x :: x in owners <==> x in seen
      invariant forall i, j :: 0 <= i < j < |owners| ==> owners[i] != owners[j]
    {
      var name := AbsoluteOwner(plan.owners[k].name, plan.apex);
      assert OwnerNames(plan, k + 1) == OwnerNames(plan, k) + {name};
      if name !in seen {
        owners := owners + [name];
        seen := seen + {name};
      }
    }
  }

  method Convert(plan: Plan) returns (r: Option<WirePlan>)
    ensures r == ToWire(plan)
  {
    UidLinear();
    var owners := DistinctOwners(plan);
    var rrsets := [];
    for i := 0 to |plan.rrsets|
      invariant forall j :: 0 <= j < i ==> Convertible(plan.rrsets[j])
      invariant rrsets == WireRRSets(plan, i)
    {
      var s := ConvertSet(plan, plan.rrsets[i]);
      if s.None? {
        return None;
      }
      rrsets := rrsets + [s.value];
    }
    SortOfOnce(Leq, owners, OwnerNames(plan, |plan.owners|));
    r := Some(WirePlan(plan.zone, plan.apex, plan.registrations, Sort(FenceLeq, plan.contributions),
                       Sort(Leq, owners), rrsets));
  }

  // ----- what the wire plan says --------------------------------------------

  lemma FenceForIs(fences: seq<Fence>, f: Fence)
    requires DistinctFences(fences) && f in fences
    ensures FenceFor(fences, f.uid) == Some(f)
  {
    var k :| 0 <= k < |fences| && fences[k] == f;
    FenceForFirst(fences, f.uid, k);
  }

  /** Fences that are already in UID order go on the wire as they are. */
  lemma FencesInOrder(plan: Plan)
    requires DistinctFences(plan.contributions) && Sorted(FenceLeq, plan.contributions) && ToWire(plan).Some?
    ensures ToWire(plan).value.fences == plan.contributions
  {
    UidLinear();
    forall a: Fence, b: Fence ensures FenceLeq(a, b) || FenceLeq(b, a) { LeqTotal(a.uid, b.uid); }
    forall a: Fence, b: Fence, c: Fence | FenceLeq(a, b) && FenceLeq(b, c) ensures FenceLeq(a, c) {
      LeqTransitive(a.uid, b.uid, c.uid);
    }
    SortSorted(FenceLeq, plan.contributions);
    SortedUnique(FenceLeq, plan.contributions, Sort(FenceLeq, plan.contributions));
  }

  /** Every wire record is one of the plan's and carries the generation its contribution is fenced at. */
  lemma RecordsCarryFences(plan: Plan, k: nat, i: nat, f: Fence)
    requires ToWire(plan).Some? && k < |plan.rrsets| && i < |plan.rrsets[k].records| && i < |plan.rrsets[k].uids|
    requires DistinctFences(plan.contributions) && f in plan.contributions && f.uid == plan.rrsets[k].uids[i]
    ensures var w := ToWire(plan).value;
            && |w.rrsets| == |plan.rrsets| && |w.rrsets[k].records| == |plan.rrsets[k].records|
            && w.rrsets[k].records[i] == WireRecord(plan.rrsets[k].records[i].content, f.uid, f.generation, f.sequence)
  {
    FenceForIs(plan.contributions, f);
  }
}
