/** EnsureRecordSet as a whole. */
module Convergence {
  import opened Text
  import opened PowerDns
  import opened Isolation
  import opened RecordSets
  import opened Ensure
  import opened EnsureProofs

  /** The Programmed condition reported for one owner name. */
  datatype Status = Status(owner: string, programmed: bool, reason: string)

  const PROGRAMMED := "Programmed"
  const CONFLICT := "Conflict"
  const PDNS_ERROR := "PDNSError"

  function Need(zone: string, rs: RecordSet, z: Zone, skip: bool, owners: seq<string>): nat -> bool {
    (p: nat) => p < |owners| && NeedsWrite(zone, rs, z, skip, owners[p])
  }

  /** `at` lists the positions below `n` that are needed, in order. */
  ghost predicate Picks(need: nat -> bool, n: nat, at: seq<nat>) {
    && (forall i :: 0 <= i < |at| ==> at[i] < n && need(at[i]))
    && (forall i, j :: 0 <= i < j < |at| ==> at[i] < at[j])
    && (forall p: nat :: p < n && need(p) ==> p in at)
  }

  lemma PicksNext(need: nat -> bool, n: nat, at: seq<nat>)
    requires Picks(need, n, at)
    ensures Picks(need, n + 1, if need(n) then at + [n] else at)
  {
    assert (at + [n])[|at|] == n;
    assert forall p :: p in at ==> p in at + [n];
  }

  /** `at` lists the positions of the owners that need a write. */
  ghost predicate Positions(zone: string, rs: RecordSet, z: Zone, skip: bool, owners: seq<string>, n: nat, at: seq<nat>) {
    n <= |owners| && Picks(Need(zone, rs, z, skip, owners), n, at)
  }

  function OwnersAt(owners: seq<string>, at: seq<nat>): (writing: seq<string>)
    requires forall i :: 0 <= i < |at| ==> at[i] < |owners|
  {
    seq(|at|, i requires 0 <= i < |at| => owners[at[i]])
  }

  lemma WritesNext(zone: string, rs: RecordSet, owners: seq<string>, at: seq<nat>, n: nat)
    requires (forall i :: 0 <= i < |at| ==> at[i] < |owners|) && n < |owners|
    ensures WritesOf(zone, rs, OwnersAt(owners, at + [n])) == WritesOf(zone, rs, OwnersAt(owners, at)) + [WriteOf(zone, rs, owners[n])]
  {
    assert OwnersAt(owners, at + [n]) == OwnersAt(owners, at) + [owners[n]];
  }

  /** The zone read decides which owners are rewritten and which are already current. */
  method PlanWrites(zone: string, rs: RecordSet, z: Zone, skip: bool, owners: seq<string>)
    returns (writes: seq<Change>, at: seq<nat>)
    ensures Positions(zone, rs, z, skip, owners, |owners|, at)
    ensures writes == WritesOf(zone, rs, OwnersAt(owners, at))
  {
    writes, at := [], [];
    for n := 0 to |owners|
      invariant Positions(zone, rs, z, skip, owners, n, at)
      invariant writes == WritesOf(zone, rs, OwnersAt(owners, at))
    {
      var owner := owners[n];
      PicksNext(Need(zone, rs, z, skip, owners), n, at);
      WritesNext(zone, rs, owners, at, n);
      if NeedsWrite(zone, rs, z, skip, owner) {
        writes := writes + [WriteOf(zone, rs, owner)];
        at := at + [n];
      }
    }
  }

  lemma PlanIsWriting(zone: string, rs: RecordSet, z: Zone, skip: bool, owners: seq<string>, at: seq<nat>)
    requires (forall x :: x in owners <==> x in OwnerNames(rs.records)) && forall i, j :: 0 <= i < j < |owners| ==> owners[i] != owners[j]
    requires Positions(zone, rs, z, skip, owners, |owners|, at)
    ensures Writing(rs, OwnersAt(owners, at)) && Skipped(zone, rs, z, skip, OwnersAt(owners, at))
  {
    var writing := OwnersAt(owners, at);
    forall i | 0 <= i < |writing| ensures writing[i] in OwnerNames(rs.records) { assert owners[at[i]] in owners; }
    forall owner | owner in OwnerNames(rs.records) ensures owner in writing <==> NeedsWrite(zone, rs, z, skip, owner) {
      var p :| 0 <= p < |owners| && owners[p] == owner;
      if NeedsWrite(zone, rs, z, skip, owner) {
        assert Need(zone, rs, z, skip, owners)(p) && p in at;
        var i :| 0 <= i < |at| && at[i] == p;
        assert writing[i] == owner;
      }
    }
  }

  function ReasonOf(err: Outcome, key: Key): string {
    if err.Refusal? && key in err.named then CONFLICT else PDNS_ERROR
  }

  /** Everybody starts as programmed; a write that failed says so. */
  method Report(owners: seq<string>, at: seq<nat>, writes: seq<Change>, errs: seq<Option<Outcome>>) returns (statuses: seq<Status>)
    requires |errs| == |at| == |writes| && (forall i :: 0 <= i < |at| ==> at[i] < |owners|)
    requires forall i, j :: 0 <= i < j < |at| ==> at[i] < at[j]
    ensures |statuses| == |owners| && forall p :: 0 <= p < |owners| ==> statuses[p].owner == owners[p]
    ensures forall p :: 0 <= p < |owners| ==> (statuses[p].programmed <==> forall i :: 0 <= i < |at| && at[i] == p ==> errs[i].None?)
    ensures forall i :: 0 <= i < |at| && errs[i].Some? ==> statuses[at[i]].reason == ReasonOf(errs[i].value, writes[i].key)
  {
    statuses := seq(|owners|, p requires 0 <= p < |owners| => Status(owners[p], true, PROGRAMMED));
    for n := 0 to |at|
      invariant |statuses| == |owners| && forall p :: 0 <= p < |owners| ==> statuses[p].owner == owners[p]
      invariant forall p :: 0 <= p < |owners| ==> (statuses[p].programmed <==> forall i :: 0 <= i < n && at[i] == p ==> errs[i].None?)
      invariant forall i :: 0 <= i < n && errs[i].Some? ==> statuses[at[i]].reason == ReasonOf(errs[i].value, writes[i].key)
    {
      if errs[n].Some? {
        statuses := statuses[at[n] := Status(owners[at[n]], false, ReasonOf(errs[n].value, writes[n].key))];
      }
    }
  }

  /** A pass: the plan made from the zone read, what was sent and what was left. */
  ghost predicate Passed(zone: string, written: set<RecordSet>, rs: RecordSet, z: Zone, skip: bool, owners: seq<string>, at: seq<nat>,
                         deletes: seq<Change>, errs: seq<Option<Outcome>>, mid: Zone, deleted: bool, after: Zone)
  {
    && Versions(written) && rs in written && Faithful(zone, written, z) && OneSpelling(zone, rs)
    && (forall x :: x in owners <==> x in OwnerNames(rs.records))
    && (forall i, j :: 0 <= i < j < |owners| ==> owners[i] != owners[j])
    && Positions(zone, rs, z, skip, owners, |owners|, at)
    && Writing(rs, OwnersAt(owners, at)) && Skipped(zone, rs, z, skip, OwnersAt(owners, at)) && SurplusList(zone, rs, z, deletes)
    && Groups(ChangesOf(zone, rs, OwnersAt(owners, at), deletes))
    && Sends(zone, rs, z, OwnersAt(owners, at), deletes, errs, mid, deleted, after)
    && |errs| == |at|
  }

  /** Every owner reported programmed holds its records, whatever else went wrong. */
  lemma ReportHolds(zone: string, written: set<RecordSet>, rs: RecordSet, z: Zone, skip: bool, owners: seq<string>, at: seq<nat>,
                    deletes: seq<Change>, errs: seq<Option<Outcome>>, mid: Zone, deleted: bool, after: Zone, p: nat)
    requires Passed(zone, written, rs, z, skip, owners, at, deletes, errs, mid, deleted, after)
    requires p < |owners| && forall i :: 0 <= i < |at| && at[i] == p ==> errs[i].None?
    ensures At(after, KeyOf(zone, rs, owners[p])) == Programmed(rs, owners[p])
  {
    var writing := OwnersAt(owners, at);
    assert owners[p] in owners;
    forall i | 0 <= i < |writing| && writing[i] == owners[p] ensures errs[i].None? {
      assert at[i] == p;
    }
    OwnerProgrammed(zone, written, rs, z, skip, writing, deletes, errs, mid, deleted, after, owners[p]);
  }

  lemma ReportsHold(zone: string, written: set<RecordSet>, rs: RecordSet, z: Zone, skip: bool, owners: seq<string>, at: seq<nat>,
                    deletes: seq<Change>, errs: seq<Option<Outcome>>, mid: Zone, deleted: bool, after: Zone, statuses: seq<Status>)
    requires Passed(zone, written, rs, z, skip, owners, at, deletes, errs, mid, deleted, after)
    requires |statuses| == |owners| && forall p :: 0 <= p < |owners| ==> statuses[p].owner == owners[p]
    requires forall p :: 0 <= p < |owners| ==> (statuses[p].programmed <==> forall i :: 0 <= i < |at| && at[i] == p ==> errs[i].None?)
    ensures forall p :: 0 <= p < |statuses| && statuses[p].programmed ==>
              At(after, KeyOf(zone, rs, statuses[p].owner)) == Programmed(rs, statuses[p].owner)
  {
    forall p | 0 <= p < |statuses| && statuses[p].programmed
      ensures At(after, KeyOf(zone, rs, statuses[p].owner)) == Programmed(rs, statuses[p].owner)
    {
      ReportHolds(zone, written, rs, z, skip, owners, at, deletes, errs, mid, deleted, after, p);
    }
  }

  lemma PassFrame(zone: string, written: set<RecordSet>, rs: RecordSet, z: Zone, skip: bool, owners: seq<string>, at: seq<nat>,
                  deletes: seq<Change>, errs: seq<Option<Outcome>>, mid: Zone, deleted: bool, after: Zone)
    requires Passed(zone, written, rs, z, skip, owners, at, deletes, errs, mid, deleted, after)
    ensures Faithful(zone, written, after)
    ensures forall k :: CellStep(zone, rs, z, after, k)
  {
    forall k ensures CellStep(zone, rs, z, after, k) {
      EveryCell(zone, rs, z, OwnersAt(owners, at), deletes, errs, mid, deleted, after, k);
    }
    StaysFaithful(zone, written, rs, z, after);
  }

  /** RRsets neither desired nor stamped by the record set are never touched. */
  lemma AllOthersUntouched(zone: string, rs: RecordSet, z: Zone, after: Zone)
    requires forall k :: CellStep(zone, rs, z, after, k)
    ensures forall k :: !Desires(zone, rs, k) && StampedRef(At(z, k).comments) != Ref(rs) ==> At(after, k) == At(z, k)
  {
    forall k | !Desires(zone, rs, k) && StampedRef(At(z, k).comments) != Ref(rs) ensures At(after, k) == At(z, k) {
      assert CellStep(zone, rs, z, after, k);
    }
  }

  lemma PassTarget(zone: string, written: set<RecordSet>, rs: RecordSet, z: Zone, skip: bool, owners: seq<string>, at: seq<nat>,
                   deletes: seq<Change>, errs: seq<Option<Outcome>>, mid: Zone, after: Zone)
    requires Passed(zone, written, rs, z, skip, owners, at, deletes, errs, mid, true, after)
    requires forall i :: 0 <= i < |at| ==> errs[i].None?
    ensures forall k :: OnTarget(zone, rs, z, after, k)
  {
    forall k ensures OnTarget(zone, rs, z, after, k) {
      AllOnTarget(zone, written, rs, z, skip, OwnersAt(owners, at), deletes, errs, mid, after, k);
    }
  }

  /** On a converged zone there is nothing to send. */
  lemma NothingToSend(zone: string, rs: RecordSet, z: Zone, owners: seq<string>, at: seq<nat>, deletes: seq<Change>)
    requires Converged(zone, rs, z) && SurplusList(zone, rs, z, deletes)
    requires (forall x :: x in owners <==> x in OwnerNames(rs.records)) && Positions(zone, rs, z, true, owners, |owners|, at)
    ensures at == [] && deletes == []
  {
    if at != [] {
      assert owners[at[0]] in owners;
      ConvergedQuiet(zone, rs, z, owners[at[0]]);
    }
    assert forall c :: c in deletes ==> c == Delete(c.key);
    HasMember(deletes);
  }

  lemma HasMember(deletes: seq<Change>)
    ensures deletes != [] ==> deletes[0] in deletes
  {
  }

  lemma AllReported(owners: seq<string>, at: seq<nat>, errs: seq<Option<Outcome>>, statuses: seq<Status>)
    requires |errs| == |at| && |statuses| == |owners| && (forall i :: 0 <= i < |at| ==> at[i] < |owners|)
    requires forall p :: 0 <= p < |owners| ==> (statuses[p].programmed <==> forall i :: 0 <= i < |at| && at[i] == p ==> errs[i].None?)
    ensures (forall p :: 0 <= p < |statuses| ==> statuses[p].programmed) ==> forall i :: 0 <= i < |at| ==> errs[i].None?
  {
    if forall p :: 0 <= p < |statuses| ==> statuses[p].programmed {
      forall i | 0 <= i < |at| ensures errs[i].None? { assert statuses[at[i]].programmed; }
    }
  }

  lemma AllOnTargetIf(zone: string, written: set<RecordSet>, rs: RecordSet, z: Zone, skip: bool, owners: seq<string>, at: seq<nat>,
                      deletes: seq<Change>, errs: seq<Option<Outcome>>, mid: Zone, deleted: bool, after: Zone, statuses: seq<Status>)
    requires Passed(zone, written, rs, z, skip, owners, at, deletes, errs, mid, deleted, after) && |statuses| == |owners|
    requires forall p :: 0 <= p < |owners| ==> (statuses[p].programmed <==> forall i :: 0 <= i < |at| && at[i] == p ==> errs[i].None?)
    ensures deleted && (forall p :: 0 <= p < |statuses| ==> statuses[p].programmed) ==> forall k :: OnTarget(zone, rs, z, after, k)
  {
    AllReported(owners, at, errs, statuses);
    if deleted && forall p :: 0 <= p < |statuses| ==> statuses[p].programmed {
      PassTarget(zone, written, rs, z, skip, owners, at, deletes, errs, mid, after);
    }
  }

  lemma OwnersReported(rs: RecordSet, owners: seq<string>, statuses: seq<Status>)
    requires (forall x :: x in owners <==> x in OwnerNames(rs.records)) && |statuses| == |owners|
    requires forall p :: 0 <= p < |owners| ==> statuses[p].owner == owners[p]
    ensures forall owner :: owner in OwnerNames(rs.records) <==> exists p :: 0 <= p < |statuses| && statuses[p].owner == owner
  {
    assert forall p :: 0 <= p < |statuses| ==> statuses[p].owner == owners[p] && owners[p] in owners;
  }

  /** Plans and sends the pass; the statuses are made from its errors. */
  method Send(server: Server, zone: string, rs: RecordSet, skip: bool, ghost written: set<RecordSet>)
    returns (owners: seq<string>, at: seq<nat>, writes: seq<Change>, errs: seq<Option<Outcome>>, deleted: bool,
             ghost surplus: seq<Change>, ghost mid: Zone)
    requires Normal(server.zone) && OneSpelling(zone, rs)
    requires Versions(written) && rs in written && Faithful(zone, written, server.zone)
    modifies server
    ensures Passed(zone, written, rs, old(server.zone), skip, owners, at, surplus, errs, mid, deleted, server.zone)
    ensures Normal(server.zone) && |writes| == |at|
    ensures skip && Converged(zone, rs, old(server.zone)) ==> server.patches == old(server.patches)
  {
    var existing := server.zone;
    owners := SortedOwners(rs.records);
    writes, at := PlanWrites(zone, rs, existing, skip, owners);
    PlanIsWriting(zone, rs, existing, skip, owners, at);
    var listed := OwnedSurplus(zone, rs, existing);
    surplus := listed;
    assert SurplusList(zone, rs, existing, listed);
    WritesApart(zone, rs, OwnersAt(owners, at));
    var changes, rest := PairDeletes(writes, listed);
    assert changes == ChangesOf(zone, rs, OwnersAt(owners, at), listed);
    GroupsOf(zone, rs, existing, OwnersAt(owners, at), listed);
    errs := ApplyInChunks(server, changes);
    mid := server.zone;
    deleted := ApplyDeletes(server, rest);
    if skip && Converged(zone, rs, existing) {
      NothingToSend(zone, rs, existing, owners, at, listed);
    }
  }

  /**
   * `skip` is the generation skip. `deleted` reports whether every PATCH of
   * deletes went through; the statuses do not show it.
   */
  method EnsureRecordSet(server: Server, zone: string, rs: RecordSet, skip: bool, ghost written: set<RecordSet>)
    returns (statuses: seq<Status>, deleted: bool)
    requires Normal(server.zone) && OneSpelling(zone, rs) && rs.rtype != "SOA"
    requires Versions(written) && rs in written && Faithful(zone, written, server.zone)
    modifies server
    ensures Normal(server.zone) && Faithful(zone, written, server.zone)
    ensures forall k :: CellStep(zone, rs, old(server.zone), server.zone, k)
    ensures forall k :: !Desires(zone, rs, k) && StampedRef(At(old(server.zone), k).comments) != Ref(rs) ==>
              At(server.zone, k) == At(old(server.zone), k)
    ensures forall owner :: owner in OwnerNames(rs.records) <==> exists p :: 0 <= p < |statuses| && statuses[p].owner == owner
    ensures forall p :: 0 <= p < |statuses| && statuses[p].programmed ==>
              At(server.zone, KeyOf(zone, rs, statuses[p].owner)) == Programmed(rs, statuses[p].owner)
    ensures deleted && (forall p :: 0 <= p < |statuses| ==> statuses[p].programmed) ==>
              forall k :: OnTarget(zone, rs, old(server.zone), server.zone, k)
    ensures skip && Converged(zone, rs, old(server.zone)) ==> server.patches == old(server.patches)
  {
    ghost var z := server.zone;
    var owners, at, writes, errs;
    ghost var surplus, mid;
    owners, at, writes, errs, deleted, surplus, mid := Send(server, zone, rs, skip, written);
    PassFrame(zone, written, rs, z, skip, owners, at, surplus, errs, mid, deleted, server.zone);
    AllOthersUntouched(zone, rs, z, server.zone);
    statuses := Report(owners, at, writes, errs);
    ReportsHold(zone, written, rs, z, skip, owners, at, surplus, errs, mid, deleted, server.zone, statuses);
    AllOnTargetIf(zone, written, rs, z, skip, owners, at, surplus, errs, mid, deleted, server.zone, statuses);
    OwnersReported(rs, owners, statuses);
  }
}
