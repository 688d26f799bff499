/** DeleteRecordSet: everything a record set wrote is removed, and nothing of anybody else's. */
module Deletion {
  import Names
  import opened Sorting
  import opened PowerDns
  import opened PatchOrder
  import opened RecordSets
  import opened Ensure

  /** An RRset stamped by the record set, or at a name it asks for and stamped by nobody. */
  predicate Doomed(zone: string, rs: RecordSet, z: Zone, k: Key) {
    k in z && (StampedRef(z[k].comments) == Ref(rs) || (Desires(zone, rs, k) && StampedRef(z[k].comments) == ""))
  }

  /** What a successful deletion makes of one RRset. */
  predicate Removed(zone: string, rs: RecordSet, z: Zone, after: Zone, k: Key) {
    At(after, k) == if Doomed(zone, rs, z, k) then EMPTY else At(z, k)
  }

  // ----- the targets --------------------------------------------------------

  function OwnKeys(zone: string, rs: RecordSet, n: nat): set<Key>
    requires n <= |rs.records|
  {
    set i | 0 <= i < n :: KeyOf(zone, rs, rs.records[i].name)
  }

  /** The names the record set lists that nobody else has rewritten. */
  method ListedTargets(zone: string, rs: RecordSet, z: Zone) returns (targets: set<Key>)
    ensures forall k :: k in targets <==> Desires(zone, rs, k) && k in z && (StampedRef(z[k].comments) == "" || StampedRef(z[k].comments) == Ref(rs))
  {
    targets := {};
    for n := 0 to |rs.records|
      invariant forall k :: k in targets <==>
                  k in OwnKeys(zone, rs, n) && k in z && (StampedRef(z[k].comments) == "" || StampedRef(z[k].comments) == Ref(rs))
    {
      var key := KeyOf(zone, rs, rs.records[n].name);
      OwnKeysNext(zone, rs, n);
      if key in z {
        var owner := StampedRef(z[key].comments);
        if owner == "" || owner == Ref(rs) {
          targets := targets + {key};
        }
      }
    }
    OwnKeysDesired(zone, rs);
  }

  lemma OwnKeysNext(zone: string, rs: RecordSet, n: nat)
    requires n < |rs.records|
    ensures OwnKeys(zone, rs, n + 1) == OwnKeys(zone, rs, n) + {KeyOf(zone, rs, rs.records[n].name)}
  {
  }

  lemma OwnKeysDesired(zone: string, rs: RecordSet)
    ensures forall k :: k in OwnKeys(zone, rs, |rs.records|) <==> Desires(zone, rs, k)
  {
    forall k ensures k in OwnKeys(zone, rs, |rs.records|) <==> Desires(zone, rs, k) {
      if Desires(zone, rs, k) {
        var owner :| owner in OwnerNames(rs.records) && Names.Qualify(owner, zone) == k.name;
        var e :| e in rs.records && e.name == owner;
        var i :| 0 <= i < |rs.records| && rs.records[i] == e;
        assert k == KeyOf(zone, rs, rs.records[i].name);
      }
      if k in OwnKeys(zone, rs, |rs.records|) {
        var i :| 0 <= i < |rs.records| && k == KeyOf(zone, rs, rs.records[i].name);
        assert rs.records[i] in rs.records && rs.records[i].name in OwnerNames(rs.records);
      }
    }
  }

  /** With those the record set has stamped anywhere, as deletes. */
  method DeletesFor(zone: string, rs: RecordSet, z: Zone) returns (deletes: seq<Change>)
    ensures Deletes(deletes) && forall k :: Delete(k) in deletes <==> Doomed(zone, rs, z, k)
  {
    var targets := ListedTargets(zone, rs, z);
    var all := targets;
    var rest := z.Keys;
    while rest != {}
      invariant rest <= z.Keys
      invariant forall k :: k in all <==> k in targets || (k in z && k !in rest && StampedRef(z[k].comments) == Ref(rs))
    {
      var k :| k in rest;
      rest := rest - {k};
      if StampedRef(z[k].comments) == Ref(rs) {
        all := all + {k};
      }
    }
    var unsorted := ListDeletes(all);
    deletes := Sort(ChangeLeq, unsorted);
    SortKeepsKeys(unsorted);
    SameMembers(deletes, unsorted);
  }

  method ListDeletes(keys: set<Key>) returns (deletes: seq<Change>)
    ensures Deletes(deletes) && forall k :: Delete(k) in deletes <==> k in keys
  {
    deletes := [];
    var rest := keys;
    while rest != {}
      invariant rest <= keys && Deletes(deletes)
      invariant forall k :: Delete(k) in deletes <==> k in keys && k !in rest
    {
      var k :| k in rest;
      rest := rest - {k};
      assert forall i :: 0 <= i < |deletes| ==> deletes[i] in deletes && deletes[i] == Delete(deletes[i].key);
      deletes := deletes + [Delete(k)];
    }
  }

  // ----- sending ------------------------------------------------------------

  lemma StopsEarly(z: Zone, deletes: seq<Change>, after: Zone, n: nat)
    requires DeletedSoFar(z, deletes, false, after, n)
    ensures DeletedSoFar(z, deletes, false, after, |deletes|)
  {
    assert forall c :: c in deletes[..n] ==> c in deletes[..|deletes|];
  }

  /** Unlike the deletes of an update, these end at the first chunk that fails. */
  method SendDeletes(server: Server, deletes: seq<Change>) returns (ok: bool)
    requires Deletes(deletes) && Normal(server.zone)
    modifies server
    ensures DeletedSoFar(old(server.zone), deletes, ok, server.zone, |deletes|)
  {
    ghost var z := server.zone;
    var start := 0;
    while start < |deletes|
      invariant start <= |deletes| && DeletedSoFar(z, deletes, true, server.zone, start)
    {
      var end := if start + PATCH_CHUNK_SIZE > |deletes| then |deletes| else start + PATCH_CHUNK_SIZE;
      ghost var y := server.zone;
      var outcome := server.Patch(Sent(deletes[start..end]));
      DeleteChunk(z, deletes, true, y, start, end, outcome, server.zone);
      if !outcome.Applied? {
        StopsEarly(z, deletes, server.zone, end);
        return false;
      }
      start := end;
    }
    return true;
  }

  method DeleteRecordSet(server: Server, zone: string, rs: RecordSet) returns (ok: bool)
    requires Normal(server.zone)
    modifies server
    ensures Normal(server.zone)
    ensures forall k :: !Doomed(zone, rs, old(server.zone), k) ==> At(server.zone, k) == At(old(server.zone), k)
    ensures forall k :: At(server.zone, k) == EMPTY || At(server.zone, k) == At(old(server.zone), k)
    ensures ok ==> forall k :: Removed(zone, rs, old(server.zone), server.zone, k)
  {
    ghost var z := server.zone;
    var deletes := DeletesFor(zone, rs, server.zone);
    ok := SendDeletes(server, deletes);
    DeletionMeans(zone, rs, z, deletes, ok, server.zone);
  }

  lemma DeletionMeans(zone: string, rs: RecordSet, z: Zone, deletes: seq<Change>, ok: bool, after: Zone)
    requires (forall k :: Delete(k) in deletes <==> Doomed(zone, rs, z, k)) && DeletedSoFar(z, deletes, ok, after, |deletes|)
    ensures forall k :: !Doomed(zone, rs, z, k) ==> At(after, k) == At(z, k)
    ensures forall k :: At(after, k) == EMPTY || At(after, k) == At(z, k)
    ensures ok ==> forall k :: Removed(zone, rs, z, after, k)
  {
    assert deletes[..|deletes|] == deletes;
  }

  // ----- what is left -------------------------------------------------------

  /** After a successful deletion nothing carries the stamp, and what is left at its names is stamped by others. */
  lemma NothingLeft(zone: string, rs: RecordSet, z: Zone, after: Zone)
    requires forall k :: Removed(zone, rs, z, after, k)
    ensures forall k :: StampedRef(At(after, k).comments) != Ref(rs)
    ensures forall k :: Desires(zone, rs, k) && At(after, k) != EMPTY ==> StampedRef(At(after, k).comments) != ""
  {
    forall k ensures StampedRef(At(after, k).comments) != Ref(rs)
             ensures Desires(zone, rs, k) && At(after, k) != EMPTY ==> StampedRef(At(after, k).comments) != ""
    {
      assert Removed(zone, rs, z, after, k);
    }
  }

  /** Writing a record set and deleting it leaves the zone without what it wanted and what it had. */
  lemma EnsureThenDelete(zone: string, rs: RecordSet, z: Zone, mid: Zone, after: Zone, k: Key)
    requires OnTarget(zone, rs, z, mid, k) && Removed(zone, rs, mid, after, k)
    ensures At(after, k) == if Desires(zone, rs, k) || Surplus(zone, rs, z, k) then EMPTY else At(z, k)
  {
    if Desires(zone, rs, k) {
      WrittenStamp(zone, rs, k, At(mid, k));
      assert k in mid;
    }
  }

  /**
   * Deletion undoes a successful pass exactly, if and only if before the pass
   * the record set had nothing in the zone and nobody held what it wanted.
   */
  lemma DeleteUndoesEnsureIff(zone: string, rs: RecordSet, z: Zone, mid: Zone, after: Zone)
    requires Normal(z) && Normal(after)
    requires forall k :: OnTarget(zone, rs, z, mid, k) && Removed(zone, rs, mid, after, k)
    ensures after == z <==> forall k :: Desires(zone, rs, k) || Surplus(zone, rs, z, k) ==> k !in z
  {
    forall k ensures At(after, k) == if Desires(zone, rs, k) || Surplus(zone, rs, z, k) then EMPTY else At(z, k) {
      assert OnTarget(zone, rs, z, mid, k) && Removed(zone, rs, mid, after, k);
      EnsureThenDelete(zone, rs, z, mid, after, k);
    }
    if forall k :: Desires(zone, rs, k) || Surplus(zone, rs, z, k) ==> k !in z {
      SameZone(after, z);
    }
  }
}
