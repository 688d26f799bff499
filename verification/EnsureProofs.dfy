/** Convergence: what PowerDNS holds after EnsureRecordSet, on every outcome. */
module EnsureProofs {
  import Names
  import opened Text
  import opened Sorting
  import opened PowerDns
  import opened Isolation
  import opened RecordSets
  import opened Ensure

  function WritesOf(zone: string, rs: RecordSet, writing: seq<string>): (writes: seq<Change>) {
    seq(|writing|, i requires 0 <= i < |writing| => WriteOf(zone, rs, writing[i]))
  }

  function ChangesOf(zone: string, rs: RecordSet, writing: seq<string>, deletes: seq<Change>): (changes: seq<seq<Change>>) {
    seq(|writing|, i requires 0 <= i < |writing| => Paired(WriteOf(zone, rs, writing[i]), deletes))
  }

  function RestOf(zone: string, rs: RecordSet, writing: seq<string>, deletes: seq<Change>): seq<Change> {
    Filter(Unpaired(WritesOf(zone, rs, writing)), deletes)
  }

  /** `writing` lists owners of the record set, each once. */
  ghost predicate Writing(rs: RecordSet, writing: seq<string>) {
    && (forall i :: 0 <= i < |writing| ==> writing[i] in OwnerNames(rs.records))
    && (forall i, j :: 0 <= i < j < |writing| ==> writing[i] != writing[j])
  }

  ghost predicate SurplusList(zone: string, rs: RecordSet, z: Zone, deletes: seq<Change>) {
    Deletes(deletes) && forall k :: Delete(k) in deletes <==> Surplus(zone, rs, z, k)
  }

  lemma WriteKeysFree(zone: string, rs: RecordSet, z: Zone, deletes: seq<Change>, owner: string)
    requires SurplusList(zone, rs, z, deletes) && owner in OwnerNames(rs.records)
    ensures forall c :: c in deletes ==> c.key != KeyOf(zone, rs, owner)
  {
    forall c | c in deletes ensures c.key != KeyOf(zone, rs, owner) {
      assert c == Delete(c.key);
      assert Desires(zone, rs, KeyOf(zone, rs, owner));
    }
  }

  lemma WritesApart(zone: string, rs: RecordSet, writing: seq<string>)
    requires OneSpelling(zone, rs) && Writing(rs, writing)
    ensures DistinctNames(WritesOf(zone, rs, writing))
  {
  }

  /** What is sent is one group per written name. */
  lemma GroupsOf(zone: string, rs: RecordSet, z: Zone, writing: seq<string>, deletes: seq<Change>)
    requires OneSpelling(zone, rs) && Writing(rs, writing) && SurplusList(zone, rs, z, deletes)
    ensures Groups(ChangesOf(zone, rs, writing, deletes)) && Deletes(RestOf(zone, rs, writing, deletes))
  {
    var changes := ChangesOf(zone, rs, writing, deletes);
    forall i | 0 <= i < |changes| ensures Group(changes[i]) && changes[i][0] == WriteOf(zone, rs, writing[i]) {
      WriteKeysFree(zone, rs, z, deletes, writing[i]);
      PairedGroup(WriteOf(zone, rs, writing[i]), deletes);
    }
    FilterDistinct(Unpaired(WritesOf(zone, rs, writing)), deletes);
  }

  /** The writes left the zone at `mid` and the remaining deletes at `after`. */
  ghost predicate Sends(zone: string, rs: RecordSet, z: Zone, writing: seq<string>, deletes: seq<Change>,
                        errs: seq<Option<Outcome>>, mid: Zone, ok: bool, after: Zone)
    requires Groups(ChangesOf(zone, rs, writing, deletes))
  {
    && SettledSoFar(z, ChangesOf(zone, rs, writing, deletes), errs, mid, |writing|)
    && DeletedSoFar(mid, RestOf(zone, rs, writing, deletes), ok, after, |RestOf(zone, rs, writing, deletes)|)
  }

  /** An RRset at a written name: as the group says, or untouched if there was an error. */
  lemma CellWritten(zone: string, rs: RecordSet, z: Zone, writing: seq<string>, deletes: seq<Change>,
                    errs: seq<Option<Outcome>>, mid: Zone, ok: bool, after: Zone, i: nat, k: Key)
    requires OneSpelling(zone, rs) && Writing(rs, writing) && SurplusList(zone, rs, z, deletes)
    requires Groups(ChangesOf(zone, rs, writing, deletes)) && Sends(zone, rs, z, writing, deletes, errs, mid, ok, after)
    requires i < |writing| && k.name == KeyOf(zone, rs, writing[i]).name
    ensures var meant := if k == KeyOf(zone, rs, writing[i]) then Programmed(rs, writing[i])
                         else if Surplus(zone, rs, z, k) then EMPTY else At(z, k);
            && (errs[i].None? ==> At(after, k) == meant)
            && (At(after, k) == meant || At(after, k) == At(z, k))
  {
    var changes, r := ChangesOf(zone, rs, writing, deletes), WriteOf(zone, rs, writing[i]);
    assert changes[i] == Paired(r, deletes) && changes[i][0] == r;
    NotInRest(zone, rs, writing, deletes, i, k);
    assert At(after, k) == At(mid, k);
    WriteKeysFree(zone, rs, z, deletes, writing[i]);
    PairedFind(r, deletes, k);
    assert Settled(z, changes[i], errs[i], mid);
    SettledCell(z, changes[i], errs[i], mid, k);
  }

  lemma SettledCell(z: Zone, g: seq<Change>, err: Option<Outcome>, after: Zone, k: Key)
    requires Group(g) && Settled(z, g, err, after) && k.name == g[0].key.name
    ensures err.None? ==> At(after, k) == Meant(At(z, k), Find(g, k))
    ensures At(after, k) == Meant(At(z, k), Find(g, k)) || At(after, k) == At(z, k)
  {
    assert Kept(z, g, after) ==> At(z, Key(k.name, k.rtype)) == At(after, Key(k.name, k.rtype));
  }

  lemma NotInRest(zone: string, rs: RecordSet, writing: seq<string>, deletes: seq<Change>, i: nat, k: Key)
    requires i < |writing| && k.name == KeyOf(zone, rs, writing[i]).name
    ensures var rest := RestOf(zone, rs, writing, deletes); Delete(k) !in rest[..|rest|]
  {
    var rest := RestOf(zone, rs, writing, deletes);
    assert rest[..|rest|] == rest;
    assert WritesOf(zone, rs, writing)[i] in WritesOf(zone, rs, writing);
  }

  /** An RRset at a name that is not written: deleted if surplus, else untouched. */
  lemma CellElsewhere(zone: string, rs: RecordSet, z: Zone, writing: seq<string>, deletes: seq<Change>,
                      errs: seq<Option<Outcome>>, mid: Zone, ok: bool, after: Zone, k: Key)
    requires SurplusList(zone, rs, z, deletes)
    requires Groups(ChangesOf(zone, rs, writing, deletes)) && Sends(zone, rs, z, writing, deletes, errs, mid, ok, after)
    requires forall i :: 0 <= i < |writing| ==> k.name != KeyOf(zone, rs, writing[i]).name
    ensures if Surplus(zone, rs, z, k) then At(after, k) == EMPTY || (!ok && At(after, k) == At(z, k)) else At(after, k) == At(z, k)
  {
    var changes := ChangesOf(zone, rs, writing, deletes);
    assert forall i :: 0 <= i < |changes| ==> changes[i][0] == WriteOf(zone, rs, writing[i]);
    assert At(mid, k) == At(z, k);
    InRest(zone, rs, writing, deletes, k);
  }

  lemma InRest(zone: string, rs: RecordSet, writing: seq<string>, deletes: seq<Change>, k: Key)
    requires forall i :: 0 <= i < |writing| ==> k.name != KeyOf(zone, rs, writing[i]).name
    ensures var rest := RestOf(zone, rs, writing, deletes); Delete(k) in rest[..|rest|] <==> Delete(k) in deletes
  {
    var writes, rest := WritesOf(zone, rs, writing), RestOf(zone, rs, writing, deletes);
    assert rest[..|rest|] == rest;
    forall r | r in writes ensures r.key.name != k.name {
      var i :| 0 <= i < |writes| && writes[i] == r;
    }
  }

  /** What may become of an RRset: nothing, deleted as surplus, or written as desired. */
  ghost predicate CellStep(zone: string, rs: RecordSet, z: Zone, after: Zone, k: Key) {
    || At(after, k) == At(z, k)
    || (Surplus(zone, rs, z, k) && At(after, k) == EMPTY)
    || (Desires(zone, rs, k) && WrittenBy(zone, rs, k, At(after, k)))
  }

  lemma EveryCell(zone: string, rs: RecordSet, z: Zone, writing: seq<string>, deletes: seq<Change>,
                  errs: seq<Option<Outcome>>, mid: Zone, ok: bool, after: Zone, k: Key)
    requires OneSpelling(zone, rs) && Writing(rs, writing) && SurplusList(zone, rs, z, deletes)
    requires Groups(ChangesOf(zone, rs, writing, deletes)) && Sends(zone, rs, z, writing, deletes, errs, mid, ok, after)
    ensures CellStep(zone, rs, z, after, k)
  {
    if i :| 0 <= i < |writing| && k.name == KeyOf(zone, rs, writing[i]).name {
      CellWritten(zone, rs, z, writing, deletes, errs, mid, ok, after, i, k);
    } else {
      CellElsewhere(zone, rs, z, writing, deletes, errs, mid, ok, after, k);
    }
  }

  /** Whatever happened, every stamped RRset still holds what its stamp says. */
  lemma StaysFaithful(zone: string, written: set<RecordSet>, rs: RecordSet, z: Zone, after: Zone)
    requires rs in written && Faithful(zone, written, z) && forall k :: CellStep(zone, rs, z, after, k)
    ensures Faithful(zone, written, after)
  {
    forall k | k in after && after[k].comments != [] ensures WrittenBySome(zone, written, k, after[k]) {
      assert CellStep(zone, rs, z, after, k);
      if At(after, k) == At(z, k) {
        assert k in z && z[k] == after[k];
      }
    }
  }

  // ----- success ------------------------------------------------------------

  ghost predicate Skipped(zone: string, rs: RecordSet, z: Zone, skip: bool, writing: seq<string>) {
    forall owner :: owner in OwnerNames(rs.records) ==> (owner in writing <==> NeedsWrite(zone, rs, z, skip, owner))
  }

  /** An owner that was skipped, or written without error, holds its records. */
  lemma OwnerProgrammed(zone: string, written: set<RecordSet>, rs: RecordSet, z: Zone, skip: bool, writing: seq<string>,
                        deletes: seq<Change>, errs: seq<Option<Outcome>>, mid: Zone, ok: bool, after: Zone, owner: string)
    requires Versions(written) && rs in written && Faithful(zone, written, z) && OneSpelling(zone, rs)
    requires Writing(rs, writing) && SurplusList(zone, rs, z, deletes) && Skipped(zone, rs, z, skip, writing)
    requires Groups(ChangesOf(zone, rs, writing, deletes)) && Sends(zone, rs, z, writing, deletes, errs, mid, ok, after)
    requires owner in OwnerNames(rs.records)
    requires forall i :: 0 <= i < |writing| && writing[i] == owner ==> errs[i].None?
    ensures At(after, KeyOf(zone, rs, owner)) == Programmed(rs, owner)
  {
    var k := KeyOf(zone, rs, owner);
    if i :| 0 <= i < |writing| && writing[i] == owner {
      CellWritten(zone, rs, z, writing, deletes, errs, mid, ok, after, i, k);
    } else {
      assert owner !in writing;
      SkippedHolds(zone, written, z, rs, owner);
      forall i | 0 <= i < |writing| ensures k.name != KeyOf(zone, rs, writing[i]).name {
        assert writing[i] in writing;
      }
      CellElsewhere(zone, rs, z, writing, deletes, errs, mid, ok, after, k);
      assert Desires(zone, rs, k);
    }
  }

  lemma SurplusGone(zone: string, rs: RecordSet, z: Zone, writing: seq<string>, deletes: seq<Change>,
                    errs: seq<Option<Outcome>>, mid: Zone, after: Zone, k: Key)
    requires OneSpelling(zone, rs) && Writing(rs, writing) && SurplusList(zone, rs, z, deletes)
    requires Groups(ChangesOf(zone, rs, writing, deletes)) && Sends(zone, rs, z, writing, deletes, errs, mid, true, after)
    requires (forall i :: 0 <= i < |writing| ==> errs[i].None?) && !Desires(zone, rs, k)
    ensures At(after, k) == if Surplus(zone, rs, z, k) then EMPTY else At(z, k)
  {
    if i :| 0 <= i < |writing| && k.name == KeyOf(zone, rs, writing[i]).name {
      assert Desires(zone, rs, KeyOf(zone, rs, writing[i]));
      CellWritten(zone, rs, z, writing, deletes, errs, mid, true, after, i, k);
    } else {
      CellElsewhere(zone, rs, z, writing, deletes, errs, mid, true, after, k);
    }
  }

  lemma AllOnTarget(zone: string, written: set<RecordSet>, rs: RecordSet, z: Zone, skip: bool, writing: seq<string>,
                    deletes: seq<Change>, errs: seq<Option<Outcome>>, mid: Zone, after: Zone, k: Key)
    requires Versions(written) && rs in written && Faithful(zone, written, z) && OneSpelling(zone, rs)
    requires Writing(rs, writing) && SurplusList(zone, rs, z, deletes) && Skipped(zone, rs, z, skip, writing)
    requires Groups(ChangesOf(zone, rs, writing, deletes)) && Sends(zone, rs, z, writing, deletes, errs, mid, true, after)
    requires forall i :: 0 <= i < |writing| ==> errs[i].None?
    ensures OnTarget(zone, rs, z, after, k)
  {
    if Desires(zone, rs, k) {
      var owner :| owner in OwnerNames(rs.records) && Names.Qualify(owner, zone) == k.name;
      OwnerProgrammed(zone, written, rs, z, skip, writing, deletes, errs, mid, true, after, owner);
    } else {
      SurplusGone(zone, rs, z, writing, deletes, errs, mid, after, k);
    }
  }
}
