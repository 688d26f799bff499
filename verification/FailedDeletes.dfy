/** Deletes that fail: they show in no status, and exactly when that can leave a zone unconverged. */
module FailedDeletes {
  import Names
  import opened Text
  import opened PowerDns
  import opened Isolation
  import opened RecordSets
  import opened Ensure
  import opened EnsureProofs
  import opened Convergence

  // ----- a pass whose deletes fail ------------------------------------------

  const OLD := RecordSet("n", "r", "u", 1, "A", [Entry("x", None, "1")])
  const NEW := RecordSet("n", "r", "u", 2, "A", [Entry("y", None, "1")])
  const X := KeyOf("a", OLD, "x")
  const Y := KeyOf("a", NEW, "y")
  const BEFORE: Zone := map[X := Programmed(OLD, "x")]
  const LEFT: Zone := BEFORE[Y := Programmed(NEW, "y")]

  lemma LetterQualified(c: char, zone: string)
    requires 'a' <= c <= 'z'
    ensures Names.Qualify([c], zone)[0] == c
  {
    assert ToLower([c])[0] == c;
  }

  lemma NamesDiffer()
    ensures X.name != Y.name
    ensures OwnerNames(OLD.records) == {"x"} && OwnerNames(NEW.records) == {"y"}
    ensures forall k :: Desires("a", NEW, k) <==> k == Y
  {
    LetterQualified('x', "a");
    LetterQualified('y', "a");
    assert "x" == ['x'] && "y" == ['y'];
    OwnersOf("x", OLD.records[0]);
    OwnersOf("y", NEW.records[0]);
    assert Wanted("a", NEW) == {Y.name};
  }

  lemma OwnersOf(name: string, e: Entry)
    requires e.name == name
    ensures OwnerNames([e]) == {name}
  {
    assert e in [e];
  }

  lemma LeftoverSurplus()
    ensures forall k :: Surplus("a", NEW, BEFORE, k) <==> k == X
    ensures Surplus("a", NEW, LEFT, X)
  {
    NamesDiffer();
    StampReads(OLD);
    assert Ref(OLD) == Ref(NEW);
    assert X in LEFT && LEFT[X] == Programmed(OLD, "x");
  }

  lemma OldFaithful()
    ensures Versions({OLD, NEW}) && Faithful("a", {OLD, NEW}, BEFORE)
  {
    NamesDiffer();
    assert OLD.generation != NEW.generation;
    assert WrittenBy("a", OLD, X, BEFORE[X]);
    assert WrittenBySome("a", {OLD, NEW}, X, BEFORE[X]);
  }

  lemma OneDelete()
    ensures SurplusList("a", NEW, BEFORE, [Delete(X)])
  {
    LeftoverSurplus();
  }

  lemma OneWrite()
    ensures Positions("a", NEW, BEFORE, true, ["y"], 1, [0]) && OwnersAt(["y"], [0]) == ["y"]
    ensures Writing(NEW, ["y"]) && Skipped("a", NEW, BEFORE, true, ["y"])
  {
    NamesDiffer();
    assert Y !in BEFORE;
    assert Need("a", NEW, BEFORE, true, ["y"])(0);
  }

  lemma WriteLands()
    requires Groups(ChangesOf("a", NEW, ["y"], [Delete(X)]))
    ensures Sends("a", NEW, BEFORE, ["y"], [Delete(X)], [None], LEFT, false, LEFT)
  {
    NamesDiffer();
    var changes := ChangesOf("a", NEW, ["y"], [Delete(X)]);
    assert changes[0] == Paired(WriteOf("a", NEW, "y"), [Delete(X)]);
    WriteSettles();
  }

  lemma WriteSettles()
    ensures Settled(BEFORE, Paired(WriteOf("a", NEW, "y"), [Delete(X)]), None, LEFT)
  {
    NamesDiffer();
    var write := WriteOf("a", NEW, "y");
    var g := Paired(write, [Delete(X)]);
    assert g[0] == write;
    forall k: Key | k.name == Y.name ensures At(LEFT, k) == Meant(At(BEFORE, k), Find(g, k)) {
      PairedFind(write, [Delete(X)], k);
    }
  }

  /**
   * A failed PATCH of deletes shows in no status: the one owner wanted is
   * written and reported programmed, the delete of the one no longer wanted
   * fails, and the zone has not converged.
   */
  lemma FailedDeleteUnseen()
    ensures Groups(ChangesOf("a", NEW, ["y"], [Delete(X)]))
    ensures Passed("a", {OLD, NEW}, NEW, BEFORE, true, ["y"], [0], [Delete(X)], [None], LEFT, false, LEFT)
    ensures !Converged("a", NEW, LEFT)
  {
    NamesDiffer();
    OldFaithful();
    OneWrite();
    OneDelete();
    LeftoverSurplus();
    GroupsOf("a", NEW, BEFORE, ["y"], [Delete(X)]);
    WriteLands();
  }

  // ----- exactly when it matters --------------------------------------------

  /** The pass so far: every write is in, the deletes that travel alone are still to be sent. */
  ghost predicate WroteAll(zone: string, written: set<RecordSet>, rs: RecordSet, z: Zone, skip: bool, owners: seq<string>, at: seq<nat>,
                           deletes: seq<Change>, errs: seq<Option<Outcome>>, mid: Zone)
  {
    && Positions(zone, rs, z, skip, owners, |owners|, at)
    && Passed(zone, written, rs, z, skip, owners, at, deletes, errs, mid, false, mid)
    && forall i :: 0 <= i < |at| ==> errs[i].None?
  }

  function Alone(zone: string, rs: RecordSet, owners: seq<string>, at: seq<nat>, deletes: seq<Change>): seq<Change>
    requires forall i :: 0 <= i < |at| ==> at[i] < |owners|
  {
    RestOf(zone, rs, OwnersAt(owners, at), deletes)
  }

  /** Whatever the answers to the remaining deletes, the zone converges. */
  ghost predicate AlwaysConverges(zone: string, rs: RecordSet, mid: Zone, rest: seq<Change>) {
    forall ok, after :: DeletedSoFar(mid, rest, ok, after, |rest|) ==> Converged(zone, rs, after)
  }

  lemma NothingAlone(zone: string, written: set<RecordSet>, rs: RecordSet, z: Zone, skip: bool, owners: seq<string>, at: seq<nat>,
                     deletes: seq<Change>, errs: seq<Option<Outcome>>, mid: Zone, ok: bool, after: Zone)
    requires WroteAll(zone, written, rs, z, skip, owners, at, deletes, errs, mid) && Alone(zone, rs, owners, at, deletes) == []
    requires DeletedSoFar(mid, [], ok, after, 0)
    ensures Converged(zone, rs, after)
  {
    assert Passed(zone, written, rs, z, skip, owners, at, deletes, errs, mid, true, after);
    PassTarget(zone, written, rs, z, skip, owners, at, deletes, errs, mid, after);
    TargetConverged(zone, rs, z, after);
  }

  /** The first delete that travels alone fails: its RRset stays, stamped and unwanted. */
  lemma AloneStays(zone: string, written: set<RecordSet>, rs: RecordSet, z: Zone, skip: bool, owners: seq<string>, at: seq<nat>,
                   deletes: seq<Change>, errs: seq<Option<Outcome>>, mid: Zone)
    requires WroteAll(zone, written, rs, z, skip, owners, at, deletes, errs, mid) && Alone(zone, rs, owners, at, deletes) != []
    ensures DeletedSoFar(mid, Alone(zone, rs, owners, at, deletes), false, mid, |Alone(zone, rs, owners, at, deletes)|)
    ensures !Converged(zone, rs, mid)
  {
    var writing, rest := OwnersAt(owners, at), Alone(zone, rs, owners, at, deletes);
    var k := rest[0].key;
    assert rest[0] in rest && rest[0] in deletes && rest[0] == Delete(k);
    forall i | 0 <= i < |writing| ensures k.name != KeyOf(zone, rs, writing[i]).name {
      if k.name == KeyOf(zone, rs, writing[i]).name { NotInRest(zone, rs, writing, deletes, i, k); }
    }
    CellElsewhere(zone, rs, z, writing, deletes, errs, mid, false, mid, k);
    assert At(mid, k) == At(z, k) || At(mid, k) == EMPTY;
    StillThere(zone, rs, z, writing, deletes, errs, mid, k);
  }

  lemma StillThere(zone: string, rs: RecordSet, z: Zone, writing: seq<string>, deletes: seq<Change>, errs: seq<Option<Outcome>>, mid: Zone, k: Key)
    requires Groups(ChangesOf(zone, rs, writing, deletes)) && SettledSoFar(z, ChangesOf(zone, rs, writing, deletes), errs, mid, |writing|)
    requires Surplus(zone, rs, z, k) && forall i :: 0 <= i < |writing| ==> k.name != KeyOf(zone, rs, writing[i]).name
    ensures Surplus(zone, rs, mid, k)
  {
    var changes := ChangesOf(zone, rs, writing, deletes);
    assert forall i :: 0 <= i < |changes| ==> changes[i][0] == WriteOf(zone, rs, writing[i]);
    assert At(mid, k) == At(z, k);
  }

  /**
   * With every write in, the zone converges whatever becomes of the remaining
   * deletes, if and only if none remains: every surplus RRset stands at a name
   * that is being written.
   */
  lemma ConvergesIffNoneAlone(zone: string, written: set<RecordSet>, rs: RecordSet, z: Zone, skip: bool, owners: seq<string>, at: seq<nat>,
                              deletes: seq<Change>, errs: seq<Option<Outcome>>, mid: Zone)
    requires WroteAll(zone, written, rs, z, skip, owners, at, deletes, errs, mid)
    ensures AlwaysConverges(zone, rs, mid, Alone(zone, rs, owners, at, deletes)) <==>
            forall k :: Surplus(zone, rs, z, k) ==> Written(WritesOf(zone, rs, OwnersAt(owners, at)), k.name)
  {
    NoneAloneMeans(zone, rs, z, OwnersAt(owners, at), deletes);
    var rest := Alone(zone, rs, owners, at, deletes);
    if rest == [] {
      forall ok, after | DeletedSoFar(mid, rest, ok, after, |rest|) ensures Converged(zone, rs, after) {
        NothingAlone(zone, written, rs, z, skip, owners, at, deletes, errs, mid, ok, after);
      }
    } else {
      AloneStays(zone, written, rs, z, skip, owners, at, deletes, errs, mid);
    }
  }

  lemma NoneAloneMeans(zone: string, rs: RecordSet, z: Zone, writing: seq<string>, deletes: seq<Change>)
    requires SurplusList(zone, rs, z, deletes)
    ensures RestOf(zone, rs, writing, deletes) == [] <==>
            forall k :: Surplus(zone, rs, z, k) ==> Written(WritesOf(zone, rs, writing), k.name)
  {
    var rest, writes := RestOf(zone, rs, writing, deletes), WritesOf(zone, rs, writing);
    if rest == [] {
      forall k | Surplus(zone, rs, z, k) ensures Written(writes, k.name) {
        assert Delete(k) in deletes && Delete(k) !in rest;
      }
    } else {
      assert rest[0] in rest && rest[0] in deletes && rest[0] == Delete(rest[0].key);
      assert !Written(writes, rest[0].key.name);
    }
  }
}
