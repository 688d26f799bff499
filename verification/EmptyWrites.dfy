/** Writes without records: the server names nobody for them, so isolation cannot set them apart. */
module EmptyWrites {
  import opened Text
  import opened Sorting
  import opened PowerDns
  import opened Isolation

  predicate HasValues(g: seq<Change>)
    requires g != [] && g[0].Replace?
  {
    g[0].data.values != []
  }

  /** Sent by itself to an honest server, the change is applied. */
  predicate LandsAlone(z: Zone, g: seq<Change>)
    requires g != [] && g[0].Replace?
  {
    HasValues(g) && !RefusedAlone(z, g)
  }

  // ----- malformed patches --------------------------------------------------

  lemma SentContains(batch: seq<Change>, c: Change)
    requires c in batch
    ensures c in Sent(batch)
  {
    SameMembers(Sort(ChangeLeq, batch), batch);
    assert c in Clearing(c);
    FlatMapMembers(Clearing, Sort(ChangeLeq, batch), c);
  }

  lemma SentReplace(batch: seq<Change>, c: Change)
    requires c in Sent(batch) && c.Replace?
    ensures c in batch
  {
    FlatMapMembers(Clearing, Sort(ChangeLeq, batch), c);
    SameMembers(Sort(ChangeLeq, batch), batch);
  }

  lemma WellFormedBatch(changes: seq<seq<Change>>, pending: seq<nat>)
    requires Groups(changes) && Pending(changes, pending) && forall i :: 0 <= i < |changes| ==> HasValues(changes[i])
    ensures !Malformed(Sent(Joined(changes, pending)))
  {
    forall c | c in Sent(Joined(changes, pending)) && c.Replace? ensures c.data.values != [] {
      SentReplace(Joined(changes, pending), c);
      var n := JoinedMemberOf(changes, pending, c);
      assert Group(changes[pending[n]]);
      var i :| 0 <= i < |changes[pending[n]]| && changes[pending[n]][i] == c;
    }
  }

  lemma EmptyMalformed(changes: seq<seq<Change>>, pending: seq<nat>, n: nat)
    requires Groups(changes) && Pending(changes, pending) && n < |pending| && !HasValues(changes[pending[n]])
    ensures Malformed(Sent(Joined(changes, pending)))
  {
    var c := changes[pending[n]][0];
    assert Group(changes[pending[n]]) && c in changes[pending[n]];
    JoinedMember(changes, pending, c);
    SentContains(Joined(changes, pending), c);
  }

  // ----- every change that could land ---------------------------------------

  ghost predicate OnlyRefusedDropped(z: Zone, changes: seq<seq<Change>>, pending: seq<nat>)
    requires Groups(changes)
  {
    Pending(changes, pending) && forall i :: 0 <= i < |changes| && i !in pending ==> RefusedAlone(z, changes[i])
  }

  lemma DropsRefused(z: Zone, changes: seq<seq<Change>>, pending: seq<nat>, named: set<Key>)
    requires Groups(changes) && OnlyRefusedDropped(z, changes, pending) && named <= Refused(z, Sent(Joined(changes, pending)))
    ensures OnlyRefusedDropped(z, changes, KeptOf(changes, pending, named))
  {
    KeptPending(changes, pending, named);
    forall i | 0 <= i < |changes| && i !in KeptOf(changes, pending, named) ensures RefusedAlone(z, changes[i]) {
      KeptMember(changes, pending, named, i);
      if i in pending {
        var n :| 0 <= n < |pending| && pending[n] == i;
        RefusedInAlone(z, changes, pending, named, n);
      }
    }
  }

  /** With values everywhere, what would land alone lands. */
  lemma {:induction false} ValuesLand(z: Zone, changes: seq<seq<Change>>, pending: seq<nat>, after: Zone, i: nat)
    requires Groups(changes) && OnlyRefusedDropped(z, changes, pending) && (forall j :: 0 <= j < |changes| ==> HasValues(changes[j]))
    requires MayEnd(z, changes, pending, after) && i < |changes| && LandsAlone(z, changes[i])
    ensures Carried(z, changes[i], after)
    decreases |pending|
  {
    assert i in pending;
    var outcome, a :| Honest(z, Sent(Joined(changes, pending)), outcome, a) && Follows(z, changes, pending, outcome, a, after);
    WellFormedBatch(changes, pending);
    if outcome.Refusal? {
      DropsRefused(z, changes, pending, outcome.named);
      ValuesLand(z, changes, KeptOf(changes, pending, outcome.named), after, i);
    } else {
      JoinedEffects(z, changes, pending, i);
    }
  }

  /** Whatever the answers, a change that is already in place stays so. */
  lemma {:induction false} InPlaceStays(z: Zone, changes: seq<seq<Change>>, pending: seq<nat>, after: Zone, i: nat)
    requires Groups(changes) && Pending(changes, pending) && MayEnd(z, changes, pending, after)
    requires i < |changes| && Carried(z, changes[i], z)
    ensures Carried(z, changes[i], after)
    decreases |pending|
  {
    if pending != [] {
      var outcome, a :| Honest(z, Sent(Joined(changes, pending)), outcome, a) && Follows(z, changes, pending, outcome, a, after);
      if outcome.Refusal? {
        KeptPending(changes, pending, outcome.named);
        InPlaceStays(z, changes, KeptOf(changes, pending, outcome.named), after, i);
      } else if after != z {
        JoinedEffects(z, changes, pending, i);
        if i !in pending { KeptCarried(z, changes[i], after); }
      }
    }
  }

  lemma KeptCarried(z: Zone, g: seq<Change>, after: Zone)
    requires g != [] && Kept(z, g, after) && Carried(z, g, z)
    ensures Carried(z, g, after)
  {
    forall k: Key | k.name == g[0].key.name ensures At(after, k) == Meant(At(z, k), Find(g, k)) {
      assert At(z, Key(k.name, k.rtype)) == At(after, Key(k.name, k.rtype));
    }
  }

  /** Whatever an honest server answers, every change that would land alone lands with the others. */
  ghost predicate AllLand(z: Zone, changes: seq<seq<Change>>)
    requires Groups(changes)
  {
    forall after, i :: MayEnd(z, changes, Everything(changes), after) && 0 <= i < |changes| && LandsAlone(z, changes[i]) ==>
      Carried(z, changes[i], after)
  }

  lemma EverythingPending(z: Zone, changes: seq<seq<Change>>)
    requires Groups(changes)
    ensures OnlyRefusedDropped(z, changes, Everything(changes))
  {
    var all := Everything(changes);
    forall i | 0 <= i < |changes| ensures i in all { assert all[i] == i; }
  }

  /** A write without records may end the batch before anything lands. */
  lemma EmptyWriteBlocks(z: Zone, changes: seq<seq<Change>>, n: nat)
    requires Groups(changes) && n < |changes| && !HasValues(changes[n])
    ensures MayEnd(z, changes, Everything(changes), z)
  {
    EverythingPending(z, changes);
    EmptyMalformed(changes, Everything(changes), n);
    EndsHere(z, changes, Everything(changes), Failed, z);
  }

  /**
   * Batching loses nothing on a server that fails only for malformed patches,
   * if and only if every write lists records, or nothing that would land alone
   * is missing from the zone anyway. An empty write blocks its neighbours also
   * when it would be refused itself: the server may look for it first.
   */
  lemma AllLandIff(z: Zone, changes: seq<seq<Change>>)
    requires Groups(changes)
    ensures AllLand(z, changes) <==>
            || (forall i :: 0 <= i < |changes| ==> HasValues(changes[i]))
            || (forall i :: 0 <= i < |changes| && LandsAlone(z, changes[i]) ==> Carried(z, changes[i], z))
  {
    EverythingPending(z, changes);
    if forall i :: 0 <= i < |changes| ==> HasValues(changes[i]) {
      forall after, i | MayEnd(z, changes, Everything(changes), after) && 0 <= i < |changes| && LandsAlone(z, changes[i])
        ensures Carried(z, changes[i], after)
      {
        ValuesLand(z, changes, Everything(changes), after, i);
      }
    } else if forall i :: 0 <= i < |changes| && LandsAlone(z, changes[i]) ==> Carried(z, changes[i], z) {
      forall after, i | MayEnd(z, changes, Everything(changes), after) && 0 <= i < |changes| && LandsAlone(z, changes[i])
        ensures Carried(z, changes[i], after)
      {
        InPlaceStays(z, changes, Everything(changes), after, i);
      }
    } else {
      var n :| 0 <= n < |changes| && !HasValues(changes[n]);
      EmptyWriteBlocks(z, changes, n);
    }
  }

  // ----- a batch of two -----------------------------------------------------

  const FULL := Replace(Key("x", "A"), Data(300, ["1"]), [])
  const HOLLOW := Replace(Key("y", "A"), Data(300, []), [])

  /** A write that would land alone is lost beside one without records. */
  lemma NeighbourLost()
    ensures Groups([[FULL], [HOLLOW]]) && LandsAlone(map[], [FULL])
    ensures MayEnd(map[], [[FULL], [HOLLOW]], Everything([[FULL], [HOLLOW]]), map[]) && !Carried(map[], [FULL], map[])
  {
    var changes := [[FULL], [HOLLOW]];
    assert "x"[0] != "y"[0];
    assert Group([FULL]) && Group([HOLLOW]);
    EmptyWriteBlocks(map[], changes, 1);
    assert Find([FULL], FULL.key) == Some(FULL);
    assert At(map[], FULL.key) != Meant(At(map[], FULL.key), Some(FULL));
  }
}
