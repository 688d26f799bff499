/** The order inside a PATCH: what is deleted is gone, comments and all, before anything is written. */
module PatchOrder {
  import opened Text
  import opened Sorting
  import opened PowerDns

  ghost predicate DeletesFirst(patch: seq<Change>) {
    forall i, j :: 0 <= i < j < |patch| && patch[j].Delete? ==> patch[i].Delete?
  }

  /** At most one RRset is written at each name. */
  ghost predicate SingleWrites(patch: seq<Change>) {
    forall c, d :: c in patch && d in patch && c.Replace? && d.Replace? && c.key.name == d.key.name ==> c.key == d.key
  }

  lemma ChangeOrdering()
    ensures Ordering(ChangeLeq)
  {
    forall a: Change, b: Change ensures ChangeLeq(a, b) || ChangeLeq(b, a) {
      LeqTotal(a.key.rtype, b.key.rtype);
      LeqTotal(a.key.name, b.key.name);
    }
    forall a: Change, b: Change, c: Change | ChangeLeq(a, b) && ChangeLeq(b, c) ensures ChangeLeq(a, c) {
      if a.Delete? == c.Delete? {
        ChangeLeqSide(a, b, c);
      }
    }
  }

  lemma ChangeLeqSide(a: Change, b: Change, c: Change)
    requires ChangeLeq(a, b) && ChangeLeq(b, c) && a.Delete? == c.Delete?
    ensures ChangeLeq(a, c)
  {
    if a.key.rtype == b.key.rtype == c.key.rtype {
      LeqTransitive(a.key.name, b.key.name, c.key.name);
    } else if a.key.rtype != b.key.rtype && b.key.rtype != c.key.rtype {
      LeqTransitive(a.key.rtype, b.key.rtype, c.key.rtype);
      if a.key.rtype == c.key.rtype {
        LeqAntisymmetric(a.key.rtype, b.key.rtype);
      }
    }
  }

  lemma SortedDeletesFirst(batch: seq<Change>)
    ensures DeletesFirst(Sort(ChangeLeq, batch))
  {
    ChangeOrdering();
    SortSorted(ChangeLeq, batch);
  }

  lemma SortKeepsKeys(batch: seq<Change>)
    requires DistinctKeys(batch)
    ensures DistinctKeys(Sort(ChangeLeq, batch))
    ensures forall c :: c in Sort(ChangeLeq, batch) <==> c in batch
  {
    DistinctPermutation(batch, Sort(ChangeLeq, batch), (c: Change) => c.key);
  }

  // ----- refusals -----------------------------------------------------------

  /** The name holds an excluded type that the batch does not delete. */
  predicate Blocked(z: Zone, batch: seq<Change>, k: Key) {
    exists q | q in z ::
      q.name == k.name && Excludes(q.rtype, k.rtype) && z[q].data.Some? && Find(batch, q) != Some(Delete(q))
  }

  predicate Writes(batch: seq<Change>, k: Key) {
    Find(batch, k).Some? && Find(batch, k).value.Replace?
  }

  lemma RefusedClearing(z: Zone, a: seq<Change>, c: Change)
    requires !c.Clear?
    ensures Refused(z, a + Clearing(c)) == Refused(z, a) + if Conflict(Effects(z, a), c) then {c.key} else {}
  {
    RefusedSnoc(z, a, c);
    if c.Delete? {
      RefusedSnoc(z, a + [c], Clear(c.key));
      assert a + [c, Clear(c.key)] == a + [c] + [Clear(c.key)];
    }
  }

  lemma RefusedSnoc(z: Zone, a: seq<Change>, c: Change)
    ensures Refused(z, a + [c]) == Refused(z, a) + if Conflict(Effects(z, a), c) then {c.key} else {}
  {
    assert (a + [c])[..|a|] == a;
  }

  lemma ConflictMeans(z: Zone, before: seq<Change>, c: Change)
    requires DistinctKeys(before + [c]) && NoClears(before) && c.Replace? && SingleWrites(before + [c])
    ensures Conflict(Effects(z, WithClears(before)), c) <==> Blocked(z, before, c.key)
  {
    var e := Effects(z, WithClears(before));
    LastNotFoundBefore(before, c);
    forall q ensures At(e, q) == Meant(At(z, q), Find(before, q)) { EffectsMean(z, before, q); }
    forall q: Key | q.name == c.key.name && Excludes(q.rtype, c.key.rtype)
      ensures At(e, q).data.Some? <==> At(z, q).data.Some? && Find(before, q) != Some(Delete(q))
    {
      FindMember(before, q);
      if Find(before, q).Some? {
        assert Find(before, q).value in before + [c] && c in before + [c];
      }
    }
    if Conflict(e, c) {
      var q :| q in e && q.name == c.key.name && Excludes(q.rtype, c.key.rtype) && e[q].data.Some?;
      assert At(e, q).data.Some?;
    }
    if Blocked(z, before, c.key) {
      var q :| q in z && q.name == c.key.name && Excludes(q.rtype, c.key.rtype) && z[q].data.Some? && Find(before, q) != Some(Delete(q));
      assert At(e, q).data.Some?;
    }
  }

  lemma LastNotFoundBefore(before: seq<Change>, c: Change)
    requires DistinctKeys(before + [c])
    ensures Find(before, c.key).None? && DistinctKeys(before)
  {
    FindMember(before, c.key);
    assert forall i :: 0 <= i < |before| ==> (before + [c])[i] == before[i] && before[i].key != (before + [c])[|before|].key;
  }

  lemma BlockedBefore(z: Zone, before: seq<Change>, c: Change, k: Key)
    requires c.Replace? && Find(before, c.key).None?
    ensures Blocked(z, before + [c], k) <==> Blocked(z, before, k)
  {
    assert (before + [c])[..|before|] == before;
    forall q ensures Find(before + [c], q) == if q == c.key then Some(c) else Find(before, q) {}
    if Blocked(z, before + [c], k) {
      var q :| q in z && q.name == k.name && Excludes(q.rtype, k.rtype) && z[q].data.Some? && Find(before + [c], q) != Some(Delete(q));
    }
  }

  /** In a patch of deletes alone nothing is refused. */
  lemma {:induction false} DeletesNeverRefused(z: Zone, patch: seq<Change>)
    requires forall i :: 0 <= i < |patch| ==> patch[i].Delete?
    ensures Refused(z, WithClears(patch)) == {}
  {
    if patch != [] {
      WithClearsLast(patch);
      DeletesNeverRefused(z, patch[..|patch| - 1]);
      RefusedClearing(z, WithClears(patch[..|patch| - 1]), patch[|patch| - 1]);
    }
  }

  lemma RefusedLast(z: Zone, before: seq<Change>, c: Change, k: Key)
    requires DistinctKeys(before + [c]) && NoClears(before) && c.Replace? && SingleWrites(before + [c])
    requires k in Refused(z, WithClears(before)) <==> Writes(before, k) && Blocked(z, before, k)
    ensures k in Refused(z, WithClears(before + [c])) <==> Writes(before + [c], k) && Blocked(z, before + [c], k)
  {
    RefusedWithLast(z, before, c);
    ConflictMeans(z, before, c);
    LastNotFoundBefore(before, c);
    BlockedBefore(z, before, c, k);
    FindLast(before, c, k);
  }

  lemma RefusedWithLast(z: Zone, before: seq<Change>, c: Change)
    requires !c.Clear?
    ensures Refused(z, WithClears(before + [c]))
            == Refused(z, WithClears(before)) + if Conflict(Effects(z, WithClears(before)), c) then {c.key} else {}
  {
    assert (before + [c])[..|before|] == before;
    WithClearsLast(before + [c]);
    RefusedClearing(z, WithClears(before), c);
  }

  lemma FindLast(before: seq<Change>, c: Change, k: Key)
    ensures Find(before + [c], k) == if k == c.key then Some(c) else Find(before, k)
  {
    assert (before + [c])[..|before|] == before;
  }

  /**
   * With the deletes first, a write is refused exactly when its name holds an
   * excluded type that the patch does not remove.
   */
  lemma {:induction false} RefusedMeans(z: Zone, patch: seq<Change>, k: Key)
    requires DistinctKeys(patch) && NoClears(patch) && DeletesFirst(patch) && SingleWrites(patch)
    ensures k in Refused(z, WithClears(patch)) <==> Writes(patch, k) && Blocked(z, patch, k)
  {
    if patch != [] {
      var before, c := patch[..|patch| - 1], patch[|patch| - 1];
      assert patch == before + [c];
      if c.Delete? {
        DeletesNeverRefused(z, patch);
        FindMember(patch, k);
      } else {
        assert forall x :: x in before ==> x in patch;
        RefusedMeans(z, before, k);
        RefusedLast(z, before, c, k);
      }
    }
  }

  // ----- the whole patch ----------------------------------------------------

  /** A batch as EnsureRecordSet builds it: one change per RRset, one write per name. */
  ghost predicate Batch(batch: seq<Change>) {
    DistinctKeys(batch) && NoClears(batch) && SingleWrites(batch)
  }

  /** What callers send is never refused by the client itself for replacing and deleting one RRset. */
  lemma BatchBuildable(batch: seq<Change>)
    requires Batch(batch)
    ensures Buildable(batch)
  {
    forall c, d | c in batch && d in batch && c.Delete? && !d.Delete? ensures c.key != d.key {
      var i, j :| 0 <= i < |batch| && 0 <= j < |batch| && batch[i] == c && batch[j] == d;
    }
  }

  lemma SentBatch(batch: seq<Change>)
    requires Batch(batch)
    ensures Batch(Sort(ChangeLeq, batch)) && DeletesFirst(Sort(ChangeLeq, batch))
    ensures forall k :: Find(Sort(ChangeLeq, batch), k) == Find(batch, k)
  {
    SortKeepsKeys(batch);
    SortedDeletesFirst(batch);
    var s := Sort(ChangeLeq, batch);
    forall i | 0 <= i < |s| ensures !s[i].Clear? { assert s[i] in batch; }
    forall k ensures Find(s, k) == Find(batch, k) { FindAnyOrder(s, batch, k); }
  }

  lemma BlockedFinds(z: Zone, a: seq<Change>, b: seq<Change>, k: Key)
    requires forall q :: Find(a, q) == Find(b, q)
    ensures Blocked(z, a, k) <==> Blocked(z, b, k)
  {
    if Blocked(z, a, k) {
      var q :| q in z && q.name == k.name && Excludes(q.rtype, k.rtype) && z[q].data.Some? && Find(a, q) != Some(Delete(q));
      assert Find(b, q) == Find(a, q);
    }
    if Blocked(z, b, k) {
      var q :| q in z && q.name == k.name && Excludes(q.rtype, k.rtype) && z[q].data.Some? && Find(b, q) != Some(Delete(q));
      assert Find(a, q) == Find(b, q);
    }
  }

  /**
   * The order the client sends preserves meaning: applied step by step, the
   * patch leaves each RRset exactly as its own change says, removes records and
   * comments of whatever it deletes, and refuses only a write whose name keeps
   * an excluded type.
   */
  lemma SentMeans(z: Zone, batch: seq<Change>, k: Key)
    requires Batch(batch)
    ensures At(Effects(z, Sent(batch)), k) == Meant(At(z, k), Find(batch, k))
    ensures k in Refused(z, Sent(batch)) <==> Writes(batch, k) && Blocked(z, batch, k)
    ensures Normal(z) ==> Normal(Effects(z, Sent(batch)))
  {
    SentBatch(batch);
    EffectsMean(z, Sort(ChangeLeq, batch), k);
    RefusedMeans(z, Sort(ChangeLeq, batch), k);
    BlockedFinds(z, Sort(ChangeLeq, batch), batch, k);
  }

  /** A clear stands right behind its delete, and every delete stands before every write. */
  ghost predicate InOrder(patch: seq<Change>) {
    && (forall i :: 0 <= i < |patch| && patch[i].Delete? ==> i + 1 < |patch| && patch[i + 1] == Clear(patch[i].key))
    && (forall i, j :: 0 <= i < j < |patch| && patch[j].Delete? ==> !patch[i].Replace?)
  }

  lemma {:induction false} ClearsInOrder(patch: seq<Change>)
    requires NoClears(patch) && DeletesFirst(patch)
    ensures InOrder(WithClears(patch))
    ensures (forall i :: 0 <= i < |patch| ==> patch[i].Delete?) ==> forall c :: c in WithClears(patch) ==> !c.Replace?
  {
    if patch != [] {
      ClearsInOrder(patch[..|patch| - 1]);
      WithClearsLast(patch);
    }
  }

  lemma SentInOrder(batch: seq<Change>)
    requires Batch(batch)
    ensures InOrder(Sent(batch))
  {
    SentBatch(batch);
    ClearsInOrder(Sort(ChangeLeq, batch));
  }
}
